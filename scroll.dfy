/**
 * The infinite-scroll driver `autoScroll`: every timer tick it reads the
 * page's scroll height, scrolls down by a fixed distance, adds that distance
 * to a running total, and stops at the first tick where the total has
 * reached the height it read. The timer and the page become inputs: either a
 * fixed height, or the heights read at successive ticks of a page that keeps
 * loading content.
 */
module Scroll {
  import opened Wrappers

  /** Pixels scrolled per tick. */
  const Distance: int := 100

  /** The number of ticks after which a page of fixed height `scrollHeight` is left: the least k >= 1 with Distance * k >= scrollHeight. */
  function TicksToBottom(scrollHeight: int): (k: nat)
    ensures k >= 1 && Distance * k >= scrollHeight
    ensures k == 1 || Distance * (k - 1) < scrollHeight
  {
    if scrollHeight <= Distance then 1 else (scrollHeight + Distance - 1) / Distance
  }

  /** No earlier tick count reaches the bottom. */
  lemma TicksToBottomIsLeast(scrollHeight: int, k: int)
    requires 1 <= k && Distance * k >= scrollHeight
    ensures TicksToBottom(scrollHeight) <= k
  {
  }

  /** A page 500 high is left after exactly 5 ticks; any page at most 100 high after one. */
  lemma TicksToBottomExamples(scrollHeight: int)
    ensures TicksToBottom(500) == 5
    ensures scrollHeight <= Distance ==> TicksToBottom(scrollHeight) == 1
  {
  }

  /**
   * The timer loop of `autoScroll` against a page whose height stays
   * `scrollHeight`. Returns the number of ticks run and the final
   * `totalHeight`.
   */
  method AutoScroll(scrollHeight: int) returns (ticks: nat, totalHeight: int)
    ensures totalHeight == Distance * ticks
    ensures ticks >= 1 && totalHeight >= scrollHeight
    ensures ticks == 1 || Distance * (ticks - 1) < scrollHeight
    ensures ticks == TicksToBottom(scrollHeight)
  {
    ticks, totalHeight := 0, 0;
    while true
      invariant totalHeight == Distance * ticks
      invariant ticks == 0 || totalHeight < scrollHeight
      decreases scrollHeight - totalHeight
    {
      ticks := ticks + 1;
      totalHeight := totalHeight + Distance;
      if totalHeight >= scrollHeight {
        TicksToBottomIsLeast(scrollHeight, ticks);
        return;
      }
    }
  }

  /** At tick k (counted from 1) the total scrolled, Distance * k, has reached the height read at that tick. */
  predicate Reached(observed: seq<int>, k: int)
    requires 1 <= k <= |observed|
  {
    Distance * k >= observed[k - 1]
  }

  /**
   * The same loop against a page whose height is read anew at every tick:
   * `observed[k - 1]` is the height read at tick k. The result is the tick at
   * which the loop stops, or `None` if it has not stopped after all the
   * observed ticks (a page still growing faster than it is scrolled).
   */
  method AutoScrollObserved(observed: seq<int>) returns (stop: Option<nat>)
    ensures stop.Some? ==> 1 <= stop.value <= |observed| && Reached(observed, stop.value)
    ensures stop.Some? ==> forall k | 1 <= k < stop.value :: !Reached(observed, k)
    ensures stop.None? ==> forall k | 1 <= k <= |observed| :: !Reached(observed, k)
  {
    var totalHeight := 0;
    var tick := 0;
    while tick < |observed|
      invariant 0 <= tick <= |observed|
      invariant totalHeight == Distance * tick
      invariant forall k | 1 <= k <= tick :: !Reached(observed, k)
    {
      var scrollHeight := observed[tick];
      totalHeight := totalHeight + Distance;
      tick := tick + 1;
      if totalHeight >= scrollHeight {
        return Some(tick);
      }
    }
    return None;
  }

  /** Reading a constant height H at every tick, the loop stops exactly where the fixed-height model says, given enough ticks. */
  lemma ConstantHeightStopsAtTicksToBottom(observed: seq<int>, scrollHeight: int)
    requires |observed| >= TicksToBottom(scrollHeight)
    requires forall i | 0 <= i < |observed| :: observed[i] == scrollHeight
    ensures Reached(observed, TicksToBottom(scrollHeight))
    ensures forall k | 1 <= k < TicksToBottom(scrollHeight) :: !Reached(observed, k)
  {
  }
}
