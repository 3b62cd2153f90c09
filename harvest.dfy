/**
 * Accumulation of the `pictures` array: seeded with the normalised bootstrap
 * photos embedded in the page, then appended with the normalised photos of
 * every accepted API response, in the order the responses' bodies are
 * handled and, within one response, in payload order.
 */
module Harvest {
  import opened Text
  import opened Meta

  /** Only responses from this host are consumed. */
  const ApiHost: string := "api.500px.com"

  /** One intercepted network response: its URL, its HTTP status and the `photos` of its JSON body. */
  datatype Response = Response(url: string, status: int, photos: seq<RawPhoto>)

  /** The response filter: the URL contains the API host and the status is exactly 200. */
  predicate Accepted(url: string, status: int): (b: bool)
    ensures b <==> (exists i :: OccursAt(url, ApiHost, i)) && status == 200
  {
    Includes(url, ApiHost) && status == 200
  }

  /** The photos a response contributes: all of them if it is accepted, none otherwise. */
  function Contribution(r: Response): seq<RawPhoto>
  {
    if Accepted(r.url, r.status) then r.photos else []
  }

  /** The records a response contributes. */
  function Batch(r: Response): seq<Picture>
  {
    FormatAll(Contribution(r))
  }

  /** The collection that `pictures` becomes when `responses` are handled in order, starting from `pictures`. */
  function HandleAll(pictures: seq<Picture>, responses: seq<Response>): seq<Picture>
    decreases |responses|
  {
    if responses == [] then pictures else HandleAll(pictures + Batch(responses[0]), responses[1..])
  }

  /** The collection after seeding with `bootstrap` and handling `responses` in order. */
  function Harvested(bootstrap: seq<RawPhoto>, responses: seq<Response>): seq<Picture>
  {
    HandleAll(FormatAll(bootstrap), responses)
  }

  /** The photos of the accepted responses, concatenated in response order. */
  function AcceptedPhotos(responses: seq<Response>): seq<RawPhoto>
  {
    if responses == [] then [] else Contribution(responses[0]) + AcceptedPhotos(responses[1..])
  }

  /** Handling responses after photos `seen` were normalised is normalising `seen` followed by every accepted photo. */
  lemma {:induction false} HandleAllIsDiscoveryOrder(seen: seq<RawPhoto>, responses: seq<Response>)
    ensures HandleAll(FormatAll(seen), responses) == FormatAll(seen + AcceptedPhotos(responses))
    decreases |responses|
  {
    if responses == [] {
      assert seen + [] == seen;
    } else {
      var c, rest := Contribution(responses[0]), AcceptedPhotos(responses[1..]);
      calc {
        HandleAll(FormatAll(seen), responses);
        HandleAll(FormatAll(seen) + FormatAll(c), responses[1..]);
        { FormatAllConcat(seen, c); }
        HandleAll(FormatAll(seen + c), responses[1..]);
        { HandleAllIsDiscoveryOrder(seen + c, responses[1..]); }
        FormatAll(seen + c + rest);
        { assert seen + c + rest == seen + (c + rest); }
        FormatAll(seen + AcceptedPhotos(responses));
      }
    }
  }

  /** The whole harvest is `formatMeta` mapped over the bootstrap photos followed by every accepted photo in discovery order. */
  lemma HarvestedIsDiscoveryOrder(bootstrap: seq<RawPhoto>, responses: seq<Response>)
    ensures Harvested(bootstrap, responses) == FormatAll(bootstrap + AcceptedPhotos(responses))
  {
    HandleAllIsDiscoveryOrder(bootstrap, responses);
  }

  /** Nothing is deduplicated or dropped: one record per bootstrap photo and per photo of an accepted response. */
  lemma HarvestSize(bootstrap: seq<RawPhoto>, responses: seq<Response>)
    ensures |Harvested(bootstrap, responses)| == |bootstrap| + |AcceptedPhotos(responses)|
  {
    HarvestedIsDiscoveryOrder(bootstrap, responses);
  }

  /** Handling responses only appends: what was collected before stays, unchanged, as a prefix. */
  lemma {:induction false} HandleAllIsAppendOnly(pictures: seq<Picture>, responses: seq<Response>)
    ensures pictures <= HandleAll(pictures, responses)
    decreases |responses|
  {
    if responses != [] {
      HandleAllIsAppendOnly(pictures + Batch(responses[0]), responses[1..]);
    }
  }

  /** Handling a sequence of responses is handling its first part, then its second. */
  lemma {:induction false} HandleAllSplit(pictures: seq<Picture>, responses: seq<Response>, more: seq<Response>)
    ensures HandleAll(pictures, responses + more) == HandleAll(HandleAll(pictures, responses), more)
    decreases |responses|
  {
    if responses == [] {
      assert responses + more == more;
    } else {
      assert (responses + more)[1..] == responses[1..] + more;
      HandleAllSplit(pictures + Batch(responses[0]), responses[1..], more);
    }
  }

  /** Later responses only append: the collection after some responses is a prefix of the collection after more. */
  lemma HarvestIsAppendOnly(bootstrap: seq<RawPhoto>, responses: seq<Response>, more: seq<Response>)
    ensures Harvested(bootstrap, responses) <= Harvested(bootstrap, responses + more)
  {
    HandleAllSplit(FormatAll(bootstrap), responses, more);
    HandleAllIsAppendOnly(Harvested(bootstrap, responses), more);
  }

  /** The seeded records stay at the front, unchanged, whatever responses follow. */
  lemma BootstrapStaysFirst(bootstrap: seq<RawPhoto>, responses: seq<Response>)
    ensures FormatAll(bootstrap) <= Harvested(bootstrap, responses)
  {
    HandleAllIsAppendOnly(FormatAll(bootstrap), responses);
  }

  /** A rejected response contributes nothing. */
  lemma RejectedResponseIgnored(bootstrap: seq<RawPhoto>, responses: seq<Response>, r: Response)
    requires !Accepted(r.url, r.status)
    ensures Harvested(bootstrap, responses + [r]) == Harvested(bootstrap, responses)
  {
    HandleAllSplit(FormatAll(bootstrap), responses, [r]);
    assert Harvested(bootstrap, responses) + Batch(r) == Harvested(bootstrap, responses);
  }

  /** Normalising one more photo of a batch appends its record. */
  lemma FormatAllExtend(photos: seq<RawPhoto>, i: int)
    requires 0 <= i < |photos|
    ensures FormatAll(photos[..i + 1]) == FormatAll(photos[..i]) + [FormatMeta(photos[i])]
  {
    assert photos[..i + 1] == photos[..i] + [photos[i]];
    FormatAllConcat(photos[..i], [photos[i]]);
  }

  /** Handling the responses from index i on is handling response i, then those after it. */
  lemma HandleOne(pictures: seq<Picture>, responses: seq<Response>, i: int)
    requires 0 <= i < |responses|
    ensures HandleAll(pictures, responses[i..]) == HandleAll(pictures + Batch(responses[i]), responses[i + 1..])
  {
    assert responses[i..][1..] == responses[i + 1..];
  }

  /** Bootstrap [a] and one accepted response [b, c] give exactly [a, b, c], normalised. */
  lemma ExampleOneResponse(a: RawPhoto, b: RawPhoto, c: RawPhoto, url: string)
    requires Includes(url, ApiHost)
    ensures var h := Harvested([a], [Response(url, 200, [b, c])]);
      |h| == 3 && h[0] == FormatMeta(a) && h[1] == FormatMeta(b) && h[2] == FormatMeta(c)
  {
    var r := Response(url, 200, [b, c]);
    assert Contribution(r) == [b, c];
    assert [r][1..] == [];
    assert Harvested([a], [r]) == HandleAll(FormatAll([a]) + Batch(r), []);
  }

  /** The `pictures` array of the scraper. */
  class Pictures {
    var pictures: seq<Picture>

    /** `const pictures = bootstrap.map(img => formatMeta(img))`. */
    constructor Seed(bootstrap: seq<RawPhoto>)
      ensures pictures == Harvested(bootstrap, [])
      ensures |pictures| == |bootstrap|
      ensures forall i | 0 <= i < |bootstrap| :: pictures[i] == FormatMeta(bootstrap[i])
    {
      pictures := FormatAll(bootstrap);
    }

    /** `data.photos.forEach(img => pictures.push(formatMeta(img)))`. */
    method PushAll(photos: seq<RawPhoto>)
      modifies this
      ensures pictures == old(pictures) + FormatAll(photos)
    {
      var i := 0;
      while i < |photos|
        invariant 0 <= i <= |photos|
        invariant pictures == old(pictures) + FormatAll(photos[..i])
      {
        FormatAllExtend(photos, i);
        pictures := pictures + [FormatMeta(photos[i])];
        i := i + 1;
      }
      assert photos[..i] == photos;
    }

    /** The `response` handler: an accepted response has all the photos of its body pushed, in order; any other is ignored. */
    method OnResponse(url: string, status: int, photos: seq<RawPhoto>)
      modifies this
      ensures Accepted(url, status) ==> pictures == old(pictures) + FormatAll(photos)
      ensures !Accepted(url, status) ==> pictures == old(pictures)
    {
      if Accepted(url, status) {
        PushAll(photos);
      }
    }
  }

  /**
   * The harvest as a whole: seed from the bootstrap photos, then hand every
   * response, in the order their bodies resolve, to the handler.
   */
  method Run(bootstrap: seq<RawPhoto>, responses: seq<Response>) returns (result: seq<Picture>)
    ensures result == Harvested(bootstrap, responses)
    ensures result == FormatAll(bootstrap + AcceptedPhotos(responses))
  {
    var collection := new Pictures.Seed(bootstrap);
    var i := 0;
    while i < |responses|
      invariant 0 <= i <= |responses|
      invariant HandleAll(collection.pictures, responses[i..]) == Harvested(bootstrap, responses)
    {
      var r := responses[i];
      ghost var before := collection.pictures;
      HandleOne(before, responses, i);
      collection.OnResponse(r.url, r.status, r.photos);
      assert collection.pictures == before + Batch(r);
      i := i + 1;
    }
    result := collection.pictures;
    HarvestedIsDiscoveryOrder(bootstrap, responses);
  }
}
