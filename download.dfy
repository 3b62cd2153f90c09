/**
 * The download stage: every picture collected when scrolling ends is fetched
 * from its `src` into a file named after its id, `portfolio-<id>.jpg`.
 */
module Download {
  import opened Wrappers
  import opened Text
  import opened Meta
  import opened Harvest

  const Prefix: string := "portfolio-"
  const Extension: string := ".jpg"

  /** The template literal `portfolio-${id}.jpg`. */
  function FileName(id: nat): (f: string)
    ensures Prefix <= f
    ensures |f| == |Prefix| + |Decimal(id)| + |Extension|
    ensures f[|Prefix|..|f| - |Extension|] == Decimal(id)
    ensures f[|f| - |Extension|..] == Extension
  {
    Prefix + Decimal(id) + Extension
  }

  /** The id a download file name was made from. */
  function IdOfFileName(f: string): (id: Option<nat>)
  {
    if |f| > |Prefix| + |Extension| && Prefix <= f && f[|f| - |Extension|..] == Extension
    then Some(DecimalValue(f[|Prefix|..|f| - |Extension|]))
    else None
  }

  /** The id can be read back from its file name. */
  lemma FileNameRoundTrip(id: nat)
    ensures IdOfFileName(FileName(id)) == Some(id)
  {
    DecimalRoundTrip(id);
  }

  /** Pictures with distinct ids are downloaded to distinct files; equal ids collide on one file. */
  lemma FileNameInjective(a: nat, b: nat)
    ensures FileName(a) == FileName(b) <==> a == b
  {
    if FileName(a) == FileName(b) {
      FileNameRoundTrip(a);
      FileNameRoundTrip(b);
    }
  }

  /** One download: the URL it fetches (absent when the record has no `src`) and the file it writes. */
  datatype Job = Job(url: Option<string>, fileName: string)

  /** `pictures.map(picture => download(picture.src, 'download', { filename: ... }))`, without the fetching. */
  function Jobs(pictures: seq<Picture>): (jobs: seq<Job>)
    ensures |jobs| == |pictures|
    ensures forall i | 0 <= i < |pictures| :: jobs[i] == Job(pictures[i].src, FileName(pictures[i].id))
  {
    if pictures == [] then [] else [Job(pictures[0].src, FileName(pictures[0].id))] + Jobs(pictures[1..])
  }

  /** Two jobs write the same file exactly when their pictures share an id; nothing in the harvest removes such duplicates. */
  lemma JobsCollideOnlyOnSharedId(pictures: seq<Picture>, i: int, j: int)
    requires 0 <= i < |pictures| && 0 <= j < |pictures|
    ensures Jobs(pictures)[i].fileName == Jobs(pictures)[j].fileName <==> pictures[i].id == pictures[j].id
  {
    FileNameInjective(pictures[i].id, pictures[j].id);
  }

  /** The jobs of a prefix of the collection are a prefix of the jobs of the whole. */
  lemma JobsOfPrefix(pictures: seq<Picture>, more: seq<Picture>)
    ensures Jobs(pictures) <= Jobs(pictures + more)
  {
    var all := pictures + more;
    assert forall i | 0 <= i < |pictures| :: all[i] == pictures[i];
  }

  /**
   * The download list is built from the collection as it stands when scrolling
   * ends, after the first `m` responses; the `response` handler stays attached
   * until the browser closes, so later accepted responses are still pushed.
   * The records written to `pictures.json` are then the downloaded ones
   * followed by the photos of the later accepted responses, and only the
   * former get a download job.
   */
  lemma DownloadsArePrefix(bootstrap: seq<RawPhoto>, responses: seq<Response>, m: int)
    requires 0 <= m <= |responses|
    ensures Harvested(bootstrap, responses)
         == Harvested(bootstrap, responses[..m]) + FormatAll(AcceptedPhotos(responses[m..]))
    ensures Jobs(Harvested(bootstrap, responses[..m])) <= Jobs(Harvested(bootstrap, responses))
  {
    assert responses == responses[..m] + responses[m..];
    var seen := bootstrap + AcceptedPhotos(responses[..m]);
    HandleAllSplit(FormatAll(bootstrap), responses[..m], responses[m..]);
    HarvestedIsDiscoveryOrder(bootstrap, responses[..m]);
    HandleAllIsDiscoveryOrder(seen, responses[m..]);
    FormatAllConcat(seen, AcceptedPhotos(responses[m..]));
    JobsOfPrefix(Harvested(bootstrap, responses[..m]), FormatAll(AcceptedPhotos(responses[m..])));
  }
}
