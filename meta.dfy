/**
 * The metadata normaliser: `formatMeta` turns one raw photo record of the
 * photo site's feed into the canonical picture record, and
 * `photos.map(formatMeta)` does so for a whole batch.
 */
module Meta {
  import opened Wrappers
  import opened Js
  import opened Text

  /** The substring that marks the 2048-pixel variant among a photo's URLs. */
  const ResolutionMarker: string := "3D2048"
  /** The fixed display width of every record. */
  const DisplayWidth: int := 2048
  /** The default of every text field whose raw value is falsy. */
  const Unknown: JsValue := Str("unknown")

  /** A raw photo as the site delivers it, with the fields `formatMeta` reads. */
  datatype RawPhoto = RawPhoto(
    id: nat,
    name: JsValue,
    description: JsValue,
    camera: JsValue,
    focalLength: JsValue,
    aperture: JsValue,
    iso: JsValue,
    shutterSpeed: JsValue,
    imageUrl: seq<string>,
    height: real,
    width: real)

  /** The `taken_with` part of a picture record. */
  datatype TakenWith = TakenWith(
    camera: JsValue,
    focalLength: JsValue,
    aperture: JsValue,
    iso: JsValue,
    shutterSpeed: JsValue)

  /** The canonical picture record; `src` is `None` where the source leaves it `undefined`. */
  datatype Picture = Picture(
    id: nat,
    title: JsValue,
    desc: JsValue,
    takenWith: TakenWith,
    src: Option<string>,
    w: int,
    h: Number)

  /** `urls[i]` is the first element of `urls` that contains `marker`. */
  ghost predicate FirstMatchAt(urls: seq<string>, marker: string, i: int)
  {
    0 <= i < |urls| && Includes(urls[i], marker) &&
    forall j | 0 <= j < i :: !Includes(urls[j], marker)
  }

  /** `urls.find(u => u.includes(marker))`: the first element containing `marker`, or `undefined`. */
  function Find(urls: seq<string>, marker: string): (r: Option<string>)
    ensures r.None? <==> forall i | 0 <= i < |urls| :: !Includes(urls[i], marker)
    ensures r.Some? ==> exists i :: FirstMatchAt(urls, marker, i) && urls[i] == r.value
  {
    if urls == [] then None
    else if Includes(urls[0], marker) then
      assert FirstMatchAt(urls, marker, 0);
      Some(urls[0])
    else
      var r := Find(urls[1..], marker);
      assert forall i | FirstMatchAt(urls[1..], marker, i) :: FirstMatchAt(urls, marker, i + 1);
      r
  }

  /** Whichever element comes first among those containing the marker is the one `Find` returns. */
  lemma FindFirstMatch(urls: seq<string>, marker: string, i: int)
    requires FirstMatchAt(urls, marker, i)
    ensures Find(urls, marker) == Some(urls[i])
  {
    // Follows from the contract of Find: the first match is unique.
  }

  /** `formatMeta(img)`. */
  function FormatMeta(img: RawPhoto): (p: Picture)
    ensures p.id == img.id
    ensures p.title == (if Truthy(img.name) then img.name else Unknown)
    ensures p.desc == (if Truthy(img.description) then img.description else Unknown)
    ensures p.takenWith.camera == (if Truthy(img.camera) then img.camera else Unknown)
    ensures p.takenWith.focalLength == (if Truthy(img.focalLength) then img.focalLength else Unknown)
    ensures p.takenWith.aperture == (if Truthy(img.aperture) then img.aperture else Unknown)
    ensures p.takenWith.iso == (if Truthy(img.iso) then img.iso else Unknown)
    ensures p.takenWith.shutterSpeed == (if Truthy(img.shutterSpeed) then img.shutterSpeed else Unknown)
    ensures p.src.None? <==> forall i | 0 <= i < |img.imageUrl| :: !Includes(img.imageUrl[i], ResolutionMarker)
    ensures p.src.Some? ==> exists i :: FirstMatchAt(img.imageUrl, ResolutionMarker, i) && img.imageUrl[i] == p.src.value
    ensures p.w == DisplayWidth
    ensures p.h.Finite? <==> img.width != 0.0
  {
    var src := Find(img.imageUrl, ResolutionMarker);
    var h := Divide(img.height * 2048.0, img.width);
    Picture(
      img.id,
      Or(img.name, Unknown),
      Or(img.description, Unknown),
      TakenWith(
        Or(img.camera, Unknown),
        Or(img.focalLength, Unknown),
        Or(img.aperture, Unknown),
        Or(img.iso, Unknown),
        Or(img.shutterSpeed, Unknown)),
      src,
      DisplayWidth,
      h)
  }

  /** No text field of a normalised record is ever falsy: a missing value becomes "unknown", never null or empty. */
  lemma NormalizedTextIsTruthy(img: RawPhoto)
    ensures var p := FormatMeta(img);
      Truthy(p.title) && Truthy(p.desc) &&
      Truthy(p.takenWith.camera) && Truthy(p.takenWith.focalLength) &&
      Truthy(p.takenWith.aperture) && Truthy(p.takenWith.iso) &&
      Truthy(p.takenWith.shutterSpeed)
  {
  }

  /** The display size keeps the native aspect ratio: h / w == height / width. */
  lemma AspectRatioKept(img: RawPhoto)
    requires img.width != 0.0
    ensures var p := FormatMeta(img);
      p.h.Finite? && p.h.value * img.width == img.height * p.w as real
  {
  }

  /** A 4096 x 2048 photo is shown at 2048 x 1024; a square one at 2048 x 2048. */
  lemma DisplayHeightExamples(img: RawPhoto)
    ensures img.width == 4096.0 && img.height == 2048.0 ==> FormatMeta(img).h == Finite(1024.0)
    ensures img.width == img.height && img.width != 0.0 ==> FormatMeta(img).h == Finite(2048.0)
  {
    if img.width == img.height && img.width != 0.0 {
      assert img.height * 2048.0 / img.width == 2048.0;
    }
  }

  /** A falsy ISO of 0 (or NaN) is reported as "unknown", like a missing one. */
  lemma ZeroIsoIsUnknown(img: RawPhoto)
    requires img.iso == Num(Finite(0.0)) || img.iso == Num(NaN) || img.iso == Undefined
    ensures FormatMeta(img).takenWith.iso == Unknown
  {
  }

  /** `photos.map(formatMeta)`. */
  function FormatAll(photos: seq<RawPhoto>): (r: seq<Picture>)
    ensures |r| == |photos|
    ensures forall i | 0 <= i < |photos| :: r[i] == FormatMeta(photos[i])
  {
    if photos == [] then [] else [FormatMeta(photos[0])] + FormatAll(photos[1..])
  }

  /** Mapping a concatenation is concatenating the mapped parts. */
  lemma {:induction false} FormatAllConcat(a: seq<RawPhoto>, b: seq<RawPhoto>)
    ensures FormatAll(a + b) == FormatAll(a) + FormatAll(b)
  {
    if a == [] {
      assert a + b == b;
    } else {
      assert (a + b)[1..] == a[1..] + b;
      FormatAllConcat(a[1..], b);
    }
  }
}
