# 500px portfolio scraper — a Dafny model of its deterministic core

The scraper (`index.js`) opens a user's 500px page in a headless browser,
reads the first batch of photos embedded in the page (the *bootstrap*
photos), listens to the page's API responses from then until the browser
closes, and normalises every photo into a picture record with `formatMeta`.
Once it has scrolled to the bottom it downloads each picture collected so far
to `portfolio-<id>.jpg`; after the downloads finish it writes the collection,
which by then may hold records of responses that arrived during the
downloads, to `pictures.json`.

This project models the parts of that script that are logic rather than I/O:

- **`formatMeta`** (module `Meta`, with JavaScript value semantics in `Js` and
  string helpers in `Text`): `id` copied; the title, description and the five
  camera attributes each fall back to `"unknown"` under JavaScript `||`
  semantics (so a falsy `iso` of `0` becomes `"unknown"` too); `src` is the
  first URL of `image_url` containing `3D2048`, or absent; `w` is 2048 and
  `h` is `height * 2048 / width`.
- **`autoScroll`** (module `Scroll`): the timer loop that adds 100 to
  `totalHeight` per tick and stops at the first tick where it reaches the
  page's `scrollHeight`, against a fixed height and against a sequence of
  heights read tick by tick.
- **the `pictures` array** (module `Harvest`): a class seeded with
  `bootstrap.map(formatMeta)` and appended to by the response handler, which
  accepts only responses whose URL contains `api.500px.com` and whose status
  is 200; and the coordinator that seeds it and feeds it the responses in
  order.
- **download file names** (module `Download`): `portfolio-<id>.jpg`, with the
  id recoverable from the name, so distinct ids never share a file; the
  download list is a prefix of the records finally written.

Numbers are modelled as exact reals together with `Infinity`, `-Infinity` and
`NaN` (`Js.Number`), so a zero width is not excluded by a precondition: it
yields a non-finite `h`, as in JavaScript.

A photo with no `3D2048` URL gets an `undefined` `src`, and a zero width gives
a non-finite `h`. The code reports neither as an error, and neither does the
model.

## Model

| member | source | states |
|---|---|---|
| `Js.Or` | index.js:42-49 | JavaScript logical or yields the left operand when it is truthy and the right operand when the left is falsy, so it is truthy whenever the fallback is |
| `Js.Divide` | index.js:53 | a nonzero divisor gives the exact quotient (q * b == a); a zero divisor gives a non-finite result, NaN exactly for 0 / 0 |
| `Text.Includes` | index.js:51 | `s.includes(sub)` holds exactly when some index of `s` starts an occurrence of `sub` |
| `Text.Decimal` | index.js:118 | `${id}` renders a non-negative integer as a non-empty string of decimal digits with no leading zero (only 0 itself starts with '0') |
| `Text.DecimalRoundTrip` | index.js:118 | the decimal rendering of an id reads back as that id |
| `Text.DecimalInjective` | index.js:118 | distinct ids render as distinct digit strings |
| `Meta.Find` | index.js:51 | `find` yields undefined exactly when no URL contains the marker, and otherwise a URL that contains it with no earlier URL containing it |
| `Meta.FindFirstMatch` | index.js:51 | whenever the i-th URL is the first to contain the marker, `find` returns it; later matches are ignored |
| `Meta.FormatMeta` | index.js:40-54 | id copied; each of title, desc, camera, focal_length, aperture, iso, shutter_speed is the raw value when truthy and "unknown" otherwise, independently; src absent iff no URL contains 3D2048, else the first such URL; w == 2048; h is finite exactly when the width is nonzero |
| `Meta.NormalizedTextIsTruthy` | index.js:42-49 | no text or camera field of a normalised record is ever falsy (never null, undefined or empty) |
| `Meta.AspectRatioKept` | index.js:52-53 | for a nonzero width the display size keeps the native aspect ratio: h * width == height * w |
| `Meta.DisplayHeightExamples` | index.js:53 | a 4096 x 2048 photo gets h == 1024; a square photo gets h == 2048 |
| `Meta.ZeroIsoIsUnknown` | index.js:48 | an iso of 0, NaN or undefined becomes "unknown" |
| `Meta.FormatAll` | index.js:71 | `photos.map(formatMeta)` has the same length and order, element i being formatMeta of photo i |
| `Meta.FormatAllConcat` | index.js:77-79 | normalising two batches one after the other equals normalising their concatenation |
| `Scroll.TicksToBottom` | index.js:19-29 | the tick count for a fixed height H is the least k >= 1 with 100 * k >= H |
| `Scroll.TicksToBottomIsLeast` | index.js:26 | no tick count k >= 1 with 100 * k >= H is smaller than the one the loop stops at |
| `Scroll.TicksToBottomExamples` | index.js:19-29 | H = 500 stops after exactly 5 ticks; any H <= 100 after 1 |
| `Scroll.AutoScroll` | index.js:19-30 | against a fixed height the loop terminates (variant H - totalHeight) after TicksToBottom(H) ticks, with totalHeight == 100 * ticks >= H and 100 * (ticks - 1) < H unless ticks == 1 |
| `Scroll.AutoScrollObserved` | index.js:21-29 | against heights read tick by tick, the loop stops at the first tick k with 100 * k >= the height read at tick k, or has not stopped when no observed tick reaches it |
| `Scroll.ConstantHeightStopsAtTicksToBottom` | index.js:19-29 | reading a constant height at every tick, the loop stops exactly at TicksToBottom(H) |
| `Harvest.HarvestedIsDiscoveryOrder` | index.js:70-79 | the final collection is formatMeta mapped over the bootstrap photos followed by the photos of every accepted response, in response order and payload order |
| `Harvest.HarvestSize` | index.js:70-79 | nothing is deduplicated or dropped: one record per bootstrap photo and per photo of an accepted response |
| `Harvest.HarvestIsAppendOnly` | index.js:74-79 | handling more responses only appends: the earlier collection is a prefix of the later one |
| `Harvest.BootstrapStaysFirst` | index.js:71 | the seeded records stay, unchanged and in order, at the front of the collection |
| `Harvest.Accepted` | index.js:75 | a response is consumed exactly when some position of its URL starts an occurrence of api.500px.com and its status is exactly 200 |
| `Harvest.RejectedResponseIgnored` | index.js:75 | a response whose URL lacks api.500px.com or whose status is not 200 leaves the collection unchanged |
| `Harvest.ExampleOneResponse` | index.js:70-79 | bootstrap [A] and one accepted response [B, C] give [A, B, C], normalised |
| `Harvest.Pictures.Seed` | index.js:71 | after seeding, pictures has the bootstrap's length and order, pictures[i] == formatMeta(bootstrap[i]) |
| `Harvest.Pictures.PushAll` | index.js:77-79 | pushing a batch appends formatMeta of each photo, in payload order, after the unchanged earlier records |
| `Harvest.Pictures.OnResponse` | index.js:74-81 | an accepted response appends exactly formatMeta of each photo in payload order after the unchanged prefix; any other response leaves pictures unchanged |
| `Harvest.Run` | index.js:69-85 | seeding and then handling the responses in order yields exactly the discovery-order collection |
| `Download.FileName` | index.js:118 | the file name is "portfolio-", then the decimal id, then ".jpg" |
| `Download.FileNameRoundTrip` | index.js:118 | the id is recovered from its file name |
| `Download.FileNameInjective` | index.js:118 | two file names are equal exactly when the ids are |
| `Download.Jobs` | index.js:116-120 | one download per picture, in order, fetching its src into FileName(id) |
| `Download.DownloadsArePrefix` | index.js:115-125 | the records written after the downloads are the records present when scrolling ended followed by the photos of the later accepted responses, and the downloads cover exactly the former: their jobs are a prefix of the jobs of everything written |
| `Download.JobsCollideOnlyOnSharedId` | index.js:116-119 | two downloads write the same file exactly when their pictures share an id |

## Left out

- Browser launch, navigation, `page.evaluate`, the `response` event subscription and the real timer (index.js:16-18, 30-32, 65-68, 74, 85): browser I/O; the page's heights and the responses are inputs.
- Asynchronous parsing of response bodies (index.js:76): concurrency; responses are handled in an explicit order, the order in which their bodies resolve.
- The download itself and `Promise.all` (index.js:116-121): network I/O and concurrency; only the URL and file name of each download are modelled.
- The commented-out upload (index.js:88-111): dead code calling a foreign API.
- The spinner, `config.json` loading, `JSON.stringify` and the file write (index.js:4-9, 64, 115, 124-130): I/O.
- Meta.FormatMeta: `h` is computed on exact reals, so IEEE-754 rounding, overflow to Infinity and the sign of a zero width are not modelled; heights and widths are numbers, never missing.
- Meta.FormatMeta: `image_url` is always an array of strings; the TypeError the source throws when it is missing is not modelled.
- Meta.FormatMeta: ids are non-negative integers, as the photo feed supplies them; other id values are not modelled.
- Download.FileName: renders ids in plain decimal; JavaScript switches to exponent notation from 10^21 on, which is not modelled.
- Download.Jobs: the download list is built from the collection when scrolling ends; records pushed by responses that resolve afterwards are written to `pictures.json` but never downloaded (stated by Download.DownloadsArePrefix), and which responses arrive late depends on timing, so the split point is a parameter.
- A response body without `photos`, and the unhandled rejection it causes (index.js:77): not modelled; every response carries a photo list.
