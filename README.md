# Pixels auto-drawer: a Dafny model

The auto-drawer keeps a region of a shared pixel canvas looking like a target
image, which can be a static picture or an animation whose frame depends on
the time. A pass works in five steps:

1. Load the target frame. For an animated target, the frame comes from the
   template directory's current frame.
2. Take a snapshot of the canvas.
3. List the canvas coordinates whose pixel differs from the target in every
   colour channel by at least the lenience of 30.
4. Walk that list. Before each write, re-read the canvas, and write only if
   the pixel still needs it. Pace the writes by the `/set_pixel` rate limit.
5. Give up on the rest of the list as soon as an animation rolls over to its
   next frame.

The HTTP client keeps one rate limiter per endpoint. Each limiter is created
on first use and updated from every response's headers. The client then
dispatches on the status:
- 429 pauses for the cooldown and retries;
- 200 succeeds;
- anything else goes to `raise_for_status()`.

The template manager turns the seconds since the canvas epoch into a frame
index and remembers the last index it reported, so it can tell whether the
frame changed. Templates are cached per absolute directory path.

Each Python file of the core becomes one or two modules:

| module | file | contents |
|---|---|---|
| `Images` | `images.dfy` | The canvas as an RGB flat-buffer lookup, built as `Image.frombytes` does; the target frame as a grid of RGBA pixels; `getpixel` on both. |
| `AutoDraw` | `autodraw.dfy` | `shouldChangePixel`, `rgbToHex` and its decoding, `calculateCooldownPeriod`, `getPixels`, and the diff scan. The scan is a method with its two loops, `GetCoordsToDraw` and `ScanColumn`, proved equal to the recursive specification `ScanCoords`. |
| `DrawLoop` | `draw_loop.dfy` | One pass of `draw`: the functional specification `Pass`/`Run`/`Step`/`Redraw` and the imperative methods proved equal to it. |
| `DrawProperties` | `draw_properties.dfy` | What a pass guarantees about its trace of events. |
| `PixelsClient` | `client.dfy` | The `RateLimitter` class, the `Client` class with its dictionary of limiters, and one attempt at each request. |
| `TemplateManager` | `template_manager.dfy` | The `Template` class, the frame clock, frame lookup by sorted file name, and the `templates` cache. |
| `PyParse` | `pyparse.dfy` | Python's `int()`, `float()` and `math.ceil` on header strings. |
| `StringOrder` | `string_order.dfy` | Python's `str` ordering, and `sorted()` as an insertion sort. |
| `Wrappers` | `wrappers.dfy` | `Option`, `Result` and the Python exceptions the core can raise. |

Everything the core gets from outside is a parameter:
- the responses the server sends;
- the k-th canvas snapshot, and the 429 pauses its `get_pixels` and `get_size` calls slept through;
- the elapsed seconds at the k-th frame query;
- what the k-th `set_pixel` call did: the 429 pauses it slept through, whether it returned or raised, and the `/set_pixel` limiter's fields afterwards;
- the directory listing and the manifest's fields;
- the decoding of a frame file.

A pass's observable effects (canvas reads and pixel writes, each with the
429 pauses its client calls slept through, frame checks, and pacing sleeps)
are recorded as a sequence of `Event`s. Python exceptions are `Err`
results: `ValueError`, `IndexError`, `ZeroDivisionError` and `HTTPError`.

## Model

| member | source | states |
|---|---|---|
| Images.FromBytes | pixels/autodraw.py:42 | `Image.frombytes('RGB', (width, height), data)` keeps the size and the bytes it was given; its only failure is ValueError |
| Images.FromBytesAccepts | pixels/autodraw.py:42 | frombytes succeeds exactly when the size is non-negative and the buffer holds at least 3·width·height bytes |
| Images.GetPixel | pixels/autodraw.py:59 | canvas `getpixel((x, y))` succeeds exactly inside the image, fails with IndexError outside it, and returns the three bytes at the pixel's row-major offset |
| Images.GetPixelRowMajor | pixels/autodraw.py:59 | that offset is 3·(y·width + x), and the three bytes there lie inside the buffer |
| Images.GetFramePixel | pixels/autodraw.py:60 | target `getpixel((x, y))` is `rows[y][x]` inside the frame and IndexError outside it |
| AutoDraw.ShouldChangePixel | pixels/autodraw.py:46-51 | a pixel is redrawn exactly when the smallest of its three channel distances is at least RGB_LENIENCE (30) |
| AutoDraw.LenienceIsInclusive | pixels/autodraw.py:47-50 | a distance of exactly 30 in every channel counts as a change |
| AutoDraw.OneCloseChannelSkips | pixels/autodraw.py:47-51 | one channel closer than 30 is enough to leave the pixel alone |
| AutoDraw.AlphaIgnored | pixels/autodraw.py:46-51 | changing the target's alpha never changes the decision |
| AutoDraw.MatchingPixelUnchanged | pixels/autodraw.py:46-51 | a canvas pixel that already has the target's colour is never redrawn |
| AutoDraw.FixedHex | pixels/autodraw.py:23 | the zero-padded `count`-digit hexadecimal form of a number has exactly `count` lowercase hex digits |
| AutoDraw.ByteHexDigits | pixels/autodraw.py:23 | '%02x' of a byte is its high nibble's digit followed by its low nibble's digit |
| AutoDraw.RgbToHex | pixels/autodraw.py:22-23 | rgbToHex gives exactly six lowercase hex digits |
| AutoDraw.RgbHexRoundTrip | pixels/autodraw.py:22-23 | decoding the six digits two per channel, in r, g, b order, gives back the colour |
| AutoDraw.HexRgbRoundTrip | pixels/autodraw.py:22-23 | every six-digit lowercase hex string is the rgbToHex of the colour it decodes to, so the encoding is a bijection |
| AutoDraw.ByteHexRoundTrip | pixels/autodraw.py:23 | the two digits of a byte, read back as 16·hi + lo, are the byte |
| AutoDraw.HexPairRoundTrip | pixels/autodraw.py:23 | two hex digits are the '%02x' of the byte they denote |
| AutoDraw.Pace | pixels/autodraw.py:30 | the delay times the remaining requests is the window |
| AutoDraw.ResetGuard | pixels/autodraw.py:29 | `math.ceil(float(requests_reset != 0))` is truthy for every header string |
| AutoDraw.CalculateCooldownPeriod | pixels/autodraw.py:25-32 | no delay when either field is None |
| AutoDraw.CooldownSpreadsWindow | pixels/autodraw.py:28-31 | with both fields present: when int(remaining) is a non-zero n and float(reset) is x, the delay is exactly ceil(x)/n, which spreads the ceil(x) second window evenly over n requests; a count of 0 gives no delay; ValueError comes exactly when int(remaining) fails, or when it gives a non-zero count and float(reset) fails |
| AutoDraw.CooldownExample | pixels/autodraw.py:30 | reset "10" with 5 requests remaining gives a delay of 2.0 |
| AutoDraw.NoRemainingRequestsNoDelay | pixels/autodraw.py:29 | int(remaining) == 0 means no delay, whatever the reset says |
| AutoDraw.ZeroResetGivesZeroDelay | pixels/autodraw.py:29 | because the guard always holds, a reset of "0" gives a delay of 0.0, not None |
| AutoDraw.GetPixels | pixels/autodraw.py:38-44 | the snapshot has the width and height `get_size` returned, taken from its (height, width) pair in that order, and the bytes `get_pixels` returned; it fails only with ValueError |
| AutoDraw.GetPixelsOfOwnBytes | pixels/autodraw.py:38-44 | a canvas rebuilt from its own bytes and its (height, width) is the same canvas |
| AutoDraw.GetPixelsRefuses | pixels/autodraw.py:42 | the snapshot is refused exactly when a dimension is negative or there are fewer than three bytes per pixel |
| AutoDraw.GetCoordsToDraw | pixels/autodraw.py:53-66 | the nested loops return what the scan specification `ScanCoords` gives for columns below image.width and the given row bound, including its IndexError |
| AutoDraw.ScanColumn | pixels/autodraw.py:58-64 | the inner loop over one column returns that column's specification, stopping at the first getpixel that raises |
| AutoDraw.ColumnOk | pixels/autodraw.py:58-60 | a column scans without error exactly when every position in it is readable in both images |
| AutoDraw.ScanOk | pixels/autodraw.py:57-60 | the scan succeeds exactly when every scanned position is readable in both the canvas and the frame |
| AutoDraw.ScanErrorIsIndexError | pixels/autodraw.py:59-60 | the only error the scan can raise is IndexError |
| AutoDraw.ColumnOrdered | pixels/autodraw.py:58-64 | one column emits coordinates of that column only, in increasing y, at most one per row |
| AutoDraw.ColumnNeeded | pixels/autodraw.py:58-64 | one column emits only positions that need a change |
| AutoDraw.ColumnComplete | pixels/autodraw.py:58-64 | one column emits every position of it that needs a change |
| AutoDraw.ScanOrdered | pixels/autodraw.py:56-66 | the list is strictly increasing in (x, y) order, x outer and y inner, so it has no duplicates, and its x values stay in the scanned columns |
| AutoDraw.ScanNeeded | pixels/autodraw.py:57-64 | every listed coordinate is (x + startX, y + startY) for a scanned row y, and shouldChangePixel holds there |
| AutoDraw.ScanSound | pixels/autodraw.py:57-64 | ordered, inside the scanned rectangle shifted by the anchor, and only positions that need a change |
| AutoDraw.ScanLength | pixels/autodraw.py:57-58 | the list has at most columns·rows entries, so at most width·width as written |
| AutoDraw.ScanComplete | pixels/autodraw.py:57-64 | every scanned position that needs a change is listed |
| AutoDraw.ScanSkipsOnlyClosePixels | pixels/autodraw.py:62-64 | a scanned position that is not listed fails shouldChangePixel |
| AutoDraw.MatchingCanvasNeedsNothing | pixels/autodraw.py:57-64 | a canvas that already shows the frame's colours over the scanned rectangle gives the empty list |
| AutoDraw.WideFrameScanFails | pixels/autodraw.py:58 | with the inner loop bounded by image.width, a frame wider than it is tall raises IndexError whatever the canvas |
| AutoDraw.TallFrameScanSkipsRows | pixels/autodraw.py:58 | with that bound, the lower row of a 1x2 frame is never examined: both pixels need a change but only the top one is listed |
| AutoDraw.ScanCoversFrame | pixels/autodraw.py:57-64 | with the inner loop bounded by image.height, a frame lying inside the canvas scans without error, and a position is listed exactly when it needs a change |
| DrawLoop.SetPixel | pixels/autodraw.py:68-72 | setPixel makes the set_pixel call first, with the 429 pauses that call slept through; an exception from the call ends setPixel there; otherwise it sleeps for the cooldown exactly when calculateCooldownPeriod on the limiter's fields after the call gives one, and a ValueError from that comes after the write |
| DrawLoop.IsCycleCurrent | pixels/autodraw.py:34-36 | isCycleCurrent is the negation of the frame query's "changed" flag, and the query stores the new frame index in the template |
| DrawLoop.LoadTargetFrame | pixels/autodraw.py:77-80 | a static target uses its own image and leaves the template alone; an animated one opens the current frame's file and stores the index |
| DrawLoop.RedrawCoordinate | pixels/autodraw.py:106-113 | the loop body re-reads the canvas, looks up the live and target pixels, and writes only when a change is still needed, as `Redraw` specifies |
| DrawLoop.DrawCoordinate | pixels/autodraw.py:99-113 | one iteration: for an animated target, the frame check first; a stale frame stops with no write; otherwise the loop body, as `Step` specifies |
| DrawLoop.DrawCoordinates | pixels/autodraw.py:98-113 | the `for coords in pixels` loop is `Run`, stopping at the first stale check or error, and stores the template's last frame index |
| DrawLoop.RunStopped | pixels/autodraw.py:101-103 | once the loop has broken off, later coordinates add nothing |
| DrawLoop.DrawPass | pixels/autodraw.py:74-116 | one pass of draw is `Pass`: load the frame, snapshot (recorded with the 429 pauses of its get_pixels and get_size calls), diff, loop, then return or go round again |
| DrawProperties.RedrawShape | pixels/autodraw.py:106-113 | the loop body's events are at most a read, then a write to that coordinate, then a sleep, and it never touches the frame state |
| DrawProperties.RedrawWriteJustified | pixels/autodraw.py:106-113 | a write in the loop body is what the read just before it calls for: that read is the fresh snapshot, its live pixel needs the change, and the colour is rgbToHex of the target pixel's first three channels; a snapshot that calls for a write gets one |
| DrawProperties.RedrawWrites | pixels/autodraw.py:106-113 | the loop body writes exactly when its fresh snapshot calls for it: then its events are the read, with the 429 pauses of that getPixels, followed by setPixel's, with the target colour and the next set_pixel call, one more write is counted, and it fails exactly when setPixel does; otherwise its events are the read alone, or nothing when the snapshot fails, and no write is counted |
| DrawProperties.RedrawJustified | pixels/autodraw.py:106-113 | every event of the loop body has what it needs before it |
| DrawProperties.CheckedStepJustified | pixels/autodraw.py:100-113 | an animated iteration's events are justified and, when there are any, start with the frame check; a successful query always leaves that check in the trace |
| DrawProperties.CheckedStepFollowsQuery | pixels/autodraw.py:100-113 | an animated iteration follows its frame query: a failed query ends it with that error and no events; a successful one is reported first as CycleCheck(not changed); the iteration is stale exactly when the query saw a new frame, and then that report is all it does; otherwise the report is followed by the loop body |
| DrawProperties.StepJustified | pixels/autodraw.py:98-113 | every iteration's events are justified and open with a read or a frame check |
| DrawProperties.StepWrites | pixels/autodraw.py:98-113 | an iteration writes only its own coordinate, at most once |
| DrawProperties.StepStale | pixels/autodraw.py:100-103 | an iteration is stale exactly when the target is animated and its frame query saw a new frame; a failed frame check is its last event |
| DrawProperties.StaleStep | pixels/autodraw.py:100-103 | an iteration whose frame query sees a new frame only reports the failed check, and stores the new index |
| DrawProperties.StaleRunStep | pixels/autodraw.py:98-103 | after such a query the loop stops right after the failed check |
| DrawProperties.StaleQueryEndsRun | pixels/autodraw.py:98-103 | once the frame query made for coordinate i sees a new frame, the whole loop's events are those before i plus the failed check, and the loop ends stale: nothing is read or written for coords[i..] |
| DrawProperties.StaticStep | pixels/autodraw.py:100 | a static target's iteration makes no frame check and leaves the stored index alone |
| DrawProperties.RunJustified | pixels/autodraw.py:98-113 | over the whole loop, every write directly follows a fresh snapshot that still needed it, and every sleep directly follows a write |
| DrawProperties.RunWritesOnce | pixels/autodraw.py:98-113 | over an increasing list, the loop writes only listed coordinates, each at most once |
| DrawProperties.RunStaleLast | pixels/autodraw.py:98-103 | the first failed frame check ends the loop: it is the last event and the loop is stale |
| DrawProperties.RunStaticKeepsFrame | pixels/autodraw.py:98-113 | a static target's loop makes no frame checks, is never stale, and keeps the stored index |
| DrawProperties.WritesOfListedNeeded | pixels/autodraw.py:93-113 | writes confined to listed coordinates, after the read of the snapshot they were listed from, all needed a change and are distinct |
| DrawProperties.ScannedRunJustified | pixels/autodraw.py:93-113 | the pass's snapshot followed by the loop is a justified trace |
| DrawProperties.ScannedRunListed | pixels/autodraw.py:93-113 | every write of the loop goes to a coordinate that the pass's snapshot showed needing a change, each at most once |
| DrawProperties.ScannedRunStale | pixels/autodraw.py:98-103 | a failed frame check is the last event, and only an animated target makes one |
| DrawProperties.PassWritesJustified | pixels/autodraw.py:77-113 | a pass that does anything has loaded its frame and starts with a canvas read, and all of its events are justified |
| DrawProperties.PassWritesListed | pixels/autodraw.py:93-113 | every write of a pass goes to a coordinate that the first snapshot showed needing a change, and no coordinate is written twice |
| DrawProperties.PassOutcome | pixels/autodraw.py:74-116 | draw returns after a pass exactly when the pass succeeded and the target is static and unguarded; a stale frame check ends the pass as its last event and sends draw round again |
| DrawProperties.PassStaticKeepsFrame | pixels/autodraw.py:77-113 | a static target's pass makes no frame checks and leaves the stored frame index as it was |
| DrawProperties.MatchingCanvasPassWritesNothing | pixels/autodraw.py:93-116 | a pass over a canvas that already shows the static image reads once, writes nothing, and returns exactly when unguarded |
| PixelsClient.HeadersFromNames | pixels/client.py:28-38 | a header is present in a response exactly when one of its header lines carries that name in some case |
| PixelsClient.HeaderFoundInAnyCase | pixels/client.py:28-38 | a header sent once is found, with its value, under any spelling of its name, so `Cooldown-Reset` and `cooldown-reset` are the same header |
| PixelsClient.PauseSleeps | pixels/client.py:40-43 | pause sleeps exactly for the cooldown when one is known, and not at all otherwise |
| PixelsClient.CooldownNeverCleared | pixels/client.py:37-38 | once a cooldown is known, no update clears it |
| PixelsClient.UpdateIdempotent | pixels/client.py:27-38 | updating twice with the same headers is the same as updating once |
| PixelsClient.UpdatesMerge | pixels/client.py:27-38 | last write wins: two updates are one update with the merged headers, the later ones taking precedence |
| PixelsClient.UpdateWithoutRateHeaders | pixels/client.py:27-38 | headers without rate-limit keys leave the limiter unchanged |
| PixelsClient.RejectionPausesForItsCooldown | pixels/client.py:71-74 | because the update precedes the status check, a 429's own Cooldown-Reset is what the following pause sleeps for |
| PixelsClient.RejectionWithoutCooldownRetriesAtOnce | pixels/client.py:73-75 | a 429 with no cooldown known retries without sleeping |
| PixelsClient.StatusDispatch | pixels/client.py:73-80 | with well-formed headers: 200 exactly when the body is returned, 429 exactly when it retries, any other status exactly when it goes to raise_for_status |
| PixelsClient.RateLimiter.constructor | pixels/client.py:17-25 | a new limiter has its endpoint and all five fields None |
| PixelsClient.RateLimiter.Update | pixels/client.py:27-38 | each present header, its name matched without regard to case, overwrites its field and an absent one leaves it; Cooldown-Reset goes through int(), which raises ValueError exactly on a malformed value, after the four request fields are assigned |
| PixelsClient.RateLimiter.Pause | pixels/client.py:40-43 | the sleeps are exactly [cooldown] when a cooldown is known and empty otherwise |
| PixelsClient.Client.constructor | pixels/client.py:48-55 | a new client has no limiters |
| PixelsClient.Client.Dispatch | pixels/client.py:69-80 | the endpoint's limiter is created only if missing, then updated from the headers before the status is dispatched; every other endpoint's limiter is the same object with the same fields |
| PixelsClient.Client.GetPixel | pixels/client.py:57-80 | get_pixel returns the body's `rgb` on 200, under the shared dispatch on `/get_pixel`; that limiter is created if missing, kept if present, and updated from the response; other endpoints' limiters are unchanged |
| PixelsClient.Client.GetPixels | pixels/client.py:82-98 | get_pixels returns the raw bytes on 200, under the shared dispatch on `/get_pixels`; that limiter is created if missing, kept if present, and updated from the response; other endpoints' limiters are unchanged |
| PixelsClient.Client.GetSize | pixels/client.py:100-115 | get_size returns (height, width), height first, on 200, under the shared dispatch on `/get_size`; that limiter is created if missing, kept if present, and updated from the response; other endpoints' limiters are unchanged |
| PixelsClient.Client.SetPixel | pixels/client.py:117-140 | set_pixel returns nothing on 200 under the shared dispatch on `/set_pixel`; that limiter is created if missing, kept if present, and updated from the response; other endpoints' limiters are unchanged |
| PyParse.ParseIntOfNatToString | pixels/client.py:38 | int() reads back any natural number's decimal form |
| PyParse.ParseIntRejectsNonDigit | pixels/client.py:38 | int() raises ValueError on a string with a non-digit after its first character |
| PyParse.ParseFloatAgreesWithParseInt | pixels/autodraw.py:30 | float() agrees with int() on every string int() accepts |
| PyParse.Ceil | pixels/autodraw.py:30 | math.ceil gives the least integer not below its argument |
| StringOrder.StrLeTotal | template_manager.py:42 | any two strings are comparable |
| StringOrder.StrLeTransitive | template_manager.py:42 | string order is transitive |
| StringOrder.StrLeAntisymmetric | template_manager.py:42 | two strings each at most the other are equal |
| StringOrder.InsertSorted | template_manager.py:42 | inserting into a sorted list keeps it sorted |
| StringOrder.SortStrings | template_manager.py:42 | sorted() returns an ascending permutation of its input |
| TemplateManager.FrameIndexAt | template_manager.py:25-30 | a non-positive duration gives frame 0; otherwise the index lies in [0, length), or ZeroDivisionError when there are no frames |
| TemplateManager.FrameIndexOfSlot | template_manager.py:29-30 | any instant inside the j-th frame slot of any cycle shows frame j, so the index is floor(elapsed / duration) mod length |
| TemplateManager.FrameIndexAdvances | template_manager.py:29-30 | one frame duration later the next frame is shown, wrapping from the last to the first |
| TemplateManager.CurrentFrameIndex | template_manager.py:24-33 | the index is FrameIndexAt's, "changed" is exactly whether it differs from the stored one, and the query fails exactly when FrameIndexAt does and with its error, that is for a timed template with no frames |
| TemplateManager.StaticTemplateQuery | template_manager.py:25-28 | a static template reports frame 0, and a change exactly when the stored index was not 0, which includes the first query |
| TemplateManager.RepeatedQueryUnchanged | template_manager.py:29-33 | a second query at the same instant reports the same index and no change |
| TemplateManager.PreviousIndex | template_manager.py:37 | one index back modulo the frame count: in [0, length), 0 goes to length − 1; ZeroDivisionError without frames |
| TemplateManager.WithoutManifest | template_manager.py:42 | the comprehension drops every canvas.json and keeps every other entry as often as it occurs |
| TemplateManager.FrameNames | template_manager.py:42 | the frame names are sorted, exclude canvas.json, and are a permutation of the other entries |
| TemplateManager.FrameCountMatchesLength | template_manager.py:22 | with canvas.json listed once there are exactly `length` frame files |
| TemplateManager.Join | template_manager.py:40-43 | os.path.join ends with the name, and puts one separator between a directory and a relative name |
| TemplateManager.PyIndex | template_manager.py:42 | list indexing succeeds exactly for -len ≤ i < len, and a non-negative index picks that element |
| TemplateManager.FramePath | template_manager.py:39-43 | `Template.get_frame_path(i)`, on the template's directory and its current listing, succeeds exactly for valid list indices and names the i-th sorted frame file |
| TemplateManager.CurrentFramePathFound | template_manager.py:45-47 | on the listing the template was opened with, a timed query always finds its file, the index-th sorted frame name |
| TemplateManager.Template.Init | template_manager.py:18-22 | duration is minutesPerFrame·60, left and top come from the manifest, no frame is stored, and length is the entry count minus one |
| TemplateManager.Template.GetCurrentFrameIndex | template_manager.py:24-33 | the answer is `CurrentFrameIndex` on the stored index, and afterwards the stored index is the one returned |
| TemplateManager.Template.GetPreviousFrameIndex | template_manager.py:35-37 | a query at the given instant, then one index back from what it stored |
| TemplateManager.Template.GetCurrentFramePath | template_manager.py:45-47 | the query's index, stored in the template, then the path of that index |
| TemplateManager.OpenTemplate | template_manager.py:11-22 | the constructor raises ValueError exactly when canvas.json is not in the directory, and otherwise sets the fields from the manifest and the listing |
| TemplateManager.TemplateCache.constructor | template_manager.py:7 | the cache starts empty |
| TemplateManager.TemplateCache.GetTemplateFor | template_manager.py:53-55 | the Template is built before the lookup, so a directory without canvas.json fails even when cached; a cached template is returned as is, frame state and all; a missing one is built, inserted and returned, and no other key changes |
| TemplateManager.TemplateCache.ResetTemplatesCache | template_manager.py:58-60 | the cache is empty afterwards |

## Left out

- HTTP transport: URLs, the auth header, `requests`, `result.json()` and the internals of `raise_for_status()`. A response is a given (status, headers, body), and a status other than 200 or 429 ends in `RaiseForStatus(status)`.
- PixelsClient.Client.Dispatch: models one attempt. After a 429 it returns `Retry(sleeps)` rather than re-issuing the request, because the recursion is unbounded and depends on what the server sends next.
- DrawLoop.SetPixel: what each set_pixel call did (its 429 pauses, whether it returned or raised, and the `/set_pixel` limiter's fields afterwards) is an input of the pass. It is not derived from the responses by PixelsClient.Client.SetPixel, because the number of 429 retries depends on what the server sends next.
- PixelsClient.FoldName: folds the ASCII letters only. Header names are ASCII tokens in HTTP, so Python's Unicode case folding adds nothing for them.
- asyncio: `asyncio.sleep` becomes a `Sleep` event or a returned list of sleeps, and an await is a plain call.
- Logging (`coloredlogs`, `logger`), including the valid-pixel count at pixels/autodraw.py:95-96.
- PIL, beyond what the core relies on. `Image.open(path).convert('RGBA')` is the environment's `open` function from a path to a frame. `frombytes` is the flat-buffer lookup.
- Images.GetPixel: a negative coordinate raises IndexError here. Pillow's getpixel counts a negative coordinate from the far edge. The model rejects negative coordinates on the canvas and the frame alike.
- The filesystem and JSON: `os.listdir`, `os.path.isfile`, `json.load` and `os.path.abspath`. The caller supplies the listing, the manifest's fields and the absolute path. Within a pass, the listing is the same at every frame query.
- The wall clock. `utcnow() - CANVAS_START` is the seconds elapsed at each query, taken as a whole number.
- TemplateManager.FrameIndexAt: works on whole seconds and an integer `minutesPerFrame`. Python takes the float quotient, then its float remainder, then `int()`, which gives the same index for such inputs; fractional seconds and fractional durations are not modelled.
- AutoDraw.CalculateCooldownPeriod: the delay is the exact rational ceil(reset)/remaining, not its IEEE double.
- PyParse covers only the ASCII forms a server sends:
  - `int()`: an optional sign and decimal digits;
  - `float()`: the same with an optional decimal point.
  
  Surrounding whitespace, underscores, exponents, `inf` and `nan` are not modelled.
- Template re-construction in `draw` and `isCycleCurrent`: each calls `get_template_for`, which builds a new Template every time. During a pass the model consults the one cached template, because the cache always hands back that template. The check for canvas.json on each call is modelled once, by TemplateCache.GetTemplateFor.
- `get_previous_frame_path`, `convert_frames_to_absolute`, `convert_frames_to_relative` and main.py are outside the core.
- The outer `while True` of `draw`: one pass is modelled. Its outcome is `Repeat` or `Return`.
- Template length below zero (an empty listing) is treated like zero: ZeroDivisionError for the timed index. A listing that passed the canvas.json check always has length ≥ 0.
- DrawLoop.Pass and DrawLoop.DrawPass: when a getPixels call raises, the 429 pauses it slept through before raising are not recorded; the pass's events end before that read. The pauses of every getPixels that returns a snapshot are recorded in its `CanvasRead` event. What each read returned and slept through is an input of the pass, as for set_pixel.
- DrawLoop.Pass and DrawLoop.DrawPass: the diff scan's inner loop runs below image.height. pixels/autodraw.py:58 runs it below image.width (see Findings). The as-written bound is modelled by AutoDraw.GetCoordsToDraw with `rows = image.width`.

## Findings

| source | as written | input that shows it | evidently intended | confidence | as-written member | corrected member |
|---|---|---|---|---|---|---|
| pixels/autodraw.py:58 | The inner loop of getCoordsToDraw runs `y in range(0, image.width)`. | A frame 2 wide and 1 tall raises IndexError at getpixel((0, 1)). A white frame 1 wide and 2 tall over a black 1x2 canvas lists only (0, 0), though (0, 1) also needs a change. | `range(0, image.height)`: every row of the frame is compared, and nothing outside it is read. | not executed | AutoDraw.WideFrameScanFails, AutoDraw.TallFrameScanSkipsRows | AutoDraw.ScanCoversFrame |

The corrected bound is what `DrawLoop.Pass` and `DrawLoop.DrawPass` use, so
every DrawProperties lemma is about the corrected scan.

The guard at pixels/autodraw.py:29 is modelled as written: `ResetGuard` always
holds, and `ZeroResetGivesZeroDelay` shows that a reset of "0" gives a
0.0-second sleep rather than none. Its only visible effect is that
zero-length sleep, so it is not listed as a finding.
