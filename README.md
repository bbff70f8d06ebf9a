# reflexu-worker, modelled in Dafny

The reflexu worker produces watermarked preview copies of media kept in an
S3-compatible bucket (DigitalOcean Spaces). The bucket is "reflexu".

The Rust worker (`src/main.rs`) runs one processing cycle, or an endless
loop of cycles. In a cycle it:

- lists the keys under `originals/` with one request;
- skips directory placeholders;
- derives a destination key under `watermarks/` from each object's file name;
- probes for that destination and skips the object when it exists;
- downloads the object and dispatches on its lower-cased extension;
- for an image, draws the text "REFLEXU PREVIEW" repeatedly on a rotated
  diagonal grid, encodes JPEG at quality 85 and uploads it public-read;
- for a video, skips it above 100 MiB, runs ffmpeg under a five-minute
  timeout with a fixed argument list, and uploads the result public-read.

Failures are handled unevenly. A failed download, image decode, JPEG encode
or image upload ends the whole cycle. Every video failure is reported and
the loop moves on.

The earlier Python worker (`app.py`) does the same job differently. It
pages through the listing and derives keys with `os.path.splitext`. It
sniffs the content type from the bytes, uploads with a content type, prints
a public URL, and stops at the first exception.

## How the model is built

- `common.dfy` (`Common`): `Option`, `Result` and a `byte` type.
- `text.dfy` (`Text`): string helpers, including `trim_end_matches`,
  `str.replace` and ASCII lower-casing.
- `rust_path.dfy` (`RustPath`): `Path::file_name` and `Path::extension`
  for Unix paths.
- `dest_key.dfy` (`DestKeys`): the Rust destination key and the dispatch on
  the extension.
- `py_path.dfy` (`PyPath`): `basename`, `splitext`, the Python watermark key
  and the public URL.
- `video.dfy` (`VideoWatermark`): the size cap, the ffmpeg filter and
  argument list (with a small reader of command lines that shows what the
  list asks for), and how the ffmpeg run is judged.
- `placement.dfy` (`ImagePlacement`): the grid walk of `watermark_image`.
  The imperative loops (`DiagonalAnchors`, `RowAnchors`) are proved equal
  to a recursive definition, and the definition is characterised
  independently.
- `store.dfy` (`ObjectStore`): the bucket as a class. It holds the objects
  and a log of every request sent to it. Whether each call reaches the
  service is an input to that call.
- `worker.dfy` (`Worker`): `process_files`. The spec functions `Step` and
  `RunItems` say what a cycle does. The methods `ProcessFiles`,
  `ProcessItem`, `ProcessImage` and `ProcessVideo` mutate the store and are
  proved to do exactly that. Lemmas about the spec functions give the
  properties.
- `orchestrator.dfy` (`Orchestrator`): the Rust `main`. It covers
  `RUN_ONCE`, the `INTERVAL_MINUTES` parse, and the loop over a finite
  sequence of rounds.
- `app.dfy` (`PyWorker`): `list_originals`, `process_file` and `main` of
  the Python worker, in the same style.

Foreign code is passed in as values:

- image decoding, JPEG encoding and the f32 rotation (`Worker.Codecs`);
- content sniffing and PIL rendering (`PyWorker.PyCodecs`);
- per key, whether each store call reaches the service and how the ffmpeg
  job ends (`Worker.KeyIo`, `PyWorker.PyIo`);
- the listing itself.

Where the intended design and the code disagree, the model
follows the code:

- A failed download, image decode, JPEG encode or image upload ends the
  cycle (the `?` operators at src/main.rs:109-128). Only video failures
  are per-object.
- Every listed object that is not a directory key is probed and
  downloaded before its extension is looked at (src/main.rs:103-112). An
  unsupported object is therefore downloaded on every cycle, and a failed
  download of it ends the cycle.
- Keys come from one fixed prefix. There is no tenant discovery.
- The encoder arguments carry no bitrate cap.
- Images get repeated diagonal text only. There is no logo and no
  downscaling.

## Model

| member | source | states |
|---|---|---|
| Text.LastIndexOf | app.py:67-68 | the result is the index of the last occurrence (`rfind`), or `None` exactly when the character does not occur |
| Text.TrimEndSplits | src/main.rs:100 | `trim_end_matches` leaves a remainder that no longer ends in the pattern, and the input is that remainder followed by whole copies of the pattern |
| Text.RemoveAllLeading | app.py:109 | `replace('https://', '')` on "https://" + host, where the host holds no further "https://", gives the host |
| Text.AsciiLowerIdempotent | src/main.rs:112 | lower-casing twice is lower-casing once |
| RustPath.Split | src/main.rs:93 | splitting a path gives at least one piece, and no piece holds a '/' |
| RustPath.SplitJoin | src/main.rs:93 | joining the pieces with '/' gives the path back |
| RustPath.FileName | src/main.rs:94 | a file name, when there is one, is a normal segment: not empty, not "." or "..", without '/'; when there is none is stated by FileNameNoneExactly, FileNameDotDot and FileNameOfNothing |
| RustPath.FileNameOfName | src/main.rs:94 | a normal segment is its own file name |
| RustPath.FileNameLastSegment | src/main.rs:93-94 | the file name of dir + "/" + name is name, whatever dir is |
| RustPath.FileNameNoneExactly | src/main.rs:94 | there is no file name exactly when the path has no components or its last component is ".." |
| RustPath.FileNameDotDot | src/main.rs:94 | a path ending in "/.." has no file name |
| RustPath.FileNameTrailingDot | src/main.rs:94 | "dir/." has the file name of "dir", since a trailing "." is normalised away |
| RustPath.FileNameTrailingSlash | src/main.rs:94 | "dir/" has the file name of "dir" |
| RustPath.FileNameOfNothing | src/main.rs:94 | "", "/", "." and ".." have no file name |
| RustPath.Extension | src/main.rs:95-98 | the extension has no '.', ends the name, follows a '.' when a non-leading '.' exists, and is empty when none does |
| DestKeys.DestKey | src/main.rs:93-101 | the destination as the code computes it, None where `file_name().unwrap()` panics; characterised by DestKeyParts, DestKeyLastSegment, DestKeyOutsideOriginals and DestKeyStripsRepeats, and its None case by DestKeyDotDot and NoFileNamePanics |
| DestKeys.Kind | src/main.rs:112-175 | the match on the lower-cased extension as the code computes it; characterised both ways by KindMeaning |
| DestKeys.DestKeyDotDot | src/main.rs:94 | a key ending in "/.." has no destination, because `file_name()` is None there |
| DestKeys.DestKeyParts | src/main.rs:93-101 | the destination is "watermarks/" + base + "-watermark." + ext; the file name is the base followed by whole copies of ".ext", and the base does not end in ".ext" |
| DestKeys.DestKeyLastSegment | src/main.rs:93-101 | only the last path segment decides the destination |
| DestKeys.DestKeyOutsideOriginals | src/main.rs:101 | every destination starts with "watermarks/" and never with "originals/" |
| DestKeys.ExtensionOf | src/main.rs:95-98 | the extension of stem + "." + ext is ext, for a non-empty stem and an ext without '.' |
| DestKeys.ExtensionOfPlain | src/main.rs:95-98 | a name without '.' has the empty extension |
| DestKeys.TrimEndRepeat | src/main.rs:100 | trimming any number of copies of the pattern off a base that does not end in it gives the base back |
| DestKeys.DestKeyStripsRepeats | src/main.rs:93-101 | stem followed by n ≥ 1 copies of ".ext" maps to "watermarks/" + stem + "-watermark." + ext, so "x.jpg.jpg" maps like "x.jpg" |
| DestKeys.DestKeyOfPlainName | src/main.rs:93-101 | "stem.ext" maps to "watermarks/stem-watermark.ext" |
| DestKeys.DestKeyWithoutExtension | src/main.rs:95-101 | a name without '.' maps to a destination ending in "-watermark." |
| DestKeys.KindIgnoresCase | src/main.rs:112 | an extension and its lower-cased form are dispatched the same way |
| DestKeys.KindMeaning | src/main.rs:112-175 | the image arm takes exactly the extensions spelling jpg, jpeg or png in any mix of case, the video arm exactly mp4, mov or webm |
| DestKeys.KindExamples | src/main.rs:112-175 | "JPG" and "Jpeg" take the image path, "MoV" the video path, "txt" neither |
| PyPath.Basename | app.py:67 | the base name has no '/', ends the path, and is preceded by a '/' when shorter than the path |
| PyPath.SplitExt | app.py:68 | the two parts put together are the input; the extension is empty or a '.' followed by no '.' and no '/' |
| PyPath.SplitExtNoExtension | app.py:68 | a name with no '.' after its leading dots has no extension |
| PyPath.SplitExtOf | app.py:68 | "stem.ext", with a stem that is not all dots, splits into stem and ".ext" |
| PyPath.BasenameOfJoined | app.py:67 | the base name of dir + "/" + name is name |
| PyPath.WatermarkKey | app.py:67-69 | the Python watermark key as the code computes it; characterised by WatermarkKeyParts, WatermarkKeyOfPlain, WatermarkKeyAgreesWithRust and NoExtensionDiffers |
| PyPath.WatermarkKeyParts | app.py:67-69 | the key is "watermarks/" + name + "-watermark" + ext, with name + ext the base name and ext empty or a single dotted suffix |
| PyPath.WatermarkKeyOfPlain | app.py:67-69 | "dir/stem.ext" gives "watermarks/stem-watermark.ext" |
| PyPath.WatermarkKeyAgreesWithRust | app.py:67-69 | on ordinary names the Python key equals the Rust destination key |
| PyPath.NoExtensionDiffers | app.py:67-69 | without an extension the Python key has no trailing '.', and the Rust key is the Python key + "." |
| PyPath.PublicUrl | app.py:109 | the printed URL as the code computes it, None when the endpoint is unset and `None.replace` raises; characterised by PublicUrlOfHost |
| PyPath.PublicUrlOfHost | app.py:109 | with the endpoint "https://" + host, the URL is "https://reflexu." + host + "/" + key |
| VideoWatermark.OversizeExactly | src/main.rs:132-136 | the f64 comparison in MiB holds exactly when the body is longer than 104,857,600 bytes |
| VideoWatermark.DrawTextFilter | src/main.rs:243-246 | the drawtext filter as the code formats it; characterised by FilterRoundTrip |
| VideoWatermark.FilterRoundTrip | src/main.rs:243-246 | the drawtext filter carries the text verbatim: reading it back between the fixed head and tail gives the text |
| VideoWatermark.EncoderArgs | src/main.rs:248-260 | the ffmpeg argument list as the code builds it; characterised by EncoderArgsMeaning |
| VideoWatermark.EncoderArgsMeaning | src/main.rs:248-260 | the argument list reads as overwrite, no audio, the input, the filter, libx264, CRF 30, ultrafast, one thread, faststart, and the output path |
| VideoWatermark.WatermarkVideo | src/main.rs:266-287 | Ok exactly when ffmpeg succeeded, the output exists, was read and is non-empty, and then it is the output; a failed exit, a missing output and an empty output give their own errors |
| ImagePlacement.StepsPositive | src/main.rs:197-202 | both steps are non-zero exactly when both sides are at least 3 |
| ImagePlacement.Placement | src/main.rs:197-224 | every anchor the nested loops draw, in drawing order, as a recursive grid walk; characterised by PlacementMembers, PlacementInBounds and SmallImageUnmarked; DiagonalAnchors is proved equal to it |
| ImagePlacement.DiagonalAnchors | src/main.rs:201-224 | the nested loops emit exactly the anchors of the grid walk, in drawing order |
| ImagePlacement.RowAnchors | src/main.rs:202-222 | the inner loop emits exactly the anchors of one row |
| ImagePlacement.RowMembers | src/main.rs:202-212 | an anchor is in a row exactly when some column below 2w turns onto it inside the bounds |
| ImagePlacement.RowsMembers | src/main.rs:201-212 | an anchor is in the rows from y exactly when some grid point of those rows turns onto it inside the bounds |
| ImagePlacement.PlacementMembers | src/main.rs:197-212 | an anchor is drawn exactly when a grid point (-w + j·x_step, -h + i·y_step) below (2w, 2h) turns onto it inside the bounds |
| ImagePlacement.PlacementInBounds | src/main.rs:211-212 | for every rotation, each drawn anchor has 0 < x < w - 100 and 0 < y < h - 30 |
| ImagePlacement.SmallImageUnmarked | src/main.rs:211-212 | an image no wider than 101 or no taller than 31 pixels gets no diagonal text |
| ObjectStore.Store.Head | src/main.rs:103 | the probe succeeds exactly when the service is reached and holds the key; nothing is stored; the request is logged |
| ObjectStore.Store.Get | src/main.rs:109-110 | the body is returned exactly when the service is reached and holds the key, and is the stored body |
| ObjectStore.Store.Put | src/main.rs:122-128 | when reached, the key holds exactly the new blob and nothing else changes; otherwise nothing changes |
| Worker.RunCycle | src/main.rs:57-182 | a whole `process_files` call as the code computes it: the three connection variables, the listing, then RunItems; characterised by OriginalsUntouched, OneUploadPerDestination and NextCycleSkipsUploaded; ProcessFiles is proved equal to it |
| Worker.RunItems | src/main.rs:89-179 | one Step per listed object, in order; characterised by RunItemsAppend, HaltedStays, AbortFreezesRest, RunWritesOnlyWatermarks and RunKeepsUploadsStored |
| Worker.Step | src/main.rs:89-179 | one pass of the loop body as the code computes it; characterised by DirectorySkipped, ExistingSkipped, DownloadFailureHalts, StepWritesOnlyDest and StepReport; ProcessItem is proved equal to it |
| Worker.Dispatch | src/main.rs:112-176 | the match on the media kind after the download; characterised by DispatchWritesNothingWhenSkipped and DispatchReport |
| Worker.ImageStep | src/main.rs:113-129 | the image arm as the code computes it; characterised by ImageHaltsUnlessUploaded and SmallImagePanics; ProcessImage is proved equal to it |
| Worker.VideoStep | src/main.rs:130-171 | the video arm as the code computes it; characterised by VideoNeverHalts; ProcessVideo is proved equal to it |
| Worker.ProcessFiles | src/main.rs:57-182 | the loop leaves the store, the log, the reports, the calls of `watermark_video` and the result exactly as `RunCycle` says |
| Worker.ProcessItem | src/main.rs:89-179 | one pass of the loop body is one `Step` |
| Worker.ProcessImage | src/main.rs:113-129 | the image arm is `ImageStep` |
| Worker.ProcessVideo | src/main.rs:130-171 | the video arm is `VideoStep` |
| Worker.RunItemsAppend | src/main.rs:89-179 | running two stretches of the listing one after the other is running them together |
| Worker.HaltedStays | src/main.rs:109-128 | a stopped cycle is unchanged by any further keys |
| Worker.AbortFreezesRest | src/main.rs:109-128 | after an error or a panic at key n, the cycle ends as it was then: later keys are not probed, downloaded or written |
| Worker.StepWritesOnlyDest | src/main.rs:122-168 | a step changes the store only by writing its key's destination, public-read, reported as that key's upload; nothing is deleted |
| Worker.RunWritesOnlyWatermarks | src/main.rs:89-179 | over any stretch, keys outside "watermarks/" keep their objects, new keys are under "watermarks/", nothing is deleted |
| Worker.OriginalsUntouched | src/main.rs:57-182 | a cycle never creates, changes or removes an object under "originals/" |
| Worker.DirectorySkipped | src/main.rs:91 | a key ending in '/' is passed over silently: nothing is probed, downloaded or written, and the model records it as a directory skip |
| Worker.ExistingSkipped | src/main.rs:103-106 | a key whose destination the probe finds is skipped after the probe: no download, no write |
| Worker.NoFileNamePanics | src/main.rs:94 | a key with no file name stops the cycle with a panic at that key, before any request |
| Worker.DotDotKeyPanics | src/main.rs:91-94 | a listed key ending in "/.." is not a directory key and panics the cycle |
| Worker.DownloadFailureHalts | src/main.rs:109-110 | a download that fails, or finds the object gone, ends the cycle with that error after exactly the probe and the download request, whatever the object's kind |
| Worker.SmallImagePanics | src/main.rs:197-202 | a decoded image with a side below 3 pixels stops the cycle with a panic (`step_by(0)`), not an error, with nothing encoded, written or reported |
| Worker.DispatchWritesNothingWhenSkipped | src/main.rs:130-175 | an unsupported extension, or a video over 100 MiB, is reported with nothing written and no call of `watermark_video` |
| Worker.VideoNeverHalts | src/main.rs:142-170 | the video path never stops the cycle, and calls `watermark_video` exactly for bodies within the cap (whether or not ffmpeg then starts) |
| Worker.ImageHaltsUnlessUploaded | src/main.rs:113-128 | the image path lets the cycle go on exactly when decode, both sides ≥ 3, encode and upload succeed, and then the destination holds the quality-85 JPEG of the placement, public-read |
| Worker.DispatchReport | src/main.rs:112-176 | the dispatch adds at most one report, about its key, and an upload report names the destination just written |
| Worker.StepReport | src/main.rs:89-179 | a step adds at most one report, about its key; an upload names the key's destination, now stored and absent before when the probe got an answer |
| Worker.StepKeepsUploadsStored | src/main.rs:89-179 | a step keeps "every reported upload is stored under its key's destination" |
| Worker.RunKeepsUploadsStored | src/main.rs:89-179 | any stretch of the listing keeps that invariant |
| Worker.NextCycleSkipsUploaded | src/main.rs:103-106 | a key uploaded in one cycle is skipped at its probe in the next cycle |
| Worker.StepKeepsUploadsDistinct | src/main.rs:101-128 | a step keeps the uploaded destinations pairwise different |
| Worker.RunKeepsUploadsDistinct | src/main.rs:101-128 | any stretch of the listing keeps them pairwise different |
| Worker.OneUploadPerDestination | src/main.rs:101-128 | when every probe gets an answer, a cycle writes each destination at most once, even for originals sharing a file name |
| Orchestrator.RunOnce | src/main.rs:23-24 | one-time mode exactly when RUN_ONCE is the text "true", a missing variable reading as "" |
| Orchestrator.ParseU64 | src/main.rs:35 | a parsed value fits in 64 bits, and the empty string does not parse |
| Orchestrator.ParseDecimal | src/main.rs:35 | every 64-bit value in decimal, with or without a leading '+', parses to itself |
| Orchestrator.ParseTooLarge | src/main.rs:35-36 | a decimal value above 64 bits does not parse |
| Orchestrator.IntervalMinutes | src/main.rs:33-36 | 30 when the variable is unset or does not parse, otherwise the parsed value |
| Orchestrator.IntervalOfDecimal | src/main.rs:33-36 | an interval written in decimal is taken as it is |
| Orchestrator.SleepSecondsAsWritten | src/main.rs:50 | the u64 product of minutes and 60, wrapped to 64 bits; equal to the product where it fits |
| Orchestrator.SleepWrapsAround | src/main.rs:50 | 307445734561825861 minutes sleep 44 seconds as written; the default 30 sleeps 1800 |
| Orchestrator.SleepSeconds | src/main.rs:50 | the intended sleep: the product, or the u64 maximum when the product does not fit |
| Orchestrator.SleepMonotone | src/main.rs:50 | a longer interval never sleeps less, and the intended sleep agrees with the code where the product fits |
| Orchestrator.Continuous | src/main.rs:43-51 | the continuous loop over a given list of rounds, as the code runs it; characterised by OnlyPanicStops and ContinuousStep; Loop is proved equal to it |
| Orchestrator.OnlyPanicStops | src/main.rs:43-51 | over any rounds, the loop stops only on a panic; otherwise every cycle, failed or not, is followed by the same sleep, the wrapped u64 product of the interval and 60 |
| Orchestrator.ContinuousStep | src/main.rs:43-51 | a panicking cycle ends the process; any other cycle is followed by a sleep of the wrapped u64 product `interval_minutes * 60` and the next round |
| Orchestrator.RunWorker | src/main.rs:19-55 | with RUN_ONCE exactly "true", one cycle whose result decides the exit; otherwise the loop |
| Orchestrator.Loop | src/main.rs:43-51 | the loop leaves the store, results, sleeps and exit exactly as `Continuous` says |
| PyWorker.Originals | app.py:23-28 | the keys `list_originals` yields, page after page; characterised by OriginalsMembers and KeepAppend; ListOriginals is proved equal to it |
| PyWorker.ListOriginals | app.py:23-28 | the nested loops yield exactly the keys of `Originals`, page after page |
| PyWorker.KeepMembers | app.py:26-28 | a listed object on a page is yielded exactly when its key does not end in '/' |
| PyWorker.KeepAppend | app.py:26-28 | filtering keeps page order |
| PyWorker.OriginalsMembers | app.py:23-28 | an object is yielded exactly when it is on some page and its key does not end in '/' |
| PyWorker.ProcessFileSpec | app.py:66-111 | one `process_file` call as the code computes it; characterised by ExistingReturnsEarly, UnreachableProbeRaises, UnrecognisedWritesNothing, PublishWrites and WritesOnlyWatermarkKey |
| PyWorker.ProcessFile | app.py:66-111 | the method leaves the store and log, and returns or raises, exactly as `ProcessFileSpec` says |
| PyWorker.ProcessAll | app.py:113-115 | `main`'s loop over the yielded keys up to the first exception; characterised by PyRaisedStays, ProcessAllAppend and PyHaltFreezes |
| PyWorker.RunAll | app.py:113-115 | every yielded key in order, until the first exception, exactly as `ProcessAll` says |
| PyWorker.PyRaisedStays | app.py:113-115 | after an exception nothing more happens |
| PyWorker.ProcessAllAppend | app.py:113-115 | processing two stretches one after the other is processing them together |
| PyWorker.PyHaltFreezes | app.py:113-115 | once key n has raised, no later key is touched |
| PyWorker.ExistingReturnsEarly | app.py:72-75 | when the watermark key exists, only the probe happens: no download, no upload |
| PyWorker.UnreachableProbeRaises | app.py:72-77 | a probe that gets no answer from the service raises, unlike in the Rust worker |
| PyWorker.UnrecognisedWritesNothing | app.py:83-98 | an unknown type, or a type neither "image/" nor "video/", returns without any write |
| PyWorker.PublishWrites | app.py:101-109 | a reached upload stores the result public-read with its content type before the URL is formed; an unset endpoint then raises after the write |
| PyWorker.ConvertWrites | app.py:90-107 | after the download, the only write is under the watermark key, public-read, typed "image/jpeg" for images and "video/mp4" for videos |
| PyWorker.WritesOnlyWatermarkKey | app.py:66-107 | a key changes the store only by that write under its watermark key |
| PyWorker.PublishedUrl | app.py:109 | with the endpoint "https://" + host, the reported URL is on the bucket's virtual host |

## Left out

- Pixels, fonts and `draw_text_mut`: the image model is the list of anchors handed to the renderer. Decoding and JPEG encoding are inputs.
- The f32 rotation of each grid point is an input function. The f32 font size is not modelled.
- `Worker.Dims`: image sides are below 4,194,304 pixels. Below that bound `(w as f32 / 2.5) as i32` and `(h as f32 / 3.0) as i32` equal the integer quotients used here.
- The S3 client, credentials and region. Only "a missing endpoint, key or secret fails the cycle before listing" is kept.
- Network I/O: whether each call reaches the service is an input. A Rust listing is one request and its result is an input. Python pages are given as a sequence of pages.
- ffmpeg itself, temporary files and the five-minute timeout: each is an outcome given per key.
- The Python `watermark_video` arguments are not modelled; only whether the job yields bytes.
- The health-check HTTP server, which is I/O and concurrency.
- Printed messages. The Rust reports record each key's outcome. Most outcomes match a print; a directory key (src/main.rs:91) prints nothing but still gets a `SkippedDirectory` report.
- Clock and sleeping: the model records each sleep's length instead of waiting.
- The endless Rust loop is modelled over any finite number of rounds.
- `obj.key().unwrap()` and `to_str().unwrap()` in the Rust loop are taken to succeed, since object keys are UTF-8 strings. `file_name().unwrap()` is modelled: it panics.
- `ext.to_lowercase()` is modelled as ASCII lower-casing. No non-ASCII text lower-cases to a dispatch name. The Kelvin sign becomes 'k', which no name contains. U+0130 becomes 'i' followed by a combining dot, which stays non-ASCII.
- A debug build would panic on the interval overflow instead of wrapping. That panic is not modelled.

## Findings

| source | as written | input that shows it | evidently intended | confidence | as-written member | corrected member |
|---|---|---|---|---|---|---|
| src/main.rs:50 | `interval_minutes * 60` is a `u64` product, which wraps around in a release build | INTERVAL_MINUTES=307445734561825861 parses, and the worker then sleeps 44 seconds between cycles instead of the longest possible time | a sleep that grows with the interval, e.g. a saturating product | not executed; medium (it only needs an absurdly large setting) | Orchestrator.SleepWrapsAround | Orchestrator.SleepMonotone |
