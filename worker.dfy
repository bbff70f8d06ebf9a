/**
 * One processing cycle of the Rust worker, `process_files` in src/main.rs:
 * for every listed key, in listing order, skip directories, derive the
 * destination key, probe for it, download the original, dispatch on the
 * extension, watermark and upload. Image decoding, JPEG encoding, the
 * rotation and everything ffmpeg does are inputs; so is, per key, whether
 * each store call reaches the service.
 *
 * `Step` and `RunItems` say what a cycle does as functions of the store's
 * state; `ProcessFiles` is the loop itself, proved to do exactly that.
 */
module Worker {
  import opened Common
  import opened Text
  import opened RustPath
  import opened DestKeys
  import opened VideoWatermark
  import opened ImagePlacement
  import opened ObjectStore

  /** `ImageOutputFormat::Jpeg(85)`. */
  const JpegQuality: nat := 85

  /** The environment variables read, in order, before anything is listed. */
  const EndpointVar := "DO_SPACES_ENDPOINT"
  const KeyVar := "DO_SPACES_KEY"
  const SecretVar := "DO_SPACES_SECRET"

  type Side = n: nat | n < MaxSide

  /** `img.dimensions()` of a decoded image. */
  datatype Dims = Dims(width: Side, height: Side)

  /** The foreign libraries: image decoding, JPEG encoding of the marked image, and the f32 rotation. */
  datatype Codecs = Codecs(
    decode: seq<byte> -> Option<Dims>,
    encodeJpeg: (seq<byte>, seq<Anchor>, nat) -> Option<seq<byte>>,
    rotate: (int, int) -> (int, int))

  /** For one key: whether each store call reaches the service, and how the video job ends. */
  datatype KeyIo = KeyIo(headReaches: bool, getReaches: bool, putReaches: bool, video: VideoAttempt)

  /** A listed object key with what happens to its calls. */
  datatype Listed = Listed(key: string, io: KeyIo)

  /** What happened to a key that did not end the cycle. */
  datatype Outcome =
    | SkippedDirectory
    | SkippedExisting
    | SkippedUnsupported
    | SkippedOversize
    | FailedTimeout
    | FailedTransform(error: VideoError)
    | FailedUpload
    | Uploaded(dest: string)

  datatype Report = Report(key: string, outcome: Outcome)

  /** The errors `?` propagates out of `process_files`. */
  datatype CycleError =
    | MissingEnv(name: string)
    | ListFailed
    | DownloadFailed(key: string)
    | DecodeFailed(key: string)
    | EncodeFailed(key: string)
    | UploadFailed(key: string)

  /** Why a cycle stopped before the end of its listing: an error returned, or a panic. */
  datatype Halt = Aborted(error: CycleError) | Panicked(key: string)

  /** How `process_files` ends: `Ok(())`, an `Err`, or a panic (an `unwrap` or `step_by(0)`). */
  datatype CycleResult = Completed | Failed(error: CycleError) | Crashed(key: string)

  /** The state a cycle works on: the store, what was reported, the keys passed to `watermark_video` in order, and whether it stopped. */
  datatype Cycle = Cycle(
    objects: map<string, Blob>,
    log: seq<Request>,
    reports: seq<Report>,
    videoCalls: seq<string>,
    halt: Option<Halt>)

  function Reported(c: Cycle, key: string, outcome: Outcome): Cycle {
    c.(reports := c.reports + [Report(key, outcome)])
  }

  function Halted(c: Cycle, h: Halt): Cycle {
    c.(halt := Some(h))
  }

  /** The upload of a watermarked result under `dest`, public-read, without a content type. */
  function Upload(c: Cycle, dest: string, body: seq<byte>, reaches: bool): Cycle {
    var blob := Blob(body, PublicRead, None);
    c.(log := c.log + [PutReq(dest, blob)], objects := if reaches then c.objects[dest := blob] else c.objects)
  }

  /** The image arm: decode, place the diagonal text, encode at quality 85, upload; every failure ends the cycle. */
  function ImageStep(c: Cycle, key: string, io: KeyIo, dest: string, body: seq<byte>, codecs: Codecs): Cycle {
    match codecs.decode(body)
    case None => Halted(c, Aborted(DecodeFailed(key)))
    case Some(d) =>
      if d.width < 3 || d.height < 3 then Halted(c, Panicked(key))
      else
        match codecs.encodeJpeg(body, Placement(d.width, d.height, codecs.rotate), JpegQuality)
        case None => Halted(c, Aborted(EncodeFailed(key)))
        case Some(jpeg) =>
          var put := Upload(c, dest, jpeg, io.putReaches);
          if io.putReaches then Reported(put, key, Uploaded(dest)) else Halted(put, Aborted(UploadFailed(key)))
  }

  /** The video arm: the size cap, then `watermark_video` under its timeout, then the upload; every failure moves on. */
  function VideoStep(c: Cycle, key: string, io: KeyIo, dest: string, body: seq<byte>): Cycle {
    if Oversize(|body|) then Reported(c, key, SkippedOversize)
    else
      var called := c.(videoCalls := c.videoCalls + [key]);
      match io.video
      case TimedOut => Reported(called, key, FailedTimeout)
      case Finished(run) =>
        match WatermarkVideo(run)
        case Err(e) => Reported(called, key, FailedTransform(e))
        case Ok(v) =>
          var put := Upload(called, dest, v, io.putReaches);
          Reported(put, key, if io.putReaches then Uploaded(dest) else FailedUpload)
  }

  /** The `match` on the lower-cased extension of the downloaded object. */
  function Dispatch(c: Cycle, item: Listed, dest: string, body: seq<byte>, codecs: Codecs): Cycle
    requires FileName(item.key).Some?
  {
    match Kind(Extension(FileName(item.key).value))
    case Image => ImageStep(c, item.key, item.io, dest, body, codecs)
    case Video => VideoStep(c, item.key, item.io, dest, body)
    case Unsupported => Reported(c, item.key, SkippedUnsupported)
  }

  /** One pass of the loop body; a stopped cycle does nothing more. */
  function Step(c: Cycle, item: Listed, codecs: Codecs): Cycle {
    if c.halt.Some? then c
    else if EndsWith(item.key, "/") then Reported(c, item.key, SkippedDirectory)
    else
      match DestKey(item.key)
      case None => Halted(c, Panicked(item.key))
      case Some(dest) =>
        var probed := c.(log := c.log + [HeadReq(dest)]);
        if item.io.headReaches && dest in c.objects then Reported(probed, item.key, SkippedExisting)
        else
          var fetched := probed.(log := probed.log + [GetReq(item.key)]);
          if !(item.io.getReaches && item.key in c.objects) then Halted(fetched, Aborted(DownloadFailed(item.key)))
          else Dispatch(fetched, item, dest, c.objects[item.key].body, codecs)
  }

  /** The loop over the listing, one `Step` per listed object in order. */
  function RunItems(c: Cycle, items: seq<Listed>, codecs: Codecs): Cycle
    decreases |items|
  {
    if items == [] then c
    else Step(RunItems(c, items[..|items| - 1], codecs), items[|items| - 1], codecs)
  }

  /** The first of the three connection variables that is not set, if any. */
  function MissingVar(env: map<string, string>): Option<string> {
    if EndpointVar !in env then Some(EndpointVar)
    else if KeyVar !in env then Some(KeyVar)
    else if SecretVar !in env then Some(SecretVar)
    else None
  }

  function Start(objects: map<string, Blob>, log: seq<Request>): Cycle {
    Cycle(objects, log, [], [], None)
  }

  /** A whole cycle: configuration, the single listing request, then the loop. */
  function RunCycle(objects: map<string, Blob>, log: seq<Request>, env: map<string, string>,
                    listing: Option<seq<Listed>>, codecs: Codecs): Cycle
  {
    match MissingVar(env)
    case Some(name) => Halted(Start(objects, log), Aborted(MissingEnv(name)))
    case None =>
      match listing
      case None => Halted(Start(objects, log), Aborted(ListFailed))
      case Some(items) => RunItems(Start(objects, log), items, codecs)
  }

  function ResultOf(c: Cycle): CycleResult {
    match c.halt
    case None => Completed
    case Some(Aborted(e)) => Failed(e)
    case Some(Panicked(k)) => Crashed(k)
  }

  /**
   * `process_files`: check the configuration, list once, then handle each
   * listed object in order, returning early on `?` errors and panics.
   */
  method ProcessFiles(store: Store, env: map<string, string>, listing: Option<seq<Listed>>, codecs: Codecs)
    returns (result: CycleResult, reports: seq<Report>, videoCalls: seq<string>)
    modifies store
    ensures var c := RunCycle(old(store.objects), old(store.log), env, listing, codecs);
            && store.objects == c.objects && store.log == c.log
            && reports == c.reports && videoCalls == c.videoCalls
            && result == ResultOf(c)
  {
    reports := [];
    videoCalls := [];
    var missing := MissingVar(env);
    if missing.Some? {
      return Failed(MissingEnv(missing.value)), reports, videoCalls;
    }
    if listing.None? {
      return Failed(ListFailed), reports, videoCalls;
    }
    var items := listing.value;
    ghost var start := Start(store.objects, store.log);
    var i := 0;
    while i < |items|
      invariant 0 <= i <= |items|
      invariant RunItems(start, items[..i], codecs) == Cycle(store.objects, store.log, reports, videoCalls, None)
    {
      var halt;
      halt, reports, videoCalls := ProcessItem(store, items[i], codecs, reports, videoCalls);
      RunItemsNext(start, items, i, codecs);
      if halt.Some? {
        AbortFreezesRest(start, items, i + 1, codecs);
        return ResultOf(Cycle(store.objects, store.log, reports, videoCalls, halt)), reports, videoCalls;
      }
      i := i + 1;
    }
    assert items[..i] == items;
    result := Completed;
  }

  lemma RunItemsNext(c: Cycle, items: seq<Listed>, i: nat, codecs: Codecs)
    requires i < |items|
    ensures RunItems(c, items[..i + 1], codecs) == Step(RunItems(c, items[..i], codecs), items[i], codecs)
  {
    assert items[..i + 1][..i] == items[..i];
  }

  /** The loop body for one listed object. */
  method ProcessItem(store: Store, item: Listed, codecs: Codecs, reports0: seq<Report>, calls0: seq<string>)
    returns (halt: Option<Halt>, reports: seq<Report>, videoCalls: seq<string>)
    modifies store
    ensures Cycle(store.objects, store.log, reports, videoCalls, halt)
         == Step(Cycle(old(store.objects), old(store.log), reports0, calls0, None), item, codecs)
  {
    ghost var c := Cycle(store.objects, store.log, reports0, calls0, None);
    var key := item.key;
    reports, videoCalls, halt := reports0, calls0, None;
    if EndsWith(key, "/") {
      reports := reports + [Report(key, SkippedDirectory)];
      return;
    }
    var destKey := DestKey(key);
    if destKey.None? {
      halt := Some(Panicked(key));
      return;
    }
    var dest := destKey.value;
    var existing := store.Head(dest, item.io.headReaches);
    if existing {
      reports := reports + [Report(key, SkippedExisting)];
      return;
    }
    var body := store.Get(key, item.io.getReaches);
    if body.None? {
      halt := Some(Aborted(DownloadFailed(key)));
      return;
    }
    ghost var fetched := Cycle(store.objects, store.log, reports, videoCalls, None);
    var ext := Extension(FileName(key).value);
    match Kind(ext)
    case Image =>
      halt, reports := ProcessImage(store, key, item.io, dest, body.value, codecs, reports, videoCalls);
    case Video =>
      reports, videoCalls := ProcessVideo(store, key, item.io, dest, body.value, reports, videoCalls);
    case Unsupported =>
      reports := reports + [Report(key, SkippedUnsupported)];
  }

  /** The image arm of the loop body. */
  method ProcessImage(store: Store, key: string, io: KeyIo, dest: string, body: seq<byte>, codecs: Codecs,
                      reports0: seq<Report>, calls: seq<string>)
    returns (halt: Option<Halt>, reports: seq<Report>)
    modifies store
    ensures Cycle(store.objects, store.log, reports, calls, halt)
         == ImageStep(Cycle(old(store.objects), old(store.log), reports0, calls, None), key, io, dest, body, codecs)
  {
    reports, halt := reports0, None;
    var dims := codecs.decode(body);
    if dims.None? {
      halt := Some(Aborted(DecodeFailed(key)));
      return;
    }
    var w, h := dims.value.width, dims.value.height;
    if w < 3 || h < 3 {
      halt := Some(Panicked(key));
      return;
    }
    var anchors := DiagonalAnchors(w, h, codecs.rotate);
    var jpeg := codecs.encodeJpeg(body, anchors, JpegQuality);
    if jpeg.None? {
      halt := Some(Aborted(EncodeFailed(key)));
      return;
    }
    var ok := store.Put(dest, Blob(jpeg.value, PublicRead, None), io.putReaches);
    if !ok {
      halt := Some(Aborted(UploadFailed(key)));
      return;
    }
    reports := reports + [Report(key, Uploaded(dest))];
  }

  /** The video arm of the loop body: every failure is reported and the loop moves on. */
  method ProcessVideo(store: Store, key: string, io: KeyIo, dest: string, body: seq<byte>,
                      reports0: seq<Report>, calls0: seq<string>)
    returns (reports: seq<Report>, videoCalls: seq<string>)
    modifies store
    ensures Cycle(store.objects, store.log, reports, videoCalls, None)
         == VideoStep(Cycle(old(store.objects), old(store.log), reports0, calls0, None), key, io, dest, body)
  {
    reports, videoCalls := reports0, calls0;
    if |body| > MaxVideoBytes {
      OversizeExactly(|body|);
      reports := reports + [Report(key, SkippedOversize)];
      return;
    }
    OversizeExactly(|body|);
    videoCalls := videoCalls + [key];
    var content;
    match io.video {
      case TimedOut =>
        reports := reports + [Report(key, FailedTimeout)];
        return;
      case Finished(run) =>
        var r := WatermarkVideo(run);
        if r.Err? {
          reports := reports + [Report(key, FailedTransform(r.error))];
          return;
        }
        content := r.value;
    }
    var ok := store.Put(dest, Blob(content, PublicRead, None), io.putReaches);
    if !ok {
      reports := reports + [Report(key, FailedUpload)];
      return;
    }
    reports := reports + [Report(key, Uploaded(dest))];
  }

  // ---------------------------------------------------------------------------
  // What a cycle does, as properties of `Step` and `RunItems`.

  /** Running two stretches of the listing one after the other is running them together. */
  lemma {:induction false} RunItemsAppend(c: Cycle, a: seq<Listed>, b: seq<Listed>, codecs: Codecs)
    ensures RunItems(c, a + b, codecs) == RunItems(RunItems(c, a, codecs), b, codecs)
    decreases |b|
  {
    if b == [] {
      assert a + b == a;
    } else {
      var b' := b[..|b| - 1];
      assert (a + b)[..|a + b| - 1] == a + b';
      assert (a + b)[|a + b| - 1] == b[|b| - 1];
      RunItemsAppend(c, a, b', codecs);
    }
  }

  /** A cycle that has stopped stays as it is whatever else is listed. */
  lemma {:induction false} HaltedStays(c: Cycle, items: seq<Listed>, codecs: Codecs)
    requires c.halt.Some?
    ensures RunItems(c, items, codecs) == c
    decreases |items|
  {
    if items != [] {
      HaltedStays(c, items[..|items| - 1], codecs);
    }
  }

  /**
   * An error or a panic while handling the `n`-th listed key ends the cycle:
   * the store, the log and the reports are what they were at that moment,
   * so no later key is probed, downloaded or written.
   */
  lemma AbortFreezesRest(c: Cycle, items: seq<Listed>, n: nat, codecs: Codecs)
    requires n <= |items|
    requires RunItems(c, items[..n], codecs).halt.Some?
    ensures RunItems(c, items, codecs) == RunItems(c, items[..n], codecs)
  {
    assert items == items[..n] + items[n..];
    RunItemsAppend(c, items[..n], items[n..], codecs);
    HaltedStays(RunItems(c, items[..n], codecs), items[n..], codecs);
  }

  /**
   * A step changes the store only by writing the destination key of its
   * own listed key, public-read, and such a write is reported as that key's
   * upload; nothing is ever deleted.
   */
  lemma StepWritesOnlyDest(c: Cycle, item: Listed, codecs: Codecs)
    ensures c.objects.Keys <= Step(c, item, codecs).objects.Keys
    ensures var c' := Step(c, item, codecs);
            c'.objects != c.objects ==>
              && DestKey(item.key).Some?
              && var dest := DestKey(item.key).value;
              && dest in c'.objects
              && c'.objects == c.objects[dest := c'.objects[dest]]
              && c'.objects[dest].acl == PublicRead
              && c'.reports == c.reports + [Report(item.key, Uploaded(dest))]
  {
    if c.halt.None? && !EndsWith(item.key, "/") && DestKey(item.key).Some? {
      var dest := DestKey(item.key).value;
      var probed := c.(log := c.log + [HeadReq(dest)]);
      if !(item.io.headReaches && dest in c.objects) && item.io.getReaches && item.key in c.objects {
        var fetched := probed.(log := probed.log + [GetReq(item.key)]);
        var body := c.objects[item.key].body;
        match Kind(Extension(FileName(item.key).value))
        case Image => ImageWritesOnly(fetched, item.key, item.io, dest, body, codecs);
        case Video => VideoWritesOnly(fetched, item.key, item.io, dest, body);
        case Unsupported =>
      }
    }
  }

  /** `c'` differs from `c` in its store at most by a public-read object under `dest`, reported as uploaded. */
  ghost predicate WritesOnly(c: Cycle, c': Cycle, key: string, dest: string) {
    && c.objects.Keys <= c'.objects.Keys
    && (c'.objects != c.objects ==>
          && dest in c'.objects
          && c'.objects == c.objects[dest := c'.objects[dest]]
          && c'.objects[dest].acl == PublicRead
          && c'.reports == c.reports + [Report(key, Uploaded(dest))])
  }

  lemma ImageWritesOnly(c: Cycle, key: string, io: KeyIo, dest: string, body: seq<byte>, codecs: Codecs)
    ensures WritesOnly(c, ImageStep(c, key, io, dest, body, codecs), key, dest)
  {
  }

  lemma VideoWritesOnly(c: Cycle, key: string, io: KeyIo, dest: string, body: seq<byte>)
    ensures WritesOnly(c, VideoStep(c, key, io, dest, body), key, dest)
  {
  }

  /**
   * Over any stretch of the listing, keys outside "watermarks/" keep their
   * objects, every new key lies under "watermarks/", and nothing is deleted.
   */
  lemma {:induction false} RunWritesOnlyWatermarks(c: Cycle, items: seq<Listed>, codecs: Codecs)
    ensures var c' := RunItems(c, items, codecs);
            && c.objects.Keys <= c'.objects.Keys
            && (forall k :: k in c.objects && !StartsWith(k, WatermarksPrefix) ==> c'.objects[k] == c.objects[k])
            && (forall k :: k in c'.objects && k !in c.objects ==> StartsWith(k, WatermarksPrefix))
    decreases |items|
  {
    if items != [] {
      var prev := RunItems(c, items[..|items| - 1], codecs);
      var item := items[|items| - 1];
      RunWritesOnlyWatermarks(c, items[..|items| - 1], codecs);
      StepWritesOnlyDest(prev, item, codecs);
      if Step(prev, item, codecs).objects != prev.objects {
        DestKeyOutsideOriginals(item.key);
      }
    }
  }

  /** A cycle never creates, changes or removes anything under "originals/". */
  lemma OriginalsUntouched(objects: map<string, Blob>, log: seq<Request>, env: map<string, string>,
                           listing: Option<seq<Listed>>, codecs: Codecs)
    ensures var after := RunCycle(objects, log, env, listing, codecs).objects;
            forall k :: StartsWith(k, OriginalsPrefix) ==> (k in after <==> k in objects) && (k in objects ==> after[k] == objects[k])
  {
    var after := RunCycle(objects, log, env, listing, codecs).objects;
    if MissingVar(env).None? && listing.Some? {
      RunWritesOnlyWatermarks(Start(objects, log), listing.value, codecs);
      OriginalsKept(objects, after);
    }
  }

  lemma OriginalsKept(before: map<string, Blob>, after: map<string, Blob>)
    requires before.Keys <= after.Keys
    requires forall k :: k in before && !StartsWith(k, WatermarksPrefix) ==> after[k] == before[k]
    requires forall k :: k in after && k !in before ==> StartsWith(k, WatermarksPrefix)
    ensures forall k :: StartsWith(k, OriginalsPrefix) ==> (k in after <==> k in before) && (k in before ==> after[k] == before[k])
  {
    forall k | StartsWith(k, OriginalsPrefix) ensures !StartsWith(k, WatermarksPrefix) {
      assert k[0] == 'o';
    }
  }

  /** A directory placeholder is reported and left alone: no probe, no download, no write. */
  lemma DirectorySkipped(c: Cycle, item: Listed, codecs: Codecs)
    requires c.halt.None? && EndsWith(item.key, "/")
    ensures Step(c, item, codecs) == c.(reports := c.reports + [Report(item.key, SkippedDirectory)])
  {
  }

  /** A key whose destination the probe finds is skipped after that probe: no download, no write. */
  lemma ExistingSkipped(c: Cycle, item: Listed, dest: string, codecs: Codecs)
    requires c.halt.None? && !EndsWith(item.key, "/")
    requires DestKey(item.key) == Some(dest) && item.io.headReaches && dest in c.objects
    ensures Step(c, item, codecs) == c.(log := c.log + [HeadReq(dest)], reports := c.reports + [Report(item.key, SkippedExisting)])
  {
  }

  /**
   * After a successful download the lower-cased extension decides: anything
   * but jpg/jpeg/png/mp4/mov/webm is reported and nothing is written, and a
   * video over 100 MiB is reported without a call of `watermark_video`.
   */
  lemma DispatchWritesNothingWhenSkipped(c: Cycle, item: Listed, dest: string, body: seq<byte>, codecs: Codecs)
    requires FileName(item.key).Some?
    requires var kind := Kind(Extension(FileName(item.key).value));
             kind == Unsupported || (kind == Video && |body| > MaxVideoBytes)
    ensures var c' := Dispatch(c, item, dest, body, codecs);
            && c'.objects == c.objects && c'.log == c.log && c'.videoCalls == c.videoCalls && c'.halt == c.halt
            && c'.reports == c.reports + [Report(item.key,
                 if Kind(Extension(FileName(item.key).value)) == Unsupported then SkippedUnsupported else SkippedOversize)]
  {
    OversizeExactly(|body|);
  }

  /**
   * A key with no file name makes `file_name().unwrap()` panic before any
   * request is made: the cycle stops with a panic at that key.
   */
  lemma NoFileNamePanics(c: Cycle, item: Listed, codecs: Codecs)
    requires c.halt.None? && !EndsWith(item.key, "/") && DestKey(item.key).None?
    ensures Step(c, item, codecs) == c.(halt := Some(Panicked(item.key)))
    ensures ResultOf(Step(c, item, codecs)) == Crashed(item.key)
  {
  }

  /** So a listed key ending in "/.." panics the cycle, and with it the continuous worker. */
  lemma DotDotKeyPanics(c: Cycle, dir: string, io: KeyIo, codecs: Codecs)
    requires c.halt.None?
    ensures Step(c, Listed(dir + "/..", io), codecs) == c.(halt := Some(Panicked(dir + "/..")))
  {
    DestKeyDotDot(dir);
    var key := dir + "/..";
    assert !EndsWith(key, "/") by {
      assert key[|key| - 1] == '.';
    }
    NoFileNamePanics(c, Listed(key, io), codecs);
  }

  /**
   * A download that fails, or an object that is gone by the time it is
   * fetched, ends the whole cycle with that error after the probe and the
   * download request, whatever the object's kind.
   */
  lemma DownloadFailureHalts(c: Cycle, item: Listed, dest: string, codecs: Codecs)
    requires c.halt.None? && !EndsWith(item.key, "/") && DestKey(item.key) == Some(dest)
    requires !(item.io.headReaches && dest in c.objects)
    requires !(item.io.getReaches && item.key in c.objects)
    ensures Step(c, item, codecs)
         == c.(log := c.log + [HeadReq(dest), GetReq(item.key)], halt := Some(Aborted(DownloadFailed(item.key))))
    ensures ResultOf(Step(c, item, codecs)) == Failed(DownloadFailed(item.key))
  {
    assert c.log + [HeadReq(dest)] + [GetReq(item.key)] == c.log + [HeadReq(dest), GetReq(item.key)];
  }

  /**
   * A decoded image with a side below 3 pixels makes `step_by(0)` panic:
   * the cycle stops with a panic, not an error, and nothing is encoded,
   * written or reported.
   */
  lemma SmallImagePanics(c: Cycle, key: string, io: KeyIo, dest: string, body: seq<byte>, codecs: Codecs)
    requires codecs.decode(body).Some?
    requires codecs.decode(body).value.width < 3 || codecs.decode(body).value.height < 3
    ensures ImageStep(c, key, io, dest, body, codecs) == c.(halt := Some(Panicked(key)))
    ensures ResultOf(ImageStep(c, key, io, dest, body, codecs)) == Crashed(key)
  {
  }

  /** Every failure on the video path is reported and the cycle goes on. */
  lemma VideoNeverHalts(c: Cycle, key: string, io: KeyIo, dest: string, body: seq<byte>)
    ensures VideoStep(c, key, io, dest, body).halt == c.halt
    ensures |body| <= MaxVideoBytes ==> VideoStep(c, key, io, dest, body).videoCalls == c.videoCalls + [key]
    ensures |body| > MaxVideoBytes ==> VideoStep(c, key, io, dest, body).videoCalls == c.videoCalls
  {
    OversizeExactly(|body|);
  }

  /**
   * On the image path the cycle goes on only when decoding, placement,
   * encoding and the upload all succeed; the upload is then the JPEG of the
   * image with the diagonal anchors, at quality 85, public-read.
   */
  lemma ImageHaltsUnlessUploaded(c: Cycle, key: string, io: KeyIo, dest: string, body: seq<byte>, codecs: Codecs)
    requires c.halt.None?
    ensures var c' := ImageStep(c, key, io, dest, body, codecs);
            c'.halt.None? <==>
              && codecs.decode(body).Some?
              && var d := codecs.decode(body).value;
              && d.width >= 3 && d.height >= 3
              && codecs.encodeJpeg(body, Placement(d.width, d.height, codecs.rotate), JpegQuality).Some?
              && io.putReaches
    ensures var c' := ImageStep(c, key, io, dest, body, codecs);
            c'.halt.None? ==>
              var d := codecs.decode(body).value;
              c'.objects == c.objects[dest := Blob(codecs.encodeJpeg(body, Placement(d.width, d.height, codecs.rotate), 85).value, PublicRead, None)]
  {
  }

  /** Every upload reported so far was of a non-directory key, to that key's destination, which the store now holds. */
  ghost predicate UploadsStored(c: Cycle) {
    UploadsPresent(c) && UploadsToDest(c)
  }

  ghost predicate UploadsPresent(c: Cycle) {
    forall r :: r in c.reports && r.outcome.Uploaded? ==> r.outcome.dest in c.objects
  }

  ghost predicate UploadsToDest(c: Cycle) {
    forall r :: r in c.reports && r.outcome.Uploaded? ==> !EndsWith(r.key, "/") && DestKey(r.key) == Some(r.outcome.dest)
  }

  /** A report added by the dispatch is the key's only report, and an upload is of the destination just written. */
  lemma DispatchReport(c: Cycle, item: Listed, dest: string, body: seq<byte>, codecs: Codecs)
    requires FileName(item.key).Some?
    ensures var c' := Dispatch(c, item, dest, body, codecs);
            && |c.reports| <= |c'.reports| <= |c.reports| + 1 && c'.reports[..|c.reports|] == c.reports
            && (|c'.reports| > |c.reports| ==> c'.reports[|c.reports|].key == item.key)
            && (|c'.reports| > |c.reports| && c'.reports[|c.reports|].outcome.Uploaded? ==>
                  c'.reports[|c.reports|].outcome.dest == dest && dest in c'.objects)
  {
    match Kind(Extension(FileName(item.key).value))
    case Image => ImageReport(c, item.key, item.io, dest, body, codecs);
    case Video => VideoReport(c, item.key, item.io, dest, body);
    case Unsupported =>
  }

  /** `c'` has at most one report more than `c`, about `key`, and an upload report names `dest`, which `c'` holds. */
  ghost predicate ReportsOne(c: Cycle, c': Cycle, key: string, dest: string) {
    && |c.reports| <= |c'.reports| <= |c.reports| + 1 && c'.reports[..|c.reports|] == c.reports
    && (|c'.reports| > |c.reports| ==> c'.reports[|c.reports|].key == key)
    && (|c'.reports| > |c.reports| && c'.reports[|c.reports|].outcome.Uploaded? ==>
          c'.reports[|c.reports|].outcome.dest == dest && dest in c'.objects)
  }

  lemma ImageReport(c: Cycle, key: string, io: KeyIo, dest: string, body: seq<byte>, codecs: Codecs)
    ensures ReportsOne(c, ImageStep(c, key, io, dest, body, codecs), key, dest)
  {
  }

  lemma VideoReport(c: Cycle, key: string, io: KeyIo, dest: string, body: seq<byte>)
    ensures ReportsOne(c, VideoStep(c, key, io, dest, body), key, dest)
  {
  }

  /**
   * How one step may change the reports: it adds at most one, about its own
   * key; an upload report names that key's destination, which the store now
   * holds and which was absent when a probe reached the service. The store
   * only grows.
   */
  ghost predicate StepShape(c: Cycle, c': Cycle, item: Listed) {
    && Appended(c, c', item)
    && (|c'.reports| > |c.reports| && c'.reports[|c.reports|].outcome.Uploaded? ==>
          !EndsWith(item.key, "/") && DestKey(item.key) == Some(c'.reports[|c.reports|].outcome.dest))
  }

  ghost predicate Appended(c: Cycle, c': Cycle, item: Listed) {
    && c.objects.Keys <= c'.objects.Keys
    && |c.reports| <= |c'.reports| <= |c.reports| + 1 && c'.reports[..|c.reports|] == c.reports
    && (|c'.reports| > |c.reports| ==> c'.reports[|c.reports|].key == item.key)
    && (|c'.reports| > |c.reports| && c'.reports[|c.reports|].outcome.Uploaded? ==>
          var dest := c'.reports[|c.reports|].outcome.dest;
          dest in c'.objects && (item.io.headReaches ==> dest !in c.objects))
  }

  lemma StepReport(c: Cycle, item: Listed, codecs: Codecs)
    ensures StepShape(c, Step(c, item, codecs), item)
  {
    StepWritesOnlyDest(c, item, codecs);
    if c.halt.None? && !EndsWith(item.key, "/") && DestKey(item.key).Some? {
      var dest := DestKey(item.key).value;
      if !(item.io.headReaches && dest in c.objects) && item.io.getReaches && item.key in c.objects {
        var fetched := c.(log := c.log + [HeadReq(dest)]).(log := c.log + [HeadReq(dest)] + [GetReq(item.key)]);
        DispatchReport(fetched, item, dest, c.objects[item.key].body, codecs);
      }
    }
  }

  lemma StoredAfterStep(c: Cycle, c': Cycle, item: Listed)
    requires UploadsStored(c) && StepShape(c, c', item)
    ensures UploadsStored(c')
  {
    forall r | r in c'.reports && r.outcome.Uploaded?
      ensures !EndsWith(r.key, "/") && DestKey(r.key) == Some(r.outcome.dest) && r.outcome.dest in c'.objects
    {
      var i :| 0 <= i < |c'.reports| && c'.reports[i] == r;
      if i < |c.reports| {
        assert c.reports[i] == r;
        assert r in c.reports;
      }
    }
  }

  lemma StepKeepsUploadsStored(c: Cycle, item: Listed, codecs: Codecs)
    requires UploadsStored(c)
    ensures UploadsStored(Step(c, item, codecs))
  {
    StepReport(c, item, codecs);
    StoredAfterStep(c, Step(c, item, codecs), item);
  }

  lemma {:induction false} RunKeepsUploadsStored(c: Cycle, items: seq<Listed>, codecs: Codecs)
    requires UploadsStored(c)
    ensures UploadsStored(RunItems(c, items, codecs))
    decreases |items|
  {
    if items != [] {
      RunKeepsUploadsStored(c, items[..|items| - 1], codecs);
      StepKeepsUploadsStored(RunItems(c, items[..|items| - 1], codecs), items[|items| - 1], codecs);
    }
  }

  /**
   * Idempotence across cycles: a key uploaded in one cycle is, in the next
   * cycle on the resulting store, skipped at its probe (when the probe
   * reaches the service), with no second download or write.
   */
  lemma NextCycleSkipsUploaded(objects: map<string, Blob>, log: seq<Request>, first: seq<Listed>,
                               second: seq<Listed>, n: nat, dest: string, codecs: Codecs)
    requires n < |second| && second[n].io.headReaches
    requires Report(second[n].key, Uploaded(dest)) in RunItems(Start(objects, log), first, codecs).reports
    requires var c1 := RunItems(Start(objects, log), first, codecs);
             RunItems(Start(c1.objects, c1.log), second[..n], codecs).halt.None?
    ensures var c1 := RunItems(Start(objects, log), first, codecs);
            var c2 := RunItems(Start(c1.objects, c1.log), second[..n], codecs);
            Step(c2, second[n], codecs) == c2.(log := c2.log + [HeadReq(dest)], reports := c2.reports + [Report(second[n].key, SkippedExisting)])
  {
    var c1 := RunItems(Start(objects, log), first, codecs);
    RunKeepsUploadsStored(Start(objects, log), first, codecs);
    var r := Report(second[n].key, Uploaded(dest));
    assert r in c1.reports;
    var c2 := RunItems(Start(c1.objects, c1.log), second[..n], codecs);
    RunWritesOnlyWatermarks(Start(c1.objects, c1.log), second[..n], codecs);
    ExistingSkipped(c2, second[n], dest, codecs);
  }

  /** The destinations of the uploads reported so far are pairwise different. */
  ghost predicate UploadsDistinct(c: Cycle) {
    forall i, j :: 0 <= i < j < |c.reports| && c.reports[i].outcome.Uploaded? && c.reports[j].outcome.Uploaded? ==>
      c.reports[i].outcome.dest != c.reports[j].outcome.dest
  }

  lemma DistinctAfterStep(c: Cycle, c': Cycle, item: Listed)
    requires UploadsPresent(c) && UploadsDistinct(c) && item.io.headReaches && Appended(c, c', item)
    ensures UploadsDistinct(c')
  {
    var n := |c.reports|;
    forall i, j | 0 <= i < j < |c'.reports| && c'.reports[i].outcome.Uploaded? && c'.reports[j].outcome.Uploaded?
      ensures c'.reports[i].outcome.dest != c'.reports[j].outcome.dest
    {
      assert c'.reports[i] == c.reports[i];
      if j < n {
        assert c'.reports[j] == c.reports[j];
      } else {
        assert c.reports[i] in c.reports;
      }
    }
  }

  lemma StepKeepsUploadsDistinct(c: Cycle, item: Listed, codecs: Codecs)
    requires UploadsStored(c) && UploadsDistinct(c) && item.io.headReaches
    ensures UploadsDistinct(Step(c, item, codecs))
  {
    StepReport(c, item, codecs);
    DistinctAfterStep(c, Step(c, item, codecs), item);
  }

  lemma {:induction false} RunKeepsUploadsDistinct(c: Cycle, items: seq<Listed>, codecs: Codecs)
    requires UploadsStored(c) && UploadsDistinct(c)
    requires forall i :: 0 <= i < |items| ==> items[i].io.headReaches
    ensures UploadsDistinct(RunItems(c, items, codecs))
    decreases |items|
  {
    if items != [] {
      var prefix := items[..|items| - 1];
      RunKeepsUploadsDistinct(c, prefix, codecs);
      RunKeepsUploadsStored(c, prefix, codecs);
      StepKeepsUploadsDistinct(RunItems(c, prefix, codecs), items[|items| - 1], codecs);
    }
  }

  /**
   * When every probe reaches the service, one cycle writes each destination
   * at most once, even where several originals share a last path segment.
   */
  lemma OneUploadPerDestination(objects: map<string, Blob>, log: seq<Request>, items: seq<Listed>, codecs: Codecs)
    requires forall i :: 0 <= i < |items| ==> items[i].io.headReaches
    ensures UploadsDistinct(RunItems(Start(objects, log), items, codecs))
  {
    RunKeepsUploadsDistinct(Start(objects, log), items, codecs);
  }
}
