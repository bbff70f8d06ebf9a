/**
 * The earlier Python worker, app.py: list every non-directory key under
 * "originals/" page by page, and for each, in order, skip it when its
 * watermark key exists, otherwise download it, sniff its type, watermark
 * images and videos, upload the result public-read with a content type, and
 * print the public URL. Nothing catches an exception in `main`, so the
 * first one ends the run. Sniffing, PIL and ffmpeg are inputs.
 */
module PyWorker {
  import opened Common
  import opened Text
  import opened PyPath
  import opened ObjectStore

  const ImageContentType := "image/jpeg"
  const VideoContentType := "video/mp4"

  /**
   * For one key: whether `head_object` gets an answer from the service (a
   * missing key is then a `ClientError`, which is caught; a connection
   * failure is not), whether the download and the upload reach it, and what
   * the ffmpeg job yields (`None` when it raises).
   */
  datatype PyIo = PyIo(headReaches: bool, getReaches: bool, putReaches: bool, video: Option<seq<byte>>)

  datatype PyListed = PyListed(key: string, io: PyIo)

  /** `filetype.guess` (the MIME type, or `None` when unknown) and the PIL watermarking (`None` when it raises). */
  datatype PyCodecs = PyCodecs(sniff: seq<byte> -> Option<string>, render: seq<byte> -> Option<seq<byte>>)

  /** How `process_file` returned normally. */
  datatype PyOutcome =
    | AlreadyExists(watermarkKey: string)
    | UnknownType
    | UnsupportedType(mime: string)
    | Published(watermarkKey: string, url: string)

  /** Which call raised. */
  datatype PyError = HeadFailed | DownloadFailed | RenderFailed | TranscodeFailed | UploadFailed | EndpointUnset

  datatype Raised = Raised(key: string, error: PyError)

  /** The store, the normal returns so far, and the exception that ended the run, if any. */
  datatype PyRun = PyRun(objects: map<string, Blob>, log: seq<Request>, outcomes: seq<(string, PyOutcome)>, raised: Option<Raised>)

  // ---------------------------------------------------------------------------
  // Listing

  /** The keys of one page that do not end in '/', in page order. */
  function Keep(page: seq<PyListed>): seq<PyListed> {
    if page == [] then []
    else Keep(page[..|page| - 1]) + (if EndsWith(page[|page| - 1].key, "/") then [] else [page[|page| - 1]])
  }

  /** What `list_originals` yields: each page's kept keys, page after page. */
  function Originals(pages: seq<seq<PyListed>>): seq<PyListed> {
    if pages == [] then [] else Originals(pages[..|pages| - 1]) + Keep(pages[|pages| - 1])
  }

  /** `list_originals`: the two nested loops of the generator, collected. */
  method ListOriginals(pages: seq<seq<PyListed>>) returns (keys: seq<PyListed>)
    ensures keys == Originals(pages)
  {
    keys := [];
    for p := 0 to |pages|
      invariant keys == Originals(pages[..p])
    {
      var page := pages[p];
      ghost var before := keys;
      for j := 0 to |page|
        invariant keys == before + Keep(page[..j])
      {
        if !EndsWith(page[j].key, "/") {
          keys := keys + [page[j]];
        }
        assert page[..j + 1][..j] == page[..j];
      }
      assert page[..|page|] == page;
      assert pages[..p + 1][..p] == pages[..p];
    }
    assert pages[..|pages|] == pages;
  }

  /** A listed object is kept exactly when its key does not end in '/'. */
  lemma {:induction false} KeepMembers(page: seq<PyListed>, x: PyListed)
    ensures x in Keep(page) <==> x in page && !EndsWith(x.key, "/")
    decreases |page|
  {
    if page != [] {
      var init := page[..|page| - 1];
      KeepMembers(init, x);
      assert page == init + [page[|page| - 1]];
    }
  }

  /** Kept keys come in page order: keeping a page split in two keeps each part in turn. */
  lemma {:induction false} KeepAppend(a: seq<PyListed>, b: seq<PyListed>)
    ensures Keep(a + b) == Keep(a) + Keep(b)
    decreases |b|
  {
    if b != [] {
      var b' := b[..|b| - 1];
      assert (a + b)[..|a + b| - 1] == a + b';
      KeepAppend(a, b');
    } else {
      assert a + b == a;
    }
  }

  /** A listed object is yielded exactly when it is on some page and its key does not end in '/'. */
  lemma {:induction false} OriginalsMembers(pages: seq<seq<PyListed>>, x: PyListed)
    ensures x in Originals(pages) <==> (exists p :: 0 <= p < |pages| && x in pages[p]) && !EndsWith(x.key, "/")
    decreases |pages|
  {
    if pages != [] {
      var init := pages[..|pages| - 1];
      OriginalsMembers(init, x);
      KeepMembers(pages[|pages| - 1], x);
      if exists p :: 0 <= p < |pages| && x in pages[p] {
        var p :| 0 <= p < |pages| && x in pages[p];
        if p < |pages| - 1 {
          assert x in init[p];
        }
      }
      if exists p :: 0 <= p < |init| && x in init[p] {
        var p :| 0 <= p < |init| && x in init[p];
        assert x in pages[p];
      }
    }
  }

  // ---------------------------------------------------------------------------
  // One key

  /** The store after `process_file(key)`, and how the call ended: a normal return or an exception. */
  datatype FileRun = FileRun(objects: map<string, Blob>, log: seq<Request>, result: Result<PyOutcome, PyError>)

  /** `s3.put_object(... ACL="public-read", ContentType=...)` and the public URL formed after it. */
  function Publish(objects: map<string, Blob>, log: seq<Request>, wk: string, result: seq<byte>, contentType: string,
                   reaches: bool, endpoint: Option<string>): FileRun
  {
    var blob := Blob(result, PublicRead, Some(contentType));
    var log' := log + [PutReq(wk, blob)];
    if !reaches then FileRun(objects, log', Err(UploadFailed))
    else
      match PublicUrl(endpoint, wk)
      case None => FileRun(objects[wk := blob], log', Err(EndpointUnset))
      case Some(url) => FileRun(objects[wk := blob], log', Ok(Published(wk, url)))
  }

  /** `process_file` after the download: the sniffed type decides. */
  function Convert(objects: map<string, Blob>, log: seq<Request>, io: PyIo, wk: string, body: seq<byte>,
                   endpoint: Option<string>, codecs: PyCodecs): FileRun
  {
    match codecs.sniff(body)
    case None => FileRun(objects, log, Ok(UnknownType))
    case Some(mime) =>
      if StartsWith(mime, "image/") then
        match codecs.render(body)
        case None => FileRun(objects, log, Err(RenderFailed))
        case Some(out) => Publish(objects, log, wk, out, ImageContentType, io.putReaches, endpoint)
      else if StartsWith(mime, "video/") then
        match io.video
        case None => FileRun(objects, log, Err(TranscodeFailed))
        case Some(out) => Publish(objects, log, wk, out, VideoContentType, io.putReaches, endpoint)
      else FileRun(objects, log, Ok(UnsupportedType(mime)))
  }

  /** `process_file(key)`. */
  function ProcessFileSpec(objects: map<string, Blob>, log: seq<Request>, item: PyListed,
                           endpoint: Option<string>, codecs: PyCodecs): FileRun
  {
    var wk := WatermarkKey(item.key);
    var probed := log + [HeadReq(wk)];
    if !item.io.headReaches then FileRun(objects, probed, Err(HeadFailed))
    else if wk in objects then FileRun(objects, probed, Ok(AlreadyExists(wk)))
    else
      var fetched := probed + [GetReq(item.key)];
      if !(item.io.getReaches && item.key in objects) then FileRun(objects, fetched, Err(DownloadFailed))
      else Convert(objects, fetched, item.io, wk, objects[item.key].body, endpoint, codecs)
  }

  /** One turn of `main`'s loop; once something has raised, nothing more happens. */
  function Turn(r: PyRun, item: PyListed, endpoint: Option<string>, codecs: PyCodecs): PyRun {
    if r.raised.Some? then r
    else
      var f := ProcessFileSpec(r.objects, r.log, item, endpoint, codecs);
      match f.result
      case Ok(o) => PyRun(f.objects, f.log, r.outcomes + [(item.key, o)], None)
      case Err(e) => PyRun(f.objects, f.log, r.outcomes, Some(Raised(item.key, e)))
  }

  /** `main`'s loop over the yielded keys. */
  function ProcessAll(r: PyRun, items: seq<PyListed>, endpoint: Option<string>, codecs: PyCodecs): PyRun
    decreases |items|
  {
    if items == [] then r
    else Turn(ProcessAll(r, items[..|items| - 1], endpoint, codecs), items[|items| - 1], endpoint, codecs)
  }

  /** `process_file` on the store: the normal return, or the exception it raised. */
  method ProcessFile(store: Store, item: PyListed, endpoint: Option<string>, codecs: PyCodecs)
    returns (result: Result<PyOutcome, PyError>)
    modifies store
    ensures ProcessFileSpec(old(store.objects), old(store.log), item, endpoint, codecs) == FileRun(store.objects, store.log, result)
  {
    var key := item.key;
    var wk := WatermarkKey(key);
    var found := store.Head(wk, item.io.headReaches);
    if !item.io.headReaches {
      return Err(HeadFailed);
    }
    if found {
      return Ok(AlreadyExists(wk));
    }
    var body := store.Get(key, item.io.getReaches);
    if body.None? {
      return Err(DownloadFailed);
    }
    var kind := codecs.sniff(body.value);
    if kind.None? {
      return Ok(UnknownType);
    }
    var mime := kind.value;
    var out, contentType;
    if StartsWith(mime, "image/") {
      var rendered := codecs.render(body.value);
      if rendered.None? {
        return Err(RenderFailed);
      }
      out, contentType := rendered.value, ImageContentType;
    } else if StartsWith(mime, "video/") {
      if item.io.video.None? {
        return Err(TranscodeFailed);
      }
      out, contentType := item.io.video.value, VideoContentType;
    } else {
      return Ok(UnsupportedType(mime));
    }
    var ok := store.Put(wk, Blob(out, PublicRead, Some(contentType)), item.io.putReaches);
    if !ok {
      return Err(UploadFailed);
    }
    var url := PublicUrl(endpoint, wk);
    if url.None? {
      return Err(EndpointUnset);
    }
    return Ok(Published(wk, url.value));
  }

  /** `main`: every yielded key in order, until the first exception. */
  method RunAll(store: Store, pages: seq<seq<PyListed>>, endpoint: Option<string>, codecs: PyCodecs)
    returns (outcomes: seq<(string, PyOutcome)>, raised: Option<Raised>)
    modifies store
    ensures ProcessAll(PyRun(old(store.objects), old(store.log), [], None), Originals(pages), endpoint, codecs)
         == PyRun(store.objects, store.log, outcomes, raised)
  {
    var items := ListOriginals(pages);
    ghost var start := PyRun(store.objects, store.log, [], None);
    outcomes, raised := [], None;
    var i := 0;
    while i < |items|
      invariant 0 <= i <= |items|
      invariant ProcessAll(start, items[..i], endpoint, codecs) == PyRun(store.objects, store.log, outcomes, None)
    {
      ghost var before := PyRun(store.objects, store.log, outcomes, None);
      var result := ProcessFile(store, items[i], endpoint, codecs);
      ProcessAllNext(start, items, i, endpoint, codecs);
      TurnOf(before, items[i], endpoint, codecs, FileRun(store.objects, store.log, result));
      if result.Err? {
        raised := Some(Raised(items[i].key, result.error));
        PyHaltFreezes(start, items, i + 1, endpoint, codecs);
        return;
      }
      outcomes := outcomes + [(items[i].key, result.value)];
      i := i + 1;
    }
    assert items[..i] == items;
  }

  lemma TurnOf(r: PyRun, item: PyListed, endpoint: Option<string>, codecs: PyCodecs, f: FileRun)
    requires r.raised.None? && ProcessFileSpec(r.objects, r.log, item, endpoint, codecs) == f
    ensures f.result.Ok? ==> Turn(r, item, endpoint, codecs) == PyRun(f.objects, f.log, r.outcomes + [(item.key, f.result.value)], None)
    ensures f.result.Err? ==> Turn(r, item, endpoint, codecs) == PyRun(f.objects, f.log, r.outcomes, Some(Raised(item.key, f.result.error)))
  {
  }

  lemma ProcessAllNext(r: PyRun, items: seq<PyListed>, i: nat, endpoint: Option<string>, codecs: PyCodecs)
    requires i < |items|
    ensures ProcessAll(r, items[..i + 1], endpoint, codecs) == Turn(ProcessAll(r, items[..i], endpoint, codecs), items[i], endpoint, codecs)
  {
    assert items[..i + 1][..i] == items[..i];
  }

  // ---------------------------------------------------------------------------
  // Properties

  /** A run that has raised stays as it is, whatever else is yielded. */
  lemma {:induction false} PyRaisedStays(r: PyRun, items: seq<PyListed>, endpoint: Option<string>, codecs: PyCodecs)
    requires r.raised.Some?
    ensures ProcessAll(r, items, endpoint, codecs) == r
    decreases |items|
  {
    if items != [] {
      PyRaisedStays(r, items[..|items| - 1], endpoint, codecs);
    }
  }

  lemma {:induction false} ProcessAllAppend(r: PyRun, a: seq<PyListed>, b: seq<PyListed>, endpoint: Option<string>, codecs: PyCodecs)
    ensures ProcessAll(r, a + b, endpoint, codecs) == ProcessAll(ProcessAll(r, a, endpoint, codecs), b, endpoint, codecs)
    decreases |b|
  {
    if b == [] {
      assert a + b == a;
    } else {
      var b' := b[..|b| - 1];
      assert (a + b)[..|a + b| - 1] == a + b';
      assert (a + b)[|a + b| - 1] == b[|b| - 1];
      ProcessAllAppend(r, a, b', endpoint, codecs);
    }
  }

  /** An exception from the `n`-th key ends `main`: no later key is probed, downloaded or written. */
  lemma PyHaltFreezes(r: PyRun, items: seq<PyListed>, n: nat, endpoint: Option<string>, codecs: PyCodecs)
    requires n <= |items|
    requires ProcessAll(r, items[..n], endpoint, codecs).raised.Some?
    ensures ProcessAll(r, items, endpoint, codecs) == ProcessAll(r, items[..n], endpoint, codecs)
  {
    assert items == items[..n] + items[n..];
    ProcessAllAppend(r, items[..n], items[n..], endpoint, codecs);
    PyRaisedStays(ProcessAll(r, items[..n], endpoint, codecs), items[n..], endpoint, codecs);
  }

  /** When the watermark key exists, `process_file` returns after the probe: no download, no upload. */
  lemma ExistingReturnsEarly(objects: map<string, Blob>, log: seq<Request>, item: PyListed, endpoint: Option<string>, codecs: PyCodecs)
    requires item.io.headReaches && WatermarkKey(item.key) in objects
    ensures ProcessFileSpec(objects, log, item, endpoint, codecs)
         == FileRun(objects, log + [HeadReq(WatermarkKey(item.key))], Ok(AlreadyExists(WatermarkKey(item.key))))
  {
  }

  /** Unlike the Rust worker, a probe that cannot reach the service raises, and so ends the run. */
  lemma UnreachableProbeRaises(objects: map<string, Blob>, log: seq<Request>, item: PyListed, endpoint: Option<string>, codecs: PyCodecs)
    requires !item.io.headReaches
    ensures ProcessFileSpec(objects, log, item, endpoint, codecs)
         == FileRun(objects, log + [HeadReq(WatermarkKey(item.key))], Err(HeadFailed))
  {
  }

  /** An unknown type, or a MIME type neither "image/..." nor "video/...", uploads nothing. */
  lemma UnrecognisedWritesNothing(objects: map<string, Blob>, log: seq<Request>, io: PyIo, wk: string, body: seq<byte>,
                                  endpoint: Option<string>, codecs: PyCodecs)
    requires codecs.sniff(body).None? || (!StartsWith(codecs.sniff(body).value, "image/") && !StartsWith(codecs.sniff(body).value, "video/"))
    ensures Convert(objects, log, io, wk, body, endpoint, codecs)
         == FileRun(objects, log, Ok(if codecs.sniff(body).None? then UnknownType else UnsupportedType(codecs.sniff(body).value)))
  {
  }

  /**
   * An upload that reaches the service stores the result under the
   * watermark key, public-read, with the given content type, before the
   * public URL is formed: an unset endpoint raises only after the write.
   */
  lemma PublishWrites(objects: map<string, Blob>, log: seq<Request>, wk: string, result: seq<byte>, contentType: string,
                      reaches: bool, endpoint: Option<string>)
    ensures var f := Publish(objects, log, wk, result, contentType, reaches, endpoint);
            && f.log == log + [PutReq(wk, Blob(result, PublicRead, Some(contentType)))]
            && f.objects == (if reaches then objects[wk := Blob(result, PublicRead, Some(contentType))] else objects)
            && (f.result.Ok? <==> reaches && endpoint.Some?)
            && (reaches && endpoint.None? ==> f.result == Err(EndpointUnset))
  {
  }

  /**
   * A key changes the store only by an upload under its watermark key,
   * public-read, typed "image/jpeg" when sniffed as an image and
   * "video/mp4" when sniffed as a video.
   */
  lemma WritesOnlyWatermarkKey(objects: map<string, Blob>, log: seq<Request>, item: PyListed, endpoint: Option<string>, codecs: PyCodecs)
    ensures var f := ProcessFileSpec(objects, log, item, endpoint, codecs);
            f.objects != objects ==>
              && item.key in objects
              && var wk := WatermarkKey(item.key);
              && wk in f.objects && f.objects == objects[wk := f.objects[wk]]
              && f.objects[wk].acl == PublicRead
              && var mime := codecs.sniff(objects[item.key].body);
              && mime.Some?
              && (StartsWith(mime.value, "image/") ==> f.objects[wk].contentType == Some(ImageContentType))
              && (!StartsWith(mime.value, "image/") ==> StartsWith(mime.value, "video/") && f.objects[wk].contentType == Some(VideoContentType))
  {
    var wk := WatermarkKey(item.key);
    if item.io.headReaches && wk !in objects && item.io.getReaches && item.key in objects {
      var fetched := log + [HeadReq(wk)] + [GetReq(item.key)];
      ConvertWrites(objects, fetched, item.io, wk, objects[item.key].body, endpoint, codecs);
    }
  }

  lemma ConvertWrites(objects: map<string, Blob>, log: seq<Request>, io: PyIo, wk: string, body: seq<byte>,
                      endpoint: Option<string>, codecs: PyCodecs)
    ensures var f := Convert(objects, log, io, wk, body, endpoint, codecs);
            f.objects != objects ==>
              && wk in f.objects && f.objects == objects[wk := f.objects[wk]]
              && f.objects[wk].acl == PublicRead
              && var mime := codecs.sniff(body);
              && mime.Some?
              && (StartsWith(mime.value, "image/") ==> f.objects[wk].contentType == Some(ImageContentType))
              && (!StartsWith(mime.value, "image/") ==> StartsWith(mime.value, "video/") && f.objects[wk].contentType == Some(VideoContentType))
  {
    match codecs.sniff(body)
    case None =>
    case Some(mime) =>
      if StartsWith(mime, "image/") {
        match codecs.render(body)
        case None =>
        case Some(out) => PublishWrites(objects, log, wk, out, ImageContentType, io.putReaches, endpoint);
      } else if StartsWith(mime, "video/") {
        match io.video
        case None =>
        case Some(out) => PublishWrites(objects, log, wk, out, VideoContentType, io.putReaches, endpoint);
      }
  }

  /** With the endpoint "https://<host>", an upload reports its URL on the bucket's virtual host. */
  lemma PublishedUrl(objects: map<string, Blob>, log: seq<Request>, wk: string, result: seq<byte>, contentType: string, host: string)
    requires !Occurs(host, "https://")
    ensures Publish(objects, log, wk, result, contentType, true, Some("https://" + host)).result
         == Ok(Published(wk, "https://reflexu." + host + "/" + wk))
  {
    PublicUrlOfHost(host, wk);
  }
}
