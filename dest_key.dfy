/**
 * Where the worker puts the watermarked copy of a listed object, and which
 * processing path the object's extension selects (src/main.rs).
 */
module DestKeys {
  import opened Common
  import opened Text
  import opened RustPath

  const OriginalsPrefix := "originals/"
  const WatermarksPrefix := "watermarks/"

  /** The file name with every trailing ".<ext>" removed, as `trim_end_matches` does. */
  function Base(name: string): string {
    TrimEnd(name, "." + Extension(name))
  }

  /**
   * The destination key of a listed key: `None` where `file_name()` is
   * `None` (the worker's `unwrap` panics there).
   */
  function DestKey(key: string): Option<string> {
    match FileName(key)
    case None => None
    case Some(name) => Some(WatermarksPrefix + Base(name) + "-watermark." + Extension(name))
  }

  /** A key ending in ".." has no destination: the worker's `file_name().unwrap()` panics on it. */
  lemma DestKeyDotDot(dir: string)
    ensures DestKey(dir + "/..") == None
  {
    FileNameDotDot(dir);
  }

  /**
   * The destination is built from the last segment alone: prefix, the base
   * name, the marker and the original-case extension; the file name is the
   * base followed by whole copies of ".<ext>", and the base ends in none.
   */
  lemma DestKeyParts(key: string)
    requires FileName(key).Some?
    ensures var name := FileName(key).value;
            var ext := Extension(name);
            && DestKey(key) == Some(WatermarksPrefix + Base(name) + "-watermark." + ext)
            && name == Base(name) + Repeat("." + ext, TrimCount(name, "." + ext))
            && !EndsWith(Base(name), "." + ext)
            && '.' !in ext
  {
    var name := FileName(key).value;
    TrimEndSplits(name, "." + Extension(name));
  }

  /** Only the last path segment matters: every directory maps into the one flat watermark prefix. */
  lemma DestKeyLastSegment(dir: string, name: string)
    requires IsNormalName(name)
    ensures DestKey(dir + "/" + name) == DestKey(name)
    ensures DestKey(name).Some?
  {
    FileNameLastSegment(dir, name);
    FileNameOfName(name);
  }

  /** A destination never lies under the originals prefix, so writing it never overwrites a source. */
  lemma DestKeyOutsideOriginals(key: string)
    requires DestKey(key).Some?
    ensures StartsWith(DestKey(key).value, WatermarksPrefix)
    ensures !StartsWith(DestKey(key).value, OriginalsPrefix)
  {
    var name := FileName(key).value;
    WatermarksOnly(Base(name) + "-watermark." + Extension(name));
  }

  lemma WatermarksOnly(rest: string)
    ensures StartsWith(WatermarksPrefix + rest, WatermarksPrefix)
    ensures !StartsWith(WatermarksPrefix + rest, OriginalsPrefix)
  {
    assert (WatermarksPrefix + rest)[..|WatermarksPrefix|] == WatermarksPrefix;
    assert (WatermarksPrefix + rest)[0] == 'w';
  }

  /** The extension of "<stem>.<ext>" is `ext` whenever the stem is not empty and `ext` holds no '.'. */
  lemma ExtensionOf(stem: string, ext: string)
    requires |stem| > 0 && '.' !in ext
    ensures Extension(stem + "." + ext) == ext
  {
    var name := stem + "." + ext;
    assert name[|stem|] == '.';
    assert name[|stem| + 1..] == ext;
  }

  /** A name without '.' has the empty extension. */
  lemma ExtensionOfPlain(name: string)
    requires '.' !in name
    ensures Extension(name) == ""
  {
    assert forall i :: 0 < i < |name| ==> name[i] != '.' by {
      forall i | 0 < i < |name| ensures name[i] != '.' {
        assert name[i] in name;
      }
    }
  }

  /** Trimming whole copies of `p` off a base that does not end in `p` gives the base back. */
  lemma {:induction false} TrimEndRepeat(base: string, p: string, n: nat)
    requires |p| > 0 && !EndsWith(base, p)
    ensures TrimEnd(base + Repeat(p, n), p) == base
  {
    if n > 0 {
      var t := base + Repeat(p, n - 1);
      var s := base + Repeat(p, n);
      assert s == t + p;
      assert s[|s| - |p|..] == p;
      assert s[..|s| - |p|] == t;
      TrimEndRepeat(base, p, n - 1);
    } else {
      assert base + Repeat(p, n) == base;
    }
  }

  lemma {:induction false} RepeatAvoids(p: string, n: nat, c: char)
    requires c !in p
    ensures c !in Repeat(p, n)
  {
    if n > 0 {
      RepeatAvoids(p, n - 1, c);
      assert Repeat(p, n) == Repeat(p, n - 1) + p;
    }
  }

  /** "<stem>" followed by copies of ".<ext>" is a normal name that ends in ".<ext>". */
  lemma RepeatsName(stem: string, ext: string, n: nat)
    requires |stem| > 0 && n >= 1
    requires '.' !in ext && '/' !in ext && '/' !in stem
    requires !EndsWith(stem, "." + ext)
    ensures IsNormalName(stem + Repeat("." + ext, n))
    ensures stem + Repeat("." + ext, n) == (stem + Repeat("." + ext, n - 1)) + "." + ext
  {
    var p := "." + ext;
    var name := stem + Repeat(p, n);
    assert Repeat(p, n) == Repeat(p, n - 1) + p;
    assert '/' !in name by {
      assert '/' !in p;
      RepeatAvoids(p, n, '/');
    }
    var c := if ext == "" then stem[|stem| - 1] else ext[|ext| - 1];
    if ext == "" {
      assert stem[|stem| - 1..] == [c];
      assert name[|stem| - 1] == c;
    } else {
      assert c in ext;
      assert name[|name| - 1] == c;
    }
    assert c != '.' && c in name;
  }

  /**
   * A last segment "<stem>" followed by any number of ".<ext>" copies, whose
   * stem does not itself end in ".<ext>", maps to
   * "watermarks/<stem>-watermark.<ext>": the repeated extension is stripped
   * as a whole (so "originals/a/x.jpg.jpg" gives "watermarks/x-watermark.jpg").
   */
  lemma DestKeyStripsRepeats(dir: string, stem: string, ext: string, n: nat)
    requires |stem| > 0 && n >= 1
    requires '.' !in ext && '/' !in ext && '/' !in stem
    requires !EndsWith(stem, "." + ext)
    ensures DestKey(dir + "/" + stem + Repeat("." + ext, n)) == Some(WatermarksPrefix + stem + "-watermark." + ext)
  {
    var p := "." + ext;
    var name := stem + Repeat(p, n);
    RepeatsName(stem, ext, n);
    assert dir + "/" + stem + Repeat(p, n) == dir + "/" + name;
    FileNameLastSegment(dir, name);
    ExtensionOf(stem + Repeat(p, n - 1), ext);
    TrimEndRepeat(stem, p, n);
  }

  /** The single-extension case: "<stem>.<ext>" maps to "watermarks/<stem>-watermark.<ext>". */
  lemma DestKeyOfPlainName(dir: string, stem: string, ext: string)
    requires |stem| > 0
    requires '.' !in ext && '/' !in ext && '/' !in stem
    requires !EndsWith(stem, "." + ext)
    ensures DestKey(dir + "/" + stem + "." + ext) == Some(WatermarksPrefix + stem + "-watermark." + ext)
  {
    assert Repeat("." + ext, 1) == "." + ext;
    assert dir + "/" + stem + "." + ext == dir + "/" + stem + Repeat("." + ext, 1);
    DestKeyStripsRepeats(dir, stem, ext, 1);
  }

  /** Without an extension the destination ends in a bare '.': a name "readme" gives "watermarks/readme-watermark.". */
  lemma DestKeyWithoutExtension(dir: string, name: string)
    requires IsNormalName(name) && '.' !in name
    ensures DestKey(dir + "/" + name) == Some(WatermarksPrefix + name + "-watermark.")
  {
    FileNameLastSegment(dir, name);
    ExtensionOfPlain(name);
    assert name == name + Repeat(".", 0);
    assert !EndsWith(name, ".") by { assert name[|name| - 1] in name; }
    TrimEndRepeat(name, ".", 0);
    assert "." + Extension(name) == ".";
    assert Base(name) == name;
    assert WatermarksPrefix + Base(name) + "-watermark." + Extension(name) == WatermarksPrefix + name + "-watermark.";
  }

  /** The processing path an extension selects. */
  datatype MediaKind = Image | Video | Unsupported

  /** The `match` on the lower-cased extension. */
  function Kind(ext: string): MediaKind {
    var e := AsciiLower(ext);
    if e == "jpg" || e == "jpeg" || e == "png" then Image
    else if e == "mp4" || e == "mov" || e == "webm" then Video
    else Unsupported
  }

  /** Dispatch ignores letter case: an extension and its lower-cased form go the same way. */
  lemma KindIgnoresCase(ext: string)
    ensures Kind(AsciiLower(ext)) == Kind(ext)
  {
    AsciiLowerIdempotent(ext);
  }

  /**
   * The dispatch table: the image arm takes exactly the extensions that
   * spell jpg, jpeg or png in any mix of case, the video arm exactly those
   * that spell mp4, mov or webm, and everything else is unsupported.
   */
  lemma KindMeaning(ext: string)
    ensures Kind(ext) == Image <==>
              SpellsIgnoringCase(ext, "jpg") || SpellsIgnoringCase(ext, "jpeg") || SpellsIgnoringCase(ext, "png")
    ensures Kind(ext) == Video <==>
              SpellsIgnoringCase(ext, "mp4") || SpellsIgnoringCase(ext, "mov") || SpellsIgnoringCase(ext, "webm")
  {
    LowerSpells(ext, "jpg");
    LowerSpells(ext, "jpeg");
    LowerSpells(ext, "png");
    LowerSpells(ext, "mp4");
    LowerSpells(ext, "mov");
    LowerSpells(ext, "webm");
  }

  /** "JPG" and "MoV" are dispatched like "jpg" and "mov"; a ".txt" file is unsupported. */
  lemma KindExamples()
    ensures Kind("JPG") == Image && Kind("Jpeg") == Image && Kind("MoV") == Video && Kind("txt") == Unsupported
  {
    assert AsciiLower("JPG") == "jpg";
    assert AsciiLower("Jpeg") == "jpeg";
    assert AsciiLower("MoV") == "mov";
    assert AsciiLower("txt") == "txt";
  }
}
