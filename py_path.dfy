/**
 * Key derivation of the earlier Python worker (app.py): `os.path.basename`,
 * `os.path.splitext`, the watermark key and the public URL it prints.
 */
module PyPath {
  import opened Common
  import opened Text
  import DestKeys

  const Bucket := "reflexu"

  /** `os.path.basename`: everything after the last '/'. */
  function Basename(path: string): (r: string)
    ensures '/' !in r
    ensures EndsWith(path, r)
    ensures |r| < |path| ==> path[|path| - |r| - 1] == '/'
  {
    match LastIndexOf(path, '/')
    case None => path
    case Some(i) => path[i + 1..]
  }

  predicate AllDots(s: string) {
    forall i :: 0 <= i < |s| ==> s[i] == '.'
  }

  /**
   * `os.path.splitext` (posixpath): split at the last '.' after the last
   * '/', unless everything between that '/' and the dot is dots (a leading
   * dot names a hidden file, not an extension).
   */
  function SplitExt(p: string): (r: (string, string))
    ensures r.0 + r.1 == p
    ensures r.1 == "" || (r.1[0] == '.' && '.' !in r.1[1..] && '/' !in r.1)
  {
    var sep := LastIndexOf(p, '/');
    var dot := LastIndexOf(p, '.');
    var start := if sep.Some? then sep.value + 1 else 0;
    if dot.Some? && dot.value >= start && !AllDots(p[start..dot.value]) then
      assert p[..dot.value] + p[dot.value..] == p;
      assert p[dot.value + 1..] == p[dot.value..][1..];
      assert '/' !in p[dot.value..] by {
        if sep.Some? {
          assert p[dot.value..] == p[sep.value + 1..][dot.value - sep.value - 1..];
        }
      }
      (p[..dot.value], p[dot.value..])
    else
      assert p + "" == p;
      (p, "")
  }

  /** `f"{WATERMARKS_PREFIX}{name}-watermark{ext}"` for `name, ext = splitext(basename(key))`. */
  function WatermarkKey(key: string): string {
    var parts := SplitExt(Basename(key));
    DestKeys.WatermarksPrefix + parts.0 + "-watermark" + parts.1
  }

  /**
   * The watermark key is the prefix, the base name, the marker and the
   * extension with its dot; base name and extension put together are the
   * last segment of the key, and the extension is empty or one '.' followed
   * by no further '.'.
   */
  lemma WatermarkKeyParts(key: string)
    ensures var (name, ext) := SplitExt(Basename(key));
            && WatermarkKey(key) == DestKeys.WatermarksPrefix + name + "-watermark" + ext
            && name + ext == Basename(key)
            && '/' !in name + ext
            && (ext == "" || (ext[0] == '.' && '.' !in ext[1..]))
  {
  }

  /** A name with no '.' past its leading dots has no extension: "readme" and ".env" keep their whole name. */
  lemma SplitExtNoExtension(name: string)
    requires '/' !in name
    requires forall i :: 0 <= i < |name| && name[i] == '.' ==> AllDots(name[..i + 1])
    ensures SplitExt(name) == (name, "")
  {
    var dot := LastIndexOf(name, '.');
    if dot.Some? {
      assert AllDots(name[..dot.value + 1]);
      assert name[0..dot.value] == name[..dot.value + 1][..dot.value];
    }
  }

  /** "<stem>.<ext>" with a stem holding a character other than '.' splits into the stem and ".<ext>". */
  lemma SplitExtOf(stem: string, ext: string)
    requires '/' !in stem && '/' !in ext && '.' !in ext
    requires !AllDots(stem)
    ensures SplitExt(stem + "." + ext) == (stem, "." + ext)
  {
    var p := stem + "." + ext;
    assert p == stem + ['.'] + ext;
    assert '/' !in p by {
      forall i | 0 <= i < |p| ensures p[i] != '/' {
        if i < |stem| { assert p[i] in stem; } else if i > |stem| { assert p[i] == ext[i - |stem| - 1]; assert p[i] in ext; }
      }
    }
    LastIndexOfNone(p, '/');
    LastIndexOfAfter(stem, '.', ext);
    assert p[0..|stem|] == stem;
    assert p[..|stem|] == stem && p[|stem|..] == "." + ext;
  }

  /**
   * The Rust and Python workers agree on ordinary names ("<stem>.<ext>" with
   * a stem that has a character other than '.' and does not end in
   * ".<ext>"): both write "watermarks/<stem>-watermark.<ext>".
   */
  lemma WatermarkKeyAgreesWithRust(dir: string, stem: string, ext: string)
    requires '/' !in stem && '/' !in ext && '.' !in ext
    requires !AllDots(stem) && !EndsWith(stem, "." + ext)
    ensures DestKeys.DestKey(dir + "/" + stem + "." + ext) == Some(WatermarkKey(dir + "/" + stem + "." + ext))
  {
    assert |stem| > 0;
    DestKeys.DestKeyOfPlainName(dir, stem, ext);
    WatermarkKeyOfPlain(dir, stem, ext);
  }

  lemma WatermarkKeyOfPlain(dir: string, stem: string, ext: string)
    requires '/' !in stem && '/' !in ext && '.' !in ext
    requires !AllDots(stem)
    ensures WatermarkKey(dir + "/" + stem + "." + ext) == DestKeys.WatermarksPrefix + stem + "-watermark." + ext
  {
    SplitOfPlainKey(dir, stem, ext);
    WatermarkKeyFromParts(dir + "/" + stem + "." + ext, stem, ext);
  }

  lemma SplitOfPlainKey(dir: string, stem: string, ext: string)
    requires '/' !in stem && '/' !in ext && '.' !in ext
    requires !AllDots(stem)
    ensures SplitExt(Basename(dir + "/" + stem + "." + ext)) == (stem, "." + ext)
  {
    var name := stem + "." + ext;
    assert dir + "/" + stem + "." + ext == dir + "/" + name;
    assert '/' !in name by { SplitExtOf(stem, ext); }
    BasenameOfJoined(dir, name);
    SplitExtOf(stem, ext);
  }

  lemma WatermarkKeyFromParts(key: string, stem: string, ext: string)
    requires SplitExt(Basename(key)) == (stem, "." + ext)
    ensures WatermarkKey(key) == DestKeys.WatermarksPrefix + stem + "-watermark." + ext
  {
    MarkerThenExtension(DestKeys.WatermarksPrefix + stem, ext);
  }

  lemma MarkerThenExtension(head: string, ext: string)
    ensures head + "-watermark" + ("." + ext) == head + "-watermark." + ext
  {
    assert "-watermark" + "." == "-watermark.";
  }

  lemma BasenameOfJoined(dir: string, name: string)
    requires '/' !in name
    ensures Basename(dir + "/" + name) == name
  {
    var p := dir + "/" + name;
    assert p == dir + ['/'] + name;
    LastIndexOfAfter(dir, '/', name);
    assert p[|dir| + 1..] == name;
  }

  /** Without an extension the Python key has no trailing '.', unlike the Rust one. */
  lemma NoExtensionDiffers(dir: string, name: string)
    requires name != "" && '/' !in name && '.' !in name
    ensures WatermarkKey(dir + "/" + name) == DestKeys.WatermarksPrefix + name + "-watermark"
    ensures DestKeys.DestKey(dir + "/" + name) == Some(WatermarkKey(dir + "/" + name) + ".")
  {
    PyKeyWithoutExtension(dir, name);
    assert name != "." && name != ".." by { assert name[0] in name; }
    DestKeys.DestKeyWithoutExtension(dir, name);
    MarkerThenDot(DestKeys.WatermarksPrefix + name);
  }

  lemma MarkerThenDot(head: string)
    ensures head + "-watermark" + "." == head + "-watermark."
  {
    assert "-watermark" + "." == "-watermark.";
  }

  lemma PyKeyWithoutExtension(dir: string, name: string)
    requires '/' !in name && '.' !in name
    ensures WatermarkKey(dir + "/" + name) == DestKeys.WatermarksPrefix + name + "-watermark"
  {
    BasenameOfJoined(dir, name);
    SplitExtNoExtension(name);
    assert DestKeys.WatermarksPrefix + name + "-watermark" + "" == DestKeys.WatermarksPrefix + name + "-watermark";
  }

  /**
   * `f"https://{BUCKET}.{endpoint.replace('https://', '')}/{watermark_key}"`;
   * `None` where the endpoint variable is unset (`None.replace` raises).
   */
  function PublicUrl(endpoint: Option<string>, watermarkKey: string): Option<string> {
    match endpoint
    case None => None
    case Some(e) => Some("https://" + Bucket + "." + RemoveAll(e, "https://") + "/" + watermarkKey)
  }

  /** For an endpoint "https://<host>" the URL is the bucket's virtual-host address on that host. */
  lemma PublicUrlOfHost(host: string, watermarkKey: string)
    requires !Occurs(host, "https://")
    ensures PublicUrl(Some("https://" + host), watermarkKey) == Some("https://reflexu." + host + "/" + watermarkKey)
  {
    RemoveAllLeading("https://", host);
    assert "https://" + Bucket + "." == "https://reflexu.";
  }
}
