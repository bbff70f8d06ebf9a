/**
 * The parts of Rust's `std::path::Path` that the worker relies on, for Unix
 * paths: `file_name()` and `extension()`.
 */
module RustPath {
  import opened Common
  import opened Text

  /** The pieces between '/' separators, empty pieces included. */
  function Split(s: string): (r: seq<string>)
    ensures |r| >= 1
    ensures forall i :: 0 <= i < |r| ==> '/' !in r[i]
    decreases |s|
  {
    if |s| == 0 then [""]
    else
      var rest := Split(s[1..]);
      if s[0] == '/' then [""] + rest
      else [[s[0]] + rest[0]] + rest[1..]
  }

  /** The pieces put back together with '/' between them. */
  function Join(parts: seq<string>): string
    requires |parts| >= 1
  {
    if |parts| == 1 then parts[0] else parts[0] + "/" + Join(parts[1..])
  }

  /** Splitting loses nothing: joining the pieces gives the path back. */
  lemma {:induction false} SplitJoin(s: string)
    ensures Join(Split(s)) == s
    decreases |s|
  {
    if |s| > 0 {
      var rest := Split(s[1..]);
      SplitJoin(s[1..]);
      if s[0] != '/' && |rest| > 1 {
        assert rest == [rest[0]] + rest[1..];
        assert Join(rest) == rest[0] + "/" + Join(rest[1..]);
      }
    }
  }

  /** Splitting a path at one separator splits its pieces there. */
  lemma {:induction false} SplitAppend(a: string, b: string)
    ensures Split(a + "/" + b) == Split(a) + Split(b)
    decreases |a|
  {
    if |a| == 0 {
      assert a + "/" + b == "/" + b;
      assert ("/" + b)[1..] == b;
    } else {
      assert (a + "/" + b)[1..] == a[1..] + "/" + b;
      SplitAppend(a[1..], b);
    }
  }

  /**
   * The components `Path::components` yields for a relative or absolute path,
   * as strings: empty pieces (repeated, leading or trailing separators) and
   * "." pieces are normalised away; ".." is kept.
   */
  function Components(pieces: seq<string>): seq<string> {
    if pieces == [] then []
    else (if pieces[0] == "" || pieces[0] == "." then [] else [pieces[0]]) + Components(pieces[1..])
  }

  lemma {:induction false} ComponentsAppend(a: seq<string>, b: seq<string>)
    ensures Components(a + b) == Components(a) + Components(b)
  {
    if a == [] {
      assert a + b == b;
    } else {
      assert (a + b)[0] == a[0] && (a + b)[1..] == a[1..] + b;
      ComponentsAppend(a[1..], b);
      var head := if a[0] == "" || a[0] == "." then [] else [a[0]];
      assert Components(a) == head + Components(a[1..]);
      assert Components(a + b) == head + Components(a[1..] + b);
      assert head + (Components(a[1..]) + Components(b)) == (head + Components(a[1..])) + Components(b);
    }
  }

  /** A single path segment that `Path::file_name` returns as it is. */
  predicate IsNormalName(name: string) {
    name != "" && name != "." && name != ".." && '/' !in name
  }

  /**
   * `Path::file_name`: the last component when it is a normal name; `None`
   * for a path that is empty, the root, "." or ends in "..".
   */
  function FileName(path: string): (r: Option<string>)
    ensures r.Some? ==> IsNormalName(r.value)
  {
    var cs := Components(Split(path));
    if cs == [] || cs[|cs| - 1] == ".." then None else
      assert cs[|cs| - 1] in cs;
      ComponentsAreNormal(Split(path), cs[|cs| - 1]);
      Some(cs[|cs| - 1])
  }

  lemma {:induction false} ComponentsAreNormal(pieces: seq<string>, c: string)
    requires forall i :: 0 <= i < |pieces| ==> '/' !in pieces[i]
    requires c in Components(pieces)
    ensures c != "" && c != "." && '/' !in c
  {
    if pieces[0] != "" && pieces[0] != "." && c == pieces[0] {
    } else {
      ComponentsAreNormal(pieces[1..], c);
    }
  }

  /** A normal name on its own is its own file name. */
  lemma FileNameOfName(name: string)
    requires IsNormalName(name)
    ensures FileName(name) == Some(name)
  {
    var pieces := Split(name);
    assert pieces == [name] by { SplitOfName(name); }
    assert Components(pieces) == [name];
  }

  lemma {:induction false} SplitOfName(name: string)
    requires '/' !in name
    ensures Split(name) == [name]
    decreases |name|
  {
    if |name| > 0 {
      SplitOfName(name[1..]);
      assert [name[0]] + name[1..] == name;
    }
  }

  /** Only the last segment of a path decides its file name. */
  lemma FileNameLastSegment(dir: string, name: string)
    requires IsNormalName(name)
    ensures FileName(dir + "/" + name) == Some(name)
  {
    SplitAppend(dir, name);
    SplitOfName(name);
    ComponentsAppend(Split(dir), [name]);
    assert Components([name]) == [name];
  }

  /**
   * No file name exactly when the path has no components (it is empty, the
   * root, or made of "." pieces) or its last component is "..".
   */
  lemma FileNameNoneExactly(path: string)
    ensures var cs := Components(Split(path));
            FileName(path).None? <==> cs == [] || cs[|cs| - 1] == ".."
  {
  }

  /** A path ending in ".." has no file name. */
  lemma FileNameDotDot(dir: string)
    ensures FileName(dir + "/..") == None
  {
    assert dir + "/.." == dir + "/" + "..";
    SplitAppend(dir, "..");
    SplitOfName("..");
    ComponentsAppend(Split(dir), [".."]);
    assert Components([".."]) == [".."];
  }

  /** A trailing "." is dropped by normalisation: "dir/." has the file name of "dir". */
  lemma FileNameTrailingDot(dir: string)
    ensures FileName(dir + "/.") == FileName(dir)
  {
    assert dir + "/." == dir + "/" + ".";
    SplitAppend(dir, ".");
    SplitOfName(".");
    ComponentsAppend(Split(dir), ["."]);
    assert Components(["."]) == [];
    assert Components(Split(dir)) + [] == Components(Split(dir));
  }

  /** A trailing separator is dropped too: "dir/" has the file name of "dir". */
  lemma FileNameTrailingSlash(dir: string)
    ensures FileName(dir + "/") == FileName(dir)
  {
    assert dir + "/" == dir + "/" + "";
    SplitAppend(dir, "");
    ComponentsAppend(Split(dir), [""]);
    assert Components([""]) == [];
    assert Components(Split(dir)) + [] == Components(Split(dir));
  }

  /** The empty path, the root, "." and ".." have no file name. */
  lemma FileNameOfNothing()
    ensures FileName("") == None && FileName("/") == None && FileName(".") == None && FileName("..") == None
  {
    assert Split("") == [""];
    assert Split(".") == ["."] by { SplitOfName("."); }
    assert Split("..") == [".."] by { SplitOfName(".."); }
    assert Split("/") == ["", ""] by { assert "/"[1..] == ""; }
    assert Components(["", ""]) == [];
  }

  /**
   * `Path::extension` of a file name: the text after its last '.', or the
   * empty string (what `unwrap_or_default` gives for `None`) when the name
   * has no '.' or its only '.' is the leading one.
   */
  function Extension(name: string): (ext: string)
    ensures '.' !in ext
    ensures EndsWith(name, ext)
    ensures (exists i :: 0 < i < |name| && name[i] == '.') ==> EndsWith(name, "." + ext)
    ensures (forall i :: 0 < i < |name| ==> name[i] != '.') ==> ext == ""
  {
    match LastIndexOf(name, '.')
    case None => ""
    case Some(i) =>
      if i == 0 then ""
      else
        assert name[i..] == "." + name[i + 1..];
        assert EndsWith(name, "." + name[i + 1..]);
        name[i + 1..]
  }
}
