/** The path logic of `save` (jduimage/_outputMixin.py): the extension check on the text
    after the last '.', and the folder derived from the path once backslashes are turned
    into '/'. Creating the folder and writing the file are I/O and are not modelled. */
module OutputMixin {
  import opened Errors

  /** Python's `s.split(sep)` for a one-character separator: the pieces between the
      separators, one more piece than there are separators. */
  function SplitOn(s: string, sep: char): (parts: seq<string>)
    ensures |parts| >= 1
    ensures forall k | 0 <= k < |parts| :: sep !in parts[k]
    ensures |parts| == 1 <==> sep !in s
    ensures sep !in s ==> parts == [s]
  {
    if |s| == 0 then [""]
    else
      var rest := SplitOn(s[1..], sep);
      if s[0] == sep then [""] + rest
      else
        assert s == [s[0]] + s[1..];
        [[s[0]] + rest[0]] + rest[1..]
  }

  /** Python's `sep.join(parts)`. */
  function Join(parts: seq<string>, sep: char): string {
    if |parts| == 0 then ""
    else if |parts| == 1 then parts[0]
    else parts[0] + [sep] + Join(parts[1..], sep)
  }

  /** Splitting and joining again with the same separator gives back the string. */
  lemma {:induction false} JoinSplitOn(s: string, sep: char)
    ensures Join(SplitOn(s, sep), sep) == s
  {
    if |s| > 0 {
      var rest := SplitOn(s[1..], sep);
      JoinSplitOn(s[1..], sep);
      if s[0] == sep {
        assert s == [sep] + s[1..];
      } else {
        assert [s[0]] + Join(rest, sep) == s;
        if |rest| > 1 {
          assert Join(rest, sep) == rest[0] + [sep] + Join(rest[1..], sep);
          assert Join([[s[0]] + rest[0]] + rest[1..], sep) == [s[0]] + rest[0] + [sep] + Join(rest[1..], sep);
        }
      }
    }
  }

  /** Splitting a join of separator-free pieces gives back the pieces. */
  lemma {:induction false} SplitOnJoin(parts: seq<string>, sep: char)
    requires |parts| >= 1
    requires forall k | 0 <= k < |parts| :: sep !in parts[k]
    ensures SplitOn(Join(parts, sep), sep) == parts
  {
    if |parts| == 1 {
      SplitOnWord(parts[0], [], sep);
    } else {
      SplitOnJoin(parts[1..], sep);
      var t := [sep] + Join(parts[1..], sep);
      SplitOnWord(parts[0], t, sep);
      assert t[1..] == Join(parts[1..], sep);
      assert Join(parts, sep) == parts[0] + t;
    }
  }

  /** A separator-free word at the front of a string joins the first piece. */
  lemma {:induction false} SplitOnWord(w: string, t: string, sep: char)
    requires sep !in w
    ensures t == [] ==> SplitOn(w, sep) == [w]
    ensures |t| > 0 && t[0] == sep ==> SplitOn(w + t, sep) == [w] + SplitOn(t[1..], sep)
  {
    if |w| > 0 {
      SplitOnWord(w[1..], t, sep);
      assert (w + t)[1..] == w[1..] + t;
      assert [w[0]] + w[1..] == w;
    } else {
      assert w + t == t;
    }
  }

  /** Joining all pieces but the last, then adding the separator and the last piece, is
      joining them all. */
  lemma {:induction false} JoinLast(parts: seq<string>, sep: char)
    requires |parts| >= 2
    ensures Join(parts[..|parts| - 1], sep) + [sep] + parts[|parts| - 1] == Join(parts, sep)
  {
    if |parts| > 2 {
      JoinLast(parts[1..], sep);
      assert parts[1..][..|parts| - 2] == parts[..|parts| - 1][1..];
    }
  }

  /** `s.replace(from, to)` for single characters. */
  function Replace(s: string, from: char, to: char): (r: string)
    ensures |r| == |s|
    ensures from != to ==> from !in r
    ensures forall k | 0 <= k < |s| :: r[k] == (if s[k] == from then to else s[k])
  {
    seq(|s|, k requires 0 <= k < |s| => if s[k] == from then to else s[k])
  }

  /** `path.split(".")[-1]`: the text after the last '.', or the whole path when it has
      none. */
  function Extension(path: string): (ext: string)
    ensures '.' !in ext
    ensures '.' !in path ==> ext == path
  {
    var parts := SplitOn(path, '.');
    parts[|parts| - 1]
  }

  /** A path that contains a '.' is the text before its last '.', the '.', and the
      extension. */
  lemma ExtensionAfterLastDot(path: string)
    requires '.' in path
    ensures var parts := SplitOn(path, '.');
            Join(parts[..|parts| - 1], '.') + "." + Extension(path) == path
  {
    JoinLast(SplitOn(path, '.'), '.');
    JoinSplitOn(path, '.');
  }

  /** The extensions `save` recognises, compared exactly. */
  const ImageTypes: seq<string> := ["jpg", "jpeg", "png"]

  /** The path with every backslash turned into '/'. */
  function Normalised(path: string): (n: string)
    ensures '\\' !in n && |n| == |path|
    ensures forall k | 0 <= k < |path| :: n[k] == (if path[k] == '\\' then '/' else path[k])
  {
    Replace(path, '\\', '/')
  }

  /** `save(path)` up to the file system: the extension check, then the folder, which is
      every '/'-piece of the normalised path but the last, joined with '/'. An empty
      folder means no directory is created. */
  function SaveFolder(path: string): (r: Result<string>)
    ensures r.Err? <==> Extension(path) !in ImageTypes
    ensures r.Err? ==> r.error == ValueError("Unrecognised image file type")
    ensures r.Ok? ==> '\\' !in r.value
    ensures r.Ok? && '/' !in Normalised(path) ==> r.value == ""
    ensures r.Ok? && '/' in Normalised(path) ==>
              var parts := SplitOn(Normalised(path), '/');
              r.value + "/" + parts[|parts| - 1] == Normalised(path)
  {
    if Extension(path) !in ImageTypes then Err(ValueError("Unrecognised image file type"))
    else
      var substrings := SplitOn(Normalised(path), '/');
      var folder := Join(substrings[..|substrings| - 1], '/');
      FolderProperties(Normalised(path));
      Ok(folder)
  }

  lemma FolderProperties(n: string)
    requires '\\' !in n
    ensures var parts := SplitOn(n, '/');
            var folder := Join(parts[..|parts| - 1], '/');
            && '\\' !in folder
            && ('/' !in n ==> folder == "")
            && ('/' in n ==> folder + "/" + parts[|parts| - 1] == n)
  {
    var parts := SplitOn(n, '/');
    JoinSplitOn(n, '/');
    if |parts| >= 2 {
      JoinLast(parts, '/');
    }
  }

  /** The extension check is case-sensitive. */
  lemma UpperCaseExtensionRejected()
    ensures SaveFolder("x.PNG") == Err(ValueError("Unrecognised image file type"))
  {
  }

  /** A path with no '.' is its own extension: the bare word "png" is accepted, and as it
      has no folder nothing is created. */
  lemma BareExtensionAccepted()
    ensures SaveFolder("png") == Ok("")
  {
  }

  /** Splitting at a separator splits the text on each side of it. */
  lemma {:induction false} SplitOnConcat(a: string, b: string, sep: char)
    ensures SplitOn(a + [sep] + b, sep) == SplitOn(a, sep) + SplitOn(b, sep)
  {
    if |a| > 0 {
      SplitOnConcat(a[1..], b, sep);
      assert (a + [sep] + b)[1..] == a[1..] + [sep] + b;
    } else {
      assert a + [sep] + b == [sep] + b;
    }
  }

  lemma ReplaceConcat(a: string, b: string, from: char, to: char)
    ensures Replace(a + b, from, to) == Replace(a, from, to) + Replace(b, from, to)
  {
  }

  /** A file named after a backslash is saved into the folder before it, written with
      '/' separators. */
  lemma BackslashSeparatesFolder(folder: string, name: string)
    requires '/' !in name && '\\' !in name
    requires SaveFolder(folder + "\\" + name).Ok?
    ensures SaveFolder(folder + "\\" + name).value == Normalised(folder)
  {
    var path := folder + "\\" + name;
    ReplaceConcat(folder + "\\", name, '\\', '/');
    ReplaceConcat(folder, "\\", '\\', '/');
    assert Normalised(name) == name;
    assert Normalised(path) == Normalised(folder) + ['/'] + name;
    SplitOnConcat(Normalised(folder), name, '/');
    var parts := SplitOn(Normalised(path), '/');
    assert parts[..|parts| - 1] == SplitOn(Normalised(folder), '/');
    JoinSplitOn(Normalised(folder), '/');
  }
}
