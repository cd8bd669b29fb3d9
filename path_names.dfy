/**
  How `ImageResizer` names its output files: the image name is the last
  element of `path.split("/")`, and an output file is the `java.io.File`
  child `"/scaled_" + name` or `"/rotated_" + name` of the output directory.
 */
module PathNames {
  import opened Optional
  import opened JavaLang

  const ScaledPrefix: string := "scaled_"
  const RotatedPrefix: string := "rotated_"

  /**
    `pathParts[pathParts.length - 1]` where `pathParts = path.split("/")`.
    `None` stands for the `ArrayIndexOutOfBoundsException` raised when the
    split is empty, which happens for a path made of slashes only.
   */
  function ImageName(path: string): (name: Option<string>)
    ensures name.Some? ==> '/' !in name.value
    ensures '/' !in path ==> name == Some(path)
  {
    var parts := JavaSplit(path);
    if |parts| == 0 then None else Some(parts[|parts| - 1])
  }

  // Reference definitions of "the last segment of a path", stated from the end of the string.

  function TrimTrailingSlashes(s: string): (t: string)
    ensures |t| <= |s| && t == s[..|t|]
    ensures t == "" || t[|t| - 1] != '/'
    ensures forall i :: |t| <= i < |s| ==> s[i] == '/'
    decreases |s|
  {
    if |s| > 0 && s[|s| - 1] == '/' then TrimTrailingSlashes(s[..|s| - 1]) else s
  }

  /** The longest suffix of `s` that contains no '/'. */
  function AfterLastSlash(s: string): (t: string)
    ensures '/' !in t
    ensures |t| <= |s| && t == s[|s| - |t|..]
    ensures |t| < |s| ==> s[|s| - |t| - 1] == '/'
    decreases |s|
  {
    if |s| == 0 || s[|s| - 1] == '/' then ""
    else
      var t := AfterLastSlash(s[..|s| - 1]) + [s[|s| - 1]];
      assert s[..|s| - 1] + [s[|s| - 1]] == s;
      t
  }

  lemma {:induction false} LastPieceIsAfterLastSlash(s: string)
    ensures Pieces(s)[|Pieces(s)| - 1] == AfterLastSlash(s)
    decreases |s|
  {
    if |s| > 0 && s[|s| - 1] != '/' {
      LastPieceIsAfterLastSlash(s[..|s| - 1]);
    }
  }

  lemma {:induction false} TrailingSlashesSplitEmpty(s: string)
    ensures DropTrailingEmpty(Pieces(s)) == DropTrailingEmpty(Pieces(TrimTrailingSlashes(s)))
    decreases |s|
  {
    if |s| > 0 && s[|s| - 1] == '/' {
      var init := Pieces(s[..|s| - 1]);
      assert Pieces(s) == init + [""];
      assert (init + [""])[..|init|] == init;
      TrailingSlashesSplitEmpty(s[..|s| - 1]);
    }
  }

  /**
    The image name is the text after the last '/' once trailing slashes are
    ignored; it is missing exactly when the path is a non-empty run of slashes,
    and the empty path names itself.
   */
  lemma ImageNameIsLastSegment(path: string)
    ensures ImageName(path) ==
      if path == "" then Some("")
      else if TrimTrailingSlashes(path) == "" then None
      else Some(AfterLastSlash(TrimTrailingSlashes(path)))
  {
    var t := TrimTrailingSlashes(path);
    if '/' in path {
      TrailingSlashesSplitEmpty(path);
      if t == "" {
        assert Pieces(t) == [""];
      } else {
        LastPieceIsAfterLastSlash(t);
        var parts := Pieces(t);
        assert parts[|parts| - 1] != "" by {
          assert |AfterLastSlash(t)| > 0;
        }
        assert DropTrailingEmpty(parts) == parts;
      }
    } else if path != "" {
      assert t == path by {
        assert path[|path| - 1] in path;
      }
      assert AfterLastSlash(path) == path;
    }
  }

  /**
    Once trailing slashes are ignored, the split loses nothing: joining its
    pieces with '/' gives back the path.
   */
  lemma JoinJavaSplit(path: string)
    requires TrimTrailingSlashes(path) != ""
    ensures |JavaSplit(path)| >= 1 && Join(JavaSplit(path)) == TrimTrailingSlashes(path)
  {
    var t := TrimTrailingSlashes(path);
    if '/' in path {
      TrailingSlashesSplitEmpty(path);
      LastPieceIsAfterLastSlash(t);
      var parts := Pieces(t);
      assert parts[|parts| - 1] != "" by {
        assert |AfterLastSlash(t)| > 0;
      }
      assert DropTrailingEmpty(parts) == parts;
      JoinPieces(t);
    } else {
      assert t == path by {
        assert path[|path| - 1] in path;
      }
    }
  }

  /**
    The path of `new File(directory, child)` for a child that begins with '/',
    as `java.io.File` resolves it: an empty parent stands for the root, a root
    parent is dropped, and any other parent is prefixed.
   */
  function ChildPath(directory: string, child: string): (path: string)
    requires |child| >= 1 && child[0] == '/'
    ensures path == child || path == directory + child
    ensures |path| >= |child| && path[|path| - |child|..] == child
  {
    if directory == "" || directory == "/" then child else directory + child
  }

  lemma {:induction false} AfterSlashAndName(prefix: string, name: string)
    requires '/' !in name
    ensures AfterLastSlash(prefix + "/" + name) == name
    decreases |name|
  {
    var s := prefix + "/" + name;
    if |name| == 0 {
      assert s[|s| - 1] == '/';
    } else {
      var n' := name[..|name| - 1];
      assert s[..|s| - 1] == prefix + "/" + n';
      assert name[|name| - 1] in name;
      AfterSlashAndName(prefix, n');
      assert n' + [name[|name| - 1]] == name;
    }
  }

  /**
    Splitting an output path again yields the output file's own name: the
    `scaled_`/`rotated_` name is the last segment of the path handed back.
   */
  lemma ImageNameOfChildPath(directory: string, name: string)
    requires name != "" && '/' !in name
    ensures ImageName(ChildPath(directory, "/" + name)) == Some(name)
  {
    var child := "/" + name;
    var path := ChildPath(directory, child);
    var prefix := if path == child then "" else directory;
    assert path == prefix + "/" + name;
    assert path[|path| - 1] == name[|name| - 1];
    assert name[|name| - 1] in name;
    assert TrimTrailingSlashes(path) == path;
    AfterSlashAndName(prefix, name);
    ImageNameIsLastSegment(path);
  }
}
