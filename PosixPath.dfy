/**
 * The path arithmetic `convert_inline_refs.py` uses to find the schemas
 * directory from a file: `os.path.dirname`, `os.path.relpath` and the
 * backslash-to-slash replacement, on POSIX paths.
 */
module PosixPath {
  import opened Text

  /** The index of the last `/`. */
  function LastSlash(p: string): (r: Option<nat>)
    ensures r.None? <==> '/' !in p
    ensures r.Some? ==> r.value < |p| && p[r.value] == '/' && forall i :: r.value < i < |p| ==> p[i] != '/'
  {
    if p == [] then None
    else if p[|p| - 1] == '/' then Some(|p| - 1)
    else
      var r := LastSlash(p[..|p| - 1]);
      assert forall i :: 0 <= i < |p| - 1 ==> p[..|p| - 1][i] == p[i];
      assert '/' in p ==> exists i :: 0 <= i < |p| - 1 && p[i] == '/';
      r
  }

  /** `head.rstrip('/')`. */
  function TrimSlashes(h: string): (r: string)
    ensures |r| <= |h| && r == h[..|r|]
    ensures r == [] || r[|r| - 1] != '/'
    ensures forall i :: |r| <= i < |h| ==> h[i] == '/'
  {
    if h != [] && h[|h| - 1] == '/' then TrimSlashes(h[..|h| - 1]) else h
  }

  /**
   * `os.path.dirname(p)`: everything up to the last `/`, without the
   * slashes that end it unless it is made of slashes only.
   */
  function Dirname(p: string): (d: string)
  {
    match LastSlash(p)
    case None => []
    case Some(i) =>
      var head := p[..i + 1];
      if TrimSlashes(head) == [] then head else TrimSlashes(head)
  }

  /** A file's directory is what comes before its last `/`. */
  lemma DirnameOfChild(d: string, name: string)
    requires d != [] && d[|d| - 1] != '/' && '/' !in name
    ensures Dirname(d + "/" + name) == d
  {
    var p := d + "/" + name;
    forall i | |d| < i < |p| ensures p[i] != '/' {
      assert p[i] == name[i - |d| - 1];
    }
    assert LastSlash(p) == Some(|d|) by {
      var r := LastSlash(p);
      assert p[|d|] == '/';
    }
    var head := p[..|d| + 1];
    assert head[..|d|] == d;
    assert TrimSlashes(head) == TrimSlashes(d) == d;
  }

  /** A directory name of slashes only is kept. */
  lemma DirnameOfRootChild(name: string)
    requires '/' !in name
    ensures Dirname("/" + name) == "/"
  {
    var p := "/" + name;
    forall i | 0 < i < |p| ensures p[i] != '/' {
      assert p[i] == name[i - 1];
    }
    assert LastSlash(p) == Some(0);
    assert p[..1] == "/";
    assert TrimSlashes("/") == TrimSlashes([]);
  }

  function Repeat(x: string, n: nat): (r: seq<string>)
    ensures |r| == n && forall i :: 0 <= i < n ==> r[i] == x
  {
    if n == 0 then [] else [x] + Repeat(x, n - 1)
  }

  /** The length of the longest common prefix of two segment lists. */
  function CommonPrefix(s: seq<string>, t: seq<string>): (i: nat)
    ensures i <= |s| && i <= |t| && s[..i] == t[..i]
    ensures i < |s| && i < |t| ==> s[i] != t[i]
  {
    if s == [] || t == [] || s[0] != t[0] then 0
    else
      var i := CommonPrefix(s[1..], t[1..]);
      assert s[..i + 1] == [s[0]] + s[1..][..i];
      assert t[..i + 1] == [t[0]] + t[1..][..i];
      i + 1
  }

  /** The segments of `os.path.relpath(path, start)`: up out of `start` to the common prefix, then down to `path`. */
  function RelParts(path: string, start: string): seq<string>
  {
    var s, t := Segments(start), Segments(path);
    var i := CommonPrefix(s, t);
    Repeat("..", |s| - i) + t[i..]
  }

  /** `os.path.relpath(path, start)`. */
  function RelPath(path: string, start: string): string
  {
    var parts := RelParts(path, start);
    if parts == [] then "." else Join(parts, '/')
  }

  /** Following segments from a directory: `..` goes up, `.` stays, a name goes down. */
  function Walk(base: seq<string>, parts: seq<string>): seq<string>
    decreases |parts|
  {
    if parts == [] then base
    else if parts[0] == ".." then Walk(if base == [] then [] else base[..|base| - 1], parts[1..])
    else if parts[0] == "." then Walk(base, parts[1..])
    else Walk(base + [parts[0]], parts[1..])
  }

  /** A path without `.` or `..` segments. */
  predicate Plain(segs: seq<string>) {
    forall i :: 0 <= i < |segs| ==> segs[i] != ".." && segs[i] != "."
  }

  lemma {:induction false} WalkUp(base: seq<string>, n: nat, rest: seq<string>)
    requires n <= |base|
    ensures Walk(base, Repeat("..", n) + rest) == Walk(base[..|base| - n], rest)
    decreases n
  {
    if n > 0 {
      var parts := Repeat("..", n) + rest;
      assert parts[0] == ".." && parts[1..] == Repeat("..", n - 1) + rest;
      WalkUp(base[..|base| - 1], n - 1, rest);
      assert base[..|base| - 1][..|base| - 1 - (n - 1)] == base[..|base| - n];
    } else {
      assert Repeat("..", 0) + rest == rest;
      assert base[..|base|] == base;
    }
  }

  lemma {:induction false} WalkDown(base: seq<string>, names: seq<string>)
    requires Plain(names)
    ensures Walk(base, names) == base + names
    decreases |names|
  {
    if names == [] {
      assert base + [] == base;
    } else {
      assert Plain(names[1..]) by {
        forall i | 0 <= i < |names[1..]| ensures names[1..][i] != ".." && names[1..][i] != "." {
          assert names[1..][i] == names[i + 1];
        }
      }
      WalkDown(base + [names[0]], names[1..]);
      assert base + [names[0]] + names[1..] == base + names;
    }
  }

  lemma {:induction false} NonEmptyKeeps(parts: seq<string>)
    requires forall i :: 0 <= i < |parts| ==> parts[i] != []
    ensures NonEmpty(parts) == parts
  {
    if parts != [] {
      NonEmptyKeeps(parts[1..]);
      assert [parts[0]] + parts[1..] == parts;
    }
  }

  lemma {:induction false} SplitAvoids(s: string, sep: char, c: char)
    requires c !in s
    ensures forall i :: 0 <= i < |Split(s, sep)| ==> c !in Split(s, sep)[i]
    decreases |s|
  {
    match IndexOf(s, sep)
    case None =>
    case Some(i) =>
      assert c !in s[..i] by {
        forall j | 0 <= j < i ensures s[..i][j] != c { assert s[..i][j] == s[j]; }
      }
      var rest := s[i + 1..];
      assert c !in rest by {
        forall j | 0 <= j < |rest| ensures rest[j] != c { assert rest[j] == s[i + 1 + j]; }
      }
      SplitAvoids(s[i + 1..], sep, c);
  }

  lemma {:induction false} JoinAvoids(parts: seq<string>, sep: char, c: char)
    requires |parts| >= 1 && c != sep
    requires forall i :: 0 <= i < |parts| ==> c !in parts[i]
    ensures c !in Join(parts, sep)
    decreases |parts|
  {
    if |parts| > 1 {
      JoinAvoids(parts[1..], sep, c);
    }
  }

  /** The segments of the relative path: `..`s and segments of `path`, each non-empty and without `/`. */
  lemma RelPartsShape(path: string, start: string)
    ensures forall k :: 0 <= k < |RelParts(path, start)| ==>
      var seg := RelParts(path, start)[k]; seg != [] && '/' !in seg && (seg == ".." || seg in Segments(path))
  {
    var s, t := Segments(start), Segments(path);
    var i := CommonPrefix(s, t);
    var parts := RelParts(path, start);
    forall k | 0 <= k < |parts| ensures parts[k] != [] && '/' !in parts[k] && (parts[k] == ".." || parts[k] in t) {
      if k < |s| - i {
        assert parts[k] == "..";
      } else {
        assert parts[k] == t[i + k - (|s| - i)];
        assert t[i + k - (|s| - i)] in Split(path, '/');
      }
    }
  }

  /** The string form splits back into the same segments. */
  lemma RelPathSegments(path: string, start: string)
    ensures Segments(RelPath(path, start)) == if RelParts(path, start) == [] then ["."] else RelParts(path, start)
  {
    var parts := RelParts(path, start);
    if parts == [] {
      assert Split(".", '/') == ["."];
    } else {
      RelPartsShape(path, start);
      SplitJoin(parts, '/');
      NonEmptyKeeps(parts);
    }
  }

  /** Following the relative segments from `start` leads to `path`. */
  lemma RelPartsResolve(path: string, start: string)
    requires Plain(Segments(path))
    ensures Walk(Segments(start), RelParts(path, start)) == Segments(path)
  {
    WalkCommon(Segments(start), Segments(path));
  }

  /** Going up from `s` to its common prefix with `t`, then down the rest of `t`, ends at `t`. */
  lemma WalkCommon(s: seq<string>, t: seq<string>)
    requires Plain(t)
    ensures var i := CommonPrefix(s, t); Walk(s, Repeat("..", |s| - i) + t[i..]) == t
  {
    var i := CommonPrefix(s, t);
    var down := t[i..];
    assert Plain(down) by {
      forall k | 0 <= k < |down| ensures down[k] != ".." && down[k] != "." { assert down[k] == t[i + k]; }
    }
    WalkUp(s, |s| - i, down);
    assert s[..|s| - (|s| - i)] == s[..i] == t[..i];
    WalkDown(t[..i], down);
    assert t[..i] + down == t;
  }

  /** Following the relative path from `start` leads to `path`. */
  lemma RelPathResolves(path: string, start: string)
    requires Plain(Segments(path))
    ensures Walk(Segments(start), Segments(RelPath(path, start))) == Segments(path)
  {
    RelPathSegments(path, start);
    RelPartsResolve(path, start);
    if RelParts(path, start) == [] {
      var s := Segments(start);
      assert Walk(s, ["."]) == Walk(s, ["."][1..]);
      assert ["."][1..] == [];
    }
  }

  /** A character that is not in `path` and is neither `.` nor `/` is not in the relative path either. */
  lemma RelPathAvoids(path: string, start: string, c: char)
    requires c !in path && c != '.' && c != '/'
    ensures c !in RelPath(path, start)
  {
    var parts := RelParts(path, start);
    if parts != [] {
      RelPartsShape(path, start);
      SplitAvoids(path, '/', c);
      forall k | 0 <= k < |parts| ensures c !in parts[k] {
        if parts[k] != ".." {
          var j :| 0 <= j < |Split(path, '/')| && Split(path, '/')[j] == parts[k];
        }
      }
      JoinAvoids(parts, '/', c);
    }
  }

  /** `s.replace(from, to)` for single characters. */
  function ReplaceChar(s: string, from: char, to: char): (r: string)
    ensures |r| == |s|
    ensures forall i :: 0 <= i < |s| ==> r[i] == (if s[i] == from then to else s[i])
  {
    if s == [] then [] else [if s[0] == from then to else s[0]] + ReplaceChar(s[1..], from, to)
  }

  /** Replacing a character that does not occur changes nothing, and afterwards it does not occur. */
  lemma ReplaceCharFacts(s: string, from: char, to: char)
    requires from != to
    ensures from !in s ==> ReplaceChar(s, from, to) == s
    ensures from !in ReplaceChar(s, from, to)
  {
    var r := ReplaceChar(s, from, to);
    if from !in s {
      assert forall i :: 0 <= i < |s| ==> r[i] == s[i];
    }
  }

  /** A character other than the new one that is not there before is not there after. */
  lemma ReplaceCharAvoids(s: string, from: char, to: char, c: char)
    requires c !in s && c != to
    ensures c !in ReplaceChar(s, from, to)
  {
  }
}
