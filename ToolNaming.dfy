/**
 * The naming helpers that `src/tools/api-tools-generator.ts` and
 * `src/conversion/tool-generator.js` share word for word: the plural
 * rule, the action a method maps to, the path parameters of a path and
 * the place a parameter is sent in. Method names are compared after an
 * ASCII lower-casing.
 */
module ToolNaming {
  import opened Text

  /** `word` minus `n` characters at the end, plus `tail`. */
  function Respell(word: string, n: nat, tail: string): string
    requires n <= |word|
  {
    word[..|word| - n] + tail
  }

  /** `singularize`: `…ies` becomes `…y`, a final `s` that is not `ss` goes, anything else stays. */
  function Singularize(word: string): (r: string)
    ensures |r| <= |word|
    ensures EndsWith(word, "ies") ==> r == Respell(word, 3, "y")
    ensures !EndsWith(word, "ies") && EndsWith(word, "s") && !EndsWith(word, "ss") ==> r == Respell(word, 1, "")
    ensures !EndsWith(word, "ies") && (!EndsWith(word, "s") || EndsWith(word, "ss")) ==> r == word
  {
    if EndsWith(word, "ies") then Respell(word, 3, "y")
    else if EndsWith(word, "s") && !EndsWith(word, "ss") then Respell(word, 1, "")
    else word
  }

  lemma LastChar(w: string, c: char)
    requires w != []
    ensures EndsWith(w, [c]) <==> w[|w| - 1] == c
  {
    if w[|w| - 1] == c { assert w[|w| - 1..] == [c]; }
  }

  /** A word whose last character is not the last of `p` does not end with `p`. */
  lemma NotEndsWithByLast(w: string, p: string)
    requires p != [] && (w == [] || w[|w| - 1] != p[|p| - 1])
    ensures !EndsWith(w, p)
  {
    if |p| <= |w| { assert w[|w| - |p|..][|p| - 1] == w[|w| - 1]; }
  }

  /** A singular word is left alone: what `singularize` returns does not end in a single `s`. */
  lemma SingularizeIdempotent(word: string)
    ensures Singularize(Singularize(word)) == Singularize(word)
  {
    var r := Singularize(word);
    if EndsWith(word, "ies") {
      assert r == word[..|word| - 3] + "y";
      assert r[|r| - 1] == 'y';
      NotEndsWithByLast(r, "s");
      NotEndsWithByLast(r, "ies");
    } else if EndsWith(word, "s") && !EndsWith(word, "ss") {
      if r != [] {
        assert r[|r| - 1] == word[|word| - 2];
        assert word[|word| - 2..] == [word[|word| - 2], word[|word| - 1]];
        NotEndsWithByLast(r, "s");
        NotEndsWithByLast(r, "ies");
      }
    }
  }

  /** `getActionFromMethod`: the verb a tool name starts with. */
  function Action(verb: string, hasId: bool): (a: string)
    ensures Lower(verb) == "get" ==> a == (if hasId then "get" else "list")
    ensures Lower(verb) == "post" ==> a == "create"
    ensures Lower(verb) == "put" || Lower(verb) == "patch" ==> a == "update"
    ensures Lower(verb) !in {"get", "post", "put", "patch"} ==> a == Lower(verb)
  {
    var m := Lower(verb);
    if m == "get" then (if hasId then "get" else "list")
    else if m == "post" then "create"
    else if m == "put" || m == "patch" then "update"
    else if m == "delete" then "delete"
    else m
  }

  /** The action does not depend on the case of the method. */
  lemma ActionCaseInsensitive(m1: string, m2: string, hasId: bool)
    requires Lower(m1) == Lower(m2)
    ensures Action(m1, hasId) == Action(m2, hasId)
  {
  }

  /**
   * `path.match(/{([^}]+)}/g)` with the braces sliced off: from each `{`,
   * the text up to the first `}` after it, when that text is not empty; the
   * search goes on after the `}`. With no `}` left there is no further match.
   */
  function BraceParams(s: string): (r: seq<string>)
    decreases |s|
  {
    if s == [] then []
    else if s[0] != '{' then BraceParams(s[1..])
    else
      match IndexOf(s[1..], '}')
      case None => []
      case Some(j) => if j == 0 then BraceParams(s[1..]) else [s[1..][..j]] + BraceParams(s[1..][j + 1..])
  }

  lemma ContainsAt(s: string, i: nat, p: string)
    requires i + |p| <= |s| && s[i..i + |p|] == p
    ensures Contains(s, p)
    decreases i
  {
    if i == 0 {
      assert s[..|p|] == s[0..|p|];
    } else {
      assert s[1..][i - 1..i - 1 + |p|] == s[i..i + |p|];
      ContainsAt(s[1..], i - 1, p);
    }
  }

  lemma ContainsPrefix(x: string, s: string, p: string)
    requires Contains(s, p)
    ensures Contains(x + s, p)
    decreases |x|
  {
    if x != [] {
      assert (x + s)[1..] == x[1..] + s;
      ContainsPrefix(x[1..], s, p);
      assert Contains((x + s)[1..], p);
    } else {
      assert x + s == s;
    }
  }

  /** Every path parameter is non-empty, has no `}`, and occurs in braces in the path. */
  lemma {:induction false} BraceParamsInPath(s: string)
    ensures forall k :: 0 <= k < |BraceParams(s)| ==>
      var p := BraceParams(s)[k]; p != [] && '}' !in p && Contains(s, "{" + p + "}")
    decreases |s|
  {
    if s != [] {
      var t := s[1..];
      assert s == [s[0]] + t;
      if s[0] != '{' {
        BraceParamsInPath(t);
        forall k | 0 <= k < |BraceParams(s)| ensures Contains(s, "{" + BraceParams(s)[k] + "}") {
          ContainsPrefix([s[0]], t, "{" + BraceParams(s)[k] + "}");
        }
      } else {
        match IndexOf(t, '}')
        case None =>
        case Some(j) =>
          if j == 0 {
            BraceParamsInPath(t);
            forall k | 0 <= k < |BraceParams(s)| ensures Contains(s, "{" + BraceParams(s)[k] + "}") {
              ContainsPrefix([s[0]], t, "{" + BraceParams(s)[k] + "}");
            }
          } else {
            var p := t[..j];
            var u := t[j + 1..];
            BraceParamsInPath(u);
            assert s[0..j + 2] == "{" + p + "}";
            ContainsAt(s, 0, "{" + p + "}");
            assert s == s[..j + 2] + u;
            forall k | 0 <= k < |BraceParams(u)| ensures Contains(s, "{" + BraceParams(u)[k] + "}") {
              ContainsPrefix(s[..j + 2], u, "{" + BraceParams(u)[k] + "}");
            }
          }
      }
    }
  }

  /** Where a tool parameter is sent. */
  datatype ParamKind = InPath | InQuery | InBody

  /**
   * `detectParameterType`: a path parameter first, then — for a method that
   * has a body — anything not named `query_…`, and a query parameter otherwise.
   */
  function DetectParameterType(path: string, name: string, verb: string, pathParams: seq<string>): (k: ParamKind)
    ensures k == InPath <==> name in pathParams || Contains(path, "{" + name + "}")
    ensures k == InBody <==> k != InPath && Lower(verb) in {"post", "put", "patch"} && !StartsWith(name, "query_")
  {
    if name in pathParams || Contains(path, "{" + name + "}") then InPath
    else if Lower(verb) in {"post", "put", "patch"} && !StartsWith(name, "query_") then InBody
    else InQuery
  }

  /** A GET parameter is never sent in the body. */
  lemma GetNeverBody(path: string, name: string, verb: string, pathParams: seq<string>)
    requires Lower(verb) == "get"
    ensures DetectParameterType(path, name, verb, pathParams) != InBody
  {
  }

  /** A parameter the path names in braces is a path parameter, whatever the method. */
  lemma BracedIsPath(path: string, verb: string, k: nat)
    requires k < |BraceParams(path)|
    ensures DetectParameterType(path, BraceParams(path)[k], verb, BraceParams(path)) == InPath
  {
  }

  /** `method.toUpperCase()` of a tool: the ASCII upper case of the key. */
  function MethodLabel(verb: string): (r: string)
    ensures |r| == |verb|
  {
    Upper(verb)
  }

  /** The default description `${METHOD} ${path}`. */
  function DefaultDescription(verb: string, path: string): string {
    MethodLabel(verb) + " " + path
  }

  /** `a || b`: a string is falsy exactly when it is empty. */
  function OrElse(a: string, b: string): (r: string)
    ensures a != [] ==> r == a
    ensures a == [] ==> r == b
  {
    if a != [] then a else b
  }

  lemma SplitLeadingSep(u: string, sep: char)
    ensures Split([sep] + u, sep) == [[]] + Split(u, sep)
  {
    var s := [sep] + u;
    assert IndexOf(s, sep) == Some(0);
    assert s[1..] == u;
  }

  lemma SplitWord(r: string, t: string, sep: char)
    requires sep !in r && t != [] && t[0] == sep
    ensures Split(r + t, sep) == [r] + Split(t[1..], sep)
  {
    var u := r + t;
    assert u[|r|] == sep && u[..|r|] == r;
    assert IndexOf(u, sep) == Some(|r|);
    assert u[|r| + 1..] == t[1..];
  }

  lemma NoSegments()
    ensures Segments([]) == []
  {
    assert Split([], '/') == [[]];
  }

  lemma SegmentsOfSingle(r: string)
    requires r != [] && '/' !in r
    ensures Segments("/" + r) == [r]
  {
    assert "/" + r == ['/'] + r;
    SplitLeadingSep(r, '/');
    assert Split(r, '/') == [r];
    assert NonEmpty([[]] + [r]) == NonEmpty([r]);
  }

  lemma NonEmptyCons(x: string, rest: seq<string>)
    ensures NonEmpty([x] + rest) == (if x == [] then [] else [x]) + NonEmpty(rest)
  {
    assert ([x] + rest)[1..] == rest;
  }

  lemma SplitOfMore(r: string, t: string)
    requires '/' !in r && t != [] && t[0] == '/'
    ensures Split("/" + r + t, '/') == [[]] + ([r] + Split(t[1..], '/'))
  {
    var u := r + t;
    assert "/" + r + t == ['/'] + u;
    SplitLeadingSep(u, '/');
    SplitWord(r, t, '/');
  }

  lemma SegmentsOfMore(r: string, t: string)
    requires r != [] && '/' !in r && t != [] && t[0] == '/'
    ensures Segments("/" + r + t) == [r] + Segments(t)
  {
    var rest := Split(t[1..], '/');
    SplitOfMore(r, t);
    assert t == ['/'] + t[1..];
    SplitLeadingSep(t[1..], '/');
    NonEmptyCons([], [r] + rest);
    NonEmptyCons(r, rest);
    NonEmptyCons([], rest);
  }

  /** The segments of `/r` followed by more path. */
  lemma SegmentsOf(r: string, t: string)
    requires r != [] && '/' !in r && (t == [] || t[0] == '/')
    ensures Segments("/" + r + t) == [r] + Segments(t)
  {
    if t == [] {
      assert "/" + r + t == "/" + r;
      SegmentsOfSingle(r);
      NoSegments();
    } else {
      SegmentsOfMore(r, t);
    }
  }
}
