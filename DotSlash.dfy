/**
 * `remove_dotslash_prefixes.py`: a `$ref` target written `./../<path>.yaml`
 * loses its leading `./`, in every `*.yaml` file under `paths` and
 * `schemas` and in the root `openapi.yaml`.
 */
module DotSlash {
  import opened Text
  import opened RefScan
  import opened RefSyntax
  import opened Disk

  const PathsDir := "/Users/t002451/my_work/private/SmaregiMCP/paths"
  const SchemasDir := "/Users/t002451/my_work/private/SmaregiMCP/schemas"
  const RootFile := "/Users/t002451/my_work/private/SmaregiMCP/openapi.yaml"

  /** `\.yaml['"]` at position `i`. */
  predicate YamlAt(s: string, i: nat) {
    i + 6 <= |s|
    && s[i] == '.' && s[i + 1] == 'y' && s[i + 2] == 'a' && s[i + 3] == 'm' && s[i + 4] == 'l'
    && IsQuote(s[i + 5])
  }

  /**
   * `.*?\.yaml['"]` from `j`: the lazy run stops at the first `.yaml` that a
   * quote follows, and it cannot cross a newline.
   */
  function YamlEnd(s: string, j: nat): (r: Option<nat>)
    ensures r.Some? ==>
      && j <= r.value && YamlAt(s, r.value)
      && forall i :: j <= i < r.value ==> s[i] != '\n' && !YamlAt(s, i)
    ensures r.None? ==> forall k :: j <= k && YamlAt(s, k) ==> exists i :: j <= i < k && s[i] == '\n'
    decreases |s| - j
  {
    if j + 6 > |s| then None
    else if YamlAt(s, j) then Some(j)
    else if s[j] == '\n' then None
    else YamlEnd(s, j + 1)
  }

  /** `(\$ref:\s*['"])\./(\.\.\/.*?\.yaml)(['"])` with replacement `\1\2\3`, tried at the start of `s`. */
  function DotHit(s: string): (r: Option<Hit>)
    ensures r.Some? ==> Spans(s, r.value)
  {
    match RefOpen(s, Whitespace)
    case None => None
    case Some(a) =>
      if !StartsWith(s[a..], "./../") then None
      else match YamlEnd(s, a + 5)
        case None => None
        case Some(k) =>
          var rep := s[..a] + s[a + 2..k + 6];
          assert rep[..5] == s[..5];
          Some(Hit(k + 6, rep))
  }

  const DotHits: Matcher := (s: string) => DotHit(s)

  /** `re.sub(pattern, replacement, content)`. */
  function RemoveDotSlash(content: string): string {
    Sub(DotHits, content)
  }

  /** The regex read on positions: `./../` after the opening quote, then the first `.yaml` and quote of the line at `k`. */
  predicate DotRefAt(s: string, a: nat, k: nat) {
    RefOpen(s, Whitespace) == Some(a) && StartsWith(s[a..], "./../") && a + 5 <= k && YamlAt(s, k)
    && forall i :: a + 5 <= i < k ==> s[i] != '\n' && !YamlAt(s, i)
  }

  /** Where the regex matches, the two characters `./` after the opening quote are dropped and nothing else moves. */
  lemma DotHitExact(s: string, a: nat, k: nat)
    requires DotRefAt(s, a, k)
    ensures DotHit(s) == Some(Hit(k + 6, s[..a] + s[a + 2..k + 6]))
  {
  }

  /** Where the scanner hits, the regex matches. */
  lemma DotHitSound(s: string)
    requires DotHit(s).Some?
    ensures exists a: nat, k: nat :: DotRefAt(s, a, k) && DotHit(s).value == Hit(k + 6, s[..a] + s[a + 2..k + 6])
  {
    var a := RefOpen(s, Whitespace).value;
    var k := YamlEnd(s, a + 5).value;
    assert DotRefAt(s, a, k);
  }

  /** A target that does not go up a directory right after `./` is left alone. */
  lemma NoParentKept(s: string, a: nat)
    requires RefOpen(s, Whitespace) == Some(a) && !StartsWith(s[a..], "./../")
    ensures DotHit(s).None?
  {
  }

  /** A rewritten reference starts with `../`, so it is not rewritten again. */
  lemma DotNotAgain(s: string, tail: string)
    requires DotHit(s).Some?
    ensures DotHit(DotHit(s).value.replacement + tail).None?
  {
    var a := RefOpen(s, Whitespace).value;
    var k := YamlEnd(s, a + 5).value;
    assert DotHit(s).value.replacement == s[..a] + s[a + 2..k + 6];
    RewrittenOpen(s, a, k, tail);
    NoParentKept(s[..a] + s[a + 2..k + 6] + tail, a);
  }

  lemma RewrittenOpen(s: string, a: nat, k: nat, tail: string)
    requires RefOpen(s, Whitespace) == Some(a) && StartsWith(s[a..], "./../") && a + 5 <= k && k + 6 <= |s|
    ensures var u := s[..a] + s[a + 2..k + 6] + tail;
      RefOpen(u, Whitespace) == Some(a) && !StartsWith(u[a..], "./../")
  {
    var u := s[..a] + s[a + 2..k + 6] + tail;
    assert u[..a] == s[..a];
    RefOpenPrefix(s, u, Whitespace, a);
    assert s[a..][..5] == "./../";
    assert u[a + 1] == s[a + 3] == '.';
    if |u[a..]| >= 5 { assert u[a..][..5][1] == u[a + 1]; }
  }

  /** One line of text. */
  predicate OneLine(x: string) {
    forall i :: 0 <= i < |x| ==> x[i] != '\n'
  }

  /** Every quote in `x` comes right after a blank, so none can close a `.yaml`. */
  predicate QuotesAfterBlank(x: string) {
    forall j :: 0 <= j < |x| && IsQuote(x[j]) ==> 0 < j && x[j - 1] == ' '
  }

  /** In `$ref: './../<x>.yaml'`, the lazy run from after `./../` reaches the final `.yaml'`. */
  lemma ScanClear(x: string, tail: string)
    requires OneLine(x) && QuotesAfterBlank(x)
    ensures var s := Opening + "./../" + x + ".yaml'" + tail; var k := |x| + 12;
      && YamlAt(s, k)
      && forall i :: 12 <= i < k ==> s[i] != '\n' && !YamlAt(s, i)
  {
    var s := Opening + "./../" + x + ".yaml'" + tail;
    var k := |x| + 12;
    forall i | 12 <= i < k ensures s[i] != '\n' && !YamlAt(s, i) {
      assert s[i] == x[i - 12];
      if i + 5 < k {
        assert s[i + 5] == x[i + 5 - 12];
        if IsQuote(s[i + 5]) {
          assert s[i + 4] == x[i + 4 - 12] == ' ';
        }
      } else {
        assert s[i + 5] == ".yaml"[i + 5 - k];
      }
    }
    assert s[k + 5] == '\'';
  }

  lemma OpenDotParent(u: string)
    ensures var s := Opening + "./../" + u;
      RefOpen(s, Whitespace) == Some(7) && StartsWith(s[7..], "./../")
  {
    var s := Opening + "./../" + u;
    assert s[..5] == RefKey;
    assert s[5] == ' ' && s[6] == '\'';
    RefOpenIs(s, Whitespace, 7);
    assert s[7..][..5] == "./../";
  }

  /** `$ref: './../<x>.yaml'` followed by anything loses its `./`. */
  lemma DotHitOn(x: string, tail: string)
    requires OneLine(x) && QuotesAfterBlank(x)
    ensures DotHit(Opening + "./../" + x + ".yaml'" + tail) == Some(Hit(|x| + 18, Opening + "../" + x + ".yaml'"))
  {
    var s := Opening + "./../" + x + ".yaml'" + tail;
    var k := |x| + 12;
    OpenDotParent(x + ".yaml'" + tail);
    Regroup(Opening, "./../", x, ".yaml'", tail);
    assert Opening + "./../" + (x + ".yaml'" + tail) == s;
    ScanClear(x, tail);
    DotHitExact(s, 7, k);
    DropDotSlice(Opening, x, tail);
  }

  /** Cutting `./` out after a seven-character opening. */
  lemma DropDotSlice(o: string, x: string, tail: string)
    requires |o| == 7
    ensures var s := o + "./../" + x + ".yaml'" + tail; s[..7] + s[9..|x| + 18] == o + "../" + x + ".yaml'"
  {
    var s := o + "./../" + x + ".yaml'" + tail;
    assert s[..7] == o;
    assert s[9..|x| + 18] == "../" + x + ".yaml'";
  }

  /** The nested example's outer target, which runs on until the inner `.yaml'`. */
  lemma NestedTarget(x: string, y: string)
    requires OneLine(x) && OneLine(y) && QuotesFree(x) && QuotesFree(y)
    ensures OneLine(x + Opening + "./../" + y) && QuotesAfterBlank(x + Opening + "./../" + y)
  {
    var w := x + Opening + "./../" + y;
    forall i | 0 <= i < |w| ensures w[i] != '\n' && (IsQuote(w[i]) ==> 0 < i && w[i - 1] == ' ') {
      if i < |x| {
        assert w[i] == x[i];
      } else if i < |x| + 12 {
        assert w[i] == (Opening + "./../")[i - |x|];
        assert w[|x| + 5] == ' ';
      } else {
        assert w[i] == y[i - |x| - 12];
      }
    }
  }

  predicate QuotesFree(x: string) {
    forall i :: 0 <= i < |x| ==> !IsQuote(x[i])
  }

  /** The first run rewrites only the outer `$ref`: its lazy target runs on to the inner one's `.yaml'`. */
  lemma FirstRunNested(x: string, y: string)
    requires OneLine(x) && OneLine(y) && QuotesFree(x) && QuotesFree(y)
    ensures RemoveDotSlash(Opening + "./../" + x + Opening + "./../" + y + ".yaml'")
      == Opening + "../" + x + Opening + "./../" + y + ".yaml'"
  {
    var w := x + Opening + "./../" + y;
    var s := Opening + "./../" + x + Opening + "./../" + y + ".yaml'";
    var rep := Opening + "../" + w + ".yaml'";
    NestedTarget(x, y);
    NestedSplitDot(x, y);
    DotHitOn(w, []);
    assert DotHits(s) == Some(Hit(|w| + 18, rep));
    SubHit(DotHits, s);
    assert s[|w| + 18..] == [];
    assert Sub(DotHits, s) == rep + [];
    Regroup(Opening + "../", x, Opening, "./../", y);
  }

  lemma NestedSplitDot(x: string, y: string)
    ensures Opening + "./../" + x + Opening + "./../" + y + ".yaml'"
      == Opening + "./../" + (x + Opening + "./../" + y) + ".yaml'" + []
  {
    Regroup(Opening + "./../", x, Opening, "./../", y);
  }

  lemma ParentNoHit(u: string)
    ensures DotHit(Opening + "../" + u).None?
  {
    var t := Opening + "../" + u;
    assert t[..5] == RefKey;
    assert t[5] == ' ' && t[6] == '\'';
    RefOpenIs(t, Whitespace, 7);
    assert t[7..][1] == '.';
  }

  lemma DropDollarParent(x: string, rest: string)
    ensures (Opening + "../" + x + rest)[0] == '$'
    ensures (Opening + "../" + x + rest)[1..] == "ref: '../" + x + rest
    ensures ['$'] + ("ref: '../" + x + rest) == Opening + "../" + x + rest
  {
  }

  /** A `$ref` already written `../` is copied as it is, up to the next `$`. */
  lemma ParentSkipped(x: string, rest: string)
    requires '$' !in x
    ensures RemoveDotSlash(Opening + "../" + x + rest) == Opening + "../" + x + RemoveDotSlash(rest)
  {
    var t := Opening + "../" + x + rest;
    ParentNoHit(x + rest);
    Assoc(Opening + "../", x, rest);
    SubMiss(DotHits, t);
    var plain := "ref: '../" + x;
    DropDollarParent(x, rest);
    assert '$' !in plain;
    SubPlainPrefix(DotHits, plain, rest);
    DropDollarParent(x, RemoveDotSlash(rest));
  }

  /** A lone `$ref: './../<y>.yaml'` loses its `./`. */
  lemma LoneStripped(y: string)
    requires OneLine(y) && QuotesFree(y)
    ensures RemoveDotSlash(Opening + "./../" + y + ".yaml'") == Opening + "../" + y + ".yaml'"
  {
    var s := Opening + "./../" + y + ".yaml'";
    assert QuotesAfterBlank(y);
    DotHitOn(y, []);
    assert s + [] == s;
    SubHit(DotHits, s);
    assert s[|y| + 18..] == [];
  }

  /** The second run passes over the rewritten outer `$ref` and rewrites the inner one. */
  lemma SecondRunNested(x: string, y: string)
    requires OneLine(y) && QuotesFree(y) && '$' !in x
    ensures RemoveDotSlash(Opening + "../" + x + Opening + "./../" + y + ".yaml'")
      == Opening + "../" + x + Opening + "../" + y + ".yaml'"
  {
    var pre := Opening + "../" + x;
    ParentSkipped(x, Opening + "./../" + y + ".yaml'");
    LoneStripped(y);
    Assoc(pre, Opening + "./../" + y, ".yaml'");
    Assoc(pre, Opening + "./../", y);
    Assoc(pre, Opening, "./../");
    Assoc(pre, Opening + "../" + y, ".yaml'");
    Assoc(pre, Opening + "../", y);
    Assoc(pre, Opening, "../");
  }

  /**
   * Running the script twice is not always a no-op: the lazy target of one
   * `$ref` can run on to the `.yaml'` of the next one on its line, which
   * only the second run then rewrites.
   */
  lemma SecondRunCanChange(x: string, y: string)
    requires OneLine(x) && OneLine(y) && QuotesFree(x) && QuotesFree(y) && '$' !in x
    ensures var once := RemoveDotSlash(Opening + "./../" + x + Opening + "./../" + y + ".yaml'");
      RemoveDotSlash(once) != once
  {
    var once := Opening + "../" + x + Opening + "./../" + y + ".yaml'";
    var twice := Opening + "../" + x + Opening + "../" + y + ".yaml'";
    FirstRunNested(x, y);
    SecondRunNested(x, y);
    assert |twice| + 2 == |once|;
  }

  /** What the loop does to one file. */
  function RemoveEach(p: string): string -> string {
    (text: string) => RemoveDotSlash(text)
  }

  /**
   * `main`: the `*.yaml` files under `paths`, then those under `schemas`
   * (both listings are parameters), then the root `openapi.yaml`; the
   * stores in between and the three counts.
   */
  function Pipeline(st: Store, pathsYaml: seq<string>, schemasYaml: seq<string>): (r: (Store, nat, nat, nat))
  {
    var (st1, pathsUpdated) := UpdateAll(st, pathsYaml, RemoveEach, WithBackup);
    var (st2, schemasUpdated) := UpdateAll(st1, schemasYaml, RemoveEach, WithBackup);
    var (st3, root) := Update(st2, RootFile, RemoveDotSlash, WithBackup);
    (st3, pathsUpdated, schemasUpdated, if root then 1 else 0)
  }

  method RunScript(st: Store, pathsYaml: seq<string>, schemasYaml: seq<string>)
    returns (st': Store, pathsUpdated: nat, schemasUpdated: nat, rootUpdated: nat, total: nat)
    ensures (st', pathsUpdated, schemasUpdated, rootUpdated) == Pipeline(st, pathsYaml, schemasYaml)
    ensures total == pathsUpdated + schemasUpdated + rootUpdated
    ensures pathsUpdated <= |pathsYaml| && schemasUpdated <= |schemasYaml| && rootUpdated <= 1
  {
    var st1, st2;
    st1, pathsUpdated := UpdateEach(st, pathsYaml, RemoveEach, WithBackup);
    UpdateAllBound(st, pathsYaml, RemoveEach, WithBackup);
    st2, schemasUpdated := UpdateEach(st1, schemasYaml, RemoveEach, WithBackup);
    UpdateAllBound(st1, schemasYaml, RemoveEach, WithBackup);
    var step := Update(st2, RootFile, RemoveDotSlash, WithBackup);
    st' := step.0;
    rootUpdated := if step.1 then 1 else 0;
    total := pathsUpdated + schemasUpdated + rootUpdated;
  }
}
