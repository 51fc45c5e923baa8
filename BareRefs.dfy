/**
 * `convert_refs.py`: in every YAML file that looks like an OpenAPI document,
 * a `$ref` target that does not already start with `./`, `../` or `#/` gets
 * `./` put in front of it.
 */
module BareRefs {
  import opened Text
  import opened RefScan
  import opened RefSyntax
  import opened Disk

  /** The lookahead `(?!\./|\.\./|#/)`: the target is already relative or an anchor. */
  predicate Relative(t: string) {
    StartsWith(t, "./") || StartsWith(t, "../") || StartsWith(t, "#/")
  }

  lemma NotRelative(t: string)
    requires t != [] && t[0] != '.' && t[0] != '#'
    ensures !Relative(t)
  {
  }

  /** `(.*?['"])` from `a`: the lazy run up to the first quote on the same line. */
  function TargetHit(s: string, a: nat): (r: Option<Hit>)
    requires 6 <= a <= |s| && StartsWith(s, RefKey)
    ensures r.Some? ==> Spans(s, r.value)
  {
    var e := a + Run(s[a..], TargetChar);
    if e < |s| && IsQuote(s[e]) then
      var rep := s[..a] + "./" + s[a..e + 1];
      assert rep[..5] == s[..5];
      Some(Hit(e + 1, rep))
    else None
  }

  /** `(\$ref:\s*['"])(?!\./|\.\./|#/)(.*?['"])` with replacement `\1./\2`, tried at the start of `s`. */
  function BareHit(s: string): (r: Option<Hit>)
    ensures r.Some? ==> Spans(s, r.value)
  {
    match RefOpen(s, Whitespace)
    case None => None
    case Some(a) => if Relative(s[a..]) then None else TargetHit(s, a)
  }

  const Bare: Matcher := (s: string) => BareHit(s)

  /** `re.sub(pattern, replacement, content)`. */
  function Prefix(content: string): string {
    Sub(Bare, content)
  }

  /** The regex read on positions: the target runs from `a` to the first quote `e` of the line. */
  predicate BareRefAt(s: string, a: nat, e: nat) {
    RefOpen(s, Whitespace) == Some(a) && !Relative(s[a..]) && a <= e < |s|
    && (forall i :: a <= i < e ==> s[i] != '\n' && !IsQuote(s[i]))
    && IsQuote(s[e])
  }

  /** Where the regex matches, `./` goes right after the opening quote and nothing else moves. */
  lemma BareHitExact(s: string, a: nat, e: nat)
    requires BareRefAt(s, a, e)
    ensures BareHit(s) == Some(Hit(e + 1, s[..a] + "./" + s[a..e + 1]))
  {
    RunIs(s[a..], TargetChar, e - a);
  }

  /** Where the scanner hits, the regex matches. */
  lemma BareHitSound(s: string)
    requires BareHit(s).Some?
    ensures exists a: nat, e: nat :: BareRefAt(s, a, e) && BareHit(s).value == Hit(e + 1, s[..a] + "./" + s[a..e + 1])
  {
    var a := RefOpen(s, Whitespace).value;
    var e := a + Run(s[a..], TargetChar);
    assert BareRefAt(s, a, e);
  }

  /** Targets starting with `./`, `../` or `#/` are left alone. */
  lemma RelativeKept(s: string, a: nat)
    requires RefOpen(s, Whitespace) == Some(a) && Relative(s[a..])
    ensures BareHit(s).None?
  {
  }

  /** A `$ref` whose target has no closing quote on its line is left alone. */
  lemma UnclosedKept(s: string, a: nat)
    requires RefOpen(s, Whitespace) == Some(a)
    requires forall i :: a <= i < |s| ==> !IsQuote(s[i]) || '\n' in s[a..i]
    ensures BareHit(s).None?
  {
  }

  /** A rewritten reference starts with `./`, so it is not rewritten again. */
  lemma PrefixedNotAgain(s: string, tail: string)
    requires BareHit(s).Some?
    ensures BareHit(BareHit(s).value.replacement + tail).None?
  {
    var a := RefOpen(s, Whitespace).value;
    var e := a + Run(s[a..], TargetChar);
    assert BareHit(s).value.replacement == s[..a] + "./" + s[a..e + 1];
    var u := s[..a] + "./" + s[a..e + 1] + tail;
    SplitAtPrefix(s[..a], "./", s[a..e + 1], tail);
    RefOpenPrefix(s, u, Whitespace, a);
    assert u[a..][..2] == "./";
    RelativeKept(u, a);
  }

  /** An empty target becomes `./`. */
  lemma EmptyTargetPrefixed()
    ensures Prefix("$ref: ''") == "$ref: './'"
  {
    var s := "$ref: ''";
    RefOpenIs(s, Whitespace, 7);
    NotRelative(s[7..]);
    BareHitExact(s, 7, 7);
    assert s[8..] == [];
  }

  /** A target the pattern prefixes: one line, no quote, not already relative. */
  predicate BareTarget(x: string) {
    x != [] && x[0] != '.' && x[0] != '#'
    && forall i :: 0 <= i < |x| ==> x[i] != '\n' && !IsQuote(x[i])
  }

  /** `$ref: '<x>'` followed by anything is rewritten to `$ref: './<x>'`. */
  lemma BareHitOn(x: string, tail: string)
    requires BareTarget(x)
    ensures BareHit(Opening + x + "'" + tail) == Some(Hit(|x| + 8, Opening + "./" + x + "'"))
  {
    var s := Opening + x + "'" + tail;
    var e := |x| + 7;
    assert s[..5] == RefKey;
    assert s[5] == ' ' && s[6] == '\'';
    RefOpenIs(s, Whitespace, 7);
    assert s[7..][0] == x[0];
    NotRelative(s[7..]);
    forall i | 7 <= i < e ensures s[i] != '\n' && !IsQuote(s[i]) {
      assert s[i] == x[i - 7];
    }
    assert s[e] == '\'';
    BareHitExact(s, 7, e);
    assert s[..7] + "./" + s[7..e + 1] == Opening + "./" + x + "'";
  }

  /** Rebracketing the nested example around its inner opening. */
  lemma NestedSplit(pre: string, x: string, y: string)
    ensures pre + x + Opening + y + "'" == pre + (x + "$ref: ") + "'" + (y + "'")
  {
    assert Opening == "$ref: " + "'";
  }

  lemma DropDollar(x: string, rest: string)
    ensures (Opening + "./" + x + rest)[0] == '$'
    ensures (Opening + "./" + x + rest)[1..] == "ref: './" + x + rest
    ensures ['$'] + ("ref: './" + x + rest) == Opening + "./" + x + rest
  {
  }

  /** The first run prefixes the outer target, which runs on to the inner `$ref`'s quote. */
  lemma FirstRunNested(x: string, y: string)
    requires BareTarget(x) && BareTarget(y) && '$' !in y
    ensures Prefix(Opening + x + Opening + y + "'") == Opening + "./" + x + Opening + y + "'"
  {
    var s := Opening + x + Opening + y + "'";
    var x' := x + "$ref: ";
    assert BareTarget(x') by {
      forall i | 0 <= i < |x'| ensures x'[i] != '\n' && !IsQuote(x'[i]) {
        if i >= |x| { assert x'[i] == "$ref: "[i - |x|]; }
      }
    }
    NestedSplit([], x, y);
    assert [] + x == x;
    assert s == Opening + x' + "'" + (y + "'");
    BareHitOn(x', y + "'");
    SubHit(Bare, s);
    assert s[|x'| + 8..] == y + "'";
    assert '$' !in y + "'";
    SubPlainText(Bare, y + "'");
    NestedSplit(Opening + "./", x, y);
    calc {
      Prefix(s);
      Opening + "./" + x' + "'" + (y + "'");
      Opening + "./" + x + Opening + y + "'";
    }
  }

  /** A `$ref` already written `./` is copied as it is, up to the next `$`. */
  lemma PrefixedNoHit(u: string)
    ensures BareHit(Opening + "./" + u).None?
  {
    var t := Opening + "./" + u;
    assert t[..5] == RefKey;
    assert t[5] == ' ' && t[6] == '\'';
    RefOpenIs(t, Whitespace, 7);
    assert t[7..][..2] == "./";
  }

  lemma PrefixedSkipped(x: string, rest: string)
    requires '$' !in x
    ensures Prefix(Opening + "./" + x + rest) == Opening + "./" + x + Prefix(rest)
  {
    var t := Opening + "./" + x + rest;
    PrefixedNoHit(x + rest);
    Assoc(Opening + "./", x, rest);
    SubMiss(Bare, t);
    var plain := "ref: './" + x;
    DropDollar(x, rest);
    assert '$' !in plain;
    SubPlainPrefix(Bare, plain, rest);
    DropDollar(x, Prefix(rest));
  }

  /** A lone bare `$ref` is prefixed. */
  lemma LonePrefixed(y: string)
    requires BareTarget(y)
    ensures Prefix(Opening + y + "'") == Opening + "./" + y + "'"
  {
    var s := Opening + y + "'";
    BareHitOn(y, []);
    assert s + [] == s;
    SubHit(Bare, s);
    assert s[|y| + 8..] == [];
  }

  /** The second run passes over the prefixed outer `$ref` and prefixes the inner one. */
  lemma SecondRunNested(x: string, y: string)
    requires BareTarget(x) && '$' !in x && BareTarget(y)
    ensures Prefix(Opening + "./" + x + Opening + y + "'") == Opening + "./" + x + Opening + "./" + y + "'"
  {
    var pre := Opening + "./" + x;
    PrefixedSkipped(x, Opening + y + "'");
    LonePrefixed(y);
    Assoc(pre, Opening + y, "'");
    Assoc(pre, Opening, y);
    Assoc(pre, Opening + "./" + y, "'");
    Assoc(pre, Opening + "./", y);
    Assoc(pre, Opening, "./");
  }

  /**
   * Running the script twice is not always a no-op: a target read up to the
   * first quote can swallow a second `$ref`, which the second run then finds.
   */
  lemma SecondRunCanChange(x: string, y: string)
    requires BareTarget(x) && '$' !in x && BareTarget(y) && '$' !in y
    ensures var once := Prefix(Opening + x + Opening + y + "'"); Prefix(once) != once
  {
    var once := Opening + "./" + x + Opening + y + "'";
    var twice := Opening + "./" + x + Opening + "./" + y + "'";
    FirstRunNested(x, y);
    SecondRunNested(x, y);
    assert |twice| == |once| + 2;
  }

  /** `file.read(1000)`: the first 1000 characters of the text read. */
  function Head(text: string): (h: string)
    ensures |h| == if |text| < 1000 then |text| else 1000
    ensures StartsWith(text, h)
  {
    if |text| < 1000 then text else text[..1000]
  }

  const Indicators := ["openapi:", "swagger:", "paths:", "components:"]

  /** Whether the head of a file names one of the top-level OpenAPI keys. */
  predicate LooksLikeOpenApi(text: string) {
    exists k :: 0 <= k < |Indicators| && Contains(Head(text), Indicators[k])
  }

  /** A document that opens with `openapi:` is recognised. */
  lemma OpenApiHeaderRecognised(text: string)
    requires StartsWith(text, "openapi:")
    ensures LooksLikeOpenApi(text)
  {
    var h := Head(text);
    assert h[..8] == text[..8];
    assert Contains(h, Indicators[0]);
  }

  /** Only the first 1000 characters are looked at. */
  lemma OnlyHeadMatters(text: string, more: string)
    requires |text| >= 1000
    ensures LooksLikeOpenApi(text + more) == LooksLikeOpenApi(text)
  {
    assert Head(text + more) == Head(text);
  }

  /** `find_openapi_files`: the listed files that can be read and look like OpenAPI, in listing order. */
  function OpenApiFiles(st: Store, paths: seq<string>): (r: seq<string>)
    ensures |r| <= |paths|
  {
    if paths == [] then []
    else
      var p := paths[|paths| - 1];
      OpenApiFiles(st, paths[..|paths| - 1])
      + if p in st.files && LooksLikeOpenApi(Read(st, p).value) then [p] else []
  }

  /** A file is selected exactly when it is listed, readable and looks like OpenAPI. */
  lemma {:induction false} OpenApiFilesMembers(st: Store, paths: seq<string>, p: string)
    ensures p in OpenApiFiles(st, paths) <==> p in paths && p in st.files && LooksLikeOpenApi(Read(st, p).value)
    decreases |paths|
  {
    if paths != [] {
      var init := paths[..|paths| - 1];
      OpenApiFilesMembers(st, init, p);
      assert paths == init + [paths[|paths| - 1]];
    }
  }

  /** The selection keeps the listing's order and repeats nothing it did not repeat. */
  lemma {:induction false} OpenApiFilesListing(st: Store, paths: seq<string>)
    requires Listing(paths)
    ensures Listing(OpenApiFiles(st, paths))
    decreases |paths|
  {
    if paths != [] {
      var init := paths[..|paths| - 1];
      var p := paths[|paths| - 1];
      assert forall i :: 0 <= i < |init| ==> init[i] == paths[i];
      OpenApiFilesListing(st, init);
      var r := OpenApiFiles(st, init);
      forall i | 0 <= i < |r| ensures r[i] != p {
        OpenApiFilesMembers(st, init, r[i]);
      }
    }
  }

  /** The filter loop of `find_openapi_files`. */
  method FindOpenApiFiles(st: Store, yamlFiles: seq<string>) returns (openapi: seq<string>)
    ensures openapi == OpenApiFiles(st, yamlFiles)
  {
    openapi := [];
    var i := 0;
    while i < |yamlFiles|
      invariant 0 <= i <= |yamlFiles|
      invariant openapi == OpenApiFiles(st, yamlFiles[..i])
    {
      var p := yamlFiles[i];
      assert yamlFiles[..i + 1][..i] == yamlFiles[..i];
      match Read(st, p) {
        case Some(content) =>
          if LooksLikeOpenApi(content) {
            openapi := openapi + [p];
          }
        case None =>
      }
      i := i + 1;
    }
    assert yamlFiles[..i] == yamlFiles;
  }

  /** What the loop does to one file: `./` before every bare target. */
  function PrefixEach(p: string): string -> string {
    (text: string) => Prefix(text)
  }

  /**
   * `main`: find the `*.yaml` and then the `*.yml` files (both listings are
   * parameters), keep the OpenAPI ones, and convert each, keeping a backup
   * of every file it rewrites.
   */
  method RunScript(st: Store, yamlFiles: seq<string>, ymlFiles: seq<string>) returns (st': Store, openapi: seq<string>, updated: nat)
    ensures openapi == OpenApiFiles(st, yamlFiles + ymlFiles)
    ensures (st', updated) == UpdateAll(st, openapi, PrefixEach, WithBackup)
    ensures updated <= |openapi|
  {
    openapi := FindOpenApiFiles(st, yamlFiles + ymlFiles);
    st', updated := UpdateEach(st, openapi, PrefixEach, WithBackup);
    UpdateAllBound(st, openapi, PrefixEach, WithBackup);
  }

  /** A listed file that is not selected is left as it was. */
  lemma NotOpenApiUntouched(st: Store, paths: seq<string>, q: string)
    requires Listing(paths) && q in paths && q !in OpenApiFiles(st, paths)
    ensures var files := UpdateAll(st, OpenApiFiles(st, paths), PrefixEach, WithBackup).0.files;
      (q in files <==> q in st.files) && (q in st.files ==> files[q] == st.files[q])
  {
    var r := OpenApiFiles(st, paths);
    forall i | 0 <= i < |r| ensures q != BackupPath(r[i]) {
      BackupPathEnds(r[i]);
      var j :| 0 <= j < |paths| && paths[j] == q;
    }
    UpdateAllFrame(st, r, PrefixEach, WithBackup, q);
  }

  /** On a proper listing the count is the number of selected files the pattern changes. */
  lemma RunScriptCount(st: Store, paths: seq<string>)
    requires Listing(paths)
    ensures UpdateAll(st, OpenApiFiles(st, paths), PrefixEach, WithBackup).1
      == ChangedCount(st.files, OpenApiFiles(st, paths), PrefixEach)
  {
    OpenApiFilesListing(st, paths);
    UpdateAllCount(st, OpenApiFiles(st, paths), PrefixEach, WithBackup);
  }
}
