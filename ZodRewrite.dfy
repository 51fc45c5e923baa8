/**
 * `addDescriptionsToZod` in `scripts/add-description-to-zod.ts`: three
 * passes over the text of a zod schema file. The first adds a schema-level
 * `.describe(…)` to each `export const X = z.…;` definition, the second adds
 * one to each property line of an object schema, the third puts a JSDoc
 * comment above each exported function; the file is written back only when
 * a pass changed something. The regular expressions of the passes are
 * written out as matchers; `\s` is JavaScript's white space.
 */
module ZodRewrite {
  import opened Text
  import opened ZodDescribe
  import ToolNaming

  // ---------------------------------------------------------------------
  // Matching
  // ---------------------------------------------------------------------

  /** The class `\s` of a JavaScript pattern; also what `trim` removes. */
  predicate JsSpace(c: char) {
    ('\t' <= c <= '\r') || c == ' ' || c == '\U{A0}' || c == '\U{1680}' || ('\U{2000}' <= c <= '\U{200A}')
    || c == '\U{2028}' || c == '\U{2029}' || c == '\U{202F}' || c == '\U{205F}' || c == '\U{3000}' || c == '\U{FEFF}'
  }

  /** The length of the white space that starts `s`. */
  function SpaceRun(s: string): (n: nat)
    ensures n <= |s| && forall i :: 0 <= i < n ==> JsSpace(s[i])
    ensures n < |s| ==> !JsSpace(s[n])
  {
    if s == [] || !JsSpace(s[0]) then 0 else 1 + SpaceRun(s[1..])
  }

  /** The length of the run of `[A-Za-z0-9_]` that starts `s`. */
  function NameRun(s: string): (n: nat)
    ensures n <= |s| && AllWord(s[..n])
    ensures n < |s| ==> !IsWordChar(s[n])
  {
    if s == [] || !IsWordChar(s[0]) then 0
    else
      var n := 1 + NameRun(s[1..]);
      assert s[..n] == [s[0]] + s[1..][..n - 1];
      n
  }

  /** A match at the start of a text: its length and the name it captured. */
  datatype Hit = Hit(len: nat, name: string)

  /** `export\s+const\s+([A-Za-z0-9_]+)\s*=` at the start of `s`. */
  function HeadAt(s: string): (r: Option<Hit>)
    ensures r.Some? ==> 0 < r.value.len <= |s| && r.value.name != [] && AllWord(r.value.name)
  {
    if !StartsWith(s, "export") then None
    else
      var a := 6 + SpaceRun(s[6..]);
      if a == 6 || !StartsWith(s[a..], "const") then None
      else
        var b := a + 5 + SpaceRun(s[a + 5..]);
        if b == a + 5 then None
        else
          var n := NameRun(s[b..]);
          var e := b + n + SpaceRun(s[b + n..]);
          if n == 0 || e >= |s| || s[e] != '=' then None
          else Some(Hit(e + 1, s[b..][..n]))
  }

  /** `export\s+const\s+([A-Za-z0-9_]+)\s*=\s*z\.([^;]+);` at the start of `s`: up to the first `;`. */
  function DefinitionAt(s: string): (r: Option<Hit>)
    ensures r.Some? ==> 1 < r.value.len <= |s| && s[r.value.len - 1] == ';'
  {
    match HeadAt(s)
    case None => None
    case Some(h) =>
      var f := h.len + SpaceRun(s[h.len..]);
      if !StartsWith(s[f..], "z.") then None
      else match IndexOf(s[f + 2..], ';')
        case None => None
        case Some(j) => if j == 0 then None else Some(Hit(f + 2 + j + 1, h.name))
  }

  /** `export\s+const\s+([A-Za-z0-9_]+)\s*=\s*z\.object\({` at the start of `s`. */
  predicate ObjectStartAt(s: string) {
    match HeadAt(s)
    case None => false
    case Some(h) => StartsWith(s[h.len + SpaceRun(s[h.len..])..], "z.object({")
  }

  /**
   * `\s+([a-zA-Z0-9_]+):\s*z\.([^,}]+)(?:,|\n|}|$)` at the start of `s`: the
   * greedy `[^,}]+` always reaches a `,`, a `}` or the end, so the match
   * needs one character after `z.` that is neither.
   */
  function PropertyAt(s: string): (r: Option<string>)
    ensures r.Some? ==> r.value != [] && AllWord(r.value)
  {
    var w := SpaceRun(s);
    var n := NameRun(s[w..]);
    if w == 0 || n == 0 || w + n >= |s| || s[w + n] != ':' then None
    else
      var p := w + n + 1 + SpaceRun(s[w + n + 1..]);
      if !StartsWith(s[p..], "z.") || p + 2 >= |s| || s[p + 2] == ',' || s[p + 2] == '}' then None
      else Some(s[w..][..n])
  }

  /** `export\s+function\s+([a-zA-Z0-9_]+)\s*\(` at the start of `s`. */
  function FunctionAt(s: string): (r: Option<Hit>)
    ensures r.Some? ==> 0 < r.value.len <= |s|
  {
    if !StartsWith(s, "export") then None
    else
      var a := 6 + SpaceRun(s[6..]);
      if a == 6 || !StartsWith(s[a..], "function") then None
      else
        var b := a + 8 + SpaceRun(s[a + 8..]);
        if b == a + 8 then None
        else
          var n := NameRun(s[b..]);
          var e := b + n + SpaceRun(s[b + n..]);
          if n == 0 || e >= |s| || s[e] != '(' then None
          else Some(Hit(e + 1, s[b..][..n]))
  }

  /** A schema definition found by the first pass: its whole text and its name. */
  datatype Definition = Definition(text: string, name: string)

  /** A pattern tried at the start of a text whose matches are never empty and never longer than the text. */
  ghost predicate Consumes(at: string -> Option<Hit>) {
    forall t :: at(t).Some? ==> 0 < at(t).value.len <= |t|
  }

  /** The matches a global `exec` loop finds, left to right, without overlap. */
  function Matches(at: string -> Option<Hit>, s: string): seq<Definition>
    requires Consumes(at)
    decreases |s|
  {
    if s == [] then []
    else if at(s).Some? then [Definition(s[..at(s).value.len], at(s).value.name)] + Matches(at, s[at(s).value.len..])
    else Matches(at, s[1..])
  }

  /** Every match of a pattern whose matches end in `c` ends in `c`. */
  lemma {:induction false} MatchesEndIn(at: string -> Option<Hit>, c: char, s: string, k: nat)
    requires Consumes(at) && forall t :: at(t).Some? ==> t[at(t).value.len - 1] == c
    requires k < |Matches(at, s)|
    ensures var t := Matches(at, s)[k].text; t != [] && t[|t| - 1] == c
    decreases |s|
  {
    if s != [] {
      if at(s).Some? {
        var n := at(s).value.len;
        if k > 0 {
          MatchesEndIn(at, c, s[n..], k - 1);
        } else {
          assert s[..n][n - 1] == s[n - 1];
        }
      } else {
        MatchesEndIn(at, c, s[1..], k);
      }
    }
  }

  lemma DefinitionPatternConsumes()
    ensures Consumes(DefinitionAt)
    ensures forall t :: DefinitionAt(t).Some? ==> t[DefinitionAt(t).value.len - 1] == ';'
  {
  }

  /** The schema definitions the first pass finds. */
  function Definitions(s: string): seq<Definition> {
    DefinitionPatternConsumes();
    Matches(DefinitionAt, s)
  }

  /** Each definition the first pass finds ends in `;`. */
  lemma DefinitionsEndInSemicolon(s: string, k: nat)
    requires k < |Definitions(s)|
    ensures var t := Definitions(s)[k].text; t != [] && t[|t| - 1] == ';'
  {
    DefinitionPatternConsumes();
    MatchesEndIn(DefinitionAt, ';', s, k);
  }



  /** `line.match(...)` of the object-start pattern: a match somewhere in the line. */
  predicate HasObjectStart(s: string)
    decreases |s|
  {
    ObjectStartAt(s) || (s != [] && HasObjectStart(s[1..]))
  }

  /** The name the first `export\s+const\s+([A-Za-z0-9_]+)\s*=` in the line captures. */
  function FirstHeadName(s: string): Option<string>
    decreases |s|
  {
    match HeadAt(s)
    case Some(h) => Some(h.name)
    case None => if s == [] then None else FirstHeadName(s[1..])
  }

  /** The property name the first property match in the line captures. */
  function FirstPropertyName(s: string): Option<string>
    decreases |s|
  {
    match PropertyAt(s)
    case Some(n) => Some(n)
    case None => if s == [] then None else FirstPropertyName(s[1..])
  }

  lemma {:induction false} ObjectStartHasHead(s: string)
    requires HasObjectStart(s)
    ensures FirstHeadName(s).Some?
    decreases |s|
  {
    if HeadAt(s).None? {
      assert !ObjectStartAt(s);
      ObjectStartHasHead(s[1..]);
    }
  }

  // ---------------------------------------------------------------------
  // JavaScript string operations
  // ---------------------------------------------------------------------

  /** `s.lastIndexOf(c)`. */
  function LastIndexOf(s: string, c: char): (r: Option<nat>)
    ensures r.None? <==> c !in s
    ensures r.Some? ==> r.value < |s| && s[r.value] == c && c !in s[r.value + 1..]
  {
    if s == [] then None
    else if s[|s| - 1] == c then Some(|s| - 1)
    else
      var r := LastIndexOf(s[..|s| - 1], c);
      LastIndexOfStep(s, c, r);
      r
  }

  /** An occurrence found before a last character that differs is the last occurrence. */
  lemma LastIndexOfStep(s: string, c: char, r: Option<nat>)
    requires s != [] && s[|s| - 1] != c
    requires var t := s[..|s| - 1]; (r.None? <==> c !in t) && (r.Some? ==> r.value < |t| && t[r.value] == c && c !in t[r.value + 1..])
    ensures r.None? <==> c !in s
    ensures r.Some? ==> r.value < |s| && s[r.value] == c && c !in s[r.value + 1..]
  {
    var t := s[..|s| - 1];
    assert s == t + [s[|s| - 1]];
    if r.Some? {
      assert s[r.value + 1..] == t[r.value + 1..] + [s[|s| - 1]];
    }
  }

  /** The index of the first occurrence of `p` in `s`. */
  function Find(s: string, p: string): (r: Option<nat>)
    ensures r.Some? ==> r.value + |p| <= |s| && s[r.value..r.value + |p|] == p
    ensures r.None? ==> !Contains(s, p)
    decreases |s|
  {
    if StartsWith(s, p) then Some(0)
    else if s == [] then None
    else match Find(s[1..], p)
      case None => None
      case Some(i) => assert s[1..][i..i + |p|] == s[i + 1..i + 1 + |p|]; Some(i + 1)
  }

  /**
   * The replacement text of `String.prototype.replace` with a string
   * pattern: `$$` is `$`, `$&` the match, `` $` `` the text before it and
   * `$'` the text after it; everything else stands for itself.
   */
  function Expand(rep: string, matched: string, before: string, after: string): string
    decreases |rep|
  {
    if rep == [] then []
    else if rep[0] == '$' && |rep| >= 2 && rep[1] in {'$', '&', '`', '\''} then
      (if rep[1] == '$' then "$" else if rep[1] == '&' then matched else if rep[1] == '`' then before else after)
      + Expand(rep[2..], matched, before, after)
    else [rep[0]] + Expand(rep[1..], matched, before, after)
  }

  /** A replacement without `$` is taken literally. */
  lemma ExpandPlain(rep: string, matched: string, before: string, after: string)
    requires '$' !in rep
    ensures Expand(rep, matched, before, after) == rep
  {
    if rep != [] {
      assert rep[0] in rep;
      assert forall c :: c in rep[1..] ==> c in rep;
      ExpandPlain(rep[1..], matched, before, after);
      assert rep == [rep[0]] + rep[1..];
    }
  }

  /** `s.replace(p, rep)`: the first occurrence of `p`, if any, replaced. */
  function ReplaceFirst(s: string, p: string, rep: string): string {
    match Find(s, p)
    case None => s
    case Some(i) => s[..i] + Expand(rep, p, s[..i], s[i + |p|..]) + s[i + |p|..]
  }

  // ---------------------------------------------------------------------
  // Pass 1: schema definitions
  // ---------------------------------------------------------------------

  /** How a description is written as a JavaScript literal: `formatDescription` or its corrected form. */
  type Formatter = string -> string

  /** The call the passes insert. */
  function DescribeCall(fmt: Formatter, d: string): string {
    ".describe(" + fmt(d) + ")"
  }

  /** `before + call + after + ';'` of the source, at the positions of the `)` and the `;`. */
  function InsertAt(text: string, paren: nat, semi: nat, call: string): string
    requires paren < semi < |text|
  {
    text[..paren + 1] + call + text[paren + 1..semi] + ";"
  }

  /** Where the call goes: the last `)` before the last `;`, both past the first character. */
  function InsertPoint(text: string): (r: Option<(nat, nat)>)
    ensures r.Some? ==> 0 < r.value.0 < r.value.1 < |text|
  {
    match LastIndexOf(text, ';')
    case None => None
    case Some(semi) =>
      if semi == 0 then None
      else match LastIndexOf(text[..semi + 1], ')')
        case None => None
        case Some(paren) => if paren == 0 || paren == semi then None else Some((paren, semi))
  }

  /**
   * A definition's text with `.describe(…)` inserted after the last `)`
   * before its last `;`; nothing when there is no such place.
   */
  function InsertDescription(fmt: Formatter, text: string, d: string): Option<string> {
    match InsertPoint(text)
    case None => None
    case Some((paren, semi)) => Some(InsertAt(text, paren, semi, DescribeCall(fmt, d)))
  }

  /** Pass 1 on one definition: skipped when it has a description already or its name has none. */
  function DescribeDefinition(fmt: Formatter, text: string, name: string): Option<string> {
    if Contains(text, ".describe(") then None
    else match SchemaDescription(name)
      case None => None
      case Some(d) => InsertDescription(fmt, text, d)
  }

  /** The first pass from some definition on: the text so far and the count of rewritten definitions. */
  function DescribeDefinitions(fmt: Formatter, u: string, count: nat, defs: seq<Definition>): (string, nat)
    decreases |defs|
  {
    if defs == [] then (u, count)
    else match DescribeDefinition(fmt, defs[0].text, defs[0].name)
      case None => DescribeDefinitions(fmt, u, count, defs[1..])
      case Some(m) => DescribeDefinitions(fmt, ReplaceFirst(u, defs[0].text, m), count + 1, defs[1..])
  }

  /**
   * In a definition ending in `;`, the call goes right after the last `)`
   * before that `;`, and nothing else changes.
   */
  lemma InsertDescriptionShape(fmt: Formatter, text: string, d: string)
    requires text != [] && text[|text| - 1] == ';'
    requires InsertDescription(fmt, text, d).Some?
    ensures exists paren :: 0 < paren < |text| - 1 && text[paren] == ')' && ')' !in text[paren + 1..|text| - 1] &&
                            InsertDescription(fmt, text, d).value == text[..paren + 1] + DescribeCall(fmt, d) + text[paren + 1..]
  {
    var paren, semi := InsertPointAtEnd(text);
    InsertAtEnd(text, paren, DescribeCall(fmt, d));
  }

  lemma InsertPointAtEnd(text: string) returns (paren: nat, semi: nat)
    requires text != [] && text[|text| - 1] == ';' && InsertPoint(text).Some?
    ensures InsertPoint(text) == Some((paren, semi)) && semi == |text| - 1
    ensures text[paren] == ')' && ')' !in text[paren + 1..|text| - 1]
  {
    semi := |text| - 1;
    assert LastIndexOf(text, ';') == Some(semi);
    assert text[..semi + 1] == text;
    paren := LastIndexOf(text, ')').value;
    assert text[paren + 1..semi] == text[paren + 1..][..semi - paren - 1];
  }

  lemma InsertAtEnd(text: string, paren: nat, call: string)
    requires paren < |text| - 1 && text[|text| - 1] == ';'
    ensures InsertAt(text, paren, |text| - 1, call) == text[..paren + 1] + call + text[paren + 1..]
  {
    var semi := |text| - 1;
    assert text[paren + 1..semi] + ";" == text[paren + 1..];
    AppendAssoc(text[..paren + 1] + call, text[paren + 1..semi], ";");
  }

  /** What pass 1 inserts carries `.describe(`, so a second run skips the definition. */
  lemma DescribeDefinitionOnce(fmt: Formatter, text: string, name: string, fmt2: Formatter, name2: string)
    requires DescribeDefinition(fmt, text, name).Some?
    ensures Contains(DescribeDefinition(fmt, text, name).value, ".describe(")
    ensures DescribeDefinition(fmt2, DescribeDefinition(fmt, text, name).value, name2).None?
  {
    var d := SchemaDescription(name).value;
    var (paren, semi) := InsertPoint(text).value;
    DescribeCallStarts(fmt, d);
    InsertAtContains(text, paren, semi, DescribeCall(fmt, d));
  }

  lemma DescribeCallStarts(fmt: Formatter, d: string)
    ensures StartsWith(DescribeCall(fmt, d), ".describe(")
  {
    assert DescribeCall(fmt, d) == ".describe(" + (fmt(d) + ")");
  }

  lemma InsertAtContains(text: string, paren: nat, semi: nat, call: string)
    requires paren < semi < |text| && StartsWith(call, ".describe(")
    ensures Contains(InsertAt(text, paren, semi, call), ".describe(")
  {
    var a, b := text[..paren + 1], text[paren + 1..semi] + ";";
    assert (call + b)[..10] == call[..10];
    ToolNaming.ContainsPrefix(a, call + b, ".describe(");
    AppendAssoc(a + call, text[paren + 1..semi], ";");
    AppendAssoc(a, call, b);
  }

  /** An occurrence stays an occurrence when text is appended. */
  lemma {:induction false} ContainsAppend(s: string, t: string, p: string)
    requires Contains(s, p)
    ensures Contains(s + t, p)
    decreases |s|
  {
    if StartsWith(s, p) {
      assert (s + t)[..|p|] == s[..|p|];
    } else {
      assert (s + t)[1..] == s[1..] + t;
      ContainsAppend(s[1..], t, p);
    }
  }

  /** A pass that rewrote no definition returns the text it was given. */
  lemma {:induction false} NoDefinitionRewritten(fmt: Formatter, u: string, count: nat, defs: seq<Definition>)
    ensures DescribeDefinitions(fmt, u, count, defs).1 >= count
    ensures DescribeDefinitions(fmt, u, count, defs).1 == count ==> DescribeDefinitions(fmt, u, count, defs).0 == u
    decreases |defs|
  {
    if defs != [] {
      match DescribeDefinition(fmt, defs[0].text, defs[0].name)
      case None => NoDefinitionRewritten(fmt, u, count, defs[1..]);
      case Some(m) => NoDefinitionRewritten(fmt, ReplaceFirst(u, defs[0].text, m), count + 1, defs[1..]);
    }
  }

  /** Pass 1: rewrite each definition found in the original text, replacing its first occurrence. */
  method DescribeSchemas(fmt: Formatter, content: string) returns (updated: string, count: nat)
    ensures (updated, count) == DescribeDefinitions(fmt, content, 0, Definitions(content))
  {
    var defs := Definitions(content);
    updated, count := content, 0;
    for i := 0 to |defs|
      invariant DescribeDefinitions(fmt, updated, count, defs[i..]) == DescribeDefinitions(fmt, content, 0, defs)
    {
      assert defs[i..][1..] == defs[i + 1..];
      var description := DescribeDefinition(fmt, defs[i].text, defs[i].name);
      if description.Some? {
        updated := ReplaceFirst(updated, defs[i].text, description.value);
        count := count + 1;
      }
    }
    assert defs[|defs|..] == [];
  }

  // ---------------------------------------------------------------------
  // Pass 2: property lines
  // ---------------------------------------------------------------------

  /** The description tables gathered from the OpenAPI files: schema name, then property name. */
  type Tables = map<string, map<string, string>>

  /** A property's description: its own schema's entry first, then the shared `parameters` entry, else none. */
  function PropertyDescription(pd: Tables, schema: string, prop: string): (r: string)
    ensures schema in pd && Known(pd[schema], prop) ==> r == pd[schema][prop]
    ensures !(schema in pd && Known(pd[schema], prop)) ==>
      r == (if "parameters" in pd && Known(pd["parameters"], prop) then pd["parameters"][prop] else "")
  {
    if schema in pd && Known(pd[schema], prop) then pd[schema][prop]
    else if "parameters" in pd && Known(pd["parameters"], prop) then pd["parameters"][prop]
    else ""
  }

  /** The index of the last character of `s` that is not white space. */
  function LastNonSpace(s: string): (r: Option<nat>)
    ensures r.Some? ==> r.value < |s| && !JsSpace(s[r.value]) && forall i :: r.value < i < |s| ==> JsSpace(s[i])
    ensures r.None? ==> forall i :: 0 <= i < |s| ==> JsSpace(s[i])
  {
    if s == [] then None
    else if !JsSpace(s[|s| - 1]) then Some(|s| - 1)
    else
      var r := LastNonSpace(s[..|s| - 1]);
      assert forall i :: 0 <= i < |s| - 1 ==> s[..|s| - 1][i] == s[i];
      r
  }

  /** `line.trim().slice(-1) === ','`: the index of that comma. */
  function TrailingComma(line: string): (r: Option<nat>)
    ensures r.Some? ==> r.value < |line| && line[r.value] == ','
  {
    match LastNonSpace(line)
    case Some(k) => if line[k] == ',' then Some(k) else None
    case None => None
  }

  /** `lineWithoutEnd` as written: the line's last character goes when its last visible one is a comma. */
  function LineBodyAsWritten(line: string): string {
    if TrailingComma(line).Some? then line[..|line| - 1] else line
  }

  /** What `lineWithoutEnd` is meant to be: the line up to its trailing comma. */
  function LineBody(line: string): string {
    match TrailingComma(line)
    case Some(k) => line[..k]
    case None => line
  }

  /** The call inserted after the last `)` of `x` (past its first character), then `tail`. */
  function CallInLine(fmt: Formatter, x: string, d: string, tail: string): Option<string> {
    match LastIndexOf(x, ')')
    case None => None
    case Some(p) => if p == 0 then None else Some(x[..p + 1] + DescribeCall(fmt, d) + x[p + 1..] + tail)
  }

  /** The comma a described line ends with. */
  function CommaTail(line: string): string {
    if TrailingComma(line).Some? then "," else ""
  }

  /** Whether pass 2 looks the line up at all: a property line under a schema, without a description yet. */
  predicate Candidate(line: string, schema: string) {
    schema != "" && FirstPropertyName(line).Some? && !Contains(line, ".describe(")
  }

  /** The call placed in a property line as written: after the last `)` of its body, then its comma. */
  function LineInsertAsWritten(fmt: Formatter, line: string, d: string): Option<string> {
    CallInLine(fmt, LineBodyAsWritten(line), d, CommaTail(line))
  }

  /** The call placed in a property line before its trailing comma. */
  function LineInsert(fmt: Formatter, line: string, d: string): Option<string> {
    CallInLine(fmt, LineBody(line), d, CommaTail(line))
  }

  /** Pass 2 on one property line, as written. */
  function DescribeLineAsWritten(fmt: Formatter, line: string, schema: string, pd: Tables): Option<string> {
    if !Candidate(line, schema) then None
    else
      var d := PropertyDescription(pd, schema, FirstPropertyName(line).value);
      if d == "" then None else LineInsertAsWritten(fmt, line, d)
  }

  /** Pass 2 on one property line, cutting the line at its trailing comma. */
  function DescribeLine(fmt: Formatter, line: string, schema: string, pd: Tables): Option<string> {
    if !Candidate(line, schema) then None
    else
      var d := PropertyDescription(pd, schema, FirstPropertyName(line).value);
      if d == "" then None else LineInsert(fmt, line, d)
  }

  /**
   * As written, a property line with white space after its comma keeps that
   * comma and gets a second one: `x, ` becomes `x.describe(…),,`; the
   * corrected insertion gives `x.describe(…),`.
   */
  lemma SpaceAfterCommaDoublesIt(fmt: Formatter, x: string, d: string)
    requires |x| > 1 && x[|x| - 1] == ')'
    ensures LineInsertAsWritten(fmt, x + ", ", d) == Some(x + DescribeCall(fmt, d) + ",,")
    ensures LineInsert(fmt, x + ", ", d) == Some(x + DescribeCall(fmt, d) + ",")
  {
    var line := x + ", ";
    assert LastNonSpace(line[..|line| - 1]) == Some(|x|);
    assert LastNonSpace(line) == Some(|x|);
    assert TrailingComma(line) == Some(|x|);
    assert CommaTail(line) == ",";
    var body := line[..|line| - 1];
    assert body == x + ",";
    assert LastIndexOf(body, ')') == Some(|x| - 1);
    assert body[..|x|] == x && body[|x|..] == ",";
    AppendAssoc(x + DescribeCall(fmt, d), ",", ",");
    assert "," + "," == ",,";
    assert line[..|x|] == x;
    assert LineBody(line) == x;
    assert LastIndexOf(x, ')') == Some(|x| - 1);
    assert x[..|x|] == x && x[|x|..] == [];
    assert (x + DescribeCall(fmt, d)) + [] == x + DescribeCall(fmt, d);
  }

  /** Where `CallInLine` puts the call: right after the last `)`, which is not the first character. */
  lemma CallInLineShape(fmt: Formatter, x: string, d: string, tail: string) returns (p: nat)
    requires CallInLine(fmt, x, d, tail).Some?
    ensures 0 < p < |x| && x[p] == ')' && ')' !in x[p + 1..]
    ensures CallInLine(fmt, x, d, tail).value == x[..p + 1] + DescribeCall(fmt, d) + x[p + 1..] + tail
  {
    p := LastIndexOf(x, ')').value;
  }

  /** Text placed after position `p` of the part of `line` before its comma at `k`, then the comma. */
  lemma SpliceBeforeComma(line: string, k: nat, p: nat, call: string)
    requires p < k < |line| && line[k] == ','
    ensures line[..k][..p + 1] + call + line[..k][p + 1..] + "," == line[..k + 1][..p + 1] + call + line[..k + 1][p + 1..]
  {
    assert line[..k + 1][p + 1..] == line[..k][p + 1..] + ",";
    assert line[..k + 1][..p + 1] == line[..k][..p + 1];
    AppendAssoc(line[..k][..p + 1] + call, line[..k][p + 1..], ",");
  }

  /**
   * The corrected line keeps its text up to and including the trailing comma
   * (or all of it, without one) and has the call right after the last `)`
   * before that comma.
   */
  lemma LineInsertShape(fmt: Formatter, line: string, d: string) returns (p: nat)
    requires LineInsert(fmt, line, d).Some?
    ensures var kept := if TrailingComma(line).Some? then line[..TrailingComma(line).value + 1] else line;
      0 < p < |kept| && kept[p] == ')' && LineInsert(fmt, line, d).value == kept[..p + 1] + DescribeCall(fmt, d) + kept[p + 1..]
  {
    var body, tail, call := LineBody(line), CommaTail(line), DescribeCall(fmt, d);
    p := CallInLineShape(fmt, body, d, tail);
    var v := LineInsert(fmt, line, d).value;
    assert v == body[..p + 1] + call + body[p + 1..] + tail;
    var tc := TrailingComma(line);
    if tc.Some? {
      var k := tc.value;
      assert body == line[..k] && tail == ",";
      assert v == line[..k][..p + 1] + call + line[..k][p + 1..] + ",";
      SpliceBeforeComma(line, k, p, call);
      assert line[..k + 1][p] == ')';
    } else {
      assert body == line && tail == [];
      assert body[p + 1..] + [] == body[p + 1..];
    }
  }

  /**
   * A line described as the script does carries `.describe(`, so pass 2
   * never describes it again.
   */
  lemma DescribeLineAsWrittenOnce(fmt: Formatter, line: string, schema: string, pd: Tables, fmt2: Formatter, schema2: string, pd2: Tables)
    requires DescribeLineAsWritten(fmt, line, schema, pd).Some?
    ensures Contains(DescribeLineAsWritten(fmt, line, schema, pd).value, ".describe(")
    ensures DescribeLineAsWritten(fmt2, DescribeLineAsWritten(fmt, line, schema, pd).value, schema2, pd2).None?
    ensures !Contains(line, ".describe(")
  {
    var d := PropertyDescription(pd, schema, FirstPropertyName(line).value);
    assert DescribeLineAsWritten(fmt, line, schema, pd) == CallInLine(fmt, LineBodyAsWritten(line), d, CommaTail(line));
    CallInLineVisible(fmt, LineBodyAsWritten(line), d, CommaTail(line));
  }

  /** The same for the corrected cut. */
  lemma DescribeLineOnce(fmt: Formatter, line: string, schema: string, pd: Tables, fmt2: Formatter, schema2: string, pd2: Tables)
    requires DescribeLine(fmt, line, schema, pd).Some?
    ensures Contains(DescribeLine(fmt, line, schema, pd).value, ".describe(")
    ensures DescribeLine(fmt2, DescribeLine(fmt, line, schema, pd).value, schema2, pd2).None?
    ensures !Contains(line, ".describe(")
  {
    var d := PropertyDescription(pd, schema, FirstPropertyName(line).value);
    assert DescribeLine(fmt, line, schema, pd) == CallInLine(fmt, LineBody(line), d, CommaTail(line));
    CallInLineVisible(fmt, LineBody(line), d, CommaTail(line));
  }

  lemma CallInLineVisible(fmt: Formatter, body: string, d: string, tail: string)
    requires CallInLine(fmt, body, d, tail).Some?
    ensures Contains(CallInLine(fmt, body, d, tail).value, ".describe(")
  {
    var p := LastIndexOf(body, ')').value;
    var call := DescribeCall(fmt, d);
    DescribeCallStarts(fmt, d);
    var b := body[p + 1..] + tail;
    assert (call + b)[..10] == call[..10];
    ToolNaming.ContainsPrefix(body[..p + 1], call + b, ".describe(");
    AppendAssoc(body[..p + 1] + call, body[p + 1..], tail);
    AppendAssoc(body[..p + 1], call, b);
  }

  /**
   * How pass 2 treats a property line under a schema: the line with its
   * description, or none. Pass 2 is stated for any such treatment; the
   * script's is `DescribeLineAsWritten` with `formatDescription` as written
   * and its description tables.
   */
  type Describer = (string, string) -> Option<string>

  /** The script's treatment of property lines, for the tables `pd`. */
  function ScriptDescriber(pd: Tables): Describer {
    (line, schema) => DescribeLineAsWritten(FormatDescriptionAsWritten, line, schema, pd)
  }

  /** The corrected treatment: the line cut at its trailing comma, the description written by the corrected formatter. */
  function CorrectedDescriber(pd: Tables): Describer {
    (line, schema) => DescribeLine(FormatDescription, line, schema, pd)
  }

  /** A treatment that only ever adds a description to a line that has none. */
  ghost predicate AddsOnce(describe: Describer) {
    forall line, schema :: describe(line, schema).Some? ==>
      !Contains(line, ".describe(") && Contains(describe(line, schema).value, ".describe(")
  }

  lemma ScriptDescriberAddsOnce(pd: Tables)
    ensures AddsOnce(ScriptDescriber(pd))
  {
    forall line, schema | ScriptDescriber(pd)(line, schema).Some?
      ensures !Contains(line, ".describe(") && Contains(ScriptDescriber(pd)(line, schema).value, ".describe(")
    {
      DescribeLineAsWrittenOnce(FormatDescriptionAsWritten, line, schema, pd, FormatDescriptionAsWritten, schema, pd);
    }
  }

  lemma CorrectedDescriberAddsOnce(pd: Tables)
    ensures AddsOnce(CorrectedDescriber(pd))
  {
    forall line, schema | CorrectedDescriber(pd)(line, schema).Some?
      ensures !Contains(line, ".describe(") && Contains(CorrectedDescriber(pd)(line, schema).value, ".describe(")
    {
      DescribeLineOnce(FormatDescription, line, schema, pd, FormatDescription, schema, pd);
    }
  }

  /** Pass 2 on one line: object starts set the current schema, other lines may be described. */
  function LineStep(describe: Describer, line: string, schema: string): (string, string, bool) {
    if HasObjectStart(line) then
      (line, if FirstHeadName(line).Some? then FirstHeadName(line).value else schema, false)
    else if describe(line, schema).Some? then (describe(line, schema).value, schema, true)
    else (line, schema, false)
  }

  /** Pass 2 over the remaining lines from a current schema: the new lines and how many changed. */
  function DescribeLines(describe: Describer, ls: seq<string>, schema: string): (r: (seq<string>, nat))
    ensures |r.0| == |ls|
  {
    if ls == [] then ([], 0)
    else
      var step := LineStep(describe, ls[0], schema);
      var rest := DescribeLines(describe, ls[1..], step.1);
      ([step.0] + rest.0, rest.1 + if step.2 then 1 else 0)
  }

  /**
   * Exactly the lines pass 2 counts are changed: each lacked `.describe(`
   * and has it now, and every other line is kept.
   */
  lemma {:induction false} DescribeLinesChanges(describe: Describer, ls: seq<string>, schema: string)
    requires AddsOnce(describe)
    ensures DescribeLines(describe, ls, schema).1 == 0 <==> DescribeLines(describe, ls, schema).0 == ls
    ensures forall k :: 0 <= k < |ls| && DescribeLines(describe, ls, schema).0[k] != ls[k] ==>
      !Contains(ls[k], ".describe(") && Contains(DescribeLines(describe, ls, schema).0[k], ".describe(")
  {
    if ls != [] {
      var step := LineStep(describe, ls[0], schema);
      var rest := DescribeLines(describe, ls[1..], step.1);
      DescribeLinesChanges(describe, ls[1..], step.1);
      assert step.2 <==> step.0 != ls[0];
      var out := DescribeLines(describe, ls, schema).0;
      assert out == [step.0] + rest.0;
      assert out == ls <==> step.0 == ls[0] && rest.0 == ls[1..] by {
        if out == ls { assert out[1..] == rest.0; }
        if step.0 == ls[0] && rest.0 == ls[1..] { assert ls == [ls[0]] + ls[1..]; }
      }
      forall k | 0 <= k < |ls| && out[k] != ls[k]
        ensures !Contains(ls[k], ".describe(") && Contains(out[k], ".describe(")
      {
        if k > 0 { assert out[k] == rest.0[k - 1] && ls[k] == ls[1..][k - 1]; }
      }
    }
  }

  /** Pass 2 on a whole text: split into lines, joined back only when a line changed. */
  function DescribeProperties(describe: Describer, content: string): (string, nat) {
    var r := DescribeLines(describe, Split(content, '\n'), "");
    (if r.1 > 0 then Join(r.0, '\n') else content, r.1)
  }

  /** Pass 2 on a line that remains: its step, then the lines after it. */
  lemma DescribeLinesStep(describe: Describer, ls: seq<string>, i: nat, schema: string)
    requires i < |ls|
    ensures var step := LineStep(describe, ls[i], schema);
      var rest := DescribeLines(describe, ls[i + 1..], step.1);
      DescribeLines(describe, ls[i..], schema) == ([step.0] + rest.0, rest.1 + if step.2 then 1 else 0)
  {
    assert ls[i..][1..] == ls[i + 1..];
  }

  /** Setting element `i` keeps the elements before it. */
  lemma UpdateKeepsPrefix(a: seq<string>, i: nat, v: string)
    requires i < |a|
    ensures a[..i + 1] == a[..i] + [a[i]]
    ensures a[i := v][..i + 1] == a[..i] + [v]
  {
    assert a[i := v][..i] == a[..i];
  }

  /** The pass 2 loop over the lines, changing them in place: the new lines and how many changed. */
  method DescribeEachLine(describe: Describer, original: seq<string>) returns (lines: seq<string>, count: nat)
    ensures (lines, count) == DescribeLines(describe, original, "")
  {
    lines := original;
    var schema := "";
    count := 0;
    for i := 0 to |lines|
      invariant |lines| == |original| && lines[i..] == original[i..]
      invariant lines[..i] + DescribeLines(describe, original[i..], schema).0 == DescribeLines(describe, original, "").0
      invariant count + DescribeLines(describe, original[i..], schema).1 == DescribeLines(describe, original, "").1
    {
      DescribeLinesStep(describe, original, i, schema);
      var line := lines[i];
      ghost var before := lines;
      UpdateKeepsPrefix(lines, i, line);
      if HasObjectStart(line) {
        var name := FirstHeadName(line);
        if name.Some? {
          schema := name.value;
        }
      } else {
        var described := describe(line, schema);
        if described.Some? {
          UpdateKeepsPrefix(before, i, described.value);
          lines := lines[i := described.value];
          count := count + 1;
        }
      }
      AppendAssoc(before[..i], [lines[i]], DescribeLines(describe, original[i + 1..], schema).0);
    }
    assert lines[..|lines|] + [] == lines;
  }

  /** Pass 2 on the text of the file: split into lines, joined back only when a line changed. */
  method DescribePropertyLines(describe: Describer, content: string) returns (updated: string, count: nat)
    ensures (updated, count) == DescribeProperties(describe, content)
  {
    var lines;
    lines, count := DescribeEachLine(describe, Split(content, '\n'));
    var modified := count > 0;
    updated := if modified then Join(lines, '\n') else content;
  }

  // ---------------------------------------------------------------------
  // Pass 3: exported functions
  // ---------------------------------------------------------------------

  /**
   * What pass 3 looks for and writes: the pattern of an exported function,
   * tried at the start of a text; the test for a comment just before
   * position `i` of a text; and the comment block made from a description.
   */
  datatype Scan = Scan(at: string -> Option<Hit>, documented: (string, nat) -> bool, block: string -> string)

  /** A scan whose pattern's matches are never empty and never longer than the text. */
  ghost predicate Anchored(sc: Scan) {
    Consumes(sc.at)
  }

  /** The script's own scan: its regular expression, its 200-character lookback and its JSDoc block. */
  function ScriptScan(): (sc: Scan)
    ensures Anchored(sc)
  {
    var sc := Scan(FunctionAt, (s: string, i: nat) => i <= |s| && DocumentedBefore(s, i), JsDoc);
    assert forall t :: sc.at(t) == FunctionAt(t);
    assert Consumes(sc.at);
    sc
  }

  /** The next match of the scan's pattern at or after `from`: its position and the match. */
  function NextMatch(sc: Scan, s: string, from: nat): (r: Option<(nat, Hit)>)
    requires Anchored(sc) && from <= |s|
    ensures r.Some? ==> from <= r.value.0 && 0 < r.value.1.len && r.value.0 + r.value.1.len <= |s|
    decreases |s| - from
  {
    if sc.at(s[from..]).Some? then Some((from, sc.at(s[from..]).value))
    else if from == |s| then None
    else NextMatch(sc, s, from + 1)
  }

  /** The JSDoc block inserted above a function. */
  function JsDoc(d: string): string {
    "/**\n * " + d + "\n */\n"
  }

  /** A comment opener and closer occur in the 200 characters before position `i`. */
  predicate DocumentedBefore(s: string, i: nat)
    requires i <= |s|
  {
    var pre := s[(if i >= 200 then i - 200 else 0)..i];
    Contains(pre, "/**") && Contains(pre, "*/")
  }

  /** A match found by `NextMatch` in `s`. */
  predicate Found(s: string, next: Option<(nat, Hit)>) {
    next.Some? ==> 0 < next.value.1.len && next.value.0 + next.value.1.len <= |s|
  }

  /** Pass 3 passes a match by: none left, a comment just before it, or no description for it. */
  predicate Skips(sc: Scan, s: string, next: Option<(nat, Hit)>, ops: map<string, string>)
    requires Found(s, next)
  {
    next.None? || sc.documented(s, next.value.0) || !Known(ops, next.value.1.name)
  }

  /**
   * Pass 3 from position `from` on, for the matches of the scan's pattern: each match that
   * has no comment just before it and has a description gets a JSDoc block;
   * the search goes on after the match.
   */
  function DocumentFrom(sc: Scan, s: string, from: nat, ops: map<string, string>): (string, nat)
    requires Anchored(sc) && from <= |s|
    decreases |s| - from, 1
  {
    var next := NextMatch(sc, s, from);
    DocumentAt(sc, s, next, ops, Skips(sc, s, next, ops))
  }

  /** Pass 3 at the next match, if any, once it is known whether that match is passed by. */
  function DocumentAt(sc: Scan, s: string, next: Option<(nat, Hit)>, ops: map<string, string>, skip: bool): (string, nat)
    requires Anchored(sc) && Found(s, next)
    requires !skip ==> next.Some? && next.value.1.name in ops
    decreases if next.Some? then |s| - next.value.0 else 0, 0
  {
    if next.None? then (s, 0)
    else
      var i, h := next.value.0, next.value.1;
      if skip then DocumentFrom(sc, s, i + h.len, ops)
      else
        var block := sc.block(ops[h.name]);
        var r := DocumentFrom(sc, s[..i] + block + s[i..], i + h.len + |block|, ops);
        (r.0, r.1 + 1)
  }

  /** Pass 3 leaves the text alone when it documents nothing. */
  lemma {:induction false} DocumentNothing(sc: Scan, s: string, from: nat, ops: map<string, string>)
    requires Anchored(sc) && from <= |s|
    ensures DocumentFrom(sc, s, from, ops).1 == 0 ==> DocumentFrom(sc, s, from, ops).0 == s
    decreases |s| - from, 1
  {
    var next := NextMatch(sc, s, from);
    DocumentNothingAt(sc, s, next, ops, Skips(sc, s, next, ops));
  }

  lemma {:induction false} DocumentNothingAt(sc: Scan, s: string, next: Option<(nat, Hit)>, ops: map<string, string>, skip: bool)
    requires Anchored(sc) && Found(s, next)
    requires !skip ==> next.Some? && next.value.1.name in ops
    ensures DocumentAt(sc, s, next, ops, skip).1 == 0 ==> DocumentAt(sc, s, next, ops, skip).0 == s
    decreases if next.Some? then |s| - next.value.0 else 0, 0
  {
    if next.Some? && skip {
      DocumentNothing(sc, s, next.value.0 + next.value.1.len, ops);
    }
  }

  /** Without descriptions pass 3 documents nothing. */
  lemma {:induction false} NoDescriptionsNoDocs(sc: Scan, s: string, from: nat)
    requires Anchored(sc) && from <= |s|
    ensures DocumentFrom(sc, s, from, map[]) == (s, 0)
    decreases |s| - from, 1
  {
    var next := NextMatch(sc, s, from);
    assert Skips(sc, s, next, map[]);
    NoDescriptionsNoDocsAt(sc, s, next);
  }

  lemma {:induction false} NoDescriptionsNoDocsAt(sc: Scan, s: string, next: Option<(nat, Hit)>)
    requires Anchored(sc) && Found(s, next)
    ensures DocumentAt(sc, s, next, map[], true) == (s, 0)
    decreases if next.Some? then |s| - next.value.0 else 0, 0
  {
    if next.Some? {
      NoDescriptionsNoDocs(sc, s, next.value.0 + next.value.1.len);
    }
  }

  /** Pass 3 at a match it passes by goes on right after the match. */
  lemma SkipStep(sc: Scan, s: string, from: nat, ops: map<string, string>, i: nat, h: Hit)
    requires Anchored(sc) && from <= |s| && NextMatch(sc, s, from) == Some((i, h))
    requires sc.documented(s, i) || !Known(ops, h.name)
    ensures i + h.len <= |s|
    ensures DocumentFrom(sc, s, from, ops).0 == DocumentFrom(sc, s, i + h.len, ops).0
    ensures DocumentFrom(sc, s, from, ops).1 == DocumentFrom(sc, s, i + h.len, ops).1
  {
    var next := NextMatch(sc, s, from);
    assert Skips(sc, s, next, ops);
  }

  /** Pass 3 at a match it documents goes on after the match in the text with the block inserted. */
  lemma DocumentStep(sc: Scan, s: string, from: nat, ops: map<string, string>, i: nat, h: Hit, t: string, after: nat)
    requires Anchored(sc) && from <= |s| && NextMatch(sc, s, from) == Some((i, h))
    requires !sc.documented(s, i) && Known(ops, h.name)
    requires t == s[..i] + sc.block(ops[h.name]) + s[i..] && after == i + h.len + |sc.block(ops[h.name])|
    ensures after <= |t|
    ensures DocumentFrom(sc, s, from, ops).0 == DocumentFrom(sc, t, after, ops).0
    ensures DocumentFrom(sc, s, from, ops).1 == DocumentFrom(sc, t, after, ops).1 + 1
  {
    var next := NextMatch(sc, s, from);
    assert !Skips(sc, s, next, ops);
  }

  /**
   * Pass 3: the `exec` loop over the growing text, moving past each match
   * and each inserted block.
   */
  method DocumentMatches(sc: Scan, content: string, ops: map<string, string>) returns (updated: string, count: nat)
    requires Anchored(sc)
    ensures (updated, count) == DocumentFrom(sc, content, 0, ops)
  {
    ghost var goal := DocumentFrom(sc, content, 0, ops);
    updated, count := content, 0;
    var from: nat := 0;
    var next := NextMatch(sc, updated, from);
    while next.Some?
      invariant from <= |updated| && next == NextMatch(sc, updated, from)
      invariant DocumentFrom(sc, updated, from, ops).0 == goal.0
      invariant count + DocumentFrom(sc, updated, from, ops).1 == goal.1
      decreases |updated| - from
    {
      var i, h := next.value.0, next.value.1;
      ghost var before, start := updated, from;
      if sc.documented(updated, i) || !Known(ops, h.name) {
        from := i + h.len;
        SkipStep(sc, updated, start, ops, i, h);
      } else {
        var block := sc.block(ops[h.name]);
        updated := updated[..i] + block + updated[i..];
        from := i + h.len + |block|;
        count := count + 1;
        DocumentStep(sc, before, start, ops, i, h, updated, from);
      }
      next := NextMatch(sc, updated, from);
    }
    assert DocumentFrom(sc, updated, from, ops) == (updated, 0);
  }

  // ---------------------------------------------------------------------
  // The whole script step
  // ---------------------------------------------------------------------

  /**
   * The three passes in order, for a formatter of pass 1's descriptions, a
   * treatment of property lines and a scan, and whether the file is written.
   */
  function RewriteWith(fmt: Formatter, describe: Describer, sc: Scan, content: string, ops: map<string, string>): (string, bool)
    requires Anchored(sc)
  {
    var r1 := DescribeDefinitions(fmt, content, 0, Definitions(content));
    var r2 := DescribeProperties(describe, r1.0);
    var r3 := DocumentFrom(sc, r2.0, 0, ops);
    (r3.0, r1.1 > 0 || r2.1 > 0 || r3.1 > 0)
  }

  /**
   * The script's three passes as written, with its description tables `pd`
   * and `ops`: `formatDescription` as written in both passes and the comma
   * cut of line 293.
   */
  function Rewrite(content: string, pd: Tables, ops: map<string, string>): (string, bool) {
    RewriteWith(FormatDescriptionAsWritten, ScriptDescriber(pd), ScriptScan(), content, ops)
  }

  /** The three passes as intended: the corrected formatter and the corrected comma cut. */
  function RewriteCorrected(content: string, pd: Tables, ops: map<string, string>): (string, bool) {
    RewriteWith(FormatDescription, CorrectedDescriber(pd), ScriptScan(), content, ops)
  }

  /** A text the file is not rewritten with is the text it had. */
  lemma UnwrittenUnchanged(fmt: Formatter, describe: Describer, sc: Scan, content: string, ops: map<string, string>)
    requires Anchored(sc)
    ensures !RewriteWith(fmt, describe, sc, content, ops).1 ==> RewriteWith(fmt, describe, sc, content, ops).0 == content
  {
    var r1 := DescribeDefinitions(fmt, content, 0, Definitions(content));
    NoDefinitionRewritten(fmt, content, 0, Definitions(content));
    var r2 := DescribeProperties(describe, r1.0);
    DocumentNothing(sc, r2.0, 0, ops);
  }

  /** The three passes on the file's text: the new text and whether it is written. */
  method RewriteText(fmt: Formatter, describe: Describer, sc: Scan, content: string, ops: map<string, string>) returns (updated: string, write: bool)
    requires Anchored(sc)
    ensures (updated, write) == RewriteWith(fmt, describe, sc, content, ops)
    ensures !write ==> updated == content
  {
    var u1, n1 := DescribeSchemas(fmt, content);
    var u2, n2 := DescribePropertyLines(describe, u1);
    var n3;
    updated, n3 := DocumentMatches(sc, u2, ops);
    write := n1 > 0 || n2 > 0 || n3 > 0;
    UnwrittenUnchanged(fmt, describe, sc, content, ops);
  }

  /** `addDescriptionsToZod` on the file's text: the new text and whether it is written. */
  method AddDescriptionsToZod(content: string, pd: Tables, ops: map<string, string>) returns (updated: string, write: bool)
    ensures (updated, write) == Rewrite(content, pd, ops)
    ensures !write ==> updated == content
  {
    updated, write := RewriteText(FormatDescriptionAsWritten, ScriptDescriber(pd), ScriptScan(), content, ops);
  }
}
