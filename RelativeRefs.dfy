/**
 * `convert_refs_to_relative.py`: the schema index is read into a table from
 * schema name to location, and every `#/components/schemas/<Name>` anchor in
 * the YAML files under `paths` is replaced by the location the table gives.
 */
module RelativeRefs {
  import opened Text
  import opened RefScan
  import opened RefSyntax
  import opened Disk

  const IndexFile := "/Users/t002451/my_work/private/SmaregiMCP/schemas/_index.yaml"
  const PathsDir := "/Users/t002451/my_work/private/SmaregiMCP/paths"
  const SchemasPrefix := "../../schemas"

  // ---------------------------------------------------------------------
  // The schema index
  // ---------------------------------------------------------------------

  /** The largest `j` with `lo <= j < hi` that holds a quote. */
  function LastQuote(s: string, lo: nat, hi: nat): (r: Option<nat>)
    requires hi <= |s|
    ensures r.Some? ==> lo <= r.value < hi && IsQuote(s[r.value]) && forall k :: r.value < k < hi ==> !IsQuote(s[k])
    ensures r.None? ==> forall k :: lo <= k < hi ==> !IsQuote(s[k])
    decreases hi
  {
    if hi <= lo then None
    else if IsQuote(s[hi - 1]) then Some(hi - 1)
    else LastQuote(s, lo, hi - 1)
  }

  /** A quote with none after it before `hi` is the last quote. */
  lemma LastQuoteIs(s: string, lo: nat, hi: nat, j: nat)
    requires lo <= j < hi <= |s| && IsQuote(s[j])
    requires forall k :: j < k < hi ==> !IsQuote(s[k])
    ensures LastQuote(s, lo, hi) == Some(j)
  {
  }

  /** The end of the line that starts at `i`: the first newline from `i` on, or the end of `s`. */
  function LineEnd(s: string, i: nat): (n: nat)
    requires i <= |s|
    ensures i <= n <= |s| && '\n' !in s[i..n] && (n < |s| ==> s[n] == '\n')
  {
    match IndexOf(s[i..], '\n')
    case None => |s|
    case Some(k) => assert s[i..][..k] == s[i..i + k]; i + k
  }

  /**
   * `re.match(r"\$ref:\s*['\"](\./.+)['\"]", refLine).group(1)`: the target
   * starts with `./` and, `.+` being greedy, ends at the last quote of the
   * line.
   */
  function IndexTarget(refLine: string): (r: Option<string>)
    ensures r.Some? ==> StartsWith(r.value, "./") && 3 <= |r.value| && '\n' !in r.value
  {
    match RefOpen(refLine, Whitespace)
    case None => None
    case Some(a) =>
      if !StartsWith(refLine[a..], "./") then None
      else
        var n := LineEnd(refLine, a);
        match LastQuote(refLine, a + 3, n)
        case None => None
        case Some(j) =>
          SliceStartsWith(refLine, "./", a, j);
          NotInSubSlice(refLine, '\n', a, j, n);
          Some(refLine[a..j])
  }

  /** The regex's own reading of a reference line, a target from `a` to the closing quote at `j`. */
  predicate IndexRefAt(s: string, a: nat, j: nat) {
    RefOpen(s, Whitespace) == Some(a) && a + 3 <= j < |s| && s[a..a + 2] == "./"
    && '\n' !in s[a..j] && IsQuote(s[j])
  }

  /** The target is the longest one the regex admits. */
  lemma IndexTargetGreedy(s: string, a: nat, j: nat)
    requires IndexRefAt(s, a, j)
    requires forall k :: j < k < |s| ==> !IndexRefAt(s, a, k)
    ensures IndexTarget(s) == Some(s[a..j])
  {
    assert s[a..][..2] == s[a..a + 2];
    var n := LineEnd(s, a);
    BeforeFirst(s, '\n', a, n, j);
    NoQuoteAfter(s, a, j, n);
    LastQuoteIs(s, a + 3, n, j);
    IndexTargetIs(s, a, n, j);
  }

  /** The target read from an opening at `a` whose line ends at `n` with its last quote at `j`. */
  lemma IndexTargetIs(s: string, a: nat, n: nat, j: nat)
    requires RefOpen(s, Whitespace) == Some(a) && StartsWith(s[a..], "./")
    requires a <= |s| && n == LineEnd(s, a) && a + 3 <= n && LastQuote(s, a + 3, n) == Some(j)
    ensures IndexTarget(s) == Some(s[a..j])
  {
  }

  /** No longer target on the line: no quote follows `j` before the line ends. */
  lemma NoQuoteAfter(s: string, a: nat, j: nat, n: nat)
    requires IndexRefAt(s, a, j)
    requires forall k :: j < k < |s| ==> !IndexRefAt(s, a, k)
    requires j < n <= |s| && '\n' !in s[a..n]
    ensures forall k :: j < k < n ==> !IsQuote(s[k])
  {
    forall k | j < k < n ensures !IsQuote(s[k]) {
      NotInSubSlice(s, '\n', a, k, n);
      assert !IndexRefAt(s, a, k);
    }
  }

  /** `line.strip()` is blank or a `#` comment; such lines are skipped. */
  predicate Skipped(line: string) {
    var t := Strip(line);
    t == [] || StartsWith(t, "#")
  }

  /** The location recorded for a target `./x/Name.yaml`: `../../schemas/x/Name.yaml`. */
  function Location(path: string): (loc: string)
    requires StartsWith(path, "./")
    ensures StartsWith(loc, SchemasPrefix + "/") && loc[|SchemasPrefix|..] == path[1..]
  {
    var loc := SchemasPrefix + path[1..];
    assert loc[..|SchemasPrefix| + 1] == SchemasPrefix + path[1..2];
    loc
  }

  /** A stripped, non-comment index line split at its first colon. */
  function ParseEntry(t: string): (r: Option<(string, string)>)
    ensures r.Some? ==> StartsWith(r.value.1, SchemasPrefix + "/")
  {
    if ':' !in t then None
    else
      var c := IndexOf(t, ':').value;
      var target := IndexTarget(Strip(t[c + 1..]));
      if target.None? then None else Some((Strip(t[..c]), Location(target.value)))
  }

  /** A line yields an entry exactly when it has a colon and a target follows the first one. */
  lemma ParseEntryFound(t: string)
    ensures ParseEntry(t).Some? <==> ':' in t && IndexTarget(Strip(t[IndexOf(t, ':').value + 1..])).Some?
  {
  }

  /** One line of the index, `Name: $ref: './x/Name.yaml'`, as the entry it records, if any. */
  function ParseIndexLine(line: string): (r: Option<(string, string)>)
    ensures Skipped(line) ==> r.None?
    ensures r.Some? ==> StartsWith(r.value.1, SchemasPrefix + "/")
  {
    if Skipped(line) then None else ParseEntry(Strip(line))
  }

  function Entries(lines: seq<string>): (r: seq<Option<(string, string)>>)
    ensures |r| == |lines| && forall i :: 0 <= i < |lines| ==> r[i] == ParseIndexLine(lines[i])
  {
    seq(|lines|, i requires 0 <= i < |lines| => ParseIndexLine(lines[i]))
  }

  /** The table after the entries have been recorded in order, later ones overwriting earlier ones. */
  function TableFrom(entries: seq<Option<(string, string)>>): map<string, string>
  {
    if entries == [] then map[]
    else
      var table := TableFrom(entries[..|entries| - 1]);
      match entries[|entries| - 1]
      case None => table
      case Some(entry) => table[entry.0 := entry.1]
  }

  function IndexTable(lines: seq<string>): map<string, string> {
    TableFrom(Entries(lines))
  }

  /** Every name in the table was recorded by some entry, with the location the table holds. */
  lemma {:induction false} TableFromRecorded(entries: seq<Option<(string, string)>>, name: string)
    requires name in TableFrom(entries)
    ensures exists i :: 0 <= i < |entries| && entries[i] == Some((name, TableFrom(entries)[name]))
    decreases |entries|
  {
    var init := entries[..|entries| - 1];
    var last := entries[|entries| - 1];
    if !(last.Some? && last.value.0 == name) {
      TableFromRecorded(init, name);
      var i :| 0 <= i < |init| && init[i] == Some((name, TableFrom(init)[name]));
      assert entries[i] == init[i];
    }
  }

  /** Every recorded location lies under `../../schemas/`, whichever file will use it. */
  lemma IndexTableLocations(lines: seq<string>, name: string)
    requires name in IndexTable(lines)
    ensures StartsWith(IndexTable(lines)[name], SchemasPrefix + "/")
  {
    TableFromRecorded(Entries(lines), name);
  }

  /** The location for a name is the one from the last entry that records it. */
  lemma {:induction false} TableFromLastWins(entries: seq<Option<(string, string)>>, i: nat, name: string, loc: string)
    requires i < |entries| && entries[i] == Some((name, loc))
    requires forall k :: i < k < |entries| ==> entries[k].None? || entries[k].value.0 != name
    ensures name in TableFrom(entries) && TableFrom(entries)[name] == loc
    decreases |entries|
  {
    var init := entries[..|entries| - 1];
    if i < |entries| - 1 {
      assert forall k :: i < k < |init| ==> init[k] == entries[k];
      assert init[i] == entries[i];
      TableFromLastWins(init, i, name, loc);
    }
  }

  /** In the index, a later line for the same name overwrites an earlier one. */
  lemma IndexTableLastWins(lines: seq<string>, i: nat, name: string, loc: string)
    requires i < |lines| && ParseIndexLine(lines[i]) == Some((name, loc))
    requires forall k :: i < k < |lines| ==> ParseIndexLine(lines[k]).None? || ParseIndexLine(lines[k]).value.0 != name
    ensures name in IndexTable(lines) && IndexTable(lines)[name] == loc
  {
    TableFromLastWins(Entries(lines), i, name, loc);
  }

  /** Entries that record nothing leave the table as it was. */
  lemma {:induction false} TableFromIgnores(entries: seq<Option<(string, string)>>, more: seq<Option<(string, string)>>)
    requires forall k :: 0 <= k < |more| ==> more[k].None?
    ensures TableFrom(entries + more) == TableFrom(entries)
    decreases |more|
  {
    if more != [] {
      var init := more[..|more| - 1];
      assert (entries + more)[..|entries + more| - 1] == entries + init;
      assert (entries + more)[|entries + more| - 1] == more[|more| - 1];
      assert more[|more| - 1].None?;
      assert forall k :: 0 <= k < |init| ==> init[k] == more[k];
      TableFromIgnores(entries, init);
    } else {
      assert entries + more == entries;
    }
  }

  /** Blank lines, comments and lines that are not references add nothing to the table. */
  lemma IndexTableIgnores(lines: seq<string>, more: seq<string>)
    requires forall k :: 0 <= k < |more| ==> ParseIndexLine(more[k]).None?
    ensures IndexTable(lines + more) == IndexTable(lines)
  {
    assert Entries(lines + more) == Entries(lines) + Entries(more);
    TableFromIgnores(Entries(lines), Entries(more));
  }

  /**
   * `load_schema_map`: reads the index line by line into the table;
   * `false` when the index cannot be read.
   */
  method LoadSchemaMap(st: Store) returns (ok: bool, table: map<string, string>)
    ensures ok <==> IndexFile in st.files
    ensures ok ==> table == IndexTable(Split(Read(st, IndexFile).value, '\n'))
    ensures !ok ==> table == map[]
  {
    table := map[];
    match Read(st, IndexFile) {
      case None =>
        return false, table;
      case Some(text) =>
        var lines := Split(text, '\n');
        var i := 0;
        while i < |lines|
          invariant 0 <= i <= |lines|
          invariant table == IndexTable(lines[..i])
        {
          assert Entries(lines[..i + 1])[..i] == Entries(lines[..i]);
          match ParseIndexLine(lines[i]) {
            case None =>
            case Some(entry) => table := table[entry.0 := entry.1];
          }
          i := i + 1;
        }
        assert lines[..i] == lines;
        return true, table;
    }
  }

  // ---------------------------------------------------------------------
  // Replacing anchors
  // ---------------------------------------------------------------------

  /**
   * The regex `(\$ref:\s*['"])(#/components/schemas/)([\w-]+)(['"])` read as
   * a property of positions: the first group ends at `a`, the name runs from
   * `a + |Anchor|` to the closing quote at `e`.
   */
  predicate AnchorRefAt(s: string, a: nat, e: nat) {
    RefOpen(s, Whitespace) == Some(a) && a + |Anchor| < e < |s| && s[a..a + |Anchor|] == Anchor
    && (forall i :: a + |Anchor| <= i < e ==> InClass(s[i], NameChar))
    && IsQuote(s[e])
  }

  /** `replace_ref`: the table's location between the original quotes, or the match itself. */
  function Replacement(s: string, a: nat, e: nat, table: map<string, string>): string
    requires a + |Anchor| <= e < |s|
  {
    var name := s[a + |Anchor|..e];
    if name in table then s[..a] + table[name] + [s[e]] else s[..e + 1]
  }

  /** The rest of the pattern once `$ref:<ws><q>#/components/schemas/` has matched, the quote ending at `a`. */
  function NameHit(s: string, a: nat, table: map<string, string>): (r: Option<Hit>)
    requires 6 <= a && a + |Anchor| <= |s| && StartsWith(s, RefKey)
    ensures r.Some? ==> Spans(s, r.value)
  {
    var b := a + |Anchor|;
    var e := b + Run(s[b..], NameChar);
    if b < e < |s| && IsQuote(s[e]) then
      var rep := Replacement(s, a, e, table);
      assert rep[..5] == s[..5];
      Some(Hit(e + 1, rep))
    else None
  }

  /** The pattern tried at the start of `s`. */
  function AnchorHit(s: string, table: map<string, string>): (r: Option<Hit>)
    ensures r.Some? ==> Spans(s, r.value)
  {
    match RefOpen(s, Whitespace)
    case None => None
    case Some(a) => if StartsWith(s[a..], Anchor) then NameHit(s, a, table) else None
  }

  function Anchors(table: map<string, string>): Matcher {
    (s: string) => AnchorHit(s, table)
  }

  /** `re.sub(pattern, replace_ref, content)`. */
  function Convert(table: map<string, string>, content: string): string {
    Sub(Anchors(table), content)
  }

  /** Where the regex matches, the scanner hits with the `replace_ref` result. */
  lemma AnchorHitExact(s: string, table: map<string, string>, a: nat, e: nat)
    requires AnchorRefAt(s, a, e)
    ensures AnchorHit(s, table) == Some(Hit(e + 1, Replacement(s, a, e, table)))
  {
    var b := a + |Anchor|;
    assert s[a..][..|Anchor|] == s[a..b];
    RunIs(s[b..], NameChar, e - b);
    NameHitIs(s, a, e, table);
  }

  /** A name run from `a + |Anchor|` closed by a quote at `e` is a hit up to `e`. */
  lemma NameHitIs(s: string, a: nat, e: nat, table: map<string, string>)
    requires 6 <= a && a + |Anchor| < e < |s| && StartsWith(s, RefKey)
    requires Run(s[a + |Anchor|..], NameChar) == e - (a + |Anchor|) && IsQuote(s[e])
    ensures NameHit(s, a, table) == Some(Hit(e + 1, Replacement(s, a, e, table)))
  {
  }

  /** Where the scanner hits, the regex matches. */
  lemma AnchorHitSound(s: string, table: map<string, string>)
    requires AnchorHit(s, table).Some?
    ensures exists a: nat, e: nat :: AnchorRefAt(s, a, e) && AnchorHit(s, table).value == Hit(e + 1, Replacement(s, a, e, table))
  {
    var a, e := AnchorHitAt(s, table);
  }

  /** The positions of the match behind a hit. */
  lemma AnchorHitAt(s: string, table: map<string, string>) returns (a: nat, e: nat)
    requires AnchorHit(s, table).Some?
    ensures AnchorRefAt(s, a, e) && AnchorHit(s, table).value == Hit(e + 1, Replacement(s, a, e, table))
  {
    a := AnchorOpenAt(s, table);
    e := NameHitAt(s, a, table);
  }

  /** A hit starts with the opening and the anchor prefix. */
  lemma AnchorOpenAt(s: string, table: map<string, string>) returns (a: nat)
    requires AnchorHit(s, table).Some?
    ensures RefOpen(s, Whitespace) == Some(a) && a + |Anchor| <= |s| && s[a..a + |Anchor|] == Anchor
    ensures 6 <= a && StartsWith(s, RefKey) && AnchorHit(s, table) == NameHit(s, a, table)
  {
    a := RefOpen(s, Whitespace).value;
    assert s[a..][..|Anchor|] == s[a..a + |Anchor|];
  }

  /** The name run and closing quote behind a hit on the name. */
  lemma NameHitAt(s: string, a: nat, table: map<string, string>) returns (e: nat)
    requires 6 <= a && a + |Anchor| <= |s| && StartsWith(s, RefKey) && NameHit(s, a, table).Some?
    ensures a + |Anchor| < e < |s| && IsQuote(s[e]) && (forall i :: a + |Anchor| <= i < e ==> InClass(s[i], NameChar))
    ensures NameHit(s, a, table).value == Hit(e + 1, Replacement(s, a, e, table))
  {
    var b := a + |Anchor|;
    e := b + Run(s[b..], NameChar);
    forall i | b <= i < e ensures InClass(s[i], NameChar) {
      assert s[i] == s[b..][i - b];
    }
  }

  /** An anchor whose name is not in the table is kept exactly as it was. */
  lemma MissKeepsMatch(s: string, table: map<string, string>, a: nat, e: nat)
    requires AnchorRefAt(s, a, e) && s[a + |Anchor|..e] !in table
    ensures AnchorHit(s, table) == Some(Hit(e + 1, s[..e + 1]))
  {
    AnchorHitExact(s, table, a, e);
  }

  lemma AnchorOpenLocal(ch: string, rest: string, a: nat)
    requires IsChunk(ch) && DollarHeaded(rest) && RefOpen(ch, Whitespace) == Some(a)
    ensures StartsWith((ch + rest)[a..], Anchor) == StartsWith(ch[a..], Anchor)
  {
    assert (ch + rest)[a..] == ch[a..] + rest;
    AnchorHasNoQuote();
    StartsWithBeforeDollar(ch[a..], rest, Anchor);
  }

  /** `replace_ref` sees only the text up to the closing quote. */
  lemma ReplacementPrefix(s: string, t: string, a: nat, e: nat, table: map<string, string>)
    requires a + |Anchor| <= e < |s| && e < |t| && s[..e + 1] == t[..e + 1]
    ensures Replacement(s, a, e, table) == Replacement(t, a, e, table)
  {
    assert s[..a] == s[..e + 1][..a] == t[..e + 1][..a] == t[..a];
    assert s[a + |Anchor|..e] == s[..e + 1][a + |Anchor|..e] == t[..e + 1][a + |Anchor|..e] == t[a + |Anchor|..e];
    assert s[e] == s[..e + 1][e] == t[..e + 1][e] == t[e];
  }

  /** Two texts that agree on the name's run, its closing quote and everything before it agree on the hit. */
  lemma NameHitSame(s: string, t: string, a: nat, table: map<string, string>)
    requires 6 <= a && a + |Anchor| <= |s| && a + |Anchor| <= |t| && StartsWith(s, RefKey) && StartsWith(t, RefKey)
    requires Run(s[a + |Anchor|..], NameChar) == Run(t[a + |Anchor|..], NameChar)
    requires var e := a + |Anchor| + Run(t[a + |Anchor|..], NameChar);
      && (e < |s| && IsQuote(s[e])) == (e < |t| && IsQuote(t[e]))
      && (e < |t| ==> e < |s| && s[..e + 1] == t[..e + 1])
    ensures NameHit(s, a, table) == NameHit(t, a, table)
  {
    var e := a + |Anchor| + Run(t[a + |Anchor|..], NameChar);
    if a + |Anchor| < e < |t| && IsQuote(t[e]) {
      ReplacementPrefix(s, t, a, e, table);
      NameHitIs(s, a, e, table);
      NameHitIs(t, a, e, table);
    }
  }

  lemma NameHitLocal(table: map<string, string>, ch: string, rest: string, a: nat)
    requires DollarHeaded(rest)
    requires 6 <= a && a + |Anchor| <= |ch| && StartsWith(ch, RefKey)
    ensures NameHit(ch + rest, a, table) == NameHit(ch, a, table)
  {
    var s := ch + rest;
    var b := a + |Anchor|;
    assert s[b..] == ch[b..] + rest;
    RunBeforeDollar(ch[b..], rest, NameChar);
    var e := b + Run(ch[b..], NameChar);
    QuoteBeforeDollar(ch, rest, e);
    if e < |ch| {
      assert s[..e + 1] == ch[..e + 1];
    }
    assert s[..5] == ch[..5];
    NameHitSame(s, ch, a, table);
  }

  lemma AnchorHitLocal(table: map<string, string>, ch: string, rest: string)
    requires IsChunk(ch) && DollarHeaded(rest)
    ensures AnchorHit(ch + rest, table) == AnchorHit(ch, table)
  {
    RefOpenLocal(ch, rest, Whitespace);
    match RefOpen(ch, Whitespace)
    case None =>
    case Some(a) =>
      AnchorOpenLocal(ch, rest, a);
      if StartsWith(ch[a..], Anchor) {
        NameHitLocal(table, ch, rest, a);
      }
  }

  lemma AnchorsLocal(table: map<string, string>)
    ensures Local(Anchors(table))
  {
    forall ch, rest | IsChunk(ch) && DollarHeaded(rest)
      ensures Anchors(table)(ch + rest) == Anchors(table)(ch)
    {
      AnchorHitLocal(table, ch, rest);
    }
  }

  /** Locations that cannot start a further match: no `$`, and not themselves an anchor. */
  predicate SafeTable(table: map<string, string>) {
    forall name :: name in table ==> '$' !in table[name] && !StartsWith(table[name], Anchor)
  }

  lemma DollarFreeSlice(s: string, i: nat, j: nat)
    requires 1 <= i <= j <= |s| && '$' !in s[1..]
    ensures '$' !in s[i..j]
  {
    forall k | i <= k < j ensures s[k] != '$' {
      assert s[k] == s[1..][k - 1];
    }
  }

  /** Splicing `$`-free text into a chunk after its `$` leaves a chunk. */
  lemma ChunkSplice(ch: string, a: nat, v: string, q: char, tail: string)
    requires IsChunk(ch) && 1 <= a <= |ch| && '$' !in v && q != '$' && '$' !in tail
    ensures IsChunk(ch[..a] + v + [q] + tail)
  {
    var u := ch[..a] + v + [q] + tail;
    DollarFreeSlice(ch, 1, a);
    assert u[1..] == ch[1..a] + v + [q] + tail;
  }

  /** A located anchor, once replaced, is not an anchor any more. */
  lemma ReplacedAnchorGone(table: map<string, string>, ch: string, a: nat, e: nat)
    requires SafeTable(table) && AnchorRefAt(ch, a, e) && ch[a + |Anchor|..e] in table
    ensures AnchorHit(ch[..a] + table[ch[a + |Anchor|..e]] + [ch[e]] + ch[e + 1..], table).None?
  {
    var v, q, tail := table[ch[a + |Anchor|..e]], ch[e], ch[e + 1..];
    var u := ch[..a] + v + [q] + tail;
    assert u[..a] == ch[..a];
    RefOpenPrefix(ch, u, Whitespace, a);
    assert u[a..] == v + [q] + tail;
    AnchorHasNoQuote();
    NotStartsWithQuoted(v, q, tail, Anchor);
  }

  /** A located anchor replaced from the table leaves a chunk the pattern no longer matches. */
  lemma ReplacedChunkSettles(table: map<string, string>, ch: string, a: nat, e: nat)
    requires SafeTable(table) && IsChunk(ch) && AnchorRefAt(ch, a, e) && ch[a + |Anchor|..e] in table
    ensures var u := Replacement(ch, a, e, table) + ch[e + 1..];
      IsChunk(u) && AnchorHit(u, table).None?
  {
    assert Replacement(ch, a, e, table) + ch[e + 1..] == ch[..a] + table[ch[a + |Anchor|..e]] + [ch[e]] + ch[e + 1..];
    DollarFreeSlice(ch, e + 1, |ch|);
    ChunkSplice(ch, a, table[ch[a + |Anchor|..e]], ch[e], ch[e + 1..]);
    ReplacedAnchorGone(table, ch, a, e);
  }

  /** A hit on a chunk either keeps the anchor or leaves a chunk the pattern no longer matches. */
  lemma AnchorsSettle(table: map<string, string>, ch: string)
    requires SafeTable(table) && IsChunk(ch) && AnchorHit(ch, table).Some?
    ensures var h := AnchorHit(ch, table).value;
      h.replacement == ch[..h.len] || (IsChunk(h.replacement + ch[h.len..]) && AnchorHit(h.replacement + ch[h.len..], table).None?)
  {
    var a, e := AnchorHitAt(ch, table);
    var h := AnchorHit(ch, table).value;
    assert h == Hit(e + 1, Replacement(ch, a, e, table));
    if ch[a + |Anchor|..e] in table {
      ReplacedChunkSettles(table, ch, a, e);
      assert h.len == e + 1 && h.replacement == Replacement(ch, a, e, table);
      assert ch[h.len..] == ch[e + 1..];
    } else {
      assert h.replacement == ch[..h.len];
    }
  }

  /** A chunk once converted is still a chunk, and converting it again changes nothing. */
  lemma ChunkConvertedOnce(table: map<string, string>, ch: string)
    requires SafeTable(table) && IsChunk(ch)
    ensures IsChunk(Sub(Anchors(table), ch)) && Sub(Anchors(table), Sub(Anchors(table), ch)) == Sub(Anchors(table), ch)
  {
    if AnchorHit(ch, table).Some? {
      AnchorsSettle(table, ch);
      var h := AnchorHit(ch, table).value;
      assert Anchors(table)(ch) == Some(h);
      assert Anchors(table)(h.replacement + ch[h.len..]) == AnchorHit(h.replacement + ch[h.len..], table);
    }
    ChunkSettles(Anchors(table), ch);
  }

  /** A second run over converted text changes nothing. */
  lemma ConvertIdempotent(table: map<string, string>, s: string)
    requires SafeTable(table)
    ensures Convert(table, Convert(table, s)) == Convert(table, s)
  {
    AnchorsLocal(table);
    forall ch | IsChunk(ch)
      ensures IsChunk(Sub(Anchors(table), ch)) && Sub(Anchors(table), Sub(Anchors(table), ch)) == Sub(Anchors(table), ch)
    {
      ChunkConvertedOnce(table, ch);
    }
    ChunkwiseIdempotent(Anchors(table), s);
  }

  /** With nothing in the table, every anchor is kept and the text is unchanged. */
  lemma ConvertEmptyTable(s: string)
    ensures Convert(map[], s) == s
  {
    forall u | Anchors(map[])(u).Some?
      ensures Anchors(map[])(u).value.replacement == u[..Anchors(map[])(u).value.len]
    {
    }
    SubEchoes(Anchors(map[]), s);
  }

  // ---------------------------------------------------------------------
  // Files
  // ---------------------------------------------------------------------

  function ConvertText(table: map<string, string>): string -> string {
    (c: string) => Convert(table, c)
  }

  /** The same conversion for every file. */
  function ConvertEach(table: map<string, string>): string -> string -> string {
    (p: string) => ConvertText(table)
  }

  /** Converting text that lacks a character, with locations that lack it, never introduces it. */
  lemma ConvertAvoids(table: map<string, string>, s: string, c: char)
    requires c !in s && forall name :: name in table ==> c !in table[name]
    ensures c !in Convert(table, s)
  {
    forall u | c !in u && Anchors(table)(u).Some?
      ensures c !in Anchors(table)(u).value.replacement
    {
      AnchorHitSound(u, table);
      var a: nat, e: nat :| AnchorRefAt(u, a, e) && Anchors(table)(u).value == Hit(e + 1, Replacement(u, a, e, table));
      assert c !in u[..a] && c !in u[..e + 1] by {
        assert forall i :: 0 <= i <= e ==> u[..e + 1][i] == u[i];
      }
    }
    SubAvoids(Anchors(table), s, c);
  }

  /**
   * `convert_file` run a second time on a file the first run rewrote: the
   * text is left as it is, and the backup the first run made is deleted.
   */
  lemma ConvertFileTwice(st: Store, path: string, table: map<string, string>)
    requires SafeTable(table) && forall name :: name in table ==> '\r' !in table[name]
    requires path in st.files
    ensures var first := Update(st, path, ConvertText(table), WithBackup);
      var second := Update(first.0, path, ConvertText(table), WithBackup);
      && !second.1
      && second.0.files[path] == first.0.files[path]
      && BackupPath(path) !in second.0.files
  {
    var text := UniversalNewlines(st.files[path]);
    var first := Update(st, path, ConvertText(table), WithBackup);
    var out := first.0.files[path];
    UniversalNewlinesHasNoCR(st.files[path]);
    if first.1 {
      ConvertAvoids(table, text, '\r');
      UniversalNewlinesPlain(out);
      ConvertIdempotent(table, text);
    } else {
      assert out == st.files[path];
      UniversalNewlinesPlain(text);
      assert Convert(table, text) == text;
    }
  }

  /** `process_directory`: every listed file in turn, counting the files rewritten. */
  method ProcessDirectory(st: Store, yamlFiles: seq<string>, table: map<string, string>) returns (st': Store, updated: nat)
    ensures (st', updated) == UpdateAll(st, yamlFiles, ConvertEach(table), WithBackup)
  {
    st', updated := UpdateEach(st, yamlFiles, ConvertEach(table), WithBackup);
  }

  /**
   * `main`: load the index, then convert the files found under `paths`
   * (the listing is a parameter). Without the index nothing is touched.
   */
  method RunScript(st: Store, yamlFiles: seq<string>) returns (st': Store, loaded: bool, updated: nat)
    ensures loaded <==> IndexFile in st.files
    ensures !loaded ==> st' == st && updated == 0
    ensures loaded ==>
      (st', updated) == UpdateAll(st, yamlFiles, ConvertEach(IndexTable(Split(Read(st, IndexFile).value, '\n'))), WithBackup)
  {
    var table;
    loaded, table := LoadSchemaMap(st);
    if !loaded {
      return st, false, 0;
    }
    st', updated := ProcessDirectory(st, yamlFiles, table);
  }
}
