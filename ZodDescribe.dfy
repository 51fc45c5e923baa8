/**
 * `scripts/add-description-to-zod.ts`: the pass that adds `.describe(…)`
 * calls to a generated zod schema file. Schema names get a description from
 * a fixed table, directly or through a `Create`/`Update`/`Bulk…` suffix;
 * descriptions are written as JavaScript string literals; schema
 * definitions, property lines and exported functions are then rewritten.
 * The description tables gathered from the OpenAPI files are parameters.
 */
module ZodDescribe {
  import opened Text

  // ---------------------------------------------------------------------
  // Schema descriptions
  // ---------------------------------------------------------------------

  /** The hand-written descriptions of the main schemas. */
  const StaticDescriptions: map<string, string> := map[
    "Category" := "部門情報",
    "CategoryGroup" := "部門グループ情報",
    "Product" := "商品情報",
    "Transaction" := "取引情報",
    "Customer" := "会員情報",
    "Stock" := "在庫情報",
    "StockChange" := "在庫変動履歴情報",
    "Store" := "店舗情報",
    "StoreGroup" := "店舗グループ情報",
    "Staff" := "スタッフ情報",
    "Layaway" := "取置情報",
    "PreSale" := "予約販売情報",
    "TicketTransaction" := "チケット取引情報",
    "Error" := "エラー情報",
    "Pagination" := "ページネーション情報"
  ]

  /** The derived schema kinds the suffix of a name can announce. */
  datatype Derivation = ForCreate | ForUpdate | ForBulk

  /** The text a derived description appends to its base's description. */
  function DerivationText(d: Derivation): string {
    match d
    case ForCreate => "の登録用データ"
    case ForUpdate => "の更新用データ"
    case ForBulk => "の一括操作用データ"
  }

  predicate AllWord(s: string) { forall i :: 0 <= i < |s| ==> IsWordChar(s[i]) }

  /** The alternatives `Create|Update|Bulk\w+`, matched against a whole word-character tail. */
  function SuffixKind(rest: string): (r: Option<Derivation>)
    ensures r == Some(ForCreate) <==> rest == "Create"
    ensures r == Some(ForUpdate) <==> rest == "Update"
    ensures r == Some(ForBulk) <==> StartsWith(rest, "Bulk") && |rest| > 4 && rest != "Create" && rest != "Update"
  {
    if rest == "Create" then Some(ForCreate)
    else if rest == "Update" then Some(ForUpdate)
    else if StartsWith(rest, "Bulk") && |rest| > 4 then Some(ForBulk)
    else None
  }

  /**
   * The greedy `(\w+)` backtracking from the longest base: the largest
   * `k <= top`, `k >= 1`, whose tail is one of the suffixes.
   */
  function SplitBelow(name: string, top: nat): (r: Option<nat>)
    requires top <= |name|
    ensures r.Some? ==> 1 <= r.value <= top && SuffixKind(name[r.value..]).Some?
    ensures forall k :: (if r.Some? then r.value else 0) < k <= top ==> SuffixKind(name[k..]).None?
  {
    if top == 0 then None
    else if SuffixKind(name[top..]).Some? then Some(top)
    else SplitBelow(name, top - 1)
  }

  /**
   * `/^(\w+)(Create|Update|Bulk\w+)$/.exec(name)`: the length of the base,
   * which is the longest one that leaves a suffix.
   */
  function BaseLength(name: string): (r: Option<nat>)
    ensures r.Some? ==> AllWord(name) && 1 <= r.value < |name| && SuffixKind(name[r.value..]).Some?
    ensures r.Some? ==> forall k :: r.value < k <= |name| ==> SuffixKind(name[k..]).None?
    ensures r.None? ==> !AllWord(name) || forall k :: 1 <= k <= |name| ==> SuffixKind(name[k..]).None?
  {
    if AllWord(name) then SplitBelow(name, |name|) else None
  }

  /** A table entry is usable when it is present and not empty (JavaScript truthiness). */
  predicate Known(table: map<string, string>, key: string) { key in table && table[key] != "" }

  /**
   * `getSchemaDescription` over a description table: an exact entry first;
   * else the base of a `Create`, `Update` or `Bulk…` name, which must itself
   * be in the table, with the derived text appended.
   */
  function DescribeIn(table: map<string, string>, name: string): Option<string> {
    if Known(table, name) then Some(table[name])
    else match BaseLength(name)
      case None => None
      case Some(k) =>
        if Known(table, name[..k]) then Some(table[name[..k]] + DerivationText(SuffixKind(name[k..]).value)) else None
  }

  /** `getSchemaDescription` itself, over the hand-written table. */
  function SchemaDescription(name: string): Option<string> {
    DescribeIn(StaticDescriptions, name)
  }

  /** An exact table entry wins over any suffix rule. */
  lemma ExactEntryFirst(table: map<string, string>, name: string)
    requires Known(table, name)
    ensures DescribeIn(table, name) == Some(table[name])
  {
  }

  /** No proper tail of `Create` or `Update` is itself a suffix. */
  lemma ShortTailsFail(w: string, k: nat)
    requires w == "Create" || w == "Update"
    requires 1 <= k <= 6
    ensures SuffixKind(w[k..]).None?
  {
    assert |w[k..]| < 6;
    if StartsWith(w[k..], "Bulk") {
      assert w[k..][0] == 'B' && w[k] == 'B';
      assert w[k] in w;
    }
  }

  /**
   * A name made of a word-character base and `Create` or `Update`, not itself
   * in the table, is described by its base: the base's text and the suffix's.
   */
  lemma {:induction false} DerivedFromBase(table: map<string, string>, base: string, w: string)
    requires w == "Create" || w == "Update"
    requires base != [] && AllWord(base) && !Known(table, base + w)
    ensures BaseLength(base + w) == Some(|base|)
    ensures DescribeIn(table, base + w) ==
      if Known(table, base) then Some(table[base] + DerivationText(if w == "Create" then ForCreate else ForUpdate)) else None
  {
    var name := base + w;
    assert name[|base|..] == w;
    forall k | |base| < k <= |name| ensures SuffixKind(name[k..]).None? {
      assert name[k..] == w[k - |base|..];
      if k == |name| {
        assert name[k..] == [];
      } else {
        ShortTailsFail(w, k - |base|);
      }
    }
    assert AllWord(w) by {
      forall i | 0 <= i < |w| ensures IsWordChar(w[i]) {
        assert w[i] in w;
      }
    }
    assert AllWord(name) by {
      forall i | 0 <= i < |name| ensures IsWordChar(name[i]) {
        if i >= |base| { assert name[i] == w[i - |base|]; }
      }
    }
    assert name[..|base|] == base;
  }

  /**
   * A word-character base, `Bulk` and a tail without `B`, `C` or `U`, not
   * itself in the table, is described by its base and the bulk suffix.
   */
  lemma {:induction false} BulkFromBase(table: map<string, string>, base: string, x: string)
    requires base != [] && AllWord(base) && x != [] && AllWord(x)
    requires 'B' !in x && 'C' !in x && 'U' !in x
    requires !Known(table, base + "Bulk" + x)
    ensures DescribeIn(table, base + "Bulk" + x) ==
      if Known(table, base) then Some(table[base] + DerivationText(ForBulk)) else None
  {
    var w := "Bulk" + x;
    var name := base + w;
    assert base + "Bulk" + x == name;
    assert name[|base|..] == w;
    assert StartsWith(w, "Bulk") && w != "Create" && w != "Update" by {
      assert w[..4] == "Bulk";
      assert w[0] != "Create"[0] && w[0] != "Update"[0];
    }
    forall k | |base| < k <= |name| ensures SuffixKind(name[k..]).None? {
      var t := name[k..];
      if t != [] {
        assert t[0] == name[k] && name[k] == w[k - |base|];
        if k - |base| < 4 {
          assert w[k - |base|] == "Bulk"[k - |base|];
        } else {
          assert w[k - |base|] == x[k - |base| - 4];
          assert x[k - |base| - 4] in x;
        }
        assert t[0] != 'B' && t[0] != 'C' && t[0] != 'U';
        assert t != "Create" && t != "Update" by { assert "Create"[0] == 'C' && "Update"[0] == 'U'; }
        assert !StartsWith(t, "Bulk") by { assert "Bulk"[0] == 'B'; }
      }
    }
    assert AllWord(name) by {
      forall i | 0 <= i < |name| ensures IsWordChar(name[i]) {
        if |base| <= i < |base| + 4 {
          assert name[i] == "Bulk"[i - |base|];
          assert name[i] in "Bulk";
        } else if i >= |base| + 4 {
          assert name[i] == x[i - |base| - 4];
        }
      }
    }
    assert name[..|base|] == base;
  }

  /** `ProductBulkCreate` splits as `ProductBulk` + `Create`, and `ProductBulk` has no description. */
  lemma ProductBulkCreateUndescribed()
    ensures SchemaDescription("ProductBulk" + "Create") == None
  {
    var base: string := "ProductBulk";
    assert AllWord(base) by {
      forall i | 0 <= i < |base| ensures IsWordChar(base[i]) {
        assert base[i] in ['P', 'r', 'o', 'd', 'u', 'c', 't', 'B', 'l', 'k'];
      }
    }
    assert !Known(StaticDescriptions, base + "Create") by {
      var n := base + "Create";
      assert |n| == 17 && n[0] == 'P';
      assert n != "TicketTransaction" by { assert "TicketTransaction"[0] == 'T'; }
    }
    DerivedFromBase(StaticDescriptions, base, "Create");
    assert !Known(StaticDescriptions, base) by {
      assert |base| == 11;
      assert base != "StockChange" by { assert base[0] != "StockChange"[0]; }
    }
  }

  // ---------------------------------------------------------------------
  // Description literals
  // ---------------------------------------------------------------------

  /** `s.replace(/c/g, '\\' + c)`: a backslash before every `c`. */
  function EscapeEach(s: string, c: char): (r: string)
    ensures |r| >= |s|
  {
    if s == [] then [] else (if s[0] == c then ['\\', c] else [s[0]]) + EscapeEach(s[1..], c)
  }

  /**
   * `formatDescription` as written: `""` for the empty text; a template
   * literal with backticks escaped for a text with a line feed; a
   * double-quoted literal with double quotes escaped otherwise.
   */
  function FormatDescriptionAsWritten(d: string): string {
    if d == "" then "\"\""
    else if '\n' in d then "`" + EscapeEach(d, '`') + "`"
    else "\"" + EscapeEach(d, '"') + "\""
  }

  /** How the corrected formatter writes one character inside a literal closed by `q`. */
  function EscapeChar(c: char, q: char): string {
    if c == '\r' then ['\\', 'r']
    else if c == '\\' || c == q || (q == '`' && c == '$') then ['\\', c]
    else [c]
  }

  function EscapeFor(s: string, q: char): string {
    if s == [] then [] else EscapeChar(s[0], q) + EscapeFor(s[1..], q)
  }

  /**
   * `formatDescription` with the escaping a JavaScript literal needs: as
   * written, plus backslashes, carriage returns and (in a template) dollar
   * signs escaped.
   */
  function FormatDescription(d: string): string {
    if d == "" then "\"\""
    else if '\n' in d then "`" + EscapeFor(d, '`') + "`"
    else "\"" + EscapeFor(d, '"') + "\""
  }

  /** The character a JavaScript escape `\c` stands for, for the escapes the formatter can produce. */
  function EscapedValue(c: char): Option<char> {
    if c in {'\\', '"', '\'', '`', '$'} then Some(c)
    else if c == 'r' then Some('\r')
    else if c == 'n' then Some('\n')
    else None
  }

  /**
   * The value of the rest `s` of a JavaScript string literal closed by `q`
   * (a double quote or a backtick), when `s` is exactly the rest of a
   * complete literal: a raw line break may not occur in a double-quoted
   * literal, a raw carriage return would be read as a line feed in a
   * template, and `${` starts a substitution there.
   */
  function ReadBody(s: string, q: char): Option<string>
    decreases |s|
  {
    if s == [] then None
    else if s[0] == q then (if |s| == 1 then Some([]) else None)
    else if s[0] == '\\' then
      if |s| < 2 || EscapedValue(s[1]).None? then None
      else match ReadBody(s[2..], q)
        case None => None
        case Some(t) => Some([EscapedValue(s[1]).value] + t)
    else if s[0] == '\r' || (q == '"' && s[0] == '\n') || (q == '`' && s[0] == '$' && |s| > 1 && s[1] == '{') then None
    else match ReadBody(s[1..], q)
      case None => None
      case Some(t) => Some([s[0]] + t)
  }

  /** The value of a double-quoted or template literal, as JavaScript reads it. */
  function ReadLiteral(lit: string): Option<string> {
    if lit != [] && (lit[0] == '"' || lit[0] == '`') then ReadBody(lit[1..], lit[0]) else None
  }

  /** One escaped character, read back. */
  lemma ReadOne(c: char, q: char, rest: string, t: string)
    requires q == '"' || q == '`'
    requires q == '"' ==> c != '\n'
    requires ReadBody(rest, q) == Some(t)
    ensures ReadBody(EscapeChar(c, q) + rest, q) == Some([c] + t)
  {
    var s := EscapeChar(c, q) + rest;
    if |EscapeChar(c, q)| == 2 {
      assert s[0] == '\\' && s[1] == EscapeChar(c, q)[1];
      assert s[2..] == rest;
    } else {
      assert s[0] == c && s[1..] == rest;
    }
  }

  lemma {:induction false} ReadEscaped(d: string, q: char)
    requires q == '"' || q == '`'
    requires q == '"' ==> '\n' !in d
    ensures ReadBody(EscapeFor(d, q) + [q], q) == Some(d)
    decreases |d|
  {
    if d == [] {
      assert EscapeFor(d, q) + [q] == [q];
    } else {
      var rest := EscapeFor(d[1..], q) + [q];
      assert EscapeFor(d, q) + [q] == EscapeChar(d[0], q) + rest;
      assert d[0] in d;
      assert forall c :: c in d[1..] ==> c in d;
      ReadEscaped(d[1..], q);
      ReadOne(d[0], q, rest, d[1..]);
      assert d == [d[0]] + d[1..];
    }
  }

  /** Every description literal reads back as the description. */
  lemma FormatRoundTrip(d: string)
    ensures ReadLiteral(FormatDescription(d)) == Some(d)
  {
    if d == "" {
      assert FormatDescription(d) == ['"', '"'];
    } else if '\n' in d {
      ReadEscaped(d, '`');
      assert FormatDescription(d)[1..] == EscapeFor(d, '`') + ['`'];
    } else {
      ReadEscaped(d, '"');
      assert FormatDescription(d)[1..] == EscapeFor(d, '"') + ['"'];
    }
  }

  /** The formatter as written escapes nothing but the closing quote. */
  lemma EscapeEachAgrees(d: string, q: char)
    requires q == '"' || q == '`'
    requires '\\' !in d && '\r' !in d && (q == '`' ==> '$' !in d)
    ensures EscapeEach(d, q) == EscapeFor(d, q)
  {
    if d != [] {
      assert d[0] in d;
      assert forall c :: c in d[1..] ==> c in d;
      EscapeEachAgrees(d[1..], q);
    }
  }

  /** Without backslashes, carriage returns or (in a template) dollar signs the two formatters agree. */
  lemma FormatAsWrittenAgrees(d: string)
    requires '\\' !in d && '\r' !in d && ('\n' in d ==> '$' !in d)
    ensures FormatDescriptionAsWritten(d) == FormatDescription(d)
  {
    if d != "" {
      if '\n' in d { EscapeEachAgrees(d, '`'); } else { EscapeEachAgrees(d, '"'); }
    }
  }

  /** A description ending in a backslash: as written, the backslash escapes the closing quote. */
  lemma TrailingBackslashBreaksLiteral(x: string)
    requires '\n' !in x && '"' !in x && '\\' !in x
    ensures ReadLiteral(FormatDescriptionAsWritten(x + ['\\'])).None?
  {
    var d := x + ['\\'];
    assert '"' !in d && '\n' !in d by {
      forall c | c in d ensures c != '"' && c != '\n' {
        assert c in x || c == '\\';
      }
    }
    EscapeNoQuote(d);
    var lit := FormatDescriptionAsWritten(d);
    assert lit == ['"'] + d + ['"'];
    ReadUnterminated(x, '"');
    assert lit[1..] == x + ['\\', '"'];
  }

  lemma EscapeNoQuote(d: string)
    requires '"' !in d
    ensures EscapeEach(d, '"') == d
  {
    if d != [] {
      assert d[0] in d;
      assert forall c :: c in d[1..] ==> c in d;
      EscapeNoQuote(d[1..]);
      assert d == [d[0]] + d[1..];
    }
  }

  /** A body without backslashes whose last quote is escaped never closes. */
  lemma {:induction false} ReadUnterminated(x: string, q: char)
    requires q !in x && '\\' !in x
    ensures ReadBody(x + ['\\', q], q).None?
    decreases |x|
  {
    var s := x + ['\\', q];
    if x == [] {
      assert s == ['\\', q];
    } else {
      assert x[0] in x;
      assert s[1..] == x[1..] + ['\\', q];
      assert forall c :: c in x[1..] ==> c in x;
      ReadUnterminated(x[1..], q);
    }
  }
}
