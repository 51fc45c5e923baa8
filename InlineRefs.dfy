/**
 * `convert_inline_refs.py`: in the path files for transactions, products
 * and store product prices, each `$ref` to one of 22 named component
 * schemas becomes a relative path to that schema's own file, and then a
 * leading `./` is dropped from every `$ref` target.
 */
module InlineRefs {
  import opened Text
  import opened RefScan
  import opened RefSyntax
  import opened Disk
  import opened PosixPath

  const ProjectDir := "/Users/t002451" + "/my_work/private" + "/SmaregiMCP"
  const SchemasDir := ProjectDir + "/schemas"
  const PathsDir := ProjectDir + "/paths"
  const StoresFile := PathsDir + "/stores/stores_product_prices.yaml"

  /** Schema names and directory names: no quote and no `$`. */
  predicate Name(name: string) {
    forall i :: 0 <= i < |name| ==> !IsQuote(name[i]) && name[i] != '$'
  }

  type Word = s: string | Name(s) witness ""

  /** One `re.sub` of the first step: the schema it recognises and the sub-directory its file is in. */
  datatype Rule = Rule(name: Word, category: Word)

  const Common: Word := "common"
  const Transactions: Word := "transactions"
  const Products: Word := "products"

  const Error: Word := "Error"
  const Pagination: Word := "Pagination"
  const Transaction: Word := "Transaction"
  const TransactionCreate: Word := "TransactionCreate"
  const TransactionDetail: Word := "TransactionDetail"
  const Layaway: Word := "Layaway"
  const LayawayCreate: Word := "LayawayCreate"
  const PreSale: Word := "PreSale"
  const PreSaleCreate: Word := "PreSaleCreate"
  const PreSaleUpdate: Word := "PreSaleUpdate"
  const TicketTransaction: Word := "TicketTransaction"
  const Product: Word := "Product"
  const ProductPrice: Word := "ProductPrice"
  const ProductPriceChange: Word := "ProductPriceChange"
  const ProductReserveItem: Word := "ProductReserveItem"
  const ProductAttribute: Word := "ProductAttribute"
  const ProductAttributeItem: Word := "ProductAttributeItem"
  const ProductStore: Word := "ProductStore"
  const ProductInventoryReservation: Word := "ProductInventoryReservation"
  const ProductReserveItemLabel: Word := "ProductReserveItemLabel"
  const ProductImage: Word := "ProductImage"
  const ProductImageUpload: Word := "ProductImageUpload"

  /** The substitutions in the order the script makes them. */
  const Rules: seq<Rule> := [
    Rule(Error, Common),
    Rule(Pagination, Common),
    Rule(Transaction, Transactions),
    Rule(TransactionCreate, Transactions),
    Rule(TransactionDetail, Transactions),
    Rule(Layaway, Transactions),
    Rule(LayawayCreate, Transactions),
    Rule(PreSale, Transactions),
    Rule(PreSaleCreate, Transactions),
    Rule(PreSaleUpdate, Transactions),
    Rule(TicketTransaction, Transactions),
    Rule(Product, Products),
    Rule(ProductPrice, Products),
    Rule(ProductPriceChange, Products),
    Rule(ProductReserveItem, Products),
    Rule(ProductAttribute, Products),
    Rule(ProductAttributeItem, Products),
    Rule(ProductStore, Products),
    Rule(ProductInventoryReservation, Products),
    Rule(ProductReserveItemLabel, Products),
    Rule(ProductImage, Products),
    Rule(ProductImageUpload, Products)
  ]

  /** `{rel_path_to_schemas}/<category>/<name>.yaml`. */
  function Target(rel: string, r: Rule): string {
    rel + "/" + r.category + "/" + r.name + ".yaml"
  }

  /**
   * `(\$ref: *["'])#/components/schemas/<name>(["'])` with replacement
   * `\1<target>\2`, tried at the start of `s`: the anchor must name the
   * schema exactly, closing quote included.
   */
  function InlineHit(s: string, name: string, target: string): (r: Option<Hit>)
    ensures r.Some? ==> Spans(s, r.value)
  {
    match RefOpen(s, Blank)
    case None => None
    case Some(a) =>
      var n := a + |Anchor| + |name|;
      if n < |s| && s[a..n] == Anchor + name && IsQuote(s[n]) then
        var rep := s[..a] + target + [s[n]];
        assert rep[..5] == s[..5];
        Some(Hit(n + 1, rep))
      else None
  }

  function RuleMatcher(name: string, target: string): Matcher {
    (s: string) => InlineHit(s, name, target)
  }

  /** One `re.sub` of the first step. */
  function Inline(rel: string, r: Rule, content: string): string {
    Sub(RuleMatcher(r.name, Target(rel, r)), content)
  }

  /** The first step: the substitutions one after the other, in order. */
  function ApplyRules(rules: seq<Rule>, rel: string, content: string): string
  {
    if rules == [] then content
    else Inline(rel, rules[|rules| - 1], ApplyRules(rules[..|rules| - 1], rel, content))
  }

  /** The regex read on positions: blanks, a quote, the anchor, exactly `name`, a quote at `n`. */
  predicate InlineRefAt(s: string, a: nat, name: string, n: nat) {
    6 <= a && n == a + |Anchor| + |name| < |s| && s[..5] == RefKey
    && (forall i :: 5 <= i < a - 1 ==> s[i] == ' ')
    && IsQuote(s[a - 1]) && s[a..n] == Anchor + name && IsQuote(s[n])
  }

  lemma InlineHitExact(s: string, a: nat, name: string, n: nat, target: string)
    requires InlineRefAt(s, a, name, n)
    ensures InlineHit(s, name, target) == Some(Hit(n + 1, s[..a] + target + [s[n]]))
  {
    RefOpenIs(s, Blank, a);
  }

  lemma InlineHitSound(s: string, name: string, target: string)
    requires InlineHit(s, name, target).Some?
    ensures exists a: nat, n: nat ::
      InlineRefAt(s, a, name, n) && InlineHit(s, name, target).value == Hit(n + 1, s[..a] + target + [s[n]])
  {
    var a := RefOpen(s, Blank).value;
    assert s[..5] == RefKey;
    assert InlineRefAt(s, a, name, a + |Anchor| + |name|);
  }

  /** The anchor followed by a name holds no quote and no `$`. */
  lemma AnchorNameFree(name: string)
    requires Name(name)
    ensures forall i :: 0 <= i < |Anchor + name| ==> !IsQuote((Anchor + name)[i]) && (Anchor + name)[i] != '$'
  {
    AnchorHasNoQuote();
    forall i | 0 <= i < |Anchor + name| ensures !IsQuote((Anchor + name)[i]) && (Anchor + name)[i] != '$' {
      if i >= |Anchor| { assert (Anchor + name)[i] == name[i - |Anchor|]; }
    }
  }

  /** Where a name matches: the anchor and the name, with no quote before the closing one. */
  lemma InlineHitFacts(s: string, name: string, target: string)
    requires Name(name) && InlineHit(s, name, target).Some?
    ensures var a := RefOpen(s, Blank).value; var n := a + |Anchor| + |name|;
      && n < |s| && IsQuote(s[n]) && s[a + |Anchor|..n] == name
      && forall i :: a <= i < n ==> !IsQuote(s[i]) && s[i] != '$'
  {
    var a := RefOpen(s, Blank).value;
    var n := a + |Anchor| + |name|;
    AnchorNameFree(name);
    forall i | a <= i < n ensures !IsQuote(s[i]) && s[i] != '$' {
      assert s[i] == s[a..n][i - a];
    }
    assert s[a + |Anchor|..n] == s[a..n][|Anchor|..];
  }

  /** At most one name matches at a given place: the closing quote decides where the name ends. */
  lemma OneNameAtMost(s: string, name1: string, t1: string, name2: string, t2: string)
    requires Name(name1) && Name(name2)
    requires InlineHit(s, name1, t1).Some? && InlineHit(s, name2, t2).Some?
    ensures name1 == name2
  {
    InlineHitFacts(s, name1, t1);
    InlineHitFacts(s, name2, t2);
  }

  /** `Product` does not rewrite a reference to `ProductPrice`. */
  lemma ProductSparesProductPrice(s: string, t1: string, t2: string)
    requires InlineHit(s, "ProductPrice", t2).Some?
    ensures InlineHit(s, "Product", t1).None?
  {
    if InlineHit(s, "Product", t1).Some? {
      OneNameAtMost(s, "Product", t1, "ProductPrice", t2);
    }
  }

  /** The first rule, in order, that matches at the start of `s`. */
  function FirstHit(rules: seq<Rule>, rel: string, s: string): (r: Option<Hit>)
    ensures r.Some? ==> Spans(s, r.value)
    ensures r.Some? ==> exists k :: 0 <= k < |rules| && r == InlineHit(s, rules[k].name, Target(rel, rules[k]))
  {
    if rules == [] then None
    else
      var init := rules[..|rules| - 1];
      var last := rules[|rules| - 1];
      match FirstHit(init, rel, s)
      case Some(h) =>
        var k :| 0 <= k < |init| && Some(h) == InlineHit(s, init[k].name, Target(rel, init[k]));
        assert init[k] == rules[k];
        Some(h)
      case None => InlineHit(s, last.name, Target(rel, last))
  }

  /** The substitutions of the first step as one pattern that tries every name at once. */
  function AllRules(rules: seq<Rule>, rel: string): Matcher {
    (s: string) => FirstHit(rules, rel, s)
  }

  /** A target the first step can write without creating a new match: no `$` and not an anchor. */
  predicate SafeTarget(target: string) {
    '$' !in target && (target == [] || target[0] != '#')
  }

  predicate SafeRules(rules: seq<Rule>, rel: string) {
    forall k :: 0 <= k < |rules| ==> SafeTarget(Target(rel, rules[k]))
  }

  /** A `$` between the opening quote and the closing one leaves no match. */
  lemma DollarStopsName(s: string, name: string, target: string, j: nat)
    requires Name(name) && RefOpen(s, Blank).Some?
    requires RefOpen(s, Blank).value <= j <= RefOpen(s, Blank).value + |Anchor| + |name| && j < |s| && s[j] == '$'
    ensures InlineHit(s, name, target).None?
  {
    if InlineHit(s, name, target).Some? {
      InlineHitFacts(s, name, target);
    }
  }

  /** Two texts with the same opening that agree up to the closing quote give the same hit. */
  lemma InlineHitSame(s: string, t: string, name: string, target: string, a: nat)
    requires RefOpen(s, Blank) == Some(a) && RefOpen(t, Blank) == Some(a)
    requires var n := a + |Anchor| + |name|;
      n < |s| && n < |t| && s[..a] == t[..a] && s[a..n] == t[a..n] && s[n] == t[n]
    ensures InlineHit(s, name, target) == InlineHit(t, name, target)
  {
  }

  lemma InlineLocal(name: string, target: string, ch: string, rest: string)
    requires Name(name) && IsChunk(ch) && DollarHeaded(rest)
    ensures InlineHit(ch + rest, name, target) == InlineHit(ch, name, target)
  {
    var s := ch + rest;
    RefOpenLocal(ch, rest, Blank);
    if RefOpen(ch, Blank).Some? {
      var a := RefOpen(ch, Blank).value;
      var n := a + |Anchor| + |name|;
      if n < |ch| {
        ConcatAgrees(ch, rest, 0, a);
        ConcatAgrees(ch, rest, a, n);
        InlineHitSame(s, ch, name, target, a);
      } else if rest != [] {
        assert s[|ch|] == rest[0];
        DollarStopsName(s, name, target, |ch|);
      } else {
        assert s == ch;
      }
    }
  }

  lemma {:induction false} FirstHitLocal(rules: seq<Rule>, rel: string, ch: string, rest: string)
    requires SafeRules(rules, rel) && IsChunk(ch) && DollarHeaded(rest)
    ensures FirstHit(rules, rel, ch + rest) == FirstHit(rules, rel, ch)
    decreases |rules|
  {
    if rules != [] {
      var init := rules[..|rules| - 1];
      var last := rules[|rules| - 1];
      assert SafeRules(init, rel) by {
        forall k | 0 <= k < |init| ensures SafeTarget(Target(rel, init[k])) {
          assert init[k] == rules[k];
        }
      }
      FirstHitLocal(init, rel, ch, rest);
      InlineLocal(last.name, Target(rel, last), ch, rest);
    }
  }

  lemma AllRulesLocal(rules: seq<Rule>, rel: string)
    requires SafeRules(rules, rel)
    ensures Local(AllRules(rules, rel))
  {
    forall ch, rest | IsChunk(ch) && DollarHeaded(rest)
      ensures AllRules(rules, rel)(ch + rest) == AllRules(rules, rel)(ch)
    {
      FirstHitLocal(rules, rel, ch, rest);
    }
  }

  lemma RuleLocal(r: Rule, rel: string)
    requires Name(r.name)
    ensures Local(RuleMatcher(r.name, Target(rel, r)))
  {
    forall ch, rest | IsChunk(ch) && DollarHeaded(rest)
      ensures RuleMatcher(r.name, Target(rel, r))(ch + rest) == RuleMatcher(r.name, Target(rel, r))(ch)
    {
      InlineLocal(r.name, Target(rel, r), ch, rest);
    }
  }

  /** A reference whose target does not start with the anchor matches no name. */
  lemma PathNoMatch(u: string, a: nat, target: string, q: char, tail: string, name: string, t: string)
    requires RefOpen(u, Blank) == Some(a) && a <= |u| && u[a..] == target + [q] + tail
    requires IsQuote(q) && SafeTarget(target) && Name(name)
    ensures InlineHit(u, name, t).None?
  {
    AnchorNameFree(name);
    assert !StartsWith(target, Anchor + name) by {
      if |Anchor + name| <= |target| && target != [] {
        assert (Anchor + name)[0] == Anchor[0] == '#';
      }
    }
    NotStartsWithQuoted(target, q, tail, Anchor + name);
  }

  /** A chunk with the rewritten reference in place is still a chunk. */
  lemma SpliceChunk(ch: string, a: nat, n: nat, target: string)
    requires IsChunk(ch) && 1 <= a <= n < |ch| && '$' !in target
    ensures IsChunk(ch[..a] + target + [ch[n]] + ch[n + 1..])
  {
    var tail := ch[n + 1..];
    var u := ch[..a] + target + [ch[n]] + tail;
    assert '$' !in ch[1..a] by {
      forall i | 0 <= i < a - 1 ensures ch[1..a][i] != '$' { assert ch[1..a][i] == ch[1..][i]; }
    }
    assert '$' !in tail by {
      forall i | 0 <= i < |tail| ensures tail[i] != '$' { assert tail[i] == ch[1..][n + i]; }
    }
    assert ch[n] == ch[1..][n - 1];
    assert u[1..] == ch[1..a] + target + [ch[n]] + tail;
    assert u[0] == ch[0];
  }

  /** After a rewrite, the reference holds a path, so no name matches there any more. */
  lemma RewrittenNoMatch(ch: string, name: string, target: string, name': string, target': string)
    requires IsChunk(ch) && Name(name) && SafeTarget(target) && Name(name')
    requires InlineHit(ch, name, target).Some?
    ensures var h := InlineHit(ch, name, target).value;
      var u := h.replacement + ch[h.len..];
      IsChunk(u) && InlineHit(u, name', target').None?
  {
    var a := RefOpen(ch, Blank).value;
    var n := a + |Anchor| + |name|;
    InlineHitFacts(ch, name, target);
    var h := InlineHit(ch, name, target).value;
    var tail := ch[n + 1..];
    var u := ch[..a] + target + [ch[n]] + tail;
    assert h.len == n + 1 && h.replacement == ch[..a] + target + [ch[n]];
    assert ch[h.len..] == tail;
    SpliceChunk(ch, a, n, target);
    SplitAtPrefix(ch[..a], target, [ch[n]], tail);
    RefOpenPrefix(ch, u, Blank, a);
    PathNoMatch(u, a, target, ch[n], tail, name', target');
  }

  /** One more substitution after the others is the same as trying one more name in the single pass. */
  lemma ChunkStep(rules: seq<Rule>, rel: string, ch: string)
    requires rules != [] && SafeRules(rules, rel) && IsChunk(ch)
    ensures var init, last := rules[..|rules| - 1], rules[|rules| - 1];
      var q, p, r := AllRules(init, rel), RuleMatcher(last.name, Target(rel, last)), AllRules(rules, rel);
      IsChunk(Sub(q, ch)) && Sub(p, Sub(q, ch)) == Sub(r, ch)
  {
    var init, last := rules[..|rules| - 1], rules[|rules| - 1];
    var q, p, r := AllRules(init, rel), RuleMatcher(last.name, Target(rel, last)), AllRules(rules, rel);
    SubOfChunk(q, ch);
    SubOfChunk(r, ch);
    match FirstHit(init, rel, ch) {
      case Some(h) =>
        var k :| 0 <= k < |init| && Some(h) == InlineHit(ch, init[k].name, Target(rel, init[k]));
        assert init[k] == rules[k];
        RewrittenNoMatch(ch, init[k].name, Target(rel, init[k]), last.name, Target(rel, last));
        SubOfChunkNoHit(p, h.replacement + ch[h.len..]);
      case None =>
        SubOfChunk(p, ch);
    }
  }

  /** With no rules, the single pass finds nothing. */
  lemma NoRulesNoChange(rel: string, s: string)
    ensures Sub(AllRules([], rel), s) == s
  {
    SubEchoes(AllRules([], rel), s);
  }

  /**
   * The substitutions made one after the other give the same text as one
   * pass trying every name at once: no substitution creates or destroys a
   * match for a later one, so their order does not matter.
   */
  lemma {:induction false} ApplyRulesOnePass(rules: seq<Rule>, rel: string, s: string)
    requires SafeRules(rules, rel)
    ensures ApplyRules(rules, rel, s) == Sub(AllRules(rules, rel), s)
    decreases |rules|
  {
    if rules == [] {
      NoRulesNoChange(rel, s);
    } else {
      var init, last := rules[..|rules| - 1], rules[|rules| - 1];
      assert SafeRules(init, rel) by {
        forall k | 0 <= k < |init| ensures SafeTarget(Target(rel, init[k])) {
          assert init[k] == rules[k];
        }
      }
      ApplyRulesOnePass(init, rel, s);
      AllRulesLocal(init, rel);
      AllRulesLocal(rules, rel);
      RuleLocal(last, rel);
      forall ch | IsChunk(ch)
        ensures IsChunk(Sub(AllRules(init, rel), ch))
          && Sub(RuleMatcher(last.name, Target(rel, last)), Sub(AllRules(init, rel), ch)) == Sub(AllRules(rules, rel), ch)
      {
        ChunkStep(rules, rel, ch);
      }
      ChunkwiseCompose(RuleMatcher(last.name, Target(rel, last)), AllRules(init, rel), AllRules(rules, rel), s);
    }
  }

  /** A text that no rule matches is not matched by the single pass. */
  lemma NoRuleNoHit(rules: seq<Rule>, rel: string, u: string)
    requires forall j :: 0 <= j < |rules| ==> InlineHit(u, rules[j].name, Target(rel, rules[j])).None?
    ensures FirstHit(rules, rel, u).None?
  {
  }

  /** After the single pass rewrites a chunk's reference, no rule matches the result. */
  lemma RewrittenNoRule(rules: seq<Rule>, rel: string, ch: string, k: nat)
    requires SafeRules(rules, rel) && IsChunk(ch) && k < |rules|
    requires InlineHit(ch, rules[k].name, Target(rel, rules[k])).Some?
    ensures var h := InlineHit(ch, rules[k].name, Target(rel, rules[k])).value;
      IsChunk(h.replacement + ch[h.len..]) && FirstHit(rules, rel, h.replacement + ch[h.len..]).None?
  {
    var h := InlineHit(ch, rules[k].name, Target(rel, rules[k])).value;
    var u := h.replacement + ch[h.len..];
    forall j | 0 <= j < |rules| ensures InlineHit(u, rules[j].name, Target(rel, rules[j])).None? {
      RewrittenNoMatch(ch, rules[k].name, Target(rel, rules[k]), rules[j].name, Target(rel, rules[j]));
    }
    RewrittenNoMatch(ch, rules[k].name, Target(rel, rules[k]), rules[k].name, Target(rel, rules[k]));
    NoRuleNoHit(rules, rel, u);
  }

  /** On one chunk, the single pass settles at once. */
  lemma ChunkSettlesAll(rules: seq<Rule>, rel: string, ch: string)
    requires SafeRules(rules, rel) && IsChunk(ch)
    ensures IsChunk(Sub(AllRules(rules, rel), ch))
      && Sub(AllRules(rules, rel), Sub(AllRules(rules, rel), ch)) == Sub(AllRules(rules, rel), ch)
  {
    var m := AllRules(rules, rel);
    if FirstHit(rules, rel, ch).Some? {
      var h := FirstHit(rules, rel, ch).value;
      var k :| 0 <= k < |rules| && Some(h) == InlineHit(ch, rules[k].name, Target(rel, rules[k]));
      RewrittenNoRule(rules, rel, ch, k);
      assert m(h.replacement + ch[h.len..]).None?;
    }
    ChunkSettles(m, ch);
  }

  /** The first step is idempotent: a second run finds nothing left to inline. */
  lemma ApplyRulesIdempotent(rules: seq<Rule>, rel: string, s: string)
    requires SafeRules(rules, rel)
    ensures ApplyRules(rules, rel, ApplyRules(rules, rel, s)) == ApplyRules(rules, rel, s)
  {
    var m := AllRules(rules, rel);
    AllRulesLocal(rules, rel);
    forall ch | IsChunk(ch) ensures IsChunk(Sub(m, ch)) && Sub(m, Sub(m, ch)) == Sub(m, ch) {
      ChunkSettlesAll(rules, rel, ch);
    }
    ChunkwiseIdempotent(m, s);
    ApplyRulesOnePass(rules, rel, s);
    ApplyRulesOnePass(rules, rel, Sub(m, s));
  }

  /** `\$ref: *(["'])\./` with replacement `$ref: \1`, tried at the start of `s`. */
  function StripHit(s: string): (r: Option<Hit>)
    ensures r.Some? ==> Spans(s, r.value)
  {
    match RefOpen(s, Blank)
    case None => None
    case Some(a) =>
      if StartsWith(s[a..], "./") then
        var rep := RefKey + " " + [s[a - 1]];
        assert rep[..5] == RefKey;
        Some(Hit(a + 2, rep))
      else None
  }

  const Strips: Matcher := (s: string) => StripHit(s)

  /** The second step: `./` goes, and the blanks after `$ref:` become exactly one. */
  function StripDotSlash(content: string): string {
    Sub(Strips, content)
  }

  predicate StripRefAt(s: string, a: nat) {
    6 <= a && a + 2 <= |s| && s[..5] == RefKey
    && (forall i :: 5 <= i < a - 1 ==> s[i] == ' ')
    && IsQuote(s[a - 1]) && s[a] == '.' && s[a + 1] == '/'
  }

  lemma StripHitExact(s: string, a: nat)
    requires StripRefAt(s, a)
    ensures StripHit(s) == Some(Hit(a + 2, "$ref: " + [s[a - 1]]))
  {
    RefOpenIs(s, Blank, a);
    assert s[a..][..2] == "./";
    assert RefKey + " " == "$ref: ";
  }

  lemma StripHitSound(s: string)
    requires StripHit(s).Some?
    ensures exists a: nat :: StripRefAt(s, a) && StripHit(s).value == Hit(a + 2, "$ref: " + [s[a - 1]])
  {
    var a := RefOpen(s, Blank).value;
    assert s[..5] == RefKey;
    assert s[a..][..2] == "./";
    assert StripRefAt(s, a);
  }

  lemma StripOn(x: string)
    ensures StripHit(Opening + "./" + x) == Some(Hit(9, Opening))
  {
    var s := Opening + "./" + x;
    assert s[..5] == RefKey;
    assert s[5] == ' ' && s[6] == '\'' && s[7] == '.' && s[8] == '/';
    StripHitExact(s, 7);
    assert Opening == "$ref: " + "'";
  }

  lemma StripOnce(x: string)
    requires '$' !in x
    ensures StripDotSlash(Opening + "./" + x) == Opening + x
  {
    var s := Opening + "./" + x;
    StripOn(x);
    SubHit(Strips, s);
    assert s[9..] == x;
    SubPlainText(Strips, x);
  }

  /**
   * The second step is not idempotent: `././` loses one `./` per run, so
   * a second run of the script can change a file again.
   */
  lemma StripTwiceDiffers(x: string)
    requires '$' !in x
    ensures StripDotSlash(Opening + "././" + x) == Opening + "./" + x
    ensures StripDotSlash(Opening + "./" + x) == Opening + x
  {
    assert Opening + "././" == Opening + "./" + "./";
    AppendAssoc(Opening + "./", "./", x);
    StripOnce("./" + x);
    AppendAssoc(Opening, "./", x);
    StripOnce(x);
  }

  /** `rel_path_to_schemas` for a file. */
  function RelToSchemas(filePath: string): string {
    ReplaceChar(RelPath(SchemasDir, Dirname(filePath)), '\\', '/')
  }

  /** A target built from a relative path with no `$` or `#` is safe. */
  lemma TargetSafe(rel: string, r: Rule)
    requires '$' !in rel && '#' !in rel
    ensures SafeTarget(Target(rel, r))
  {
    var t := Target(rel, r);
    assert t == rel + ("/" + r.category + "/" + r.name + ".yaml");
    assert '$' !in r.category && '$' !in r.name;
    if rel != [] { assert t[0] == rel[0]; }
  }

  lemma SchemasDirPlain()
    ensures '$' !in SchemasDir && '#' !in SchemasDir
  {
  }

  /** Every file's relative path to the schemas makes the rules safe to apply in one pass. */
  lemma RelToSchemasSafe(filePath: string)
    ensures SafeRules(Rules, RelToSchemas(filePath))
  {
    var rp := RelPath(SchemasDir, Dirname(filePath));
    var rel := RelToSchemas(filePath);
    SchemasDirPlain();
    RelPathAvoids(SchemasDir, Dirname(filePath), '$');
    RelPathAvoids(SchemasDir, Dirname(filePath), '#');
    ReplaceCharAvoids(rp, '\\', '/', '$');
    ReplaceCharAvoids(rp, '\\', '/', '#');
    forall k | 0 <= k < |Rules| ensures SafeTarget(Target(rel, Rules[k])) {
      TargetSafe(rel, Rules[k]);
    }
  }

  /** What `process_file` writes: both steps, with the file's own relative path. */
  function Process(rel: string, content: string): string {
    StripDotSlash(ApplyRules(Rules, rel, content))
  }

  function ProcessEach(filePath: string): string -> string {
    (content: string) => Process(RelToSchemas(filePath), content)
  }

  /**
   * `main`: the transaction files, then the product files (both listings
   * are parameters), then the store product prices file when it exists;
   * every file is rewritten in place, without a backup.
   */
  function MainResult(st: Store, transactionFiles: seq<string>, productFiles: seq<string>): (r: Store)
  {
    var st1 := UpdateAll(st, transactionFiles, ProcessEach, InPlace).0;
    var st2 := UpdateAll(st1, productFiles, ProcessEach, InPlace).0;
    var storeFiles := if StoresFile in st2.files then [StoresFile] else [];
    UpdateAll(st2, storeFiles, ProcessEach, InPlace).0
  }

  /** The 22 substitutions of a file are one pass that tries every name at once. */
  lemma ProcessOnePass(filePath: string, content: string)
    ensures var rel := RelToSchemas(filePath);
      ProcessEach(filePath)(content) == StripDotSlash(Sub(AllRules(Rules, rel), content))
  {
    RelToSchemasSafe(filePath);
    ApplyRulesOnePass(Rules, RelToSchemas(filePath), content);
  }

  /** Running the first step twice on a file gives what running it once gives. */
  lemma InlineStepIdempotent(filePath: string, content: string)
    ensures var rel := RelToSchemas(filePath);
      ApplyRules(Rules, rel, ApplyRules(Rules, rel, content)) == ApplyRules(Rules, rel, content)
  {
    RelToSchemasSafe(filePath);
    ApplyRulesIdempotent(Rules, RelToSchemas(filePath), content);
  }

  /** The script creates and deletes no file, and changes only the listed files and the store product prices file. */
  lemma MainFrame(st: Store, transactionFiles: seq<string>, productFiles: seq<string>, q: string)
    ensures var files := MainResult(st, transactionFiles, productFiles).files;
      && (q in files <==> q in st.files)
      && (q !in transactionFiles && q !in productFiles && q != StoresFile && q in st.files ==> files[q] == st.files[q])
  {
    var st1 := UpdateAll(st, transactionFiles, ProcessEach, InPlace).0;
    var st2 := UpdateAll(st1, productFiles, ProcessEach, InPlace).0;
    var storeFiles := if StoresFile in st2.files then [StoresFile] else [];
    UpdateAllInPlaceFrame(st, transactionFiles, ProcessEach, q);
    UpdateAllInPlaceFrame(st1, productFiles, ProcessEach, q);
    UpdateAllInPlaceFrame(st2, storeFiles, ProcessEach, q);
  }

  method RunScript(st: Store, transactionFiles: seq<string>, productFiles: seq<string>) returns (st': Store)
    ensures st' == MainResult(st, transactionFiles, productFiles)
  {
    var n;
    st', n := UpdateEach(st, transactionFiles, ProcessEach, InPlace);
    st', n := UpdateEach(st', productFiles, ProcessEach, InPlace);
    var storeFiles := if StoresFile in st'.files then [StoresFile] else [];
    st', n := UpdateEach(st', storeFiles, ProcessEach, InPlace);
  }
}
