/**
 * The opening `$ref:<blanks><quote>` shared by every `$ref` pattern, the
 * character classes the patterns use, and the facts that let a pattern's
 * decision be read off a single chunk of the text.
 */
module RefSyntax {
  import opened Text
  import opened RefScan

  const Anchor := "#/components/schemas/"

  /** The opening `$ref: '` of the worked examples. */
  const Opening := "$ref: '"

  datatype CharClass =
    | Whitespace   // `\s`
    | Blank        // ` `
    | NameChar     // `[\w-]`
    | TargetChar   // what `.*?['"]` crosses before its quote: anything but a newline or a quote

  predicate InClass(c: char, cls: CharClass) {
    match cls
    case Whitespace => IsSpace(c)
    case Blank => c == ' '
    case NameChar => IsWordChar(c) || c == '-'
    case TargetChar => c != '\n' && !IsQuote(c)
  }

  /** The length of the longest prefix of `s` in class `cls` (a greedy `cls*`). */
  function Run(s: string, cls: CharClass): (n: nat)
    ensures n <= |s|
    ensures forall i :: 0 <= i < n ==> InClass(s[i], cls)
    ensures n < |s| ==> !InClass(s[n], cls)
  {
    if s == [] || !InClass(s[0], cls) then 0 else 1 + Run(s[1..], cls)
  }

  /** Those two properties pin the run down. */
  lemma {:induction false} RunIs(u: string, cls: CharClass, n: nat)
    requires n <= |u| && forall i :: 0 <= i < n ==> InClass(u[i], cls)
    requires n < |u| ==> !InClass(u[n], cls)
    ensures Run(u, cls) == n
  {
    if n > 0 {
      RunIs(u[1..], cls, n - 1);
    }
  }

  /**
   * `\$ref:<cls>*['"]` at the start of `s`: the length of the opening, up to
   * and including the opening quote. A quote never belongs to the blank
   * classes, so the greedy run of blanks is the only way to reach it.
   */
  function RefOpen(s: string, cls: CharClass): (r: Option<nat>)
    ensures r.Some? ==> 6 <= r.value <= |s| && StartsWith(s, RefKey) && IsQuote(s[r.value - 1])
    ensures r.Some? ==> forall i :: 5 <= i < r.value - 1 ==> InClass(s[i], cls)
  {
    if StartsWith(s, RefKey) then
      var k := 5 + Run(s[5..], cls);
      if k < |s| && IsQuote(s[k]) then Some(k + 1) else None
    else None
  }

  /** The opening is decided by the text up to its quote. */
  lemma RefOpenPrefix(s: string, t: string, cls: CharClass, a: nat)
    requires RefOpen(s, cls) == Some(a)
    requires !InClass('\'', cls) && !InClass('"', cls)
    requires a <= |t| && t[..a] == s[..a]
    ensures RefOpen(t, cls) == Some(a)
  {
    assert t[..5] == t[..a][..5] == s[..a][..5] == s[..5];
    assert s[5..][a - 6] == s[a - 1];
    var u := t[5..];
    forall i | 0 <= i < a - 6 ensures InClass(u[i], cls) {
      assert u[i] == t[..a][5 + i] == s[..a][5 + i] == s[5 + i];
    }
    if a - 6 < |u| {
      assert u[a - 6] == t[..a][a - 1] == s[a - 1];
    }
    RunIs(u, cls, a - 6);
    assert t[a - 1] == t[..a][a - 1];
  }

  /** The opening read off its characters. */
  lemma RefOpenIs(s: string, cls: CharClass, a: nat)
    requires 6 <= a <= |s| && s[..5] == RefKey
    requires forall i :: 5 <= i < a - 1 ==> InClass(s[i], cls)
    requires IsQuote(s[a - 1]) && !InClass(s[a - 1], cls)
    ensures RefOpen(s, cls) == Some(a)
  {
    RunIs(s[5..], cls, a - 6);
  }

  lemma StartsWithBeforeDollar(x: string, rest: string, lit: string)
    requires DollarHeaded(rest)
    requires |x| >= |lit| || lit[|x|] != '$'
    ensures StartsWith(x + rest, lit) == StartsWith(x, lit)
  {
    if |x| >= |lit| {
      assert (x + rest)[..|lit|] == x[..|lit|];
    } else if |lit| <= |x + rest| {
      assert (x + rest)[..|lit|][|x|] == '$';
    }
  }

  lemma {:induction false} RunBeforeDollar(x: string, rest: string, cls: CharClass)
    requires DollarHeaded(rest) && !InClass('$', cls)
    ensures Run(x + rest, cls) == Run(x, cls)
    decreases |x|
  {
    if x != [] && InClass(x[0], cls) {
      assert (x + rest)[1..] == x[1..] + rest;
      RunBeforeDollar(x[1..], rest, cls);
    }
  }

  lemma QuoteBeforeDollar(x: string, rest: string, e: nat)
    requires DollarHeaded(rest) && e <= |x|
    ensures (e < |x + rest| && IsQuote((x + rest)[e])) == (e < |x| && IsQuote(x[e]))
  {
  }

  lemma RefKeyHasOneDollar(n: nat)
    requires 1 <= n < |RefKey|
    ensures RefKey[n] != '$'
  {
    assert RefKey == ['$', 'r', 'e', 'f', ':'];
  }

  /** Inside a chunk, the opening does not depend on the text after the chunk. */
  lemma RefOpenLocal(ch: string, rest: string, cls: CharClass)
    requires IsChunk(ch) && DollarHeaded(rest) && !InClass('$', cls)
    ensures RefOpen(ch + rest, cls) == RefOpen(ch, cls)
  {
    var s := ch + rest;
    if |ch| < |RefKey| { RefKeyHasOneDollar(|ch|); }
    StartsWithBeforeDollar(ch, rest, RefKey);
    if StartsWith(ch, RefKey) {
      assert s[5..] == ch[5..] + rest;
      RunBeforeDollar(ch[5..], rest, cls);
      QuoteBeforeDollar(ch, rest, 5 + Run(ch[5..], cls));
    }
  }

  /** A literal that cannot start with the `quote`-terminated text `v + [q]` when `v` does not start it. */
  lemma NotStartsWithQuoted(v: string, q: char, tail: string, lit: string)
    requires IsQuote(q) && forall i :: 0 <= i < |lit| ==> !IsQuote(lit[i])
    requires !StartsWith(v, lit)
    ensures !StartsWith(v + [q] + tail, lit)
  {
    var u := v + [q] + tail;
    if |lit| <= |v| {
      assert u[..|lit|] == v[..|lit|];
    } else if |lit| <= |u| {
      assert u[..|lit|][|v|] == q;
    }
  }

  lemma AnchorHasNoQuote()
    ensures forall i :: 0 <= i < |Anchor| ==> !IsQuote(Anchor[i]) && Anchor[i] != '$'
  {
  }
}
