/**
 * `re.sub` for the `$ref` patterns of the Python scripts: a left-to-right
 * scan that replaces each hit and resumes after it, and copies one
 * character where the pattern does not match.
 *
 * Every pattern of those scripts opens with `$ref:`, so only a position
 * holding `$` can start a hit. A text cut at each `$` falls into "chunks"
 * (a `$` and the `$`-free text up to the next one). A pattern whose hits
 * are decided inside the chunk where they start (a "local" one) rewrites
 * chunk by chunk; the idempotence and composition results are proved that way.
 */
module RefScan {
  import opened Text

  const RefKey := "$ref:"

  /** One successful attempt: how much text the match covers and what replaces it. */
  datatype Hit = Hit(len: nat, replacement: string)

  /** A hit covers a prefix of `s` that opens with `$ref:`, and its replacement opens with `$ref:` too. */
  predicate Spans(s: string, h: Hit) {
    6 <= h.len <= |s| && StartsWith(s, RefKey) && StartsWith(h.replacement, RefKey)
  }

  /** A pattern tried at the start of a text, with its replacement template applied. */
  type Matcher = m: string -> Option<Hit> | forall s :: m(s).Some? ==> Spans(s, m(s).value)
    witness (s: string) => None

  /** `re.sub(pattern, repl, s)`. */
  function Sub(m: Matcher, s: string): string
    decreases |s|
  {
    if s == [] then []
    else match m(s)
      case Some(h) => h.replacement + Sub(m, s[h.len..])
      case None => [s[0]] + Sub(m, s[1..])
  }

  /** One step of the scan where the pattern matches. */
  lemma SubHit(m: Matcher, s: string)
    requires m(s).Some?
    ensures Sub(m, s) == m(s).value.replacement + Sub(m, s[m(s).value.len..])
  {
  }

  /** One step of the scan where it does not. */
  lemma SubMiss(m: Matcher, s: string)
    requires s != [] && m(s).None?
    ensures Sub(m, s) == [s[0]] + Sub(m, s[1..])
  {
  }

  /** Regrouping a five-part concatenation. */
  lemma Regroup(a: string, b: string, c: string, d: string, e: string)
    ensures a + (b + c + d + e) == a + b + c + d + e
  {
    Assoc(a, b + c + d, e);
    Assoc(a, b + c, d);
    Assoc(a, b, c);
  }

  lemma Assoc(a: string, b: string, c: string)
    ensures a + (b + c) == (a + b) + c
  {
  }

  /** A `$` followed by text free of `$`. */
  predicate IsChunk(s: string) { |s| > 0 && s[0] == '$' && '$' !in s[1..] }

  predicate DollarHeaded(s: string) { s == [] || s[0] == '$' }

  /** The hit at a `$`, if any, depends on that chunk alone. */
  ghost predicate Local(m: Matcher) {
    forall ch, rest :: IsChunk(ch) && DollarHeaded(rest) ==> m(ch + rest) == m(ch)
  }

  lemma NoHitWithoutDollar(m: Matcher, s: string)
    requires !DollarHeaded(s)
    ensures m(s).None?
  {
  }

  /** Text free of `$` in front of the scanned text is copied verbatim. */
  lemma {:induction false} SubPlainPrefix(m: Matcher, x: string, t: string)
    requires '$' !in x
    ensures Sub(m, x + t) == x + Sub(m, t)
    decreases |x|
  {
    if x == [] {
      assert x + t == t;
    } else {
      var s := x + t;
      assert s[0] == x[0];
      NoHitWithoutDollar(m, s);
      assert s[1..] == x[1..] + t;
      SubPlainPrefix(m, x[1..], t);
      calc {
        Sub(m, s);
        [s[0]] + Sub(m, s[1..]);
        [x[0]] + (x[1..] + Sub(m, t));
        { assert [x[0]] + x[1..] == x; }
        x + Sub(m, t);
      }
    }
  }

  /** Text without a `$` comes back unchanged. */
  lemma SubPlainText(m: Matcher, x: string)
    requires '$' !in x
    ensures Sub(m, x) == x
  {
    SubPlainPrefix(m, x, []);
    assert x + [] == x;
  }

  /** A scan of text that opens with `$` gives text that opens with `$`. */
  lemma SubKeepsDollarHead(m: Matcher, s: string)
    requires DollarHeaded(s)
    ensures DollarHeaded(Sub(m, s))
  {
    if s != [] {
      match m(s)
      case Some(h) =>
        assert h.replacement[..5] == RefKey;
        assert (h.replacement + Sub(m, s[h.len..]))[0] == h.replacement[0] == RefKey[0];
      case None =>
    }
  }

  /** The scan of one chunk: at most one hit, at its start. */
  lemma SubOfChunk(m: Matcher, ch: string)
    requires IsChunk(ch)
    ensures Sub(m, ch) == match m(ch) case Some(h) => h.replacement + ch[h.len..] case None => ch
  {
    match m(ch)
    case Some(h) =>
      assert '$' !in ch[h.len..] by { assert ch[h.len..] == ch[1..][h.len - 1..]; }
      SubPlainText(m, ch[h.len..]);
    case None =>
      SubPlainText(m, ch[1..]);
      assert [ch[0]] + ch[1..] == ch;
  }

  /** A scan that finds nothing in a chunk leaves it as it was. */
  lemma SubOfChunkNoHit(m: Matcher, ch: string)
    requires IsChunk(ch) && m(ch).None?
    ensures Sub(m, ch) == ch
  {
    SubOfChunk(m, ch);
  }

  /** A local pattern rewrites a chunk independently of the text after it. */
  lemma SubChunkSplit(m: Matcher, ch: string, rest: string)
    requires Local(m) && IsChunk(ch) && DollarHeaded(rest)
    ensures Sub(m, ch + rest) == Sub(m, ch) + Sub(m, rest)
  {
    assert m(ch + rest) == m(ch);
    SubOfChunk(m, ch);
    match m(ch)
    case Some(h) => SubChunkHit(m, ch, rest, h);
    case None => SubChunkMiss(m, ch, rest);
  }

  /** A hit at a chunk's `$` rewrites that chunk and leaves the scan at the next `$`. */
  lemma SubChunkHit(m: Matcher, ch: string, rest: string, h: Hit)
    requires IsChunk(ch) && m(ch + rest) == Some(h) && h.len <= |ch|
    ensures Sub(m, ch + rest) == (h.replacement + ch[h.len..]) + Sub(m, rest)
  {
    var s := ch + rest;
    var tail := ch[h.len..];
    assert s[h.len..] == tail + rest;
    assert '$' !in tail by { assert tail == ch[1..][h.len - 1..]; }
    SubPlainPrefix(m, tail, rest);
    calc {
      Sub(m, s);
      h.replacement + Sub(m, tail + rest);
      h.replacement + (tail + Sub(m, rest));
      { Assoc(h.replacement, tail, Sub(m, rest)); }
      (h.replacement + tail) + Sub(m, rest);
    }
  }

  /** A miss at a chunk's `$` copies that chunk and leaves the scan at the next `$`. */
  lemma SubChunkMiss(m: Matcher, ch: string, rest: string)
    requires IsChunk(ch) && m(ch + rest).None?
    ensures Sub(m, ch + rest) == ch + Sub(m, rest)
  {
    var s := ch + rest;
    assert s[1..] == ch[1..] + rest;
    SubPlainPrefix(m, ch[1..], rest);
    calc {
      Sub(m, s);
      [ch[0]] + Sub(m, ch[1..] + rest);
      [ch[0]] + (ch[1..] + Sub(m, rest));
      { Assoc([ch[0]], ch[1..], Sub(m, rest)); }
      ([ch[0]] + ch[1..]) + Sub(m, rest);
      { assert [ch[0]] + ch[1..] == ch; }
      ch + Sub(m, rest);
    }
  }

  /** From a `$` on, a text is a chunk and then text that opens with `$` (or nothing). */
  lemma ChunkAt(u: string) returns (ch: string, rest: string)
    requires u != [] && u[0] == '$'
    ensures u == ch + rest && IsChunk(ch) && DollarHeaded(rest)
  {
    var after := u[1..];
    match IndexOf(after, '$') {
      case None =>
        ch, rest := u, [];
        assert u + [] == u;
      case Some(j) =>
        ch, rest := u[..j + 1], u[j + 1..];
        assert ch[1..] == after[..j];
        assert rest[0] == after[j];
        assert ch + rest == u;
    }
  }

  /** A text holding a `$` is plain text, then a chunk, then text that opens with `$` (or nothing). */
  lemma FirstChunk(s: string) returns (x: string, ch: string, rest: string)
    requires '$' in s
    ensures s == x + (ch + rest) && '$' !in x && IsChunk(ch) && DollarHeaded(rest)
    ensures |rest| < |s|
  {
    var d := IndexOf(s, '$').value;
    x := s[..d];
    ch, rest := ChunkAt(s[d..]);
    assert x + s[d..] == s;
  }

  lemma ComposeAtChunk(p: Matcher, q: Matcher, r: Matcher, x: string, ch: string, rest: string)
    requires Local(p) && Local(q) && Local(r)
    requires '$' !in x && IsChunk(ch) && DollarHeaded(rest)
    requires IsChunk(Sub(q, ch)) && Sub(p, Sub(q, ch)) == Sub(r, ch)
    requires Sub(p, Sub(q, rest)) == Sub(r, rest)
    ensures Sub(p, Sub(q, x + (ch + rest))) == Sub(r, x + (ch + rest))
  {
    var a, b := Sub(q, ch), Sub(q, rest);
    SubKeepsDollarHead(q, rest);
    calc {
      Sub(q, x + (ch + rest));
      { SubPlainPrefix(q, x, ch + rest); }
      x + Sub(q, ch + rest);
      { SubChunkSplit(q, ch, rest); }
      x + (a + b);
    }
    calc {
      Sub(p, x + (a + b));
      { SubPlainPrefix(p, x, a + b); }
      x + Sub(p, a + b);
      { SubChunkSplit(p, a, b); }
      x + (Sub(p, a) + Sub(p, b));
      x + (Sub(r, ch) + Sub(r, rest));
      { SubChunkSplit(r, ch, rest); }
      x + Sub(r, ch + rest);
      { SubPlainPrefix(r, x, ch + rest); }
      Sub(r, x + (ch + rest));
    }
  }

  /**
   * Two scans in a row, with local patterns `q` then `p`, equal one scan
   * with `r` on every text, as soon as they do so on every chunk.
   */
  lemma {:induction false} ChunkwiseCompose(p: Matcher, q: Matcher, r: Matcher, s: string)
    requires Local(p) && Local(q) && Local(r)
    requires forall ch :: IsChunk(ch) ==> IsChunk(Sub(q, ch)) && Sub(p, Sub(q, ch)) == Sub(r, ch)
    ensures Sub(p, Sub(q, s)) == Sub(r, s)
    decreases |s|
  {
    if '$' !in s {
      SubPlainText(q, s);
      SubPlainText(p, s);
      SubPlainText(r, s);
    } else {
      var x, ch, rest := FirstChunk(s);
      ChunkwiseCompose(p, q, r, rest);
      ComposeAtChunk(p, q, r, x, ch, rest);
    }
  }

  /**
   * A chunk is rewritten at most once when its hit either puts the matched
   * text back or leaves a chunk in which the pattern finds nothing.
   */
  lemma ChunkSettles(m: Matcher, ch: string)
    requires IsChunk(ch)
    requires m(ch).Some? ==>
      var h := m(ch).value;
      h.replacement == ch[..h.len] || (IsChunk(h.replacement + ch[h.len..]) && m(h.replacement + ch[h.len..]).None?)
    ensures IsChunk(Sub(m, ch)) && Sub(m, Sub(m, ch)) == Sub(m, ch)
  {
    SubOfChunk(m, ch);
    match m(ch)
    case None =>
    case Some(h) =>
      if h.replacement == ch[..h.len] {
        assert ch[..h.len] + ch[h.len..] == ch;
      } else {
        SubOfChunkNoHit(m, h.replacement + ch[h.len..]);
      }
  }

  /** A local scan that is idempotent on every chunk is idempotent on every text. */
  lemma ChunkwiseIdempotent(m: Matcher, s: string)
    requires Local(m)
    requires forall ch :: IsChunk(ch) ==> IsChunk(Sub(m, ch)) && Sub(m, Sub(m, ch)) == Sub(m, ch)
    ensures Sub(m, Sub(m, s)) == Sub(m, s)
  {
    ChunkwiseCompose(m, m, m, s);
  }

  /** A pattern whose every hit puts back the text it matched leaves every text unchanged. */
  lemma {:induction false} SubEchoes(m: Matcher, s: string)
    requires forall u :: m(u).Some? ==> m(u).value.replacement == u[..m(u).value.len]
    ensures Sub(m, s) == s
    decreases |s|
  {
    if s != [] {
      match m(s)
      case Some(h) =>
        SubEchoes(m, s[h.len..]);
        assert s[..h.len] + s[h.len..] == s;
      case None =>
        SubEchoes(m, s[1..]);
        assert [s[0]] + s[1..] == s;
    }
  }

  /** A character found neither in the text nor in any replacement built from text without it is not in the result. */
  lemma {:induction false} SubAvoids(m: Matcher, s: string, c: char)
    requires c !in s
    requires forall u :: c !in u && m(u).Some? ==> c !in m(u).value.replacement
    ensures c !in Sub(m, s)
    decreases |s|
  {
    if s != [] {
      match m(s)
      case Some(h) =>
        assert c !in s[h.len..] by { assert forall i :: 0 <= i < |s| - h.len ==> s[h.len..][i] == s[h.len + i]; }
        SubAvoids(m, s[h.len..], c);
      case None =>
        assert c !in s[1..] by { assert forall i :: 0 <= i < |s| - 1 ==> s[1..][i] == s[1 + i]; }
        SubAvoids(m, s[1..], c);
    }
  }
}
