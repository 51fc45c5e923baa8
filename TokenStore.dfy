/**
 * `src/auth/token-storage.ts`: the server's in-memory store of access
 * tokens, of OAuth authorisation sessions (keyed by the `state` of the
 * flow) and of an index from contract id to access token. The functions
 * below give each operation's effect on the three maps as a value; the
 * class `TokenStorage` updates its fields in place and is proved to have
 * exactly those effects. The wall clock (`Date.now()`) is the parameter
 * `now`, in milliseconds. A JavaScript `Map` iterates in insertion order:
 * setting a key already present keeps its place, and a deleted key that is
 * set again goes last. The order of the token keys and of the contract ids
 * is kept beside the maps, since `getAllTokens` and `getStats` hand it out.
 */
module TokenStore {
  import opened Text

  /** The fields of `UserAuthInfo` that the store reads; `""` is an absent contract id. */
  datatype AuthInfo = AuthInfo(accessToken: string, contractId: string, expiresAt: int, scope: string, userId: string)

  /** `AuthSessionInfo`: the PKCE verifier, the redirect URI and the creation time. */
  datatype SessionInfo = SessionInfo(codeVerifier: string, redirectUri: string, timestamp: int, contractId: string)

  /** An authorisation session lives ten minutes. */
  const SessionLifetime: int := 10 * 60 * 1000

  /** The three maps of the store, with the iteration order of the token keys and of the contract ids. */
  datatype Storage = Storage(tokens: map<string, AuthInfo>, sessions: map<string, SessionInfo>, index: map<string, string>,
                             tokenOrder: seq<string>, indexOrder: seq<string>)

  /** What an operation returns, with the store it leaves behind. */
  datatype Answer<T> = Answer(value: T, after: Storage)

  /** The counts and contract ids `getStats` reports. */
  datatype Stats = Stats(tokenCount: nat, sessionCount: nat, contractIds: seq<string>)

  const Empty: Storage := Storage(map[], map[], map[], [], [])

  // ---------------------------------------------------------------------
  // Iteration order
  // ---------------------------------------------------------------------

  /** No key occurs twice. */
  predicate Distinct(s: seq<string>) {
    s == [] || (s[0] !in s[1..] && Distinct(s[1..]))
  }

  /** `order` lists the keys of `m`, each once. */
  ghost predicate Tracks<V>(order: seq<string>, m: map<string, V>) {
    Distinct(order) && forall k :: k in order <==> k in m
  }

  /** `Map.set` on the order: a new key goes last, a present one keeps its place. */
  function Put<V>(order: seq<string>, m: map<string, V>, k: string): seq<string> {
    if k in m then order else order + [k]
  }

  /** The order without the keys in `gone`, the others in their places. */
  function Remove(s: seq<string>, gone: set<string>): (r: seq<string>)
    ensures forall x :: x in r <==> x in s && x !in gone
  {
    if s == [] then [] else (if s[0] in gone then [] else [s[0]]) + Remove(s[1..], gone)
  }

  /** Removing keys one set after another is removing them all at once. */
  lemma {:induction false} RemoveTwice(s: seq<string>, a: set<string>, b: set<string>)
    ensures Remove(Remove(s, a), b) == Remove(s, a + b)
  {
    if s != [] {
      RemoveTwice(s[1..], a, b);
      if s[0] in a {
        assert Remove(s, a) == Remove(s[1..], a);
      } else {
        var r := Remove(s, a);
        assert r == [s[0]] + Remove(s[1..], a);
        assert r[0] == s[0] && r[1..] == Remove(s[1..], a);
        assert Remove(r, b) == (if s[0] in b then [] else [s[0]]) + Remove(r[1..], b);
      }
    }
  }

  /** Removing nothing keeps the order. */
  lemma {:induction false} RemoveNothing(s: seq<string>)
    ensures Remove(s, {}) == s
  {
    if s != [] {
      RemoveNothing(s[1..]);
    }
  }

  lemma {:induction false} RemoveDistinct(s: seq<string>, gone: set<string>)
    requires Distinct(s)
    ensures Distinct(Remove(s, gone))
  {
    if s != [] {
      RemoveDistinct(s[1..], gone);
      if s[0] !in gone {
        assert s[0] !in Remove(s[1..], gone);
        assert Remove(s, gone) == [s[0]] + Remove(s[1..], gone);
        assert Remove(s, gone)[1..] == Remove(s[1..], gone);
      } else {
        assert Remove(s, gone) == Remove(s[1..], gone);
      }
    }
  }

  lemma {:induction false} AppendDistinct(s: seq<string>, k: string)
    requires Distinct(s) && k !in s
    ensures Distinct(s + [k])
  {
    if s != [] {
      assert (s + [k])[1..] == s[1..] + [k];
      AppendDistinct(s[1..], k);
    }
  }

  /** `Map.set` keeps an order tracking its map. */
  lemma PutTracks<V>(order: seq<string>, m: map<string, V>, k: string, v: V)
    requires Tracks(order, m)
    ensures Tracks(Put(order, m, k), m[k := v])
  {
    if k !in m {
      AppendDistinct(order, k);
    }
  }

  /** `Map.delete` keeps an order tracking its map. */
  lemma RemoveTracks<V>(order: seq<string>, m: map<string, V>, gone: set<string>)
    requires Tracks(order, m)
    ensures Tracks(Remove(order, gone), m - gone)
  {
    RemoveDistinct(order, gone);
  }

  /** A token is expired once the clock is past its expiry time. */
  predicate TokenExpired(info: AuthInfo, now: int) { now > info.expiresAt }

  /** A session is expired once it is more than `SessionLifetime` old. */
  predicate SessionExpired(info: SessionInfo, now: int) { now - info.timestamp > SessionLifetime }

  /** `storeToken`: record the token and, when it has a contract id, point the index at it. */
  function WithToken(st: Storage, token: string, info: AuthInfo): Storage {
    var st' := st.(tokens := st.tokens[token := info], tokenOrder := Put(st.tokenOrder, st.tokens, token));
    if info.contractId != "" then
      st'.(index := st.index[info.contractId := token], indexOrder := Put(st.indexOrder, st.index, info.contractId))
    else st'
  }

  /**
   * `removeToken`: forget the token and the index entry of its contract id,
   * whichever token that entry points at; report whether the token was stored.
   */
  function WithoutToken(st: Storage, token: string): Answer<bool> {
    var gone := if token in st.tokens && st.tokens[token].contractId != "" then {st.tokens[token].contractId} else {};
    Answer(token in st.tokens, st.(tokens := st.tokens - {token}, tokenOrder := Remove(st.tokenOrder, {token}),
                                   index := st.index - gone, indexOrder := Remove(st.indexOrder, gone)))
  }

  /** `getToken`: the stored information, unless it has expired, in which case the token is removed. */
  function LookupToken(st: Storage, token: string, now: int): Answer<Option<AuthInfo>> {
    if token !in st.tokens then Answer(None, st)
    else if TokenExpired(st.tokens[token], now) then Answer(None, WithoutToken(st, token).after)
    else Answer(Some(st.tokens[token]), st)
  }

  /** `getTokenByContractId`: `getToken` of the token the index names, if it names a non-empty one. */
  function LookupContract(st: Storage, contractId: string, now: int): Answer<Option<AuthInfo>> {
    if contractId !in st.index || st.index[contractId] == "" then Answer(None, st)
    else LookupToken(st, st.index[contractId], now)
  }

  /** `storeAuthSession`. */
  function WithSession(st: Storage, state: string, info: SessionInfo): Storage {
    st.(sessions := st.sessions[state := info])
  }

  /** `removeAuthSession`: forget the session and report whether it was stored. */
  function WithoutSession(st: Storage, state: string): Answer<bool> {
    Answer(state in st.sessions, st.(sessions := st.sessions - {state}))
  }

  /** `getAuthSession`: the session, unless it is more than ten minutes old, in which case it is removed. */
  function LookupSession(st: Storage, state: string, now: int): Answer<Option<SessionInfo>> {
    if state !in st.sessions then Answer(None, st)
    else if SessionExpired(st.sessions[state], now) then Answer(None, WithoutSession(st, state).after)
    else Answer(Some(st.sessions[state]), st)
  }

  /** The sessions among `pending` together with the live ones. */
  function KeptSessions(sessions: map<string, SessionInfo>, pending: set<string>, now: int): map<string, SessionInfo> {
    map k | k in sessions && (k in pending || !SessionExpired(sessions[k], now)) :: sessions[k]
  }

  /** The tokens among `pending` together with the live ones. */
  function KeptTokens(tokens: map<string, AuthInfo>, pending: set<string>, now: int): map<string, AuthInfo> {
    map k | k in tokens && (k in pending || !TokenExpired(tokens[k], now)) :: tokens[k]
  }

  /** The expired tokens outside `pending`. */
  function ExpiredTokens(tokens: map<string, AuthInfo>, pending: set<string>, now: int): set<string> {
    set k | k in tokens && k !in pending && TokenExpired(tokens[k], now)
  }

  /** The contract ids of the expired tokens outside `pending`. */
  function DroppedContracts(tokens: map<string, AuthInfo>, pending: set<string>, now: int): set<string> {
    set k | k in tokens && k !in pending && TokenExpired(tokens[k], now) && tokens[k].contractId != "" :: tokens[k].contractId
  }

  /** The index without the entries of the given contract ids. */
  function KeptIndex(index: map<string, string>, dropped: set<string>): map<string, string> {
    map c | c in index && c !in dropped :: index[c]
  }

  /** Settling one pending token: an expired one leaves the kept tokens and its contract id joins the dropped ones. */
  lemma DropTokenStep(all: map<string, AuthInfo>, pending: set<string>, now: int, index: map<string, string>, key: string)
    requires key in pending && key in all
    ensures var info := all[key];
      KeptTokens(all, pending - {key}, now)
        == if TokenExpired(info, now) then KeptTokens(all, pending, now) - {key} else KeptTokens(all, pending, now)
    ensures var info := all[key];
      KeptIndex(index, DroppedContracts(all, pending - {key}, now))
        == if TokenExpired(info, now) && info.contractId != "" then KeptIndex(index, DroppedContracts(all, pending, now)) - {info.contractId}
           else KeptIndex(index, DroppedContracts(all, pending, now))
    ensures var info := all[key];
      ExpiredTokens(all, pending - {key}, now)
        == if TokenExpired(info, now) then ExpiredTokens(all, pending, now) + {key} else ExpiredTokens(all, pending, now)
    ensures var info := all[key];
      DroppedContracts(all, pending - {key}, now)
        == if TokenExpired(info, now) && info.contractId != "" then DroppedContracts(all, pending, now) + {info.contractId}
           else DroppedContracts(all, pending, now)
  {
    var info := all[key];
    if TokenExpired(info, now) && info.contractId != "" {
      assert DroppedContracts(all, pending - {key}, now) == DroppedContracts(all, pending, now) + {info.contractId};
    } else {
      assert DroppedContracts(all, pending - {key}, now) == DroppedContracts(all, pending, now);
    }
  }

  /** Removing one more expired token from the orders. */
  lemma DropOrderStep(all: map<string, AuthInfo>, pending: set<string>, now: int, tokenOrder: seq<string>, indexOrder: seq<string>, key: string)
    requires key in pending && key in all && TokenExpired(all[key], now)
    ensures Remove(Remove(tokenOrder, ExpiredTokens(all, pending, now)), {key}) == Remove(tokenOrder, ExpiredTokens(all, pending - {key}, now))
    ensures var c := all[key].contractId;
      Remove(Remove(indexOrder, DroppedContracts(all, pending, now)), if c != "" then {c} else {})
        == Remove(indexOrder, DroppedContracts(all, pending - {key}, now))
  {
    var c := all[key].contractId;
    DropTokenStep(all, pending, now, map[], key);
    RemoveTwice(tokenOrder, ExpiredTokens(all, pending, now), {key});
    RemoveTwice(indexOrder, DroppedContracts(all, pending, now), if c != "" then {c} else {});
    assert DroppedContracts(all, pending, now) + {} == DroppedContracts(all, pending, now);
  }

  /** `cleanup`: drop every expired session and remove every expired token. */
  function Cleaned(st: Storage, now: int): Storage {
    Storage(KeptTokens(st.tokens, {}, now), KeptSessions(st.sessions, {}, now),
            KeptIndex(st.index, DroppedContracts(st.tokens, {}, now)),
            Remove(st.tokenOrder, ExpiredTokens(st.tokens, {}, now)), Remove(st.indexOrder, DroppedContracts(st.tokens, {}, now)))
  }

  /** A token just stored is found again while it has not expired, and by its contract id too. */
  lemma StoreThenLookup(st: Storage, token: string, info: AuthInfo, now: int)
    requires !TokenExpired(info, now)
    ensures LookupToken(WithToken(st, token, info), token, now) == Answer(Some(info), WithToken(st, token, info))
    ensures info.contractId != "" && token != "" ==>
      LookupContract(WithToken(st, token, info), info.contractId, now) == Answer(Some(info), WithToken(st, token, info))
  {
  }

  /** Looking up an expired token finds nothing and removes it, with its index entry. */
  lemma ExpiredTokenIsRemoved(st: Storage, token: string, now: int)
    requires token in st.tokens && TokenExpired(st.tokens[token], now)
    ensures LookupToken(st, token, now).value == None
    ensures token !in LookupToken(st, token, now).after.tokens
    ensures st.tokens[token].contractId != "" ==> st.tokens[token].contractId !in LookupToken(st, token, now).after.index
    ensures LookupToken(st, token, now).after.sessions == st.sessions
  {
  }

  /** A token that expires at `now` is still valid at `now`. */
  lemma TokenValidAtExpiry(st: Storage, token: string, now: int)
    requires token in st.tokens && st.tokens[token].expiresAt == now
    ensures LookupToken(st, token, now) == Answer(Some(st.tokens[token]), st)
  {
  }

  /** `removeToken` reports presence, removes only that token, and leaves sessions alone. */
  lemma RemoveTokenEffect(st: Storage, token: string)
    ensures WithoutToken(st, token).value <==> token in st.tokens
    ensures token !in WithoutToken(st, token).after.tokens
    ensures forall t :: t in st.tokens && t != token ==> t in WithoutToken(st, token).after.tokens && WithoutToken(st, token).after.tokens[t] == st.tokens[t]
    ensures WithoutToken(st, token).after.sessions == st.sessions
    ensures WithoutToken(st, token).after.index.Keys <= st.index.Keys
  {
  }

  /**
   * The index entry goes with the removed token even when it names another
   * token: that token, still stored and live, is no longer found by its
   * contract id.
   */
  lemma RemoveDropsForeignIndexEntry(st: Storage, gone: string, kept: string, now: int)
    requires gone != kept && gone in st.tokens && kept in st.tokens && kept != ""
    requires st.tokens[gone].contractId != "" && st.index.Keys == {st.tokens[gone].contractId}
    requires st.index[st.tokens[gone].contractId] == kept && !TokenExpired(st.tokens[kept], now)
    ensures LookupContract(st, st.tokens[gone].contractId, now).value == Some(st.tokens[kept])
    ensures LookupContract(WithoutToken(st, gone).after, st.tokens[gone].contractId, now).value == None
    ensures LookupToken(WithoutToken(st, gone).after, kept, now).value == Some(st.tokens[kept])
  {
  }

  /**
   * Storing a token again under another contract id leaves the old id in
   * the index: looking that id up finds the token, now carrying the new id.
   */
  lemma ReindexLeavesStaleEntry(st: Storage, token: string, first: AuthInfo, second: AuthInfo, now: int)
    requires token != "" && first.contractId != "" && second.contractId != first.contractId
    requires !TokenExpired(second, now)
    ensures LookupContract(WithToken(WithToken(st, token, first), token, second), first.contractId, now).value == Some(second)
  {
  }

  /** A session just stored is found again until it is more than ten minutes old. */
  lemma StoreThenLookupSession(st: Storage, state: string, info: SessionInfo, now: int)
    ensures LookupSession(WithSession(st, state, info), state, now).value ==
      if now - info.timestamp <= SessionLifetime then Some(info) else None
    ensures state !in WithoutSession(WithSession(st, state, info), state).after.sessions
  {
  }

  /**
   * After `cleanup` no expired token or session is left, every live one is
   * kept as it was, and only contract ids of expired tokens leave the index.
   */
  lemma CleanedKeepsLive(st: Storage, now: int)
    ensures forall t :: t in Cleaned(st, now).tokens <==> t in st.tokens && !TokenExpired(st.tokens[t], now)
    ensures forall t :: t in Cleaned(st, now).tokens ==> Cleaned(st, now).tokens[t] == st.tokens[t]
    ensures forall s :: s in Cleaned(st, now).sessions <==> s in st.sessions && !SessionExpired(st.sessions[s], now)
    ensures forall s :: s in Cleaned(st, now).sessions ==> Cleaned(st, now).sessions[s] == st.sessions[s]
    ensures forall c :: c in st.index && c !in Cleaned(st, now).index ==>
      exists t :: t in st.tokens && TokenExpired(st.tokens[t], now) && st.tokens[t].contractId == c
    ensures forall c :: c in Cleaned(st, now).index ==> c in st.index && Cleaned(st, now).index[c] == st.index[c]
  {
    forall c | c in st.index && c !in Cleaned(st, now).index
      ensures exists t :: t in st.tokens && TokenExpired(st.tokens[t], now) && st.tokens[t].contractId == c
    {
      assert c in DroppedContracts(st.tokens, {}, now);
    }
  }

  /** A second `cleanup` at the same moment changes nothing. */
  lemma CleanedIdempotent(st: Storage, now: int)
    ensures Cleaned(Cleaned(st, now), now) == Cleaned(st, now)
  {
    var c := Cleaned(st, now);
    assert DroppedContracts(c.tokens, {}, now) == {};
    assert ExpiredTokens(c.tokens, {}, now) == {};
    RemoveNothing(c.tokenOrder);
    RemoveNothing(c.indexOrder);
    assert KeptIndex(c.index, {}) == c.index;
    assert KeptTokens(c.tokens, {}, now) == c.tokens;
    assert KeptSessions(c.sessions, {}, now) == c.sessions;
  }

  /** Both orders list the keys of their maps, each once. */
  ghost predicate Ordered(st: Storage) {
    Tracks(st.tokenOrder, st.tokens) && Tracks(st.indexOrder, st.index)
  }

  /** Storing and removing tokens keep the orders in step with the maps. */
  lemma TokenOpsOrdered(st: Storage, token: string, info: AuthInfo, now: int)
    requires Ordered(st)
    ensures Ordered(WithToken(st, token, info))
    ensures Ordered(WithoutToken(st, token).after)
    ensures Ordered(LookupToken(st, token, now).after)
  {
    PutTracks(st.tokenOrder, st.tokens, token, info);
    if info.contractId != "" {
      PutTracks(st.indexOrder, st.index, info.contractId, token);
    }
    RemoveTracks(st.tokenOrder, st.tokens, {token});
    var gone := if token in st.tokens && st.tokens[token].contractId != "" then {st.tokens[token].contractId} else {};
    RemoveTracks(st.indexOrder, st.index, gone);
  }

  /** `cleanup` keeps the orders in step with the maps. */
  lemma CleanedOrdered(st: Storage, now: int)
    requires Ordered(st)
    ensures Ordered(Cleaned(st, now))
  {
    var expired, dropped := ExpiredTokens(st.tokens, {}, now), DroppedContracts(st.tokens, {}, now);
    assert KeptTokens(st.tokens, {}, now) == st.tokens - expired;
    assert KeptIndex(st.index, dropped) == st.index - dropped;
    RemoveTracks(st.tokenOrder, st.tokens, expired);
    RemoveTracks(st.indexOrder, st.index, dropped);
  }

  /**
   * `getStats` lists contract ids in the order they were first indexed:
   * two new ones go last, in the order they were stored, and storing a
   * token again under an indexed contract id leaves that id in its place.
   */
  lemma IndexOrderOfStores(st: Storage, t1: string, i1: AuthInfo, t2: string, i2: AuthInfo)
    requires i1.contractId != "" && i2.contractId != "" && i1.contractId != i2.contractId
    requires i1.contractId !in st.index && i2.contractId !in st.index
    ensures WithToken(WithToken(st, t1, i1), t2, i2).indexOrder == st.indexOrder + [i1.contractId, i2.contractId]
    ensures WithToken(WithToken(WithToken(st, t1, i1), t2, i2), t1, i1).indexOrder == st.indexOrder + [i1.contractId, i2.contractId]
  {
  }

  /** A contract id whose token was removed goes last when it is indexed again. */
  lemma ReindexGoesLast(st: Storage, token: string, info: AuthInfo)
    requires Ordered(st) && token in st.tokens && st.tokens[token].contractId != ""
    requires st.tokens[token].contractId in st.index && st.index[st.tokens[token].contractId] == token
    ensures var c := st.tokens[token].contractId;
      WithToken(WithoutToken(st, token).after, token, st.tokens[token]).indexOrder == Remove(st.indexOrder, {c}) + [c]
  {
  }

  /**
   * `TokenStorage`: the three `Map` fields of the class, updated in place by
   * its methods exactly as the functions above describe.
   */
  class TokenStorage {
    var tokens: map<string, AuthInfo>
    var sessions: map<string, SessionInfo>
    var index: map<string, string>
    var tokenOrder: seq<string>
    var indexOrder: seq<string>

    function State(): Storage
      reads this
    {
      Storage(tokens, sessions, index, tokenOrder, indexOrder)
    }

    constructor ()
      ensures State() == Empty
    {
      tokens, sessions, index := map[], map[], map[];
      tokenOrder, indexOrder := [], [];
    }

    method StoreToken(token: string, info: AuthInfo)
      modifies this
      ensures State() == WithToken(old(State()), token, info)
    {
      tokenOrder := Put(tokenOrder, tokens, token);
      tokens := tokens[token := info];
      if info.contractId != "" {
        indexOrder := Put(indexOrder, index, info.contractId);
        index := index[info.contractId := token];
      }
    }

    method RemoveToken(token: string) returns (removed: bool)
      modifies this
      ensures Answer(removed, State()) == WithoutToken(old(State()), token)
    {
      if token in tokens && tokens[token].contractId != "" {
        index := index - {tokens[token].contractId};
        indexOrder := Remove(indexOrder, {tokens[token].contractId});
      } else {
        indexOrder := Remove(indexOrder, {});
      }
      removed := token in tokens;
      tokens := tokens - {token};
      tokenOrder := Remove(tokenOrder, {token});
    }

    method GetToken(token: string, now: int) returns (r: Option<AuthInfo>)
      modifies this
      ensures Answer(r, State()) == LookupToken(old(State()), token, now)
    {
      if token !in tokens {
        return None;
      }
      var info := tokens[token];
      if TokenExpired(info, now) {
        var _ := RemoveToken(token);
        return None;
      }
      return Some(info);
    }

    method GetTokenByContractId(contractId: string, now: int) returns (r: Option<AuthInfo>)
      modifies this
      ensures Answer(r, State()) == LookupContract(old(State()), contractId, now)
    {
      if contractId !in index || index[contractId] == "" {
        return None;
      }
      r := GetToken(index[contractId], now);
    }

    method ValidateToken(token: string, now: int) returns (valid: bool)
      modifies this
      ensures valid == LookupToken(old(State()), token, now).value.Some?
      ensures State() == LookupToken(old(State()), token, now).after
    {
      var info := GetToken(token, now);
      valid := info.Some?;
    }

    method HasValidContractId(token: string, now: int) returns (has: bool)
      modifies this
      ensures has <==> LookupToken(old(State()), token, now).value.Some? && LookupToken(old(State()), token, now).value.value.contractId != ""
      ensures State() == LookupToken(old(State()), token, now).after
    {
      var info := GetToken(token, now);
      has := info.Some? && info.value.contractId != "";
    }

    method StoreAuthSession(state: string, info: SessionInfo)
      modifies this
      ensures State() == WithSession(old(State()), state, info)
    {
      sessions := sessions[state := info];
    }

    method RemoveAuthSession(state: string) returns (removed: bool)
      modifies this
      ensures Answer(removed, State()) == WithoutSession(old(State()), state)
    {
      removed := state in sessions;
      sessions := sessions - {state};
    }

    method GetAuthSession(state: string, now: int) returns (r: Option<SessionInfo>)
      modifies this
      ensures Answer(r, State()) == LookupSession(old(State()), state, now)
    {
      if state !in sessions {
        return None;
      }
      var info := sessions[state];
      if SessionExpired(info, now) {
        sessions := sessions - {state};
        return None;
      }
      return Some(info);
    }

    /** Delete the expired sessions, one key at a time, in any order. */
    method DropExpiredSessions(now: int)
      modifies this
      ensures tokens == old(tokens) && index == old(index)
      ensures tokenOrder == old(tokenOrder) && indexOrder == old(indexOrder)
      ensures sessions == KeptSessions(old(sessions), {}, now)
    {
      ghost var all := sessions;
      var pending := sessions.Keys;
      while pending != {}
        invariant pending <= all.Keys
        invariant tokens == old(tokens) && index == old(index)
        invariant tokenOrder == old(tokenOrder) && indexOrder == old(indexOrder)
        invariant sessions == KeptSessions(all, pending, now)
        decreases pending
      {
        var key :| key in pending;
        if SessionExpired(sessions[key], now) {
          sessions := sessions - {key};
        }
        pending := pending - {key};
      }
    }

    /** Remove the expired tokens with `removeToken`, one key at a time, in any order. */
    method DropExpiredTokens(now: int)
      modifies this
      ensures sessions == old(sessions)
      ensures tokens == KeptTokens(old(tokens), {}, now)
      ensures index == KeptIndex(old(index), DroppedContracts(old(tokens), {}, now))
      ensures tokenOrder == Remove(old(tokenOrder), ExpiredTokens(old(tokens), {}, now))
      ensures indexOrder == Remove(old(indexOrder), DroppedContracts(old(tokens), {}, now))
    {
      ghost var all := tokens;
      var pending := tokens.Keys;
      assert ExpiredTokens(all, pending, now) == {} && DroppedContracts(all, pending, now) == {};
      RemoveNothing(tokenOrder);
      RemoveNothing(indexOrder);
      while pending != {}
        invariant pending <= all.Keys
        invariant sessions == old(sessions)
        invariant tokens == KeptTokens(all, pending, now)
        invariant index == KeptIndex(old(index), DroppedContracts(all, pending, now))
        invariant tokenOrder == Remove(old(tokenOrder), ExpiredTokens(all, pending, now))
        invariant indexOrder == Remove(old(indexOrder), DroppedContracts(all, pending, now))
        decreases pending
      {
        var key :| key in pending;
        DropTokenStep(all, pending, now, old(index), key);
        if TokenExpired(tokens[key], now) {
          DropOrderStep(all, pending, now, old(tokenOrder), old(indexOrder), key);
          var _ := RemoveToken(key);
        }
        pending := pending - {key};
      }
    }

    method Cleanup(now: int)
      modifies this
      ensures State() == Cleaned(old(State()), now)
    {
      DropExpiredSessions(now);
      DropExpiredTokens(now);
    }

    /** The copy of the live tokens, as its entries and the order they iterate in. */
    method GetAllTokens(now: int) returns (all: map<string, AuthInfo>, order: seq<string>)
      modifies this
      ensures State() == Cleaned(old(State()), now)
      ensures all == State().tokens && order == State().tokenOrder
      ensures Ordered(old(State())) ==> Tracks(order, all)
    {
      if Ordered(State()) {
        CleanedOrdered(State(), now);
      }
      Cleanup(now);
      all, order := tokens, tokenOrder;
    }

    method GetStats(now: int) returns (stats: Stats)
      modifies this
      ensures State() == Cleaned(old(State()), now)
      ensures stats == Stats(|tokens|, |sessions|, indexOrder)
      ensures Ordered(old(State())) ==> Tracks(stats.contractIds, index)
    {
      if Ordered(State()) {
        CleanedOrdered(State(), now);
      }
      Cleanup(now);
      stats := Stats(|tokens|, |sessions|, indexOrder);
    }
  }
}
