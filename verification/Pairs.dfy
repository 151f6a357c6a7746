/** The configured chat pairs: validation, and the two-sided routing map built from them. */
module Pairs {
  import opened Common
  import opened ScheduleValidation

  datatype PairConfig = PairConfig(key: string, merchant: int, support: int)

  /** Routing entry under one of the two chats; `target` is the other one. */
  datatype Pair = Pair(key: string, merchant: int, support: int, target: int)

  datatype PairError =
    | NoPairs
    | BlankKey(pair: nat)
    | DuplicateKey(pair: nat)
    | ZeroMerchant(pair: nat)
    | ZeroSupport(pair: nat)
    | SameChats(pair: nat)
    | MerchantUsed(pair: nat, owner: string)
    | SupportUsed(pair: nat, owner: string)

  predicate PairOk(p: PairConfig) {
    !Blank(p.key) && p.merchant != 0 && p.support != 0 && p.merchant != p.support
  }

  /** No key and no chat in common. */
  predicate Unrelated(p: PairConfig, q: PairConfig) {
    p.key != q.key && !Owns(p, q.merchant) && !Owns(p, q.support)
  }

  predicate Owns(p: PairConfig, chat: int) {
    chat == p.merchant || chat == p.support
  }

  /** The first `n` pairs are fine one by one and share nothing. */
  ghost predicate GoodUpTo(ps: seq<PairConfig>, n: nat)
    requires n <= |ps|
  {
    && (forall i {:trigger PairOk(ps[i])} :: 0 <= i < n ==> PairOk(ps[i]))
    && (forall i, j {:trigger Unrelated(ps[i], ps[j])} :: 0 <= i < j < n ==> Unrelated(ps[i], ps[j]))
  }

  ghost predicate PairsGood(ps: seq<PairConfig>) {
    ps != [] && GoodUpTo(ps, |ps|)
  }

  /** Some pair before position `n` has the chat, and the given key. */
  ghost predicate UsedBefore(ps: seq<PairConfig>, n: nat, chat: int, owner: string)
    requires n <= |ps|
  {
    exists j :: 0 <= j < n && Owns(ps[j], chat) && ps[j].key == owner
  }

  ghost predicate KeyBefore(ps: seq<PairConfig>, n: nat, key: string)
    requires n <= |ps|
  {
    exists j :: 0 <= j < n && ps[j].key == key
  }

  /** What each complaint asserts. */
  ghost predicate Justifies(e: PairError, ps: seq<PairConfig>) {
    match e
    case NoPairs => ps == []
    case BlankKey(i) => i < |ps| && Blank(ps[i].key)
    case DuplicateKey(i) => i < |ps| && KeyBefore(ps, i, ps[i].key)
    case ZeroMerchant(i) => i < |ps| && ps[i].merchant == 0
    case ZeroSupport(i) => i < |ps| && ps[i].support == 0
    case SameChats(i) => i < |ps| && ps[i].merchant == ps[i].support
    case MerchantUsed(i, owner) => i < |ps| && UsedBefore(ps, i, ps[i].merchant, owner)
    case SupportUsed(i, owner) => i < |ps| && UsedBefore(ps, i, ps[i].support, owner)
  }

  lemma ComplaintRefutes(e: PairError, ps: seq<PairConfig>)
    requires Justifies(e, ps)
    ensures !PairsGood(ps)
  {
    if e.DuplicateKey? || e.MerchantUsed? || e.SupportUsed? {
      var i := e.pair;
      var j :| 0 <= j < i && !Unrelated(ps[j], ps[i]);
    } else if !e.NoPairs? {
      assert !PairOk(ps[e.pair]);
    }
  }

  /** What the two maps of the validation loop know about the first `n` pairs. */
  ghost predicate Seen(keys: set<string>, chats: map<int, string>, ps: seq<PairConfig>, n: nat)
    requires n <= |ps|
  {
    && (forall k :: k in keys ==> KeyBefore(ps, n, k))
    && (forall c :: c in chats ==> UsedBefore(ps, n, c, chats[c]))
    && (forall j {:trigger Noted(keys, chats, ps[j])} :: 0 <= j < n ==> Noted(keys, chats, ps[j]))
  }

  predicate Noted(keys: set<string>, chats: map<int, string>, p: PairConfig) {
    p.key in keys && p.merchant in chats && p.support in chats
  }

  /** The checks of one pair. */
  method CheckPair(ps: seq<PairConfig>, i: nat, keys: set<string>, chats: map<int, string>)
    returns (e: Option<PairError>)
    requires i < |ps| && Seen(keys, chats, ps, i)
    ensures e.Some? ==> Justifies(e.value, ps)
    ensures e.None? ==> PairOk(ps[i]) && ps[i].key !in keys
    ensures e.None? ==> ps[i].merchant !in chats && ps[i].support !in chats
  {
    var p := ps[i];
    if Blank(p.key) { return Some(BlankKey(i)); }
    if p.key in keys { return Some(DuplicateKey(i)); }
    if p.merchant == 0 { return Some(ZeroMerchant(i)); }
    if p.support == 0 { return Some(ZeroSupport(i)); }
    if p.merchant == p.support { return Some(SameChats(i)); }
    if p.merchant in chats { return Some(MerchantUsed(i, chats[p.merchant])); }
    if p.support in chats { return Some(SupportUsed(i, chats[p.support])); }
    return None;
  }

  lemma SeenGrows(keys: set<string>, chats: map<int, string>, ps: seq<PairConfig>, n: nat)
    requires n < |ps| && Seen(keys, chats, ps, n)
    ensures Seen(keys + {ps[n].key}, chats[ps[n].merchant := ps[n].key][ps[n].support := ps[n].key], ps, n + 1)
  {
    var after := chats[ps[n].merchant := ps[n].key][ps[n].support := ps[n].key];
    forall j | 0 <= j < n ensures Noted(keys + {ps[n].key}, after, ps[j]) {
      assert Noted(keys, chats, ps[j]);
    }
    forall k | k in keys + {ps[n].key} ensures KeyBefore(ps, n + 1, k) {
      if k != ps[n].key { assert KeyBefore(ps, n, k); }
    }
    forall c | c in after ensures UsedBefore(ps, n + 1, c, after[c]) {
      if Owns(ps[n], c) {
        assert after[c] == ps[n].key;
      } else {
        assert UsedBefore(ps, n, c, chats[c]);
      }
    }
  }

  /** Accepts exactly the good lists of pairs, and every complaint is true of the list. */
  method ValidatePairs(ps: seq<PairConfig>) returns (e: Option<PairError>)
    ensures e.None? <==> PairsGood(ps)
    ensures e.Some? ==> Justifies(e.value, ps)
  {
    if |ps| < 1 { return Some(NoPairs); }
    var keys: set<string>, chats: map<int, string> := {}, map[];
    for i := 0 to |ps|
      invariant Seen(keys, chats, ps, i)
      invariant GoodUpTo(ps, i)
    {
      e := CheckPair(ps, i, keys, chats);
      if e.Some? {
        ComplaintRefutes(e.value, ps);
        return;
      }
      SeenGrows(keys, chats, ps, i);
      forall j | 0 <= j < i ensures Unrelated(ps[j], ps[i]) {
        assert Noted(keys, chats, ps[j]);
      }
      keys := keys + {ps[i].key};
      chats := chats[ps[i].merchant := ps[i].key][ps[i].support := ps[i].key];
    }
    return None;
  }

  /** The entry of a pair under one of its chats. */
  function EntryOf(p: PairConfig, chat: int): Pair {
    Pair(p.key, p.merchant, p.support, if chat == p.merchant then p.support else p.merchant)
  }

  ghost predicate Routed(m: map<int, Pair>, p: PairConfig) {
    && p.merchant in m && m[p.merchant] == EntryOf(p, p.merchant)
    && p.support in m && m[p.support] == EntryOf(p, p.support)
  }

  ghost predicate Configured(ps: seq<PairConfig>, n: nat, chat: int)
    requires n <= |ps|
  {
    exists j :: 0 <= j < n && Owns(ps[j], chat)
  }

  /** The routing map holds the two entries of each of the first `n` pairs and nothing else. */
  ghost predicate RoutesExactly(m: map<int, Pair>, ps: seq<PairConfig>, n: nat)
    requires n <= |ps|
  {
    && (forall i {:trigger Routed(m, ps[i])} :: 0 <= i < n ==> Routed(m, ps[i]))
    && (forall c :: c in m ==> Configured(ps, n, c))
  }

  function WithPair(m: map<int, Pair>, p: PairConfig): map<int, Pair> {
    m[p.merchant := Pair(p.key, p.merchant, p.support, p.support)]
     [p.support := Pair(p.key, p.merchant, p.support, p.merchant)]
  }

  lemma RoutesGrow(m: map<int, Pair>, ps: seq<PairConfig>, i: nat)
    requires PairsGood(ps) && i < |ps| && RoutesExactly(m, ps, i)
    ensures ps[i].merchant !in m && ps[i].support !in m && ps[i].merchant != ps[i].support
    ensures RoutesExactly(WithPair(m, ps[i]), ps, i + 1)
  {
    assert PairOk(ps[i]);
    forall j | 0 <= j < i ensures !Owns(ps[j], ps[i].merchant) && !Owns(ps[j], ps[i].support) {
      assert Unrelated(ps[j], ps[i]);
    }
    assert !Configured(ps, i, ps[i].merchant) && !Configured(ps, i, ps[i].support);
    forall j | 0 <= j < i ensures Routed(WithPair(m, ps[i]), ps[j]) {
      assert Routed(m, ps[j]);
      assert Unrelated(ps[j], ps[i]);
    }
    forall c | c in WithPair(m, ps[i]) ensures Configured(ps, i + 1, c) {
      if c in m { assert Configured(ps, i, c); } else { assert Owns(ps[i], c); }
    }
  }

  /** The routing map of the first `n` pairs; a later pair overwrites an earlier one with the same chat. */
  function RoutesOf(ps: seq<PairConfig>, n: nat): map<int, Pair>
    requires n <= |ps|
  {
    if n == 0 then map[] else WithPair(RoutesOf(ps, n - 1), ps[n - 1])
  }

  method BuildPairs(ps: seq<PairConfig>) returns (m: map<int, Pair>)
    ensures m == RoutesOf(ps, |ps|)
  {
    m := map[];
    for i := 0 to |ps|
      invariant m == RoutesOf(ps, i)
    {
      var p := ps[i];
      m := m[p.merchant := Pair(p.key, p.merchant, p.support, p.support)];
      m := m[p.support := Pair(p.key, p.merchant, p.support, p.merchant)];
    }
  }

  /** From accepted pairs nothing is overwritten: two entries a pair, and no others. */
  lemma {:induction false} RoutesAreExact(ps: seq<PairConfig>, n: nat)
    requires PairsGood(ps) && n <= |ps|
    ensures RoutesExactly(RoutesOf(ps, n), ps, n) && |RoutesOf(ps, n)| == 2 * n
  {
    if n > 0 {
      var m := RoutesOf(ps, n - 1);
      RoutesAreExact(ps, n - 1);
      RoutesGrow(m, ps, n - 1);
      NewKeys(m, ps[n - 1]);
      assert RoutesOf(ps, n) == WithPair(m, ps[n - 1]);
    }
  }

  lemma NewKeys(m: map<int, Pair>, p: PairConfig)
    requires p.merchant !in m && p.support !in m && p.merchant != p.support
    ensures |WithPair(m, p)| == |m| + 2
  {
    var one := m[p.merchant := Pair(p.key, p.merchant, p.support, p.support)];
    assert |one| == |m| + 1;
    assert p.support !in one;
  }

  /** Every chat routes to a different configured chat, which routes back, with the same pair. */
  ghost predicate TwoSided(m: map<int, Pair>) {
    forall c :: c in m ==> SidesMatch(m, c)
  }

  ghost predicate SidesMatch(m: map<int, Pair>, c: int)
    requires c in m
  {
    && (c == m[c].merchant || c == m[c].support) && m[c].merchant != m[c].support
    && m[c].target == (if c == m[c].merchant then m[c].support else m[c].merchant)
    && m[c].target in m && m[m[c].target] == m[c].(target := c)
  }

  /** The map built from accepted pairs is two-sided: the partner of a chat is another configured chat
      whose partner it is. */
  lemma {:induction false} RoutesAreTwoSided(ps: seq<PairConfig>)
    requires PairsGood(ps)
    ensures TwoSided(RoutesOf(ps, |ps|))
  {
    var m := RoutesOf(ps, |ps|);
    RoutesAreExact(ps, |ps|);
    forall c | c in m ensures SidesMatch(m, c) {
      assert Configured(ps, |ps|, c);
      var i :| 0 <= i < |ps| && Owns(ps[i], c);
      assert PairOk(ps[i]) && Routed(m, ps[i]);
    }
  }

  /** What a good list of pairs is, spelled out. */
  lemma GoodExactly(ps: seq<PairConfig>)
    ensures PairsGood(ps) <==>
      && |ps| >= 1
      && (forall i :: 0 <= i < |ps| ==>
            TrimRight(TrimLeft(ps[i].key)) != "" && ps[i].merchant != 0 && ps[i].support != 0)
      && (forall i :: 0 <= i < |ps| ==> ps[i].merchant != ps[i].support)
      && (forall i, j :: 0 <= i < j < |ps| ==> ps[i].key != ps[j].key)
      && (forall i, j :: 0 <= i < |ps| && 0 <= j < |ps| && i != j ==>
            ps[i].merchant != ps[j].merchant && ps[i].support != ps[j].support && ps[i].merchant != ps[j].support)
  {
    forall i | 0 <= i < |ps|
      ensures PairOk(ps[i]) <==>
              TrimRight(TrimLeft(ps[i].key)) != "" && ps[i].merchant != 0 && ps[i].support != 0
              && ps[i].merchant != ps[i].support
    {
      BlankIffTrimmedAway(ps[i].key);
    }
    forall i, j | 0 <= i < j < |ps|
      ensures Unrelated(ps[i], ps[j]) <==>
              ps[i].key != ps[j].key && ps[i].merchant != ps[j].merchant && ps[i].support != ps[j].support
              && ps[i].merchant != ps[j].support && ps[j].merchant != ps[i].support
    {
    }
  }
}
