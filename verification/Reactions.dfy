/** Canonical reaction lists, and the cache that suppresses unchanged sets. */
module Reactions {
  import opened Common
  import opened MessageStore

  datatype Reaction = Reaction(emoji: string, custom: bool)

  /** The reactions that are mirrored: standard ones with an emoji. */
  function Standard(rs: seq<Reaction>): set<string> {
    set r | r in rs && !r.custom && r.emoji != "" :: r.emoji
  }

  /** An ordinary emoji joins the set; a custom one, whatever it is called, and one without a name do not. */
  lemma StandardGrows(rs: seq<Reaction>, e: string)
    ensures Standard([]) == {}
    ensures e != "" ==> Standard(rs + [Reaction(e, false)]) == Standard(rs) + {e}
    ensures Standard(rs + [Reaction(e, true)]) == Standard(rs)
    ensures Standard(rs + [Reaction("", false)]) == Standard(rs)
  {
    var one := rs + [Reaction(e, false)];
    forall x | x in Standard(rs)
      ensures x in Standard(one) && x in Standard(rs + [Reaction(e, true)])
      ensures x in Standard(rs + [Reaction("", false)])
    {
      var r :| r in rs && !r.custom && r.emoji == x && x != "";
      assert r in one && r in rs + [Reaction(e, true)] && r in rs + [Reaction("", false)];
    }
    assert Reaction(e, false) in one;
  }

  function Elems(s: seq<string>): set<string> {
    set x | x in s
  }

  lemma ElemsSnoc(s: seq<string>, x: string)
    ensures Elems(s + [x]) == Elems(s) + {x}
  {
  }

  lemma NoElems(s: seq<string>)
    ensures Elems(s) == {} <==> s == []
  {
    if s != [] { assert s[0] in Elems(s); }
  }

  /** Strict dictionary order. */
  predicate Less(a: string, b: string) {
    b != "" && (a == "" || a[0] < b[0] || (a[0] == b[0] && Less(a[1..], b[1..])))
  }

  lemma {:induction false} LessTransitive(a: string, b: string, c: string)
    requires Less(a, b) && Less(b, c)
    ensures Less(a, c)
  {
    if a != "" && a[0] == b[0] == c[0] { LessTransitive(a[1..], b[1..], c[1..]); }
  }

  lemma {:induction false} LessIrreflexive(a: string)
    ensures !Less(a, a)
  {
    if a != "" { LessIrreflexive(a[1..]); }
  }

  lemma {:induction false} LessTotal(a: string, b: string)
    ensures Less(a, b) || a == b || Less(b, a)
  {
    if a != "" && b != "" && a[0] == b[0] {
      LessTotal(a[1..], b[1..]);
      assert a == [a[0]] + a[1..] && b == [b[0]] + b[1..];
    }
  }

  /** Where two strings first differ, the smaller character decides; a proper prefix comes first. */
  lemma {:induction false} LessIsDictionary(a: string, b: string, k: nat)
    requires k <= |a| && k <= |b| && a[..k] == b[..k]
    ensures k == |a| ==> (Less(a, b) <==> k < |b|)
    ensures k == |b| ==> !Less(a, b)
    ensures k < |a| && k < |b| && a[k] != b[k] ==> (Less(a, b) <==> a[k] < b[k])
  {
    if k > 0 {
      assert a[0] == a[..k][0] == b[0];
      assert a[1..][..k - 1] == a[..k][1..] && b[1..][..k - 1] == b[..k][1..];
      LessIsDictionary(a[1..], b[1..], k - 1);
    }
  }

  ghost predicate Sorted(s: seq<string>) {
    forall i {:trigger InOrder(s, i)} :: 0 <= i < |s| - 1 ==> InOrder(s, i)
  }

  predicate InOrder(s: seq<string>, i: int)
    requires 0 <= i < |s| - 1
  {
    s[i] == s[i + 1] || Less(s[i], s[i + 1])
  }

  /** Strictly increasing: the canonical list of a set. */
  ghost predicate Canonical(s: seq<string>) {
    forall i {:trigger Rises(s, i)} :: 0 <= i < |s| - 1 ==> Rises(s, i)
  }

  predicate Rises(s: seq<string>, i: int)
    requires 0 <= i < |s| - 1
  {
    Less(s[i], s[i + 1])
  }

  /** Insertion into a sorted list; stands for the sorting routine of the standard library. */
  function Insert(s: seq<string>, x: string): seq<string> {
    if s == [] then [x]
    else if s[|s| - 1] == x || Less(s[|s| - 1], x) then s + [x]
    else Insert(s[..|s| - 1], x) + [s[|s| - 1]]
  }

  function SortOf(s: seq<string>): seq<string> {
    if s == [] then [] else Insert(SortOf(s[..|s| - 1]), s[|s| - 1])
  }

  lemma {:induction false} InsertSorts(s: seq<string>, x: string)
    requires Sorted(s)
    ensures Sorted(Insert(s, x)) && Elems(Insert(s, x)) == Elems(s) + {x} && |Insert(s, x)| == |s| + 1
    ensures s != [] ==> Insert(s, x)[|s|] == s[|s| - 1] || Insert(s, x)[|s|] == x
  {
    var t := Insert(s, x);
    if s == [] {
    } else {
      var front, last := s[..|s| - 1], s[|s| - 1];
      assert s == front + [last];
      ElemsSnoc(front, last);
      ElemsSnoc(s, x);
      if last == x || Less(last, x) {
        forall i | 0 <= i < |t| - 1 ensures InOrder(t, i) {
          if i < |s| - 1 { assert InOrder(s, i); }
        }
      } else {
        forall i | 0 <= i < |front| - 1 ensures InOrder(front, i) { assert InOrder(s, i); }
        InsertSorts(front, x);
        LessTotal(last, x);
        var u := Insert(front, x);
        ElemsSnoc(u, last);
        if front != [] { assert InOrder(s, |front| - 1); }
        forall i | 0 <= i < |t| - 1 ensures InOrder(t, i) {
          if i < |u| - 1 { assert InOrder(u, i); }
        }
      }
    }
  }

  lemma {:induction false} SortSorts(s: seq<string>)
    ensures Sorted(SortOf(s)) && Elems(SortOf(s)) == Elems(s) && |SortOf(s)| == |s|
  {
    if s != [] {
      SortSorts(s[..|s| - 1]);
      InsertSorts(SortOf(s[..|s| - 1]), s[|s| - 1]);
      ElemsSnoc(s[..|s| - 1], s[|s| - 1]);
      assert s == s[..|s| - 1] + [s[|s| - 1]];
    }
  }

  method SortStrings(a: array<string>)
    modifies a
    ensures a[..] == SortOf(old(a[..]))
  {
    var sorted := SortOf(a[..]);
    SortSorts(a[..]);
    for i := 0 to a.Length
      invariant a[..i] == sorted[..i]
    {
      a[i] := sorted[i];
    }
  }

  /** Dropping every element that equals its predecessor. */
  function Dedup(s: seq<string>): (d: seq<string>)
    ensures s != [] ==> d != [] && d[|d| - 1] == s[|s| - 1]
    ensures |d| <= |s|
  {
    if |s| <= 1 then s
    else
      var front := Dedup(s[..|s| - 1]);
      if s[|s| - 1] != s[|s| - 2] then front + [s[|s| - 1]] else front
  }

  /** Compaction in place: the write position never overtakes the read position. */
  method DedupStrings(a: array<string>) returns (n: nat)
    modifies a
    ensures n <= a.Length && a[..n] == Dedup(old(a[..]))
  {
    if a.Length == 0 { return 0; }
    n := 1;
    for r := 1 to a.Length
      invariant 1 <= n <= r
      invariant a[..n] == Dedup(old(a[..r]))
      invariant a[r..] == old(a[r..])
    {
      var s := a[r];
      assert s == old(a[r..])[0] && a[n - 1] == old(a[..r])[r - 1];
      assert old(a[..r + 1])[..r] == old(a[..r]);
      assert a[r..][1..] == a[r + 1..];
      if s != a[n - 1] {
        a[n] := s;
        n := n + 1;
      }
    }
    assert old(a[..a.Length]) == old(a[..]);
  }

  /** On a sorted list, compaction yields the canonical list of the same set. */
  lemma {:induction false} DedupIsCanonical(s: seq<string>)
    requires Sorted(s)
    ensures Canonical(Dedup(s)) && Elems(Dedup(s)) == Elems(s)
  {
    if |s| > 1 {
      var front := s[..|s| - 1];
      forall i | 0 <= i < |front| - 1 ensures InOrder(front, i) { assert InOrder(s, i); }
      DedupIsCanonical(front);
      assert s == front + [s[|s| - 1]];
      assert InOrder(s, |s| - 2);
      var d, f := Dedup(s), Dedup(front);
      ElemsSnoc(front, s[|s| - 1]);
      ElemsSnoc(f, s[|s| - 1]);
      assert f[|f| - 1] in Elems(f);
      forall i | 0 <= i < |d| - 1 ensures Rises(d, i) {
        if i < |f| - 1 { assert Rises(f, i); }
      }
    }
  }

  lemma {:induction false} CanonicalBelowLast(s: seq<string>, i: nat)
    requires Canonical(s) && i < |s| - 1
    ensures Less(s[i], s[|s| - 1])
    decreases |s| - i
  {
    assert Rises(s, i);
    if i + 1 < |s| - 1 {
      CanonicalBelowLast(s, i + 1);
      LessTransitive(s[i], s[i + 1], s[|s| - 1]);
    }
  }

  /** A canonical list increases from any element to any later one. */
  lemma {:induction false} CanonicalIncreases(s: seq<string>, i: nat, j: nat)
    requires Canonical(s) && i < j < |s|
    ensures Less(s[i], s[j]) && s[i] != s[j]
  {
    var upTo := s[..j + 1];
    forall k | 0 <= k < j ensures Rises(upTo, k) { assert Rises(s, k); }
    CanonicalBelowLast(upTo, i);
    LessIrreflexive(s[j]);
  }

  lemma LastIsMissing(s: seq<string>)
    requires Canonical(s) && s != []
    ensures Canonical(s[..|s| - 1]) && Elems(s[..|s| - 1]) == Elems(s) - {s[|s| - 1]}
  {
    var front, last := s[..|s| - 1], s[|s| - 1];
    forall i | 0 <= i < |front| - 1 ensures Rises(front, i) { assert Rises(s, i); }
    forall i | 0 <= i < |front| ensures front[i] != last {
      CanonicalBelowLast(s, i);
      LessIrreflexive(last);
    }
    assert s == front + [last];
  }

  /** The last element of a canonical list is the greatest of the set. */
  lemma {:induction false} LastIsGreatest(s: seq<string>, x: string)
    requires Canonical(s) && x in s
    ensures x == s[|s| - 1] || Less(x, s[|s| - 1])
  {
    var i: nat :| i < |s| && s[i] == x;
    if i < |s| - 1 { CanonicalBelowLast(s, i); }
  }

  /** A set has only one canonical list. */
  lemma {:induction false} CanonicalUnique(s: seq<string>, t: seq<string>)
    requires Canonical(s) && Canonical(t) && Elems(s) == Elems(t)
    ensures s == t
  {
    if s == [] || t == [] {
      NoElems(s);
      NoElems(t);
    } else {
      var a, b := s[|s| - 1], t[|t| - 1];
      assert a in Elems(s) && b in Elems(t);
      LastIsGreatest(s, b);
      LastIsGreatest(t, a);
      if a != b {
        LessTransitive(a, b, a);
        LessIrreflexive(a);
      }
      LastIsMissing(s);
      LastIsMissing(t);
      CanonicalUnique(s[..|s| - 1], t[..|t| - 1]);
      assert s == s[..|s| - 1] + [a] && t == t[..|t| - 1] + [b];
    }
  }

  /** The elements of `a` that are not in `b`. */
  method SetDiff(a: seq<string>, b: seq<string>) returns (diff: seq<string>)
    ensures Elems(diff) == Elems(a) - Elems(b)
    ensures diff == [] <==> Elems(a) <= Elems(b)
  {
    var bSet: set<string> := {};
    for i := 0 to |b|
      invariant bSet == Elems(b[..i])
    {
      bSet := bSet + {b[i]};
    }
    assert b[..|b|] == b;
    diff := [];
    for i := 0 to |a|
      invariant Elems(diff) == Elems(a[..i]) - bSet
    {
      assert a[..i + 1] == a[..i] + [a[i]];
      ElemsSnoc(a[..i], a[i]);
      ElemsSnoc(diff, a[i]);
      if a[i] !in bSet { diff := diff + [a[i]]; }
    }
    assert a[..|a|] == a;
    NoElems(diff);
  }

  const DAY_SECONDS: int := 86_400

  datatype CacheEntry = CacheEntry(reactions: seq<string>, updatedAt: int)

  class ReactionsCache {
    var items: map<Coord, CacheEntry>

    constructor ()
      ensures items == map[]
    {
      items := map[];
    }

    method Get(key: Coord) returns (reactions: seq<string>)
      ensures reactions == Cached(items, key)
    {
      return if key in items then items[key].reactions else [];
    }

    method Set(key: Coord, reactions: seq<string>, now: int)
      modifies this
      ensures items == old(items)[key := CacheEntry(reactions, now)]
    {
      items := items[key := CacheEntry(reactions, now)];
    }

    /** Removes exactly the entries last updated more than 24 hours ago, and counts them. */
    method Cleanup(now: int) returns (removed: nat)
      modifies this
      ensures items == map k | k in old(items) && old(items)[k].updatedAt >= now - 24 * 60 * 60 :: old(items)[k]
      ensures removed == |old(items)| - |items|
    {
      var threshold := now - DAY_SECONDS;
      removed := 0;
      var left := items.Keys;
      while left != {}
        invariant left <= items.Keys <= old(items).Keys
        invariant forall k :: k in items ==> items[k] == old(items)[k]
        invariant forall k :: k in old(items) && k !in left ==> (k in items <==> old(items)[k].updatedAt >= threshold)
        invariant removed == |old(items)| - |items|
        decreases left
      {
        var k :| k in left;
        left := left - {k};
        if items[k].updatedAt < threshold {
          assert (items - {k}).Keys == items.Keys - {k};
          items := items - {k};
          removed := removed + 1;
        }
      }
    }
  }

  /** The reaction list cached for a message; nothing cached counts as the empty list. */
  function Cached(items: map<Coord, CacheEntry>, key: Coord): seq<string> {
    if key in items then items[key].reactions else []
  }

  /** The cache seen as sets. */
  function SetsOf(items: map<Coord, CacheEntry>): map<Coord, set<string>> {
    map k | k in items :: Elems(items[k].reactions)
  }

  function SetAt(sets: map<Coord, set<string>>, c: Coord): set<string> {
    if c in sets then sets[c] else {}
  }

  /** Storage faults of the two lookups for the mirror of a reaction. */
  datatype MirrorFaults = MirrorFaults(first: bool, second: bool)

  datatype MirrorLookup = MirrorAt(at: Coord) | NoMirror | MirrorFailed

  /** The mirror of a message, looked up as a source first. */
  function FindReactionMirror(rows: seq<Mapping>, c: Coord, faults: MirrorFaults): MirrorLookup {
    if faults.first then MirrorFailed
    else
      match FindSource(rows, c)
      case Some(m) => MirrorAt(m.target)
      case None =>
        if faults.second then MirrorFailed
        else
          match FindTarget(rows, c)
          case Some(m) => MirrorAt(m.source)
          case None => NoMirror
  }

  /** Where a reaction event sends the set `current`, if anywhere: nowhere when the set is unchanged
      since the last event on the same message. */
  function SendsTo(rows: seq<Mapping>, peers: set<int>, sets: map<Coord, set<string>>, key: Coord,
                   current: set<string>, faults: MirrorFaults): Option<Coord> {
    if current == SetAt(sets, key) then None
    else
      match FindReactionMirror(rows, key, faults)
      case MirrorAt(at) => if at.chat in peers then Some(at) else None
      case _ => None
  }

  /** A lookup of a mirror finds the other side, finds nothing, or fails at the first or, if no row has the
      message as source, at the second table access. */
  lemma {:induction false} LookupExactly(rows: seq<Mapping>, c: Coord, faults: MirrorFaults)
    ensures var r := FindReactionMirror(rows, c, faults);
      && (r.MirrorFailed? <==> faults.first || (FindSource(rows, c).None? && faults.second))
      && (!r.MirrorFailed? ==> r == if Mirror(rows, c).Some? then MirrorAt(Mirror(rows, c).value) else NoMirror)
  {
  }

  /** A set is sent if and only if it differs from the one seen last, the lookup does not fail, and the other
      side is recorded and in a reachable chat; and then to that other side. */
  lemma {:induction false} ReactionIsSentExactlyIf(rows: seq<Mapping>, peers: set<int>, sets: map<Coord, set<string>>,
                                                   key: Coord, current: set<string>, faults: MirrorFaults)
    ensures var to := SendsTo(rows, peers, sets, key, current, faults);
      && (to.Some? <==>
            && current != SetAt(sets, key)
            && !faults.first && (faults.second ==> FindSource(rows, key).Some?)
            && Mirror(rows, key).Some? && Mirror(rows, key).value.chat in peers)
      && (to.Some? ==> to == Mirror(rows, key))
  {
    LookupExactly(rows, key, faults);
  }

  /** The simplest case: one ordinary emoji on a message with a recorded, reachable other side and nothing
      cached is sent there, as the list of that emoji. */
  lemma OneReactionIsSent(rows: seq<Mapping>, peers: set<int>, sets: map<Coord, set<string>>, key: Coord, e: string,
                          list: seq<string>)
    requires e != "" && key !in sets && Mirror(rows, key).Some? && Mirror(rows, key).value.chat in peers
    requires Canonical(list) && Elems(list) == Standard([Reaction(e, false)])
    ensures SendsTo(rows, peers, sets, key, Standard([Reaction(e, false)]), MirrorFaults(false, false))
         == Mirror(rows, key)
    ensures list == [e]
  {
    StandardGrows([], e);
    assert [] + [Reaction(e, false)] == [Reaction(e, false)];
    assert Standard([Reaction(e, false)]) == {e};
    ReactionIsSentExactlyIf(rows, peers, sets, key, {e}, MirrorFaults(false, false));
    assert Canonical([e]) && Elems([e]) == {e};
    CanonicalUnique(list, [e]);
  }
}
