/** Reading the ids of freshly sent messages out of the response to a send. */
module Updates {

  datatype Update = NewMessage(id: int) | NewChannelMessage(id: int) | MessageID(id: int) | OtherUpdate {
    predicate BearsId() { !OtherUpdate? }
  }

  datatype Response = Updates(list: seq<Update>) | OtherResponse

  /** The ids borne by a list of updates, in order. */
  function Ids(list: seq<Update>): seq<int> {
    if list == [] then []
    else Ids(list[..|list| - 1]) + if list[|list| - 1].BearsId() then [list[|list| - 1].id] else []
  }

  function IdsOf(r: Response): seq<int> {
    if r.Updates? then Ids(r.list) else []
  }

  /** Each of the three kinds of update bears its id, in the order of the list; no other response or update
      bears any. */
  lemma {:induction false} IdsGrow(list: seq<Update>, id: int)
    ensures IdsOf(OtherResponse) == Ids([]) == [] && IdsOf(Updates(list)) == Ids(list)
    ensures Ids(list + [NewMessage(id)]) == Ids(list) + [id]
    ensures Ids(list + [NewChannelMessage(id)]) == Ids(list) + [id]
    ensures Ids(list + [MessageID(id)]) == Ids(list) + [id]
    ensures Ids(list + [OtherUpdate]) == Ids(list)
  {
    assert forall u :: (list + [u])[..|list|] == list;
  }

  lemma {:induction false} IdsJoin(a: seq<Update>, b: seq<Update>)
    ensures Ids(a + b) == Ids(a) + Ids(b)
  {
    if b == [] {
      assert a + b == a;
    } else {
      assert (a + b)[..|a + b| - 1] == a + b[..|b| - 1];
      IdsJoin(a, b[..|b| - 1]);
    }
  }

  /** The first id-bearing update decides; without one the id is 0. */
  method ExtractMessageID(r: Response) returns (id: int, ok: bool)
    ensures ok <==> IdsOf(r) != []
    ensures id == if ok then IdsOf(r)[0] else 0
  {
    if !r.Updates? { return 0, false; }
    for i := 0 to |r.list|
      invariant Ids(r.list[..i]) == []
    {
      assert r.list[..i + 1][..i] == r.list[..i];
      if r.list[i].BearsId() {
        IdsJoin(r.list[..i + 1], r.list[i + 1..]);
        assert r.list[..i + 1] + r.list[i + 1..] == r.list;
        return r.list[i].id, true;
      }
    }
    assert r.list[..|r.list|] == r.list;
    return 0, false;
  }

  method ExtractAlbumMessageIDs(r: Response) returns (ids: seq<int>)
    ensures ids == IdsOf(r)
  {
    if !r.Updates? { return []; }
    ids := [];
    for i := 0 to |r.list|
      invariant ids == Ids(r.list[..i])
    {
      assert r.list[..i + 1][..i] == r.list[..i];
      if r.list[i].BearsId() {
        ids := ids + [r.list[i].id];
      }
    }
    assert r.list[..|r.list|] == r.list;
  }

  /** The target id recorded for the item at position `i`: the i-th id, or 0 once the ids run out. */
  function TargetId(ids: seq<int>, i: nat): int {
    if i < |ids| then ids[i] else 0
  }

  /** The response names the `sent` messages in order, by one id-bearing update each, before any other
      id-bearing update. */
  ghost predicate NamesInOrder(list: seq<Update>, sent: seq<int>) {
    exists k :: 0 <= k <= |list| && Ids(list[..k]) == sent
  }

  /** Every item of an album is recorded against its own mirror exactly when the response names the
      mirrors in order, once each, before naming any of them again. */
  lemma {:induction false} AlbumIdsMatch(list: seq<Update>, sent: seq<int>)
    requires forall i :: 0 <= i < |sent| ==> sent[i] != 0
    ensures (forall i: nat :: i < |sent| ==> TargetId(Ids(list), i) == sent[i]) <==> NamesInOrder(list, sent)
  {
    if NamesInOrder(list, sent) {
      var k :| 0 <= k <= |list| && Ids(list[..k]) == sent;
      IdsJoin(list[..k], list[k..]);
      assert list[..k] + list[k..] == list;
    }
    if forall i: nat :: i < |sent| ==> TargetId(Ids(list), i) == sent[i] {
      assert |sent| > 0 ==> TargetId(Ids(list), |sent| - 1) == sent[|sent| - 1];
      var k := PrefixWithIds(list, |sent|);
      assert Ids(list[..k]) == sent;
    }
  }

  lemma {:induction false} PrefixWithIds(list: seq<Update>, n: nat) returns (k: nat)
    requires n <= |Ids(list)|
    ensures k <= |list| && Ids(list[..k]) == Ids(list)[..n]
    decreases |list|
  {
    if n == |Ids(list)| {
      k := |list|;
      assert list[..k] == list;
    } else {
      var front := list[..|list| - 1];
      k := PrefixWithIds(front, n);
      assert front[..k] == list[..k];
    }
  }

  /** A response that names each sent message twice in a row puts the first message's id on the first
      two items: the second mirror is lost, and two rows share a target. */
  lemma DoubledIdsMisassign(a: int, b: int)
    requires a != b
    ensures var list := [MessageID(a), NewChannelMessage(a), MessageID(b), NewChannelMessage(b)];
      TargetId(Ids(list), 0) == a && TargetId(Ids(list), 1) == a
  {
    var list := [MessageID(a), NewChannelMessage(a), MessageID(b), NewChannelMessage(b)];
    assert list == [MessageID(a)] + [NewChannelMessage(a)] + [MessageID(b)] + [NewChannelMessage(b)];
    IdsJoin([MessageID(a)] + [NewChannelMessage(a)] + [MessageID(b)], [NewChannelMessage(b)]);
    IdsJoin([MessageID(a)] + [NewChannelMessage(a)], [MessageID(b)]);
    IdsJoin([MessageID(a)], [NewChannelMessage(a)]);
    OneId(MessageID(a));
    OneId(NewChannelMessage(a));
  }

  lemma OneId(u: Update)
    requires u.BearsId()
    ensures Ids([u]) == [u.id]
  {
    assert [u][..0] == [];
  }
}
