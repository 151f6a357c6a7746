/** From the buffered messages of an album to the event handed to the bridge. */
module AlbumConvert {
  import opened Common
  import opened Entities

  /** A message of the group as received; `media` is absent for text and for unsupported media. */
  datatype RawMessage = RawMessage(
    id: int, text: string, entities: seq<TgEntity>, media: Option<string>, replyTo: Option<int>)

  datatype AlbumItem = AlbumItem(messageID: int, caption: string, entities: seq<MessageEntity>, media: string)

  predicate NotAfter(s: seq<RawMessage>, i: int)
    requires 0 <= i < |s| - 1
  {
    s[i].id <= s[i + 1].id
  }

  ghost predicate SortedById(s: seq<RawMessage>) {
    forall i {:trigger NotAfter(s, i)} :: 0 <= i < |s| - 1 ==> NotAfter(s, i)
  }

  function InsertById(s: seq<RawMessage>, m: RawMessage): seq<RawMessage> {
    if s == [] || s[|s| - 1].id <= m.id then s + [m]
    else InsertById(s[..|s| - 1], m) + [s[|s| - 1]]
  }

  /** Stands for the sorting routine of the standard library. */
  function SortById(s: seq<RawMessage>): seq<RawMessage> {
    if s == [] then [] else InsertById(SortById(s[..|s| - 1]), s[|s| - 1])
  }

  lemma {:induction false} InsertPermutes(s: seq<RawMessage>, m: RawMessage)
    ensures multiset(InsertById(s, m)) == multiset(s) + multiset{m}
  {
    if s != [] && s[|s| - 1].id > m.id {
      InsertPermutes(s[..|s| - 1], m);
      assert s == s[..|s| - 1] + [s[|s| - 1]];
    }
  }

  lemma {:induction false} SortPermutes(s: seq<RawMessage>)
    ensures multiset(SortById(s)) == multiset(s)
  {
    if s != [] {
      SortPermutes(s[..|s| - 1]);
      InsertPermutes(SortById(s[..|s| - 1]), s[|s| - 1]);
      assert s == s[..|s| - 1] + [s[|s| - 1]];
    }
  }

  lemma {:induction false} SortedRises(s: seq<RawMessage>, i: nat, j: nat)
    requires SortedById(s) && i <= j < |s|
    ensures s[i].id <= s[j].id
  {
    if i < j {
      SortedRises(s, i, j - 1);
      assert NotAfter(s, j - 1);
    }
  }

  lemma FrontIsSorted(s: seq<RawMessage>)
    requires SortedById(s) && s != []
    ensures SortedById(s[..|s| - 1])
  {
    var front := s[..|s| - 1];
    forall i | 0 <= i < |front| - 1 ensures NotAfter(front, i) { assert NotAfter(s, i); }
  }

  lemma SortedSnoc(s: seq<RawMessage>, m: RawMessage)
    requires SortedById(s) && (s != [] ==> s[|s| - 1].id <= m.id)
    ensures SortedById(s + [m])
  {
    forall i | 0 <= i < |s| ensures NotAfter(s + [m], i) {
      if i < |s| - 1 { assert NotAfter(s, i); }
    }
  }

  lemma {:induction false} InsertSorts(s: seq<RawMessage>, m: RawMessage)
    requires SortedById(s)
    ensures var t := InsertById(s, m);
      SortedById(t) && |t| == |s| + 1 && (t[|s|] == m || (s != [] && t[|s|] == s[|s| - 1]))
  {
    if s == [] || s[|s| - 1].id <= m.id {
      SortedSnoc(s, m);
    } else {
      var front := s[..|s| - 1];
      FrontIsSorted(s);
      InsertSorts(front, m);
      if front != [] { assert NotAfter(s, |front| - 1); }
      SortedSnoc(InsertById(front, m), s[|s| - 1]);
    }
  }

  lemma {:induction false} SortSorts(s: seq<RawMessage>)
    ensures SortedById(SortById(s))
  {
    if s != [] {
      SortSorts(s[..|s| - 1]);
      InsertSorts(SortById(s[..|s| - 1]), s[|s| - 1]);
    }
  }

  lemma {:induction false} LastIsGreatest(s: seq<RawMessage>, m: RawMessage)
    requires SortedById(s) && m in s
    ensures m.id <= s[|s| - 1].id
  {
    if s[|s| - 1] != m {
      FrontIsSorted(s);
      LastIsGreatest(s[..|s| - 1], m);
      assert NotAfter(s, |s| - 2);
    }
  }

  /** The messages that carry media, in the given order. */
  function MediaOnly(s: seq<RawMessage>): seq<RawMessage> {
    if s == [] then []
    else MediaOnly(s[..|s| - 1]) + if s[|s| - 1].media.Some? then [s[|s| - 1]] else []
  }

  function ItemsOf(s: seq<RawMessage>): seq<AlbumItem> {
    if s == [] then []
    else
      var m := s[|s| - 1];
      ItemsOf(s[..|s| - 1])
      + if m.media.Some? then [AlbumItem(m.id, m.text, FromTg(m.entities), m.media.value)] else []
  }

  /** The reply header of the first message with media that has one. */
  function FirstReply(s: seq<RawMessage>): Option<int> {
    if s == [] then None
    else if FirstReply(s[..|s| - 1]).Some? then FirstReply(s[..|s| - 1])
    else if s[|s| - 1].media.Some? then s[|s| - 1].replyTo
    else None
  }

  /** Sorts the messages by id, keeps those with media, and takes the first reply header among them. */
  method ConvertAlbumEvent(msgs: seq<RawMessage>) returns (items: seq<AlbumItem>, replyTo: Option<int>)
    ensures items == ItemsOf(SortById(msgs)) && replyTo == FirstReply(SortById(msgs))
  {
    var sorted := SortById(msgs);
    items, replyTo := [], None;
    for i := 0 to |sorted|
      invariant items == ItemsOf(sorted[..i])
      invariant replyTo == FirstReply(sorted[..i])
    {
      var m := sorted[i];
      assert sorted[..i + 1][..i] == sorted[..i];
      if m.media.None? { continue; }
      var entities := ConvertEntities(m.entities);
      items := items + [AlbumItem(m.id, m.text, entities, m.media.value)];
      if replyTo.None? && m.replyTo.Some? { replyTo := m.replyTo; }
    }
    assert sorted[..|sorted|] == sorted;
  }

  predicate Matches(item: AlbumItem, m: RawMessage) {
    && m.media == Some(item.media) && item.messageID == m.id && item.caption == m.text
    && item.entities == FromTg(m.entities)
  }

  /** The items are, in the order of their ids, exactly the messages with media, each as often as it was
      received; the reply header is that of the first of them that has one. */
  lemma ItemsInIdOrder(msgs: seq<RawMessage>) returns (kept: seq<RawMessage>)
    ensures var sorted := SortById(msgs);
      && SortedById(kept) && (forall i, j :: 0 <= i < j < |kept| ==> kept[i].id <= kept[j].id)
      && |ItemsOf(sorted)| == |kept|
      && (forall k :: 0 <= k < |kept| ==> Matches(ItemsOf(sorted)[k], kept[k]))
      && (forall m: RawMessage :: multiset(kept)[m] == if m.media.Some? then multiset(msgs)[m] else 0)
      && IsFirstReply(kept, FirstReply(sorted))
  {
    kept := MediaOnly(SortById(msgs));
    SortSorts(msgs);
    SortPermutes(msgs);
    MediaIsSorted(SortById(msgs));
    forall i, j | 0 <= i < j < |kept| ensures kept[i].id <= kept[j].id { SortedRises(kept, i, j); }
    MediaIsCounted(SortById(msgs));
    ItemsMatch(SortById(msgs));
    ReplyIsFirst(SortById(msgs));
  }

  ghost predicate NoneBefore(s: seq<RawMessage>, k: nat)
    requires k <= |s|
  {
    forall i :: 0 <= i < k ==> s[i].replyTo.None?
  }

  ghost predicate IsFirstReply(s: seq<RawMessage>, reply: Option<int>) {
    if reply.None? then NoneBefore(s, |s|)
    else exists k :: 0 <= k < |s| && s[k].replyTo == reply && NoneBefore(s, k)
  }

  lemma {:induction false} MediaIsSorted(s: seq<RawMessage>)
    requires SortedById(s)
    ensures SortedById(MediaOnly(s)) && forall m :: m in MediaOnly(s) ==> m in s
  {
    if s != [] {
      var front, last := s[..|s| - 1], s[|s| - 1];
      FrontIsSorted(s);
      MediaIsSorted(front);
      var kept := MediaOnly(front);
      if last.media.Some? {
        if kept != [] {
          assert kept[|kept| - 1] in kept;
          LastIsGreatest(s, kept[|kept| - 1]);
        }
        SortedSnoc(kept, last);
      } else {
        assert MediaOnly(s) == kept;
      }
    }
  }

  lemma {:induction false} MediaIsCounted(s: seq<RawMessage>)
    ensures forall m: RawMessage :: multiset(MediaOnly(s))[m] == if m.media.Some? then multiset(s)[m] else 0
  {
    if s != [] {
      MediaIsCounted(s[..|s| - 1]);
      assert s == s[..|s| - 1] + [s[|s| - 1]];
    }
  }

  lemma {:induction false} ItemsMatch(s: seq<RawMessage>)
    ensures |ItemsOf(s)| == |MediaOnly(s)|
    ensures forall k :: 0 <= k < |MediaOnly(s)| ==> Matches(ItemsOf(s)[k], MediaOnly(s)[k])
  {
    if s != [] { ItemsMatch(s[..|s| - 1]); }
  }

  lemma {:induction false} ReplyIsFirst(s: seq<RawMessage>)
    ensures IsFirstReply(MediaOnly(s), FirstReply(s))
  {
    if s != [] {
      var front := s[..|s| - 1];
      ReplyIsFirst(front);
      var f, kept := MediaOnly(front), MediaOnly(s);
      assert forall k :: 0 <= k < |f| ==> kept[k] == f[k];
      if FirstReply(front).Some? {
        var k :| 0 <= k < |f| && f[k].replyTo == FirstReply(front) && NoneBefore(f, k);
        assert kept[k] == f[k] && NoneBefore(kept, k);
      } else if FirstReply(s).Some? {
        assert kept[|f|] == s[|s| - 1] && NoneBefore(kept, |f|);
      }
    }
  }

  /** Within a chat an id names one message. */
  ghost predicate IdsIdentify(s: seq<RawMessage>) {
    forall x, y {:trigger Identified(x, y)} :: x in s && y in s ==> Identified(x, y)
  }

  predicate Identified(x: RawMessage, y: RawMessage) {
    x.id == y.id ==> x == y
  }

  /** The order of arrival of an album's messages does not matter. */
  lemma {:induction false} ArrivalOrderIsIrrelevant(a: seq<RawMessage>, b: seq<RawMessage>)
    requires multiset(a) == multiset(b) && IdsIdentify(a)
    ensures SortById(a) == SortById(b)
  {
    SortPermutes(a);
    SortPermutes(b);
    SortSorts(a);
    SortSorts(b);
    forall x | x in SortById(a) ensures x in a {
      assert x in multiset(SortById(a));
    }
    SortedIsUnique(SortById(a), SortById(b));
  }

  lemma {:induction false} SortedIsUnique(a: seq<RawMessage>, b: seq<RawMessage>)
    requires multiset(a) == multiset(b) && SortedById(a) && SortedById(b) && IdsIdentify(a)
    ensures a == b
  {
    assert |a| == |multiset(a)| == |b|;
    if a != [] {
      SameLast(a, b);
      var x, c, d := a[|a| - 1], a[..|a| - 1], b[..|b| - 1];
      assert a == c + [x] && b == d + [x];
      SameFront(c, d, x);
      FrontIsSorted(a);
      FrontIsSorted(b);
      SortedIsUnique(c, d);
    }
  }

  lemma SameLast(a: seq<RawMessage>, b: seq<RawMessage>)
    requires multiset(a) == multiset(b) && SortedById(a) && SortedById(b) && IdsIdentify(a) && a != [] && b != []
    ensures a[|a| - 1] == b[|b| - 1]
  {
    var x, y := a[|a| - 1], b[|b| - 1];
    assert x in multiset(b) && y in multiset(a);
    LastIsGreatest(a, y);
    LastIsGreatest(b, x);
    assert Identified(x, y);
  }

  lemma SameFront(c: seq<RawMessage>, d: seq<RawMessage>, x: RawMessage)
    requires multiset(c + [x]) == multiset(d + [x])
    ensures multiset(c) == multiset(d)
  {
    assert multiset(c) == multiset(c + [x]) - multiset{x} && multiset(d) == multiset(d + [x]) - multiset{x};
  }

  /** No items are left exactly if no message carries media. */
  lemma {:induction false} NoItemsExactlyWithoutMedia(msgs: seq<RawMessage>)
    ensures ItemsOf(SortById(msgs)) == [] <==> forall m :: m in msgs ==> m.media.None?
  {
    var sorted := SortById(msgs);
    SortPermutes(msgs);
    ItemlessExactlyWithoutMedia(sorted);
    forall m ensures m in msgs <==> m in sorted {
      assert m in multiset(msgs) <==> m in multiset(sorted);
    }
  }

  lemma {:induction false} ItemlessExactlyWithoutMedia(s: seq<RawMessage>)
    ensures ItemsOf(s) == [] <==> forall m :: m in s ==> m.media.None?
  {
    if s != [] {
      ItemlessExactlyWithoutMedia(s[..|s| - 1]);
      assert s == s[..|s| - 1] + [s[|s| - 1]];
    }
  }
}
