/** What is recorded of albums, and what happens to albums without items. */
module RelayAlbums {
  import AlbumConvert
  import opened Common
  import opened MessageStore
  import opened Pairs
  import opened Relay
  import opened RelayInvariant
  import opened RelayResults
  import opened RelayTheorems
  import opened RelayWorld
  import opened Updates

  /** The handler panics exactly on an album without items that would otherwise be relayed. */
  lemma PanicsExactlyWithoutItems(cfg: Config, w: World, ev: AlbumEvent, downloads: nat -> bool, env: SendEnv,
                                  faults: nat -> SaveFault)
    requires TwoSided(cfg.pairs)
    ensures AlbumEffect(cfg, w.rows, w.disabled, ev, downloads, env, faults).result == Panicked <==>
            Relays(cfg, w.disabled, ev.chat, ev.from) && !env.waitCancelled && ev.items == []
  {
    if ev.chat in cfg.pairs { assert SidesMatch(cfg.pairs, ev.chat); }
  }

  /** The event made of the messages of a flushed buffer. */
  function FlushedEvent(chat: int, from: int, group: string, msgs: seq<AlbumConvert.RawMessage>): AlbumEvent {
    var items := AlbumConvert.ItemsOf(AlbumConvert.SortById(msgs));
    AlbumEvent(chat, from, group, seq(|items|, k requires 0 <= k < |items| => items[k].messageID),
               AlbumConvert.FirstReply(AlbumConvert.SortById(msgs)))
  }

  /** A flushed buffer makes the handler panic if and only if none of its messages carries supported media
      and nothing else stands in the way of relaying. */
  lemma PanicsExactlyWithoutMedia(cfg: Config, w: World, chat: int, from: int, group: string,
                                  msgs: seq<AlbumConvert.RawMessage>, downloads: nat -> bool, env: SendEnv,
                                  faults: nat -> SaveFault)
    requires TwoSided(cfg.pairs)
    ensures var ev := FlushedEvent(chat, from, group, msgs);
      AlbumEffect(cfg, w.rows, w.disabled, ev, downloads, env, faults).result == Panicked <==>
        Relays(cfg, w.disabled, chat, from) && !env.waitCancelled && forall m :: m in msgs ==> m.media.None?
  {
    PanicsExactlyWithoutItems(cfg, w, FlushedEvent(chat, from, group, msgs), downloads, env, faults);
    AlbumConvert.NoItemsExactlyWithoutMedia(msgs);
  }

  /** One pair of chats, both resolved. */
  function OnePair(): Config {
    Config(9, "", map[1 := Pair("p", 1, 2, 2), 2 := Pair("p", 1, 2, 1)], {1, 2})
  }

  lemma OnePairIsTwoSided()
    ensures TwoSided(OnePair().pairs)
  {
  }

  /** Such an input: any two text messages of one group, in one of the chats of the pair. */
  lemma PanicHappens(a: AlbumConvert.RawMessage, b: AlbumConvert.RawMessage, env: SendEnv)
    requires a.media.None? && b.media.None? && !env.waitCancelled
    ensures var ev := FlushedEvent(1, 7, "g", [a, b]);
      AlbumEffect(OnePair(), [], {}, ev, _ => true, env, _ => NoFault).result == Panicked
  {
    OnePairIsTwoSided();
    PanicsExactlyWithoutMedia(OnePair(), START, 1, 7, "g", [a, b], _ => true, env, _ => NoFault);
  }

  /** Each save of an album stands for itself: item `i` of distinct, new items is recorded unless its
      own save fails, whatever happens to the other saves. */
  lemma {:induction false} EveryItemGetsItsSave(cfg: Config, route: Route, rows: seq<Mapping>, ev: AlbumEvent,
                                                ids: seq<int>, faults: nat -> SaveFault, n: nat, i: nat)
    requires i < |ev.items| && n <= |ev.items| && Distinct(ev.items)
    requires FindSource(rows, Coord(ev.chat, ev.items[i])).None?
    ensures FindSource(RecordItems(cfg, route, rows, ev, ids, faults, n), Coord(ev.chat, ev.items[i])) ==
            if i < n && !faults(i).LostBefore? then Some(ItemMapping(cfg, route, ev, ids, i)) else None
  {
    if n > 0 {
      EveryItemGetsItsSave(cfg, route, rows, ev, ids, faults, n - 1, i);
      FindSourceAppend(RecordItems(cfg, route, rows, ev, ids, faults, n - 1), ItemMapping(cfg, route, ev, ids, n - 1),
                       Coord(ev.chat, ev.items[i]));
    }
  }

  /** Album order is kept: if the response names the mirrors in order, item `i` is recorded against
      the i-th mirror. */
  lemma {:induction false} AlbumOrderIsKept(cfg: Config, route: Route, rows: seq<Mapping>, ev: AlbumEvent,
                                            list: seq<Update>, sent: seq<int>, faults: nat -> SaveFault, i: nat)
    requires |sent| == |ev.items| && NamesInOrder(list, sent)
    requires forall k :: 0 <= k < |sent| ==> sent[k] != 0
    requires i < |ev.items| && Distinct(ev.items) && FindSource(rows, Coord(ev.chat, ev.items[i])).None?
    requires !faults(i).LostBefore?
    ensures var after := RecordItems(cfg, route, rows, ev, Ids(list), faults, |ev.items|);
      var row := FindSource(after, Coord(ev.chat, ev.items[i]));
      row.Some? && row.value.target == Coord(route.target, sent[i])
  {
    AlbumIdsMatch(list, sent);
    EveryItemGetsItsSave(cfg, route, rows, ev, Ids(list), faults, |ev.items|, i);
  }

  ghost predicate NoIdTwice(msgs: seq<AlbumConvert.RawMessage>) {
    forall i, j :: 0 <= i < j < |msgs| ==> msgs[i].id != msgs[j].id
  }

  /** `kept` lists the messages with media in the order of their ids. */
  ghost predicate MediaById(kept: seq<AlbumConvert.RawMessage>, msgs: seq<AlbumConvert.RawMessage>) {
    && (forall i, j :: 0 <= i < j < |kept| ==> kept[i].id < kept[j].id)
    && forall m :: m in kept <==> m in msgs && m.media.Some?
  }

  /** From the messages received to the rows: in whatever order the messages of an album arrive, the k-th
      message with media, by id, is recorded against the k-th mirror. */
  lemma {:induction false} FlushedOrderIsKept(cfg: Config, route: Route, rows: seq<Mapping>, chat: int, from: int,
                                              group: string, msgs: seq<AlbumConvert.RawMessage>,
                                              kept: seq<AlbumConvert.RawMessage>, list: seq<Update>, sent: seq<int>,
                                              faults: nat -> SaveFault, k: nat)
    requires NoIdTwice(msgs) && MediaById(kept, msgs)
    requires |sent| == |kept| && NamesInOrder(list, sent) && forall i :: 0 <= i < |sent| ==> sent[i] != 0
    requires k < |kept| && FindSource(rows, Coord(chat, kept[k].id)).None? && !faults(k).LostBefore?
    ensures var ev := FlushedEvent(chat, from, group, msgs);
      && |ev.items| == |kept|
      && var row := FindSource(RecordItems(cfg, route, rows, ev, Ids(list), faults, |ev.items|),
                               Coord(chat, kept[k].id));
         row.Some? && row.value.target == Coord(route.target, sent[k])
  {
    var ev := FlushedEvent(chat, from, group, msgs);
    FlushedItems(chat, from, group, msgs, kept);
    AlbumOrderIsKept(cfg, route, rows, ev, list, sent, faults, k);
  }

  /** The items of the event are the ids of the messages with media, in order. */
  lemma {:induction false} FlushedItems(chat: int, from: int, group: string, msgs: seq<AlbumConvert.RawMessage>,
                                        kept: seq<AlbumConvert.RawMessage>)
    requires NoIdTwice(msgs) && MediaById(kept, msgs)
    ensures var items := FlushedEvent(chat, from, group, msgs).items;
      Distinct(items) && |items| == |kept| && forall i :: 0 <= i < |items| ==> items[i] == kept[i].id
  {
    var found := AlbumConvert.ItemsInIdOrder(msgs);
    assert NoIdTwice(kept) && AlbumConvert.SortedById(kept);
    forall m ensures multiset(kept)[m] == multiset(found)[m] {
      OnceIfThere(msgs, m);
      OnceIfThere(kept, m);
    }
    assert multiset(kept) == multiset(found);
    AlbumConvert.SortedIsUnique(kept, found);
  }

  lemma {:induction false} OnceIfThere(s: seq<AlbumConvert.RawMessage>, m: AlbumConvert.RawMessage)
    requires NoIdTwice(s)
    ensures multiset(s)[m] == if m in s then 1 else 0
  {
    if s != [] {
      OnceIfThere(s[..|s| - 1], m);
      assert s == s[..|s| - 1] + [s[|s| - 1]];
    }
  }

  /** The exact condition for unique targets: an album of new items, sent and saved, leaves the store
      clean if and only if the response names no message twice among the ids that are used. */
  lemma AlbumStaysCleanIffNamedApart(cfg: Config, w: World, ev: AlbumEvent, downloads: nat -> bool, env: SendEnv,
                                     faults: nat -> SaveFault, created: set<int>)
    requires Inv(cfg, w) && TruthfulAlbum(cfg, w, ev, env, created) && Distinct(ev.items)
    requires AlbumEffect(cfg, w.rows, w.disabled, ev, downloads, env, faults).calls != [] && Attempts(env).outcome.Done?
    requires forall i: nat :: i < |ev.items| ==> FindSource(w.rows, Coord(ev.chat, ev.items[i])).None?
    requires forall i: nat :: i < |ev.items| ==> !faults(i).LostBefore?
    ensures Clean(AfterAlbum(cfg, w, ev, downloads, env, faults, created).rows) <==> NamesApart(env, |ev.items|)
  {
    if NamesApart(env, |ev.items|) {
      AlbumKeeps(cfg, w, ev, downloads, env, faults, created);
    } else {
      var ids := IdsOf(Attempts(env).outcome.value);
      var i, j :| 0 <= i < j < |ev.items| && j < |ids| && ids[i] == ids[j];
      AfterAlbumShape(cfg, w, ev, downloads, env, faults, created);
      SharedTargetIsUnclean(cfg, RouteOf(cfg, w.disabled, ev.chat, ev.from).value, w.rows, ev, ids, faults, i, j);
    }
  }

  lemma {:induction false} SharedTargetIsUnclean(cfg: Config, route: Route, rows: seq<Mapping>, ev: AlbumEvent,
                                                 ids: seq<int>, faults: nat -> SaveFault, i: nat, j: nat)
    requires i < j < |ev.items| && j < |ids| && ids[i] == ids[j] != 0 && Distinct(ev.items)
    requires forall k: nat :: k < |ev.items| ==> FindSource(rows, Coord(ev.chat, ev.items[k])).None?
    requires !faults(i).LostBefore? && !faults(j).LostBefore?
    ensures !Clean(RecordItems(cfg, route, rows, ev, ids, faults, |ev.items|))
  {
    var after := RecordItems(cfg, route, rows, ev, ids, faults, |ev.items|);
    EveryItemGetsItsSave(cfg, route, rows, ev, ids, faults, |ev.items|, i);
    EveryItemGetsItsSave(cfg, route, rows, ev, ids, faults, |ev.items|, j);
    var a := FindSource(after, Coord(ev.chat, ev.items[i])).value;
    var b := FindSource(after, Coord(ev.chat, ev.items[j])).value;
    if Clean(after) { CleanApart(after, a, b); }
  }
}
