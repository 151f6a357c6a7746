/** Relaying commutes with replying. */
module RelayReplies {
  import opened Common
  import opened MessageStore
  import opened Pairs
  import opened Relay
  import opened RelayInvariant
  import opened RelayResults
  import opened RelayTheorems
  import opened RelayWorld
  import opened Updates

  /** In every reachable state, for messages and albums alike: a mirror that replies to something replies
      to the other side of what its source replies to. */
  lemma {:induction false} MirrorsReplyToCounterparts(cfg: Config, steps: seq<Step>, m: Mapping)
    requires TwoSided(cfg.pairs) && Legal(cfg, START, steps)
    requires var w := Exec(cfg, START, steps);
      m in w.rows && m.target in w.posts && w.posts[m.target].replyTo.Some?
    ensures var w := Exec(cfg, START, steps);
      && m.source in w.posts && w.posts[m.source].replyTo.Some?
      && Opposite(w.rows, Coord(m.source.chat, w.posts[m.source].replyTo.value))
           == Some(Coord(m.target.chat, w.posts[m.target].replyTo.value))
  {
    StartIsSound(cfg);
    RunKeeps(cfg, START, steps);
    var w := Exec(cfg, START, steps);
    assert EdgeOk(w.rows, w.posts, m);
  }

  /** The reply edge a mirror should have. */
  function EdgeFor(rows: seq<Mapping>, chat: int, replyTo: Option<int>): Option<int> {
    if replyTo.Some? && Opposite(rows, Coord(chat, replyTo.value)).Some?
    then EdgeTo(Opposite(rows, Coord(chat, replyTo.value)).value.msg)
    else None
  }

  /** Relaying commutes with replying.  With working lookups, the mirror of a newly recorded message
      replies to the other side of the message its source replies to, whether that one was a mirror
      or an original, and is plain exactly if no known other side was recorded; and no later step of
      any run changes the edge or the other side it was taken from. */
  lemma {:induction false} RelayCommutesWithReply(cfg: Config, w: World, ev: MessageEvent, version: nat, env: SendEnv,
                                                  fault: SaveFault, created: set<int>, steps: seq<Step>)
    requires Inv(cfg, w) && Legal(cfg, w, [Message(ev, version, env, fault, created)] + steps)
    requires env.faults == Faults(false, false)
    requires var next := AfterMessage(cfg, w, ev, version, env, fault, created);
      FindSource(w.rows, Coord(ev.chat, ev.id)).None? && FindSource(next.rows, Coord(ev.chat, ev.id)).Some?
    ensures var last := Exec(cfg, w, [Message(ev, version, env, fault, created)] + steps);
      var m := FindSource(last.rows, Coord(ev.chat, ev.id));
      && m.Some? && m.value.target.chat == cfg.pairs[ev.chat].target
      && (m.value.target.msg != 0 ==>
            m.value.target in last.posts && last.posts[m.value.target].replyTo == EdgeFor(w.rows, ev.chat, ev.replyTo))
      && (EdgeFor(w.rows, ev.chat, ev.replyTo).Some? ==>
            EdgeFor(last.rows, ev.chat, ev.replyTo) == EdgeFor(w.rows, ev.chat, ev.replyTo))
  {
    var s := Message(ev, version, env, fault, created);
    var next := AfterMessage(cfg, w, ev, version, env, fault, created);
    assert ([s] + steps)[1..] == steps;
    MessageKeeps(cfg, w, ev, version, env, fault, created);
    RecordedEdge(cfg, w, ev, version, env, fault, created);
    LaterEdge(cfg, next, steps, FindSource(next.rows, Coord(ev.chat, ev.id)).value);
    StepGrows(cfg, w, s);
    EdgeStays(cfg, w, next, steps, ev.chat, ev.replyTo);
  }

  /** A known counterpart stays the counterpart. */
  lemma {:induction false} EdgeStays(cfg: Config, w: World, next: World, steps: seq<Step>, chat: int,
                                     replyTo: Option<int>)
    requires Inv(cfg, w) && Inv(cfg, next) && Prefix(w.rows, next.rows) && Legal(cfg, next, steps)
    requires replyTo.Some? ==> replyTo.value > 0
    ensures EdgeFor(w.rows, chat, replyTo).Some? ==>
            EdgeFor(Exec(cfg, next, steps).rows, chat, replyTo) == EdgeFor(w.rows, chat, replyTo)
  {
    if EdgeFor(w.rows, chat, replyTo).Some? {
      RunGrows(cfg, next, steps);
      RunKeeps(cfg, next, steps);
      PrefixStable(w.rows, next.rows, Coord(chat, replyTo.value));
      PrefixStable(next.rows, Exec(cfg, next, steps).rows, Coord(chat, replyTo.value));
    }
  }

  lemma RecordedEdge(cfg: Config, w: World, ev: MessageEvent, version: nat, env: SendEnv, fault: SaveFault,
                     created: set<int>)
    requires Inv(cfg, w) && Enabled(cfg, w, Message(ev, version, env, fault, created))
    requires env.faults == Faults(false, false)
    requires var next := AfterMessage(cfg, w, ev, version, env, fault, created);
      FindSource(w.rows, Coord(ev.chat, ev.id)).None? && FindSource(next.rows, Coord(ev.chat, ev.id)).Some?
    ensures var next := AfterMessage(cfg, w, ev, version, env, fault, created);
      var m := FindSource(next.rows, Coord(ev.chat, ev.id)).value;
      m.target.msg != 0 ==>
        m.target in next.posts && next.posts[m.target].replyTo == EdgeFor(w.rows, ev.chat, ev.replyTo)
  {
    var next := AfterMessage(cfg, w, ev, version, env, fault, created);
    var m := FindSource(next.rows, Coord(ev.chat, ev.id)).value;
    assert m !in w.rows;
    if NewMessageEffect(cfg, w.rows, w.disabled, ev, env, fault).calls == [] {
      QuietMessage(cfg, w.rows, w.disabled, ev, env, fault);
    } else {
      AfterMessageShape(cfg, w, ev, version, env, fault, created);
      RouteFacts(cfg, w.disabled, ev.chat, ev.from);
    }
  }

  lemma {:induction false} LaterEdge(cfg: Config, w: World, steps: seq<Step>, m: Mapping)
    requires Inv(cfg, w) && Legal(cfg, w, steps) && m in w.rows
    ensures var last := Exec(cfg, w, steps);
      && FindSource(last.rows, m.source) == Some(m)
      && m.source.chat in cfg.pairs && m.target.chat == cfg.pairs[m.source.chat].target
      && (m.target.msg != 0 ==>
            m.target in w.posts && m.target in last.posts && last.posts[m.target].replyTo == w.posts[m.target].replyTo)
  {
    assert RowOk(cfg, w.posts, m);
    RunGrows(cfg, w, steps);
    RunKeeps(cfg, w, steps);
    var last := Exec(cfg, w, steps);
    assert m in last.rows[..|w.rows|];
    LookupsUnique(last.rows, m);
  }

  /** The same for albums: every newly recorded item. */
  lemma {:induction false} AlbumCommutesWithReply(cfg: Config, w: World, ev: AlbumEvent, downloads: nat -> bool,
                                                  env: SendEnv,
                                                  faults: nat -> SaveFault, created: set<int>, steps: seq<Step>, i: nat)
    requires Inv(cfg, w) && Legal(cfg, w, [Album(ev, downloads, env, faults, created)] + steps)
    requires env.faults == Faults(false, false) && i < |ev.items|
    requires var next := AfterAlbum(cfg, w, ev, downloads, env, faults, created);
      FindSource(w.rows, Coord(ev.chat, ev.items[i])).None? && FindSource(next.rows, Coord(ev.chat, ev.items[i])).Some?
    ensures var last := Exec(cfg, w, [Album(ev, downloads, env, faults, created)] + steps);
      var m := FindSource(last.rows, Coord(ev.chat, ev.items[i]));
      && m.Some? && m.value.target.chat == cfg.pairs[ev.chat].target
      && (m.value.target.msg != 0 ==>
            m.value.target in last.posts && last.posts[m.value.target].replyTo == EdgeFor(w.rows, ev.chat, ev.replyTo))
      && (EdgeFor(w.rows, ev.chat, ev.replyTo).Some? ==>
            EdgeFor(last.rows, ev.chat, ev.replyTo) == EdgeFor(w.rows, ev.chat, ev.replyTo))
  {
    var s := Album(ev, downloads, env, faults, created);
    var next := AfterAlbum(cfg, w, ev, downloads, env, faults, created);
    assert ([s] + steps)[1..] == steps;
    assert TruthfulItem(w.posts, ev, ev.items[i]);
    AlbumKeeps(cfg, w, ev, downloads, env, faults, created);
    RecordedItemEdge(cfg, w, ev, downloads, env, faults, created, i);
    LaterEdge(cfg, next, steps, FindSource(next.rows, Coord(ev.chat, ev.items[i])).value);
    StepGrows(cfg, w, s);
    EdgeStays(cfg, w, next, steps, ev.chat, ev.replyTo);
  }

  lemma RecordedItemEdge(cfg: Config, w: World, ev: AlbumEvent, downloads: nat -> bool, env: SendEnv,
                         faults: nat -> SaveFault, created: set<int>, i: nat)
    requires Inv(cfg, w) && Enabled(cfg, w, Album(ev, downloads, env, faults, created))
    requires env.faults == Faults(false, false) && i < |ev.items|
    requires var next := AfterAlbum(cfg, w, ev, downloads, env, faults, created);
      FindSource(w.rows, Coord(ev.chat, ev.items[i])).None? && FindSource(next.rows, Coord(ev.chat, ev.items[i])).Some?
    ensures var next := AfterAlbum(cfg, w, ev, downloads, env, faults, created);
      var m := FindSource(next.rows, Coord(ev.chat, ev.items[i])).value;
      m.target.msg != 0 ==>
        m.target in next.posts && next.posts[m.target].replyTo == EdgeFor(w.rows, ev.chat, ev.replyTo)
  {
    var next := AfterAlbum(cfg, w, ev, downloads, env, faults, created);
    var m := FindSource(next.rows, Coord(ev.chat, ev.items[i])).value;
    if AlbumEffect(cfg, w.rows, w.disabled, ev, downloads, env, faults).calls == [] {
      QuietAlbum(cfg, w.rows, w.disabled, ev, downloads, env, faults);
    } else {
      AfterAlbumShape(cfg, w, ev, downloads, env, faults, created);
      RouteFacts(cfg, w.disabled, ev.chat, ev.from);
      var route := RouteOf(cfg, w.disabled, ev.chat, ev.from).value;
      var ids := IdsOf(Attempts(env).outcome.value);
      var k := NewRowIsItem(cfg, route, w.rows, ev, ids, faults, |ev.items|, m);
    }
  }

  /** A row that recording an album has added belongs to one of its items. */
  lemma {:induction false} NewRowIsItem(cfg: Config, route: Route, rows: seq<Mapping>, ev: AlbumEvent, ids: seq<int>,
                                        faults: nat -> SaveFault, n: nat, m: Mapping) returns (k: nat)
    requires n <= |ev.items| && m in RecordItems(cfg, route, rows, ev, ids, faults, n) && m !in rows
    ensures k < n && m == ItemMapping(cfg, route, ev, ids, k)
  {
    if m in RecordItems(cfg, route, rows, ev, ids, faults, n - 1) {
      k := NewRowIsItem(cfg, route, rows, ev, ids, faults, n - 1, m);
    } else {
      k := n - 1;
    }
  }
}
