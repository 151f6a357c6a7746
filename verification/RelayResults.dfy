/** The relay's promises, over whole runs. */
module RelayResults {
  import opened Common
  import Entities
  import opened MessageStore
  import opened Pairs
  import opened Reactions
  import opened Relay
  import opened RelayInvariant
  import opened RelayTheorems
  import opened RelayWorld
  import opened Retry
  import opened Updates

  const START := World([], {}, map[], map[])

  lemma StartIsSound(cfg: Config)
    requires TwoSided(cfg.pairs)
    ensures Inv(cfg, START)
  {
    assert RowsOk(cfg, [], map[]) && TextsOk([], map[], map[]);
  }

  /** In every reachable state of the relay of one account: no source is recorded twice, no known
      target is recorded twice, and no message is both a known target and a source. */
  lemma {:induction false} NoMirrorIsEverASource(cfg: Config, steps: seq<Step>)
    requires TwoSided(cfg.pairs) && Legal(cfg, START, steps)
    ensures var rows := Exec(cfg, START, steps).rows;
      && (forall i, j :: 0 <= i < j < |rows| ==> rows[i].source != rows[j].source)
      && (forall i, j :: 0 <= i < j < |rows| && rows[i].target.msg != 0 ==> rows[i].target != rows[j].target)
      && (forall i, j :: 0 <= i < |rows| && 0 <= j < |rows| && rows[i].target.msg != 0 ==>
            rows[i].target != rows[j].source)
  {
    StartIsSound(cfg);
    RunKeeps(cfg, START, steps);
    var rows := Exec(cfg, START, steps).rows;
    forall i, j | 0 <= i < |rows| && 0 <= j < |rows|
      ensures rows[i].target.msg != 0 ==> rows[i].target != rows[j].source
    {
      CleanApart(rows, rows[i], rows[j]);
    }
    forall i, j | 0 <= i < j < |rows|
      ensures rows[i].source != rows[j].source
      ensures rows[i].target.msg != 0 ==> rows[i].target != rows[j].target
    {
      assert Apart(rows[i], rows[j]);
    }
  }

  lemma {:induction false} FindSourceAppend(rows: seq<Mapping>, m: Mapping, c: Coord)
    ensures FindSource(rows + [m], c) ==
            if FindSource(rows, c).Some? then FindSource(rows, c) else if m.source == c then Some(m) else None
  {
    if rows == [] {
      assert rows + [m] == [m];
    } else {
      assert (rows + [m])[1..] == rows[1..] + [m];
      FindSourceAppend(rows[1..], m, c);
    }
  }

  /** Nothing stands in the way of relaying an event from `from` in `chat`. */
  predicate Relays(cfg: Config, disabled: set<string>, chat: int, from: int) {
    && chat in cfg.pairs && from != cfg.selfID
    && cfg.pairs[chat].key !in disabled && cfg.pairs[chat].target in cfg.peers
  }

  /** A message is sent exactly if nothing stands in the way, and then with its own body, to the partner
      chat, at most five times. */
  lemma MessageIsSentExactlyIf(cfg: Config, w: World, ev: MessageEvent, env: SendEnv, fault: SaveFault)
    requires TwoSided(cfg.pairs)
    ensures var calls := NewMessageEffect(cfg, w.rows, w.disabled, ev, env, fault).calls;
      && (calls != [] <==> Relays(cfg, w.disabled, ev.chat, ev.from) && !env.waitCancelled)
      && |calls| <= 5
      && forall k :: 0 <= k < |calls| ==>
           calls[k] == Send(cfg.pairs[ev.chat].target, Outgoing(ev.content),
                            ReplyId(w.rows, ev.chat, ev.replyTo, env.faults))
  {
    RetryFacts(env.script, env.cancels);
    if ev.chat in cfg.pairs { assert SidesMatch(cfg.pairs, ev.chat); }
  }

  /** A new message whose send succeeded is recorded against the id in the response, unless saving fails
      beforehand; a pair is disabled exactly by a reported write-forbidden answer. */
  lemma SentMessageIsRecorded(cfg: Config, w: World, ev: MessageEvent, env: SendEnv, fault: SaveFault)
    requires TwoSided(cfg.pairs) && Relays(cfg, w.disabled, ev.chat, ev.from) && !env.waitCancelled
    ensures var e := NewMessageEffect(cfg, w.rows, w.disabled, ev, env, fault);
      var source := Coord(ev.chat, ev.id);
      && (e.disabled != w.disabled <==> Attempts(env).outcome.ChatForbidden?)
      && (FindSource(w.rows, source).None? ==>
            (FindSource(e.rows, source).Some? <==> Attempts(env).outcome.Done? && !fault.LostBefore?))
      && (FindSource(w.rows, source).None? && FindSource(e.rows, source).Some? ==>
            FindSource(e.rows, source).value.target
              == Coord(cfg.pairs[ev.chat].target, SentId(Attempts(env).outcome.value)))
      && (FindSource(w.rows, source).Some? ==> e.rows == w.rows)
  {
    assert SidesMatch(cfg.pairs, ev.chat);
    if Attempts(env).outcome.Done? {
      var route := RouteOf(cfg, w.disabled, ev.chat, ev.from).value;
      FindSourceAppend(w.rows, MappingFor(cfg, route, Coord(ev.chat, ev.id), SentId(Attempts(env).outcome.value), None),
                       Coord(ev.chat, ev.id));
    }
  }

  /** An album is sent exactly if, besides, all its items could be fetched and there are any. */
  lemma AlbumIsSentExactlyIf(cfg: Config, w: World, ev: AlbumEvent, downloads: nat -> bool, env: SendEnv,
                             faults: nat -> SaveFault)
    requires TwoSided(cfg.pairs)
    ensures var calls := AlbumEffect(cfg, w.rows, w.disabled, ev, downloads, env, faults).calls;
      && (calls != [] <==>
            Relays(cfg, w.disabled, ev.chat, ev.from) && (forall i: nat :: i < |ev.items| ==> downloads(i))
            && !env.waitCancelled && ev.items != [])
      && |calls| <= 5
      && forall k :: 0 <= k < |calls| ==>
           calls[k] == SendAlbum(cfg.pairs[ev.chat].target, |ev.items|,
                                 ReplyId(w.rows, ev.chat, ev.replyTo, env.faults))
  {
    RetryFacts(env.script, env.cancels);
    if ev.chat in cfg.pairs { assert SidesMatch(cfg.pairs, ev.chat); }
  }

  /** An edit is sent exactly if nothing stands in the way and the message has been recorded, and then
      once, to its mirror, with the new text. */
  lemma EditIsSentExactlyIf(cfg: Config, w: World, ev: EditEvent, fails: bool, answer: EditAnswer)
    requires Inv(cfg, w)
    ensures var calls := EditEffect(cfg, w.rows, w.disabled, ev, fails, answer).0;
      var row := FindSource(w.rows, Coord(ev.chat, ev.id));
      calls == if Relays(cfg, w.disabled, ev.chat, ev.from) && !fails && row.Some?
               then [Edit(cfg.pairs[ev.chat].target, row.value.target.msg, ev.text, Entities.ToTg(ev.entities),
                          ev.newMedia)]
               else []
  {
    var row := FindSource(w.rows, Coord(ev.chat, ev.id));
    if row.Some? { assert RowOk(cfg, w.posts, row.value); }
  }

  /** The event is about a message with coordinates `c`. */
  ghost predicate About(s: Step, c: Coord) {
    match s
    case Message(ev, _, _, _, _) => c == Coord(ev.chat, ev.id)
    case Album(ev, _, _, _, _) => c.chat == ev.chat && c.msg in ev.items
    case Edited(ev, _, _, _) => c == Coord(ev.chat, ev.id)
    case _ => false
  }

  /** A new-message, album or edit event about any post of the account has no effect at all: also if no row
      knows the post, because its save failed, its id was not read, or an unanswered attempt created it. */
  lemma MirrorEventsAreSilent(cfg: Config, w: World, s: Step, c: Coord)
    requires Enabled(cfg, w, s) && c in w.posts && w.posts[c].sender == cfg.selfID && About(s, c)
    ensures CallsOf(cfg, w, s) == [] && Next(cfg, w, s) == w
  {
    match s
    case Message(_, _, _, _, _) =>
    case Album(ev, _, _, _, _) => assert TruthfulItem(w.posts, ev, c.msg);
    case Edited(_, _, _, _) =>
  }

  /** In particular events about recorded mirrors. */
  lemma RecordedMirrorsAreSilent(cfg: Config, w: World, s: Step, m: Mapping)
    requires Inv(cfg, w) && Enabled(cfg, w, s) && m in w.rows && m.target.msg != 0 && About(s, m.target)
    ensures CallsOf(cfg, w, s) == [] && Next(cfg, w, s) == w
  {
    assert RowOk(cfg, w.posts, m);
    MirrorEventsAreSilent(cfg, w, s, m.target);
  }

  /** The chats of the calls for the first `n` ids of a batch. */
  lemma {:induction false} DeletesStayInPair(cfg: Config, w: World, ev: DeleteEvent, fails: nat -> bool, n: nat)
    requires Inv(cfg, w) && ev.chat in cfg.pairs && n <= |ev.ids|
    ensures forall k :: 0 <= k < |DeleteCalls(cfg, w.rows, ev, fails, n)| ==>
              DeleteCalls(cfg, w.rows, ev, fails, n)[k].chat == cfg.pairs[ev.chat].target
  {
    if n > 0 {
      DeletesStayInPair(cfg, w, ev, fails, n - 1);
      var row := FindSource(w.rows, Coord(ev.chat, ev.ids[n - 1]));
      if row.Some? { assert RowOk(cfg, w.posts, row.value); }
    }
  }

  /** No leak between pairs: whatever the event, every call goes to the partner of the event's chat. */
  lemma CallsStayInPair(cfg: Config, w: World, s: Step, k: nat)
    requires Inv(cfg, w) && k < |CallsOf(cfg, w, s)|
    ensures ChatOf(s).Some? && ChatOf(s).value in cfg.pairs
    ensures CallsOf(cfg, w, s)[k].chat == cfg.pairs[ChatOf(s).value].target
  {
    match s
    case Message(ev, _, _, _, _) => RouteFacts(cfg, w.disabled, ev.chat, ev.from);
    case Album(ev, _, _, _, _) => RouteFacts(cfg, w.disabled, ev.chat, ev.from);
    case Edited(ev, _, _, _) => assert RowOk(cfg, w.posts, FindSource(w.rows, Coord(ev.chat, ev.id)).value);
    case Deleted(ev, fails, _) => DeletesStayInPair(cfg, w, ev, fails, |ev.ids|);
  }

  /** Reactions stay in the pair too, although their handler never looks the chat up in the pairs. */
  lemma ReactionsStayInPair(cfg: Config, w: World, seen: map<Coord, set<string>>, key: Coord, current: set<string>,
                            faults: MirrorFaults)
    requires Inv(cfg, w) && SendsTo(w.rows, cfg.peers, seen, key, current, faults).Some?
    ensures key.chat in cfg.pairs
    ensures SendsTo(w.rows, cfg.peers, seen, key, current, faults).value.chat == cfg.pairs[key.chat].target
  {
    var m := if FindSource(w.rows, key).Some? then FindSource(w.rows, key).value else FindTarget(w.rows, key).value;
    assert RowOk(cfg, w.posts, m);
    RowChats(cfg, w.posts, m);
  }

  /** Loop freedom is for one account.  Seen by another account, the mirrors of this one are foreign: a
      message event about one of them is relayed exactly if that account is indeed another one and nothing
      else stands in the way. */
  lemma OtherAccountRelaysMirrors(cfg: Config, w: World, other: int, m: Mapping, ev: MessageEvent, env: SendEnv,
                                  fault: SaveFault)
    requires Inv(cfg, w) && m in w.rows && m.target.msg != 0
    requires ev.chat == m.target.chat && ev.id == m.target.msg
    requires Truthful(w.posts, m.target, ev.from, ev.replyTo)
    ensures NewMessageEffect(cfg.(selfID := other), w.rows, w.disabled, ev, env, fault).calls != [] <==>
            other != cfg.selfID && m.pairKey !in w.disabled && m.source.chat in cfg.peers && !env.waitCancelled
  {
    assert RowOk(cfg, w.posts, m);
    RowChats(cfg, w.posts, m);
    assert SidesMatch(cfg.pairs, m.source.chat);
    MessageIsSentExactlyIf(cfg.(selfID := other), w, ev, env, fault);
  }

  lemma {:induction false} RecordItemsGrows(cfg: Config, route: Route, rows: seq<Mapping>, ev: AlbumEvent,
                                            ids: seq<int>, faults: nat -> SaveFault, n: nat)
    requires n <= |ev.items|
    ensures Prefix(rows, RecordItems(cfg, route, rows, ev, ids, faults, n))
  {
    if n > 0 { RecordItemsGrows(cfg, route, rows, ev, ids, faults, n - 1); }
  }

  /** Nothing recorded is ever taken back: rows are only appended, and no post changes its sender or its
      reply edge. */
  ghost predicate Grows(w: World, later: World) {
    Prefix(w.rows, later.rows) && Extends(w.posts, later.posts)
  }

  lemma AlbumGrows(cfg: Config, w: World, ev: AlbumEvent, downloads: nat -> bool, env: SendEnv,
                   faults: nat -> SaveFault, created: set<int>)
    requires TwoSided(cfg.pairs) && TruthfulAlbum(cfg, w, ev, env, created)
    ensures Grows(w, AfterAlbum(cfg, w, ev, downloads, env, faults, created))
  {
    if AlbumEffect(cfg, w.rows, w.disabled, ev, downloads, env, faults).calls != [] {
      AfterAlbumShape(cfg, w, ev, downloads, env, faults, created);
      if Attempts(env).outcome.Done? {
        RecordItemsGrows(cfg, RouteOf(cfg, w.disabled, ev.chat, ev.from).value, w.rows, ev,
                         IdsOf(Attempts(env).outcome.value), faults, |ev.items|);
      }
    } else {
      QuietAlbum(cfg, w.rows, w.disabled, ev, downloads, env, faults);
    }
  }

  lemma MessageGrows(cfg: Config, w: World, ev: MessageEvent, version: nat, env: SendEnv, fault: SaveFault,
                     created: set<int>)
    requires TwoSided(cfg.pairs) && Enabled(cfg, w, Message(ev, version, env, fault, created))
    ensures Grows(w, AfterMessage(cfg, w, ev, version, env, fault, created))
  {
    if NewMessageEffect(cfg, w.rows, w.disabled, ev, env, fault).calls != [] {
      AfterMessageShape(cfg, w, ev, version, env, fault, created);
    }
  }

  lemma StepGrows(cfg: Config, w: World, s: Step)
    requires TwoSided(cfg.pairs) && Enabled(cfg, w, s)
    ensures Grows(w, Next(cfg, w, s))
  {
    match s
    case Message(ev, version, env, fault, created) => MessageGrows(cfg, w, ev, version, env, fault, created);
    case Album(ev, downloads, env, faults, created) => AlbumGrows(cfg, w, ev, downloads, env, faults, created);
    case _ =>
  }

  lemma {:induction false} RunGrows(cfg: Config, w: World, steps: seq<Step>)
    requires TwoSided(cfg.pairs) && Legal(cfg, w, steps)
    ensures Grows(w, Exec(cfg, w, steps))
    decreases |steps|
  {
    if steps != [] {
      var next := Next(cfg, w, steps[0]);
      StepGrows(cfg, w, steps[0]);
      RunGrows(cfg, next, steps[1..]);
      var last := Exec(cfg, w, steps);
      assert last.rows[..|next.rows|][..|w.rows|] == last.rows[..|w.rows|];
    }
  }

  /** The step ends with the pair being disabled. */
  predicate Disables(cfg: Config, w: World, s: Step, key: string) {
    match s
    case Message(ev, _, env, fault, _) =>
      NewMessageEffect(cfg, w.rows, w.disabled, ev, env, fault).result == PairDisabled && cfg.pairs[ev.chat].key == key
    case Album(ev, downloads, env, faults, _) =>
      && AlbumEffect(cfg, w.rows, w.disabled, ev, downloads, env, faults).result == PairDisabled
      && cfg.pairs[ev.chat].key == key
    case _ => false
  }

  lemma DisabledAfter(cfg: Config, w: World, s: Step, key: string)
    requires TwoSided(cfg.pairs)
    ensures key in Next(cfg, w, s).disabled <==> !s.Reconnected? && (key in w.disabled || Disables(cfg, w, s, key))
  {
    match s
    case Message(ev, _, _, _, _) =>
      if RouteOf(cfg, w.disabled, ev.chat, ev.from).Some? { RouteFacts(cfg, w.disabled, ev.chat, ev.from); }
    case Album(ev, _, _, _, _) =>
      if RouteOf(cfg, w.disabled, ev.chat, ev.from).Some? { RouteFacts(cfg, w.disabled, ev.chat, ev.from); }
    case _ =>
  }

  lemma {:induction false} ExecSnoc(cfg: Config, w: World, steps: seq<Step>)
    requires steps != []
    ensures Exec(cfg, w, steps) == Next(cfg, Exec(cfg, w, steps[..|steps| - 1]), steps[|steps| - 1])
    decreases |steps|
  {
    if |steps| > 1 {
      assert steps[1..][..|steps| - 2] == steps[..|steps| - 1][1..];
      ExecSnoc(cfg, Next(cfg, w, steps[0]), steps[1..]);
    }
  }

  predicate NoReconnectFrom(steps: seq<Step>, i: nat) {
    forall k {:trigger Reconnects(steps, k)} :: i <= k < |steps| ==> !Reconnects(steps, k)
  }

  predicate Reconnects(steps: seq<Step>, k: int)
    requires 0 <= k < |steps|
  {
    steps[k].Reconnected?
  }

  /** Step `i` disables the pair, and no reconnect follows it. */
  ghost predicate DisabledAt(cfg: Config, w: World, steps: seq<Step>, i: nat, key: string)
    requires i < |steps|
  {
    Disables(cfg, Exec(cfg, w, steps[..i]), steps[i], key) && NoReconnectFrom(steps, i + 1)
  }

  /** A pair is disabled exactly as long as the bridge object lives that disabled it: at the end of a run
      it is disabled if and only if it was at the beginning, or some step disabled it, and no reconnect
      followed. */
  lemma {:induction false} DisabledUntilReconnect(cfg: Config, w: World, steps: seq<Step>, key: string)
    requires TwoSided(cfg.pairs)
    ensures key in Exec(cfg, w, steps).disabled <==>
      || (key in w.disabled && NoReconnectFrom(steps, 0))
      || (exists i: nat :: i < |steps| && DisabledAt(cfg, w, steps, i, key))
  {
    if steps != [] {
      var n := |steps| - 1;
      var front := steps[..n];
      DisabledUntilReconnect(cfg, w, front, key);
      ExecSnoc(cfg, w, steps);
      DisabledAfter(cfg, Exec(cfg, w, front), steps[n], key);
      forall i: nat | i <= n
        ensures NoReconnectFrom(steps, i) <==> NoReconnectFrom(front, i) && !steps[n].Reconnected?
      {
        OneMoreReconnect(steps, i);
      }
      forall i: nat | i < n
        ensures DisabledAt(cfg, w, steps, i, key) <==>
                DisabledAt(cfg, w, front, i, key) && !steps[n].Reconnected?
      {
        assert front[..i] == steps[..i];
      }
      assert DisabledAt(cfg, w, steps, n, key) <==> Disables(cfg, Exec(cfg, w, front), steps[n], key);
    }
  }

  lemma OneMoreReconnect(steps: seq<Step>, i: nat)
    requires steps != [] && i <= |steps| - 1
    ensures NoReconnectFrom(steps, i) <==> NoReconnectFrom(steps[..|steps| - 1], i) && !steps[|steps| - 1].Reconnected?
  {
    var front := steps[..|steps| - 1];
    if NoReconnectFrom(steps, i) {
      assert !Reconnects(steps, |steps| - 1);
      forall k | i <= k < |front| ensures !Reconnects(front, k) { assert !Reconnects(steps, k); }
    }
    if NoReconnectFrom(front, i) && !steps[|steps| - 1].Reconnected? {
      forall k | i <= k < |steps| ensures !Reconnects(steps, k) {
        if k < |front| { assert !Reconnects(front, k); }
      }
    }
  }

  /** While it is disabled, none of its new-message, album, edit and delete events causes a call. */
  lemma DisabledPairIsSilent(cfg: Config, w: World, s: Step)
    requires TwoSided(cfg.pairs)
    requires ChatOf(s).Some? && ChatOf(s).value in cfg.pairs && cfg.pairs[ChatOf(s).value].key in w.disabled
    ensures CallsOf(cfg, w, s) == []
  {
  }
}
