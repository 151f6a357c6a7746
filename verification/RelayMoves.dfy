/** Each piece of a handler, and everything that may come between, keeps the invariant of the traffic. */
module RelayMoves {
  import opened Common
  import opened MessageStore
  import opened Relay
  import opened RelayInvariant
  import opened RelayReplies
  import opened RelayResults
  import opened RelayTheorems
  import opened RelayTraffic
  import opened RelayWorld
  import opened Updates

  /** The targets of new rows were unknown to Telegram before, or are unknown to the relay. */
  lemma WholeRecordsNew(cfg: Config, w: World, s: Step, a: Mapping)
    requires Inv(cfg, w) && Enabled(cfg, w, s) && a in Next(cfg, w, s).rows && a !in w.rows
    ensures a.target.msg != 0 ==> a.target !in w.posts
  {
    match s
    case Message(ev, version, env, fault, created) =>
      if NewMessageEffect(cfg, w.rows, w.disabled, ev, env, fault).calls == [] {
        QuietMessage(cfg, w.rows, w.disabled, ev, env, fault);
      } else {
        RouteFacts(cfg, w.disabled, ev.chat, ev.from);
      }
    case Album(ev, downloads, env, faults, created) => AlbumRecordsNew(cfg, w, ev, downloads, env, faults, created, a);
    case Edited(_, _, _, _) =>
    case _ =>
  }

  lemma AlbumRecordsNew(cfg: Config, w: World, ev: AlbumEvent, downloads: nat -> bool, env: SendEnv,
                        faults: nat -> SaveFault, created: set<int>, a: Mapping)
    requires Inv(cfg, w) && TruthfulAlbum(cfg, w, ev, env, created)
    requires a in AfterAlbum(cfg, w, ev, downloads, env, faults, created).rows && a !in w.rows
    ensures a.target.msg != 0 ==> a.target !in w.posts
  {
    if AlbumEffect(cfg, w.rows, w.disabled, ev, downloads, env, faults).calls == [] {
      QuietAlbum(cfg, w.rows, w.disabled, ev, downloads, env, faults);
    } else {
      RouteFacts(cfg, w.disabled, ev.chat, ev.from);
      var route := RouteOf(cfg, w.disabled, ev.chat, ev.from).value;
      var k := NewRowIsItem(cfg, route, w.rows, ev, IdsOf(Attempts(env).outcome.value), faults, |ev.items|, a);
    }
  }

  lemma MessageKeepsPost(cfg: Config, w: World, ev: MessageEvent, version: nat, env: SendEnv, fault: SaveFault,
                         created: set<int>, c: Coord)
    requires Inv(cfg, w) && Enabled(cfg, w, Message(ev, version, env, fault, created)) && c in w.posts
    ensures KeptPost(cfg, w, AfterMessage(cfg, w, ev, version, env, fault, created), c)
  {
    if NewMessageEffect(cfg, w.rows, w.disabled, ev, env, fault).calls != [] {
      AfterMessageShape(cfg, w, ev, version, env, fault, created);
    }
  }

  lemma AlbumKeepsPost(cfg: Config, w: World, ev: AlbumEvent, downloads: nat -> bool, env: SendEnv,
                       faults: nat -> SaveFault, created: set<int>, c: Coord)
    requires Inv(cfg, w) && TruthfulAlbum(cfg, w, ev, env, created) && c in w.posts
    ensures KeptPost(cfg, w, AfterAlbum(cfg, w, ev, downloads, env, faults, created), c)
  {
    if AlbumEffect(cfg, w.rows, w.disabled, ev, downloads, env, faults).calls != [] {
      AfterAlbumShape(cfg, w, ev, downloads, env, faults, created);
    }
  }

  lemma EditKeepsPost(cfg: Config, w: World, ev: EditEvent, version: nat, fails: bool, answer: EditAnswer, c: Coord)
    requires Inv(cfg, w) && Enabled(cfg, w, Edited(ev, version, fails, answer)) && c in w.posts
    ensures KeptPost(cfg, w, AfterEdit(cfg, w, ev, version, fails, answer), c)
  {
    if EditTakesHold(cfg, w, ev, fails, answer) {
      assert RowOk(cfg, w.posts, FindSource(w.rows, Coord(ev.chat, ev.id)).value);
      EditedPosts(cfg, w, ev, version, fails, answer);
    }
  }

  lemma WholeKeepsPost(cfg: Config, w: World, s: Step, c: Coord)
    requires Inv(cfg, w) && Enabled(cfg, w, s) && c in w.posts
    ensures KeptPost(cfg, w, Next(cfg, w, s), c)
  {
    match s
    case Message(ev, version, env, fault, created) => MessageKeepsPost(cfg, w, ev, version, env, fault, created, c);
    case Album(ev, downloads, env, faults, created) => AlbumKeepsPost(cfg, w, ev, downloads, env, faults, created, c);
    case Edited(ev, version, fails, answer) => EditKeepsPost(cfg, w, ev, version, fails, answer, c);
    case _ =>
  }

  lemma WholeIsLater(cfg: Config, w: World, s: Step)
    requires Inv(cfg, w) && Enabled(cfg, w, s)
    ensures Later(cfg, w, Next(cfg, w, s), None)
  {
    var v := Next(cfg, w, s);
    StepKeeps(cfg, w, s);
    StepGrows(cfg, w, s);
    forall c | c in w.posts ensures KeptPost(cfg, w, v, c) { WholeKeepsPost(cfg, w, s, c); }
    forall c | c in w.posts && Unrecorded(w.rows, c) ensures Unrecorded(v.rows, c) {
      forall a | a in v.rows ensures a.target != c {
        if a !in w.rows { WholeRecordsNew(cfg, w, s, a); }
      }
    }
  }

  /** All flights but one survive a change; what becomes of that one is a condition. */
  lemma OthersSurvive(cfg: Config, t: Traffic, v: World, f: nat, g: Flight, spent: Option<Coord>)
    requires TrafficOk(cfg, t) && Inv(cfg, v) && Later(cfg, t.w, v, spent)
    requires f < |t.flights| && FlightOk(cfg, v, g) && (spent.Some? ==> Holds(t.flights[f], spent.value))
    requires forall c {:trigger Holds(g, c)} :: Holds(g, c) ==> Holds(t.flights[f], c) || c !in t.w.posts
    ensures TrafficOk(cfg, Traffic(v, t.flights[f := g]))
  {
    var flights := t.flights[f := g];
    forall i | 0 <= i < |flights| ensures FlightOk(cfg, v, flights[i]) {
      if i != f {
        assert FlightOk(cfg, t.w, t.flights[i]) && FlightsApart(t.flights[f], t.flights[i]);
        FlightSurvives(cfg, t.w, v, spent, t.flights[i]);
      }
    }
    forall i, j | 0 <= i < |flights| && 0 <= j < |flights| && i != j ensures FlightsApart(flights[i], flights[j]) {
      forall c | Holds(flights[i], c) ensures !Holds(flights[j], c) {
        assert FlightsApart(t.flights[i], t.flights[j]);
        if i == f { HeldIsPosted(cfg, t, j, c); }
        if j == f { HeldIsPosted(cfg, t, i, c); }
      }
    }
  }

  lemma HeldIsPosted(cfg: Config, t: Traffic, i: nat, c: Coord)
    requires TrafficOk(cfg, t) && i < |t.flights|
    ensures Holds(t.flights[i], c) ==> c in t.w.posts
  {
    var f := t.flights[i];
    assert FlightOk(cfg, t.w, f);
    if Holds(f, c) {
      var k: nat :| f.next <= k < |f.job.items| && TargetId(f.ids, k) == c.msg;
      assert ItemSent(cfg, t.w, f.job, f.replyId, TargetId(f.ids, k));
    }
  }

  /** A handler that has sent nothing yet may join. */
  lemma JoinKeeps(cfg: Config, t: Traffic, g: Flight)
    requires TrafficOk(cfg, t) && FlightOk(cfg, t.w, g) && !g.Recording?
    ensures TrafficOk(cfg, t.(flights := t.flights + [g]))
  {
    var flights := t.flights + [g];
    forall i | 0 <= i < |flights| ensures FlightOk(cfg, t.w, flights[i]) {
      if i < |t.flights| { assert FlightOk(cfg, t.w, t.flights[i]); }
    }
    forall i, j | 0 <= i < |flights| && 0 <= j < |flights| && i != j ensures FlightsApart(flights[i], flights[j]) {
      if i < |t.flights| && j < |t.flights| { assert FlightsApart(t.flights[i], t.flights[j]); }
    }
  }

  lemma AdmitKeeps(cfg: Config, t: Traffic, job: Job)
    requires TrafficOk(cfg, t) && CanMove(cfg, t, Admit(job))
    ensures TrafficOk(cfg, Moved(cfg, t, Admit(job)))
  {
    RouteFacts(cfg, t.w.disabled, job.chat, job.from);
    assert ItemReported(t.w.posts, job, job.items[0]);
    JoinKeeps(cfg, t, Admitted(job));
  }

  lemma NothingIsLater(cfg: Config, w: World, disabled: set<string>)
    requires Inv(cfg, w)
    ensures Later(cfg, w, w.(disabled := disabled), None)
  {
  }

  lemma ResolveKeeps(cfg: Config, t: Traffic, f: nat, faults: Faults)
    requires TrafficOk(cfg, t) && CanMove(cfg, t, Resolve(f, faults))
    ensures TrafficOk(cfg, Moved(cfg, t, Resolve(f, faults)))
  {
    var job := t.flights[f].job;
    assert FlightOk(cfg, t.w, t.flights[f]);
    var id := ReplyId(t.w.rows, job.chat, job.replyTo, faults);
    if id != 0 { ReplyIsOpposite(cfg, t.w, job.chat, job.replyTo, faults); }
    NothingIsLater(cfg, t.w, t.w.disabled);
    OthersSurvive(cfg, t, t.w, f, Resolved(job, id), None);
  }

  lemma DispatchKeeps(cfg: Config, t: Traffic, f: nat, created: set<int>, result: SendResult)
    requires TrafficOk(cfg, t) && CanMove(cfg, t, Dispatch(f, created, result))
    ensures TrafficOk(cfg, Moved(cfg, t, Dispatch(f, created, result)))
  {
    var job, replyId := t.flights[f].job, t.flights[f].replyId;
    var v, g := Moved(cfg, t, Dispatch(f, created, result)).w, Moved(cfg, t, Dispatch(f, created, result)).flights[f];
    assert FlightOk(cfg, t.w, t.flights[f]);
    var post := OwnPost(cfg, Outgoing(job.content), replyId);
    SpreadKeeps(cfg, t.w, job.route.target, created, post);
    assert Inv(cfg, v);
    assert Later(cfg, t.w, v, None) by {
      forall c | c in t.w.posts ensures KeptPost(cfg, t.w, v, c) { }
    }
    JobSurvives(cfg, t.w, v, None, job);
    if result.SentAs? {
      forall k: nat | k < |job.items| ensures ItemSent(cfg, v, job, replyId, TargetId(result.ids, k)) {
        var id := TargetId(result.ids, k);
        if id != 0 { NewTargetIsNew(cfg, t.w, Coord(job.route.target, id)); }
      }
    }
    OthersSurvive(cfg, t, v, f, g, None);
  }

  /** The row to be recorded is sound. */
  lemma RecordedRow(cfg: Config, t: Traffic, f: nat)
    requires TrafficOk(cfg, t) && CanMove(cfg, t, Record(f, NoFault))
    ensures var flight := t.flights[f];
      var m := RowOf(cfg, flight.job, flight.ids, flight.next);
      && RowOk(cfg, t.w.posts, m) && EdgeOk(t.w.rows, t.w.posts, m)
      && (m.target.msg != 0 ==> Unrecorded(t.w.rows, m.target) && Holds(flight, m.target))
      && ItemReported(t.w.posts, flight.job, m.source.msg)
      && (m.target in t.w.posts ==> t.w.posts[m.target].body == Outgoing(flight.job.content))
  {
    var flight := t.flights[f];
    assert FlightOk(cfg, t.w, flight);
    assert flight.job.items[flight.next] in flight.job.items;
    assert ItemReported(t.w.posts, flight.job, flight.job.items[flight.next]);
    assert ItemSent(cfg, t.w, flight.job, flight.replyId, TargetId(flight.ids, flight.next));
  }

  lemma RecordIsSound(cfg: Config, t: Traffic, f: nat, fault: SaveFault)
    requires TrafficOk(cfg, t) && CanMove(cfg, t, Record(f, fault))
    ensures Inv(cfg, Moved(cfg, t, Record(f, fault)).w)
  {
    var job, w := t.flights[f].job, t.w;
    var m := RowOf(cfg, job, t.flights[f].ids, t.flights[f].next);
    RecordedRow(cfg, t, f);
    AddRow(cfg, w.rows, w.posts, m, fault);
    if FindSource(w.rows, m.source).None? {
      if job.content.TextContent? {
        NewTextRow(w.rows, w.posts, w.shown, m, job.version);
      } else {
        NewOtherRow(w.rows, w.posts, w.shown, m);
      }
    }
  }

  lemma RecordIsLater(cfg: Config, w: World, v: World, m: Mapping, fault: SaveFault)
    requires Inv(cfg, w) && Inv(cfg, v) && v.posts == w.posts && v.rows == SaveRow(w.rows, m, fault).0
    ensures Later(cfg, w, v, if m.target.msg == 0 then None else Some(m.target))
  {
    forall c | c in w.posts && Unrecorded(w.rows, c) && c != m.target ensures Unrecorded(v.rows, c) {
      assert forall a :: a in v.rows ==> a in w.rows || a == m;
    }
  }

  /** The flight goes on with the items that are left. */
  lemma NextItem(cfg: Config, t: Traffic, f: nat, fault: SaveFault)
    requires TrafficOk(cfg, t) && CanMove(cfg, t, Record(f, fault))
    requires Inv(cfg, Moved(cfg, t, Record(f, fault)).w)
    ensures var v := Moved(cfg, t, Record(f, fault));
      && FlightOk(cfg, v.w, v.flights[f])
      && forall c {:trigger Holds(v.flights[f], c)} :: Holds(v.flights[f], c) ==> Holds(t.flights[f], c)
  {
    var flight, v := t.flights[f], Moved(cfg, t, Record(f, fault)).w;
    var m := RowOf(cfg, flight.job, flight.ids, flight.next);
    var spent := if m.target.msg == 0 then None else Some(m.target);
    assert FlightOk(cfg, t.w, flight);
    RecordIsLater(cfg, t.w, v, m, fault);
    JobSurvives(cfg, t.w, v, spent, flight.job);
    EdgeStillFits(cfg, t.w, v, spent, flight.job, flight.replyId);
    forall k: nat | flight.next + 1 <= k < |flight.job.items|
      ensures ItemSent(cfg, v, flight.job, flight.replyId, TargetId(flight.ids, k))
    {
      var c := Coord(flight.job.route.target, TargetId(flight.ids, k));
      assert ItemSent(cfg, t.w, flight.job, flight.replyId, TargetId(flight.ids, k));
      if c.msg != 0 { assert Unrecorded(v.rows, c); }
    }
  }

  lemma RecordKeeps(cfg: Config, t: Traffic, f: nat, fault: SaveFault)
    requires TrafficOk(cfg, t) && CanMove(cfg, t, Record(f, fault))
    ensures TrafficOk(cfg, Moved(cfg, t, Record(f, fault)))
  {
    var v := Moved(cfg, t, Record(f, fault));
    var m := RowOf(cfg, t.flights[f].job, t.flights[f].ids, t.flights[f].next);
    RecordedRow(cfg, t, f);
    RecordIsSound(cfg, t, f, fault);
    RecordIsLater(cfg, t.w, v.w, m, fault);
    NextItem(cfg, t, f, fault);
    OthersSurvive(cfg, t, v.w, f, v.flights[f], if m.target.msg == 0 then None else Some(m.target));
  }

  /** An edit call made now has the effect of an edit event handled now, as if the pair was enabled. */
  lemma LateEditIsFresh(cfg: Config, t: Traffic, f: nat, answer: EditAnswer)
    requires TrafficOk(cfg, t) && CanMove(cfg, t, SendEdit(f, answer))
    ensures var w := t.w.(disabled := {});
      var s := Edited(t.flights[f].edit, t.flights[f].version, false, answer);
      && Inv(cfg, w) && Enabled(cfg, w, s)
      && CallsOf(cfg, w, s) == [EditCall(t.flights[f].edit, t.flights[f].mirror)]
      && Moved(cfg, t, SendEdit(f, answer)).w == Next(cfg, w, s).(disabled := t.w.disabled)
  {
    assert FlightOk(cfg, t.w, t.flights[f]);
  }

  /** So does a delete call. */
  lemma LateDeleteIsFresh(cfg: Config, t: Traffic, f: nat, fails: nat -> bool, answers: nat -> DeleteAnswer)
    requires TrafficOk(cfg, t) && CanMove(cfg, t, SendDelete(f, answers(0))) && !fails(0)
    ensures t.flights[f].pos < |t.flights[f].batch.ids|
    ensures var w := t.w.(disabled := {});
      var batch, pos, c := t.flights[f].batch, t.flights[f].pos, t.flights[f].found.value;
      var s := Deleted(DeleteEvent(batch.chat, [batch.ids[pos]]), fails, answers);
      && Inv(cfg, w) && Enabled(cfg, w, s)
      && CallsOf(cfg, w, s) == [Delete(c.chat, c.msg)]
      && Moved(cfg, t, SendDelete(f, answers(0))).w == Next(cfg, w, s).(disabled := t.w.disabled)
  {
    assert FlightOk(cfg, t.w, t.flights[f]);
    var w, c := t.w.(disabled := {}), t.flights[f].found.value;
    var batch := DeleteEvent(t.flights[f].batch.chat, [t.flights[f].batch.ids[t.flights[f].pos]]);
    assert DeleteCalls(cfg, w.rows, batch, fails, 0) == [];
    OneKilled(w.posts, c, answers);
  }

  lemma OneKilled(posts: map<Coord, Post>, c: Coord, answers: nat -> DeleteAnswer)
    ensures Killed(posts, [Delete(c.chat, c.msg)], answers)
         == if answers(0).DeleteAccepted? then Without(posts, c) else posts
  {
    var calls := [Delete(c.chat, c.msg)];
    forall a ensures KilledBy(a, calls, answers) <==> a == c && answers(0).DeleteAccepted? {
      assert calls[0] == Delete(c.chat, c.msg);
    }
  }

  /** A call whose lookup lies in the past disturbs nobody. */
  lemma LateCallKeeps(cfg: Config, t: Traffic, s: Step, f: nat, g: Flight)
    requires TrafficOk(cfg, t) && f < |t.flights| && !g.Recording?
    requires var w := t.w.(disabled := {});
      && Inv(cfg, w) && Enabled(cfg, w, s)
      && FlightOk(cfg, Next(cfg, w, s), g)
    ensures var v := Next(cfg, t.w.(disabled := {}), s).(disabled := t.w.disabled);
      TrafficOk(cfg, Traffic(v, t.flights[f := g]))
  {
    var w := t.w.(disabled := {});
    var v := Next(cfg, w, s).(disabled := t.w.disabled);
    StepKeeps(cfg, w, s);
    WholeIsLater(cfg, w, s);
    DisablingIsNoMatter(cfg, w, t.w.disabled, Next(cfg, w, s), t.w.disabled, g);
    OthersSurvive(cfg, t, v, f, g, None);
  }

  lemma DisablingIsNoMatter(cfg: Config, w: World, d: set<string>, v: World, e: set<string>, g: Flight)
    ensures Inv(cfg, v) ==> Inv(cfg, v.(disabled := e))
    ensures Later(cfg, w, v, None) ==> Later(cfg, w.(disabled := d), v.(disabled := e), None)
    ensures FlightOk(cfg, v, g) ==> FlightOk(cfg, v.(disabled := e), g)
  {
    if Later(cfg, w, v, None) {
      forall c | c in w.posts ensures KeptPost(cfg, w.(disabled := d), v.(disabled := e), c) {
        assert KeptPost(cfg, w, v, c);
      }
    }
  }

  lemma FindEditedKeeps(cfg: Config, t: Traffic, ev: EditEvent, version: nat)
    requires TrafficOk(cfg, t) && CanMove(cfg, t, FindEdited(ev, version))
    ensures TrafficOk(cfg, Moved(cfg, t, FindEdited(ev, version)))
  {
    JoinKeeps(cfg, t, Amending(ev, version, FindSource(t.w.rows, Coord(ev.chat, ev.id)).value.target));
  }

  lemma SendEditKeeps(cfg: Config, t: Traffic, f: nat, answer: EditAnswer)
    requires TrafficOk(cfg, t) && CanMove(cfg, t, SendEdit(f, answer))
    ensures TrafficOk(cfg, Moved(cfg, t, SendEdit(f, answer)))
  {
    LateEditIsFresh(cfg, t, f, answer);
    LateCallKeeps(cfg, t, Edited(t.flights[f].edit, t.flights[f].version, false, answer), f, Landed);
  }

  lemma FindDeletedKeeps(cfg: Config, t: Traffic, f: nat, fails: bool)
    requires TrafficOk(cfg, t) && CanMove(cfg, t, FindDeleted(f, fails))
    ensures TrafficOk(cfg, Moved(cfg, t, FindDeleted(f, fails)))
  {
    assert FlightOk(cfg, t.w, t.flights[f]);
    NothingIsLater(cfg, t.w, t.w.disabled);
    OthersSurvive(cfg, t, t.w, f, Moved(cfg, t, FindDeleted(f, fails)).flights[f], None);
  }

  lemma SendDeleteKeeps(cfg: Config, t: Traffic, f: nat, reply: DeleteAnswer)
    requires TrafficOk(cfg, t) && CanMove(cfg, t, SendDelete(f, reply))
    ensures TrafficOk(cfg, Moved(cfg, t, SendDelete(f, reply)))
  {
    var ev, pos := t.flights[f].batch, t.flights[f].pos;
    assert FlightOk(cfg, t.w, t.flights[f]);
    var fails: nat -> bool, answers: nat -> DeleteAnswer := _ => false, _ => reply;
    LateDeleteIsFresh(cfg, t, f, fails, answers);
    LateCallKeeps(cfg, t, Deleted(DeleteEvent(ev.chat, [ev.ids[pos]]), fails, answers), f, Erasing(ev, pos + 1, None));
  }
}
