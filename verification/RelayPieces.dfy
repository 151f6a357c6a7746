/** A handler that nothing disturbs is the sequence of its pieces, whatever else is under way. */
module RelayPieces {
  import opened Common
  import opened MessageStore
  import opened Pairs
  import opened Relay
  import opened RelayInvariant
  import opened RelayTheorems
  import opened RelayTraffic
  import opened RelayWorld
  import opened Updates

  predicate Pieces(moves: seq<Move>) {
    forall k :: 0 <= k < |moves| ==> !moves[k].Whole?
  }

  /** The moves lead to the world `w` and leave the other handlers alone. */
  ghost predicate LeadsTo(cfg: Config, t: Traffic, moves: seq<Move>, w: World) {
    && Pieces(moves) && CanRun(cfg, t, moves)
    && Run(cfg, t, moves).w == w && |Run(cfg, t, moves).flights| >= |t.flights|
    && Run(cfg, t, moves).flights[..|t.flights|] == t.flights
  }

  function ResultOf(env: SendEnv): SendResult {
    match Attempts(env).outcome
    case Done(response) => SentAs(IdsOf(response))
    case ChatForbidden => Forbidden
    case _ => NotSent
  }

  /** Guards and reply of a handler, one after the other. */
  lemma StartPieces(cfg: Config, t: Traffic, before: seq<Move>, job: Job, faults: Faults) returns (moves: seq<Move>)
    requires CanRun(cfg, t, before) && CanMove(cfg, Run(cfg, t, before), Admit(job))
    ensures (Pieces(before) ==> Pieces(moves)) && CanRun(cfg, t, moves)
    ensures var u := Run(cfg, t, before);
      Run(cfg, t, moves) == u.(flights := u.flights + [Resolved(job, ReplyId(u.w.rows, job.chat, job.replyTo, faults))])
  {
    var f := |Run(cfg, t, before).flights|;
    RunSnoc(cfg, t, before, Admit(job));
    moves := before + [Admit(job)];
    RunSnoc(cfg, t, moves, Resolve(f, faults));
    moves := moves + [Resolve(f, faults)];
  }

  /** The same with the send. */
  lemma SendPieces(cfg: Config, t: Traffic, before: seq<Move>, job: Job, faults: Faults, created: set<int>,
                   result: SendResult) returns (moves: seq<Move>)
    requires CanRun(cfg, t, before) && CanMove(cfg, Run(cfg, t, before), Admit(job))
    requires FreshIds(Run(cfg, t, before).w.posts, job.route.target, created)
    requires result.SentAs? ==> NamesSent(result.ids, created, |job.items|)
    ensures (Pieces(before) ==> Pieces(moves)) && CanRun(cfg, t, moves)
    ensures var u := Run(cfg, t, before);
      var replyId := ReplyId(u.w.rows, job.chat, job.replyTo, faults);
      Run(cfg, t, moves) == Traffic(
        u.w.(posts := Spread(u.w.posts, job.route.target, created, OwnPost(cfg, Outgoing(job.content), replyId)),
             disabled := if result.Forbidden? then u.w.disabled + {job.route.key} else u.w.disabled),
        u.flights + [if result.SentAs? then Recording(job, replyId, result.ids, 0) else Landed])
  {
    var f := |Run(cfg, t, before).flights|;
    moves := StartPieces(cfg, t, before, job, faults);
    RunSnoc(cfg, t, moves, Dispatch(f, created, result));
    moves := moves + [Dispatch(f, created, result)];
  }

  lemma MessageIsItsPieces(cfg: Config, t: Traffic, ev: MessageEvent, version: nat, env: SendEnv, fault: SaveFault,
                           created: set<int>) returns (moves: seq<Move>)
    requires TwoSided(cfg.pairs) && Enabled(cfg, t.w, Message(ev, version, env, fault, created))
    ensures LeadsTo(cfg, t, moves, AfterMessage(cfg, t.w, ev, version, env, fault, created))
  {
    if NewMessageEffect(cfg, t.w.rows, t.w.disabled, ev, env, fault).calls == [] {
      QuietMessage(cfg, t.w.rows, t.w.disabled, ev, env, fault);
      moves := [];
    } else {
      RouteFacts(cfg, t.w.disabled, ev.chat, ev.from);
      var job := JobOf(ev, version, RouteOf(cfg, t.w.disabled, ev.chat, ev.from).value);
      assert ItemReported(t.w.posts, job, ev.id);
      moves := SendPieces(cfg, t, [], job, env.faults, created, ResultOf(env));
      if ResultOf(env).SentAs? { moves := OneMore(cfg, t, moves, Record(|t.flights|, fault)); }
    }
  }

  function JobOf(ev: MessageEvent, version: nat, route: Route): Job {
    Job(ev.chat, ev.from, [ev.id], ev.replyTo, None, version, ev.content, route)
  }

  /** One more piece. */
  lemma OneMore(cfg: Config, t: Traffic, before: seq<Move>, m: Move) returns (moves: seq<Move>)
    requires Pieces(before) && CanRun(cfg, t, before) && CanMove(cfg, Run(cfg, t, before), m) && !m.Whole?
    ensures Pieces(moves) && CanRun(cfg, t, moves)
    ensures Run(cfg, t, moves) == Moved(cfg, Run(cfg, t, before), m)
  {
    RunSnoc(cfg, t, before, m);
    moves := before + [m];
  }

  predicate SameAlbum(job: Job, ev: AlbumEvent) {
    && job.chat == ev.chat && job.items == ev.items && job.group == Some(ev.group) && job.content.MediaContent?
  }

  /** A flight about to record its first item, of the album `ev`. */
  ghost predicate Records(u: Traffic, f: nat, ev: AlbumEvent) {
    f < |u.flights| && u.flights[f].Recording? && u.flights[f].next == 0 && SameAlbum(u.flights[f].job, ev)
  }

  /** The same when `n` items have been saved. */
  ghost function Recorded(cfg: Config, u: Traffic, f: nat, ev: AlbumEvent, faults: nat -> SaveFault, n: nat): Traffic
    requires Records(u, f, ev) && n <= |ev.items|
  {
    var job, ids := u.flights[f].job, u.flights[f].ids;
    Traffic(u.w.(rows := RecordItems(cfg, job.route, u.w.rows, ev, ids, faults, n)),
            u.flights[f := u.flights[f].(next := n)])
  }

  lemma NextRecord(cfg: Config, u: Traffic, f: nat, ev: AlbumEvent, faults: nat -> SaveFault, n: nat)
    requires Records(u, f, ev) && n < |ev.items|
    ensures CanMove(cfg, Recorded(cfg, u, f, ev, faults, n), Record(f, faults(n)))
    ensures Moved(cfg, Recorded(cfg, u, f, ev, faults, n), Record(f, faults(n)))
         == Recorded(cfg, u, f, ev, faults, n + 1)
  {
  }

  lemma NothingRecorded(cfg: Config, u: Traffic, f: nat, ev: AlbumEvent, faults: nat -> SaveFault)
    requires Records(u, f, ev)
    ensures Recorded(cfg, u, f, ev, faults, 0) == u
  {
  }

  /** The saves of an album, one after the other. */
  lemma {:induction false} RecordPieces(cfg: Config, t: Traffic, before: seq<Move>, f: nat, ev: AlbumEvent,
                                        faults: nat -> SaveFault, n: nat) returns (moves: seq<Move>)
    requires Pieces(before) && CanRun(cfg, t, before) && Records(Run(cfg, t, before), f, ev) && n <= |ev.items|
    ensures Pieces(moves) && CanRun(cfg, t, moves)
    ensures Run(cfg, t, moves) == Recorded(cfg, Run(cfg, t, before), f, ev, faults, n)
  {
    if n == 0 {
      moves := before;
      NothingRecorded(cfg, Run(cfg, t, before), f, ev, faults);
    } else {
      moves := RecordPieces(cfg, t, before, f, ev, faults, n - 1);
      NextRecord(cfg, Run(cfg, t, before), f, ev, faults, n - 1);
      moves := OneMore(cfg, t, moves, Record(f, faults(n - 1)));
    }
  }

  lemma AlbumIsItsPieces(cfg: Config, t: Traffic, ev: AlbumEvent, downloads: nat -> bool, env: SendEnv,
                         faults: nat -> SaveFault, created: set<int>) returns (moves: seq<Move>)
    requires Inv(cfg, t.w) && Enabled(cfg, t.w, Album(ev, downloads, env, faults, created))
    ensures LeadsTo(cfg, t, moves, AfterAlbum(cfg, t.w, ev, downloads, env, faults, created))
  {
    var e := AlbumEffect(cfg, t.w.rows, t.w.disabled, ev, downloads, env, faults);
    if e.calls == [] {
      QuietAlbum(cfg, t.w.rows, t.w.disabled, ev, downloads, env, faults);
      moves := [];
    } else {
      var route := RouteOf(cfg, t.w.disabled, ev.chat, ev.from).value;
      RouteFacts(cfg, t.w.disabled, ev.chat, ev.from);
      var job := Job(ev.chat, ev.from, ev.items, ev.replyTo, Some(ev.group), 0, MediaContent, route);
      forall id | id in ev.items ensures ItemReported(t.w.posts, job, id) {
        assert TruthfulItem(t.w.posts, ev, id) && PostOk(t.w.posts[Coord(ev.chat, id)]);
      }
      moves := SendPieces(cfg, t, [], job, env.faults, created, ResultOf(env));
      if ResultOf(env).SentAs? {
        moves := RecordPieces(cfg, t, moves, |t.flights|, ev, faults, |ev.items|);
      }
    }
  }

  lemma EditIsItsPieces(cfg: Config, t: Traffic, ev: EditEvent, version: nat, fails: bool, answer: EditAnswer)
    returns (moves: seq<Move>)
    requires Enabled(cfg, t.w, Edited(ev, version, fails, answer))
    ensures LeadsTo(cfg, t, moves, AfterEdit(cfg, t.w, ev, version, fails, answer))
  {
    if EditEffect(cfg, t.w.rows, t.w.disabled, ev, fails, answer).0 == [] {
      moves := [];
    } else {
      RunSnoc(cfg, t, [], FindEdited(ev, version));
      RunSnoc(cfg, t, [FindEdited(ev, version)], SendEdit(|t.flights|, answer));
      moves := [FindEdited(ev, version)] + [SendEdit(|t.flights|, answer)];
    }
  }

  lemma KilledSnoc(posts: map<Coord, Post>, calls: seq<Call>, c: Coord, answers: nat -> DeleteAnswer)
    ensures Killed(posts, calls + [Delete(c.chat, c.msg)], answers)
         == if answers(|calls|).DeleteAccepted? then Without(Killed(posts, calls, answers), c)
            else Killed(posts, calls, answers)
  {
    var more := calls + [Delete(c.chat, c.msg)];
    forall a ensures KilledBy(a, more, answers) <==>
                     KilledBy(a, calls, answers) || (a == c && answers(|calls|).DeleteAccepted?)
    {
      assert more[|calls|] == Delete(c.chat, c.msg);
      if KilledBy(a, calls, answers) {
        var k :| 0 <= k < |calls| && calls[k] == Delete(a.chat, a.msg) && answers(k).DeleteAccepted?;
        assert more[k] == calls[k];
      }
    }
  }

  /** The lookups and calls of a batch, id by id; the k-th call gets the k-th answer. */
  lemma {:induction false} BatchPieces(cfg: Config, t: Traffic, ev: DeleteEvent, fails: nat -> bool,
                                       answers: nat -> DeleteAnswer, n: nat) returns (moves: seq<Move>)
    requires HandlesDeletes(cfg, t.w.disabled, ev) && n <= |ev.ids|
    ensures Pieces(moves) && CanRun(cfg, t, moves)
    ensures Run(cfg, t, moves) == Traffic(
      t.w.(posts := Killed(t.w.posts, DeleteCalls(cfg, t.w.rows, ev, fails, n), answers)),
      t.flights + [Erasing(ev, n, None)])
  {
    var f := |t.flights|;
    if n == 0 {
      RunSnoc(cfg, t, [], AdmitBatch(ev));
      moves := [] + [AdmitBatch(ev)];
      assert Killed(t.w.posts, [], answers) == t.w.posts;
    } else {
      var front := BatchPieces(cfg, t, ev, fails, answers, n - 1);
      moves := OneDeletion(cfg, t, front, ev, fails, answers, n - 1);
    }
  }

  /** The next id of a batch. */
  lemma OneDeletion(cfg: Config, t: Traffic, front: seq<Move>, ev: DeleteEvent, fails: nat -> bool,
                    answers: nat -> DeleteAnswer, n: nat) returns (moves: seq<Move>)
    requires n < |ev.ids| && Pieces(front) && CanRun(cfg, t, front)
    requires Run(cfg, t, front) == Traffic(
      t.w.(posts := Killed(t.w.posts, DeleteCalls(cfg, t.w.rows, ev, fails, n), answers)),
      t.flights + [Erasing(ev, n, None)])
    ensures Pieces(moves) && CanRun(cfg, t, moves)
    ensures Run(cfg, t, moves) == Traffic(
      t.w.(posts := Killed(t.w.posts, DeleteCalls(cfg, t.w.rows, ev, fails, n + 1), answers)),
      t.flights + [Erasing(ev, n + 1, None)])
  {
    var calls := DeleteCalls(cfg, t.w.rows, ev, fails, n);
    var found := DeletedMirror(cfg, t.w.rows, ev.chat, ev.ids[n], fails(n));
    moves := LookUpPiece(cfg, t, front, ev, fails(n), n);
    if found.Some? {
      KilledSnoc(t.w.posts, calls, found.value, answers);
      moves := FoundDeletion(cfg, t, moves, ev, n, found.value, answers(|calls|));
    }
  }

  lemma LookUpPiece(cfg: Config, t: Traffic, front: seq<Move>, ev: DeleteEvent, fails: bool, n: nat)
    returns (moves: seq<Move>)
    requires n < |ev.ids| && Pieces(front) && CanRun(cfg, t, front)
    requires Run(cfg, t, front).flights == t.flights + [Erasing(ev, n, None)]
    ensures Pieces(moves) && CanRun(cfg, t, moves)
    ensures var w := Run(cfg, t, front).w;
      var found := DeletedMirror(cfg, w.rows, ev.chat, ev.ids[n], fails);
      Run(cfg, t, moves) == Traffic(w, t.flights + [Erasing(ev, if found.Some? then n else n + 1, found)])
  {
    RunSnoc(cfg, t, front, FindDeleted(|t.flights|, fails));
    moves := front + [FindDeleted(|t.flights|, fails)];
  }

  lemma FoundDeletion(cfg: Config, t: Traffic, front: seq<Move>, ev: DeleteEvent, pos: nat, c: Coord,
                      reply: DeleteAnswer) returns (moves: seq<Move>)
    requires Pieces(front) && CanRun(cfg, t, front)
    requires Run(cfg, t, front).flights == t.flights + [Erasing(ev, pos, Some(c))]
    ensures Pieces(moves) && CanRun(cfg, t, moves)
    ensures var w := Run(cfg, t, front).w;
      Run(cfg, t, moves) == Traffic(
        w.(posts := if reply.DeleteAccepted? then Without(w.posts, c) else w.posts),
        t.flights + [Erasing(ev, pos + 1, None)])
  {
    RunSnoc(cfg, t, front, SendDelete(|t.flights|, reply));
    moves := front + [SendDelete(|t.flights|, reply)];
  }

  /** Every handler that runs undisturbed is a run of its pieces. */
  lemma WholeIsItsPieces(cfg: Config, t: Traffic, s: Step) returns (moves: seq<Move>)
    requires Inv(cfg, t.w) && Enabled(cfg, t.w, s) && ChatOf(s).Some?
    ensures LeadsTo(cfg, t, moves, Next(cfg, t.w, s))
  {
    match s
    case Message(ev, version, env, fault, created) =>
      moves := MessageIsItsPieces(cfg, t, ev, version, env, fault, created);
    case Album(ev, downloads, env, faults, created) =>
      moves := AlbumIsItsPieces(cfg, t, ev, downloads, env, faults, created);
    case Edited(ev, version, fails, answer) => moves := EditIsItsPieces(cfg, t, ev, version, fails, answer);
    case Deleted(ev, fails, answers) =>
      if HandlesDeletes(cfg, t.w.disabled, ev) {
        moves := BatchPieces(cfg, t, ev, fails, answers, |ev.ids|);
      } else {
        moves := [];
      }
  }
}
