/** What holds under every interleaving of the handlers. */
module RelayInterleaving {
  import opened Common
  import opened MessageStore
  import opened Pairs
  import opened Relay
  import opened RelayInvariant
  import opened RelayMoves
  import opened RelayResults
  import opened RelayTexts
  import opened RelayTheorems
  import opened RelayTraffic
  import opened RelayWorld

  /** Every move keeps the invariant, in whatever order the pieces of the handlers come. */
  lemma MoveKeeps(cfg: Config, t: Traffic, m: Move)
    requires TrafficOk(cfg, t) && CanMove(cfg, t, m)
    ensures TrafficOk(cfg, Moved(cfg, t, m))
  {
    match m
    case Whole(s) => WholeKeeps(cfg, t, s);
    case Admit(job) => AdmitKeeps(cfg, t, job);
    case Resolve(f, faults) => ResolveKeeps(cfg, t, f, faults);
    case Dispatch(f, created, result) => DispatchKeeps(cfg, t, f, created, result);
    case Record(f, fault) => RecordKeeps(cfg, t, f, fault);
    case FindEdited(ev, version) => FindEditedKeeps(cfg, t, ev, version);
    case SendEdit(f, answer) => SendEditKeeps(cfg, t, f, answer);
    case AdmitBatch(ev) => JoinKeeps(cfg, t, Erasing(ev, 0, None));
    case FindDeleted(f, fails) => FindDeletedKeeps(cfg, t, f, fails);
    case SendDelete(f, reply) => SendDeleteKeeps(cfg, t, f, reply);
  }

  lemma WholeKeeps(cfg: Config, t: Traffic, s: Step)
    requires TrafficOk(cfg, t) && Enabled(cfg, t.w, s)
    ensures TrafficOk(cfg, t.(w := Next(cfg, t.w, s)))
  {
    var v := Next(cfg, t.w, s);
    StepKeeps(cfg, t.w, s);
    WholeIsLater(cfg, t.w, s);
    forall i | 0 <= i < |t.flights| ensures FlightOk(cfg, v, t.flights[i]) {
      assert FlightOk(cfg, t.w, t.flights[i]);
      FlightSurvives(cfg, t.w, v, None, t.flights[i]);
    }
  }

  lemma {:induction false} InterleavedRunKeeps(cfg: Config, t: Traffic, moves: seq<Move>)
    requires TrafficOk(cfg, t) && CanRun(cfg, t, moves)
    ensures TrafficOk(cfg, Run(cfg, t, moves))
    decreases |moves|
  {
    if moves != [] {
      MoveKeeps(cfg, t, moves[0]);
      InterleavedRunKeeps(cfg, Moved(cfg, t, moves[0]), moves[1..]);
    }
  }

  /** The flag of `RelayTexts`, move by move: saving the row of a message, or having its edit accepted, makes
      the mirror show the version that was sent. */
  ghost predicate BehindMove(cfg: Config, t: Traffic, m: Move, c: Coord, behind: bool)
    requires CanMove(cfg, t, m)
  {
    match m
    case Whole(s) => BehindAfter(cfg, t.w, s, c, behind)
    case Record(f, _) =>
      var job, k := t.flights[f].job, t.flights[f].next;
      if c == Coord(job.chat, job.items[k]) && |Moved(cfg, t, m).w.rows| > |t.w.rows|
      then !Newest(t.w, c, job.version) else behind
    case SendEdit(f, answer) =>
      var ev, version := t.flights[f].edit, t.flights[f].version;
      if c == Coord(ev.chat, ev.id) && Holding(answer) then !Newest(t.w, c, version) else behind
    case _ => behind
  }

  ghost predicate BehindMoves(cfg: Config, t: Traffic, moves: seq<Move>, c: Coord, behind: bool)
    requires CanRun(cfg, t, moves)
    decreases |moves|
  {
    if moves == [] then behind
    else BehindMoves(cfg, Moved(cfg, t, moves[0]), moves[1..], c, BehindMove(cfg, t, moves[0], c, behind))
  }

  lemma RecordFlag(cfg: Config, t: Traffic, f: nat, fault: SaveFault, c: Coord, behind: bool)
    requires TrafficOk(cfg, t) && CanMove(cfg, t, Record(f, fault)) && FlagOk(t.w, c, behind)
    ensures FlagOk(Moved(cfg, t, Record(f, fault)).w, c, BehindMove(cfg, t, Record(f, fault), c, behind))
  {
    if c in t.w.shown { ShownIsForeign(cfg, t.w, c); }
    RecordedRow(cfg, t, f);
  }

  lemma DispatchFlag(cfg: Config, t: Traffic, f: nat, created: set<int>, result: SendResult, c: Coord, behind: bool)
    requires TrafficOk(cfg, t) && CanMove(cfg, t, Dispatch(f, created, result)) && FlagOk(t.w, c, behind)
    ensures FlagOk(Moved(cfg, t, Dispatch(f, created, result)).w, c, behind)
  {
    if c in t.w.shown { ShownIsForeign(cfg, t.w, c); }
  }

  lemma SendEditFlag(cfg: Config, t: Traffic, f: nat, answer: EditAnswer, c: Coord, behind: bool)
    requires TrafficOk(cfg, t) && CanMove(cfg, t, SendEdit(f, answer)) && FlagOk(t.w, c, behind)
    ensures FlagOk(Moved(cfg, t, SendEdit(f, answer)).w, c, BehindMove(cfg, t, SendEdit(f, answer), c, behind))
  {
    LateEditIsFresh(cfg, t, f, answer);
    FlagAfter(cfg, t.w.(disabled := {}), Edited(t.flights[f].edit, t.flights[f].version, false, answer), c, behind);
  }

  lemma FlagAfterMove(cfg: Config, t: Traffic, m: Move, c: Coord, behind: bool)
    requires TrafficOk(cfg, t) && CanMove(cfg, t, m) && FlagOk(t.w, c, behind)
    ensures FlagOk(Moved(cfg, t, m).w, c, BehindMove(cfg, t, m, c, behind))
  {
    match m
    case Whole(s) => FlagAfter(cfg, t.w, s, c, behind);
    case Dispatch(f, created, result) => DispatchFlag(cfg, t, f, created, result, c, behind);
    case Record(f, fault) => RecordFlag(cfg, t, f, fault, c, behind);
    case SendEdit(f, answer) => SendEditFlag(cfg, t, f, answer, c, behind);
    case SendDelete(f, _) => if c in t.w.shown { ShownIsForeign(cfg, t.w, c); }
    case _ =>
  }

  /** Being up to date is exactly having relayed the newest version last, under every interleaving. */
  lemma {:induction false} FlagInInterleavedRun(cfg: Config, t: Traffic, moves: seq<Move>, c: Coord, behind: bool)
    requires TrafficOk(cfg, t) && CanRun(cfg, t, moves) && FlagOk(t.w, c, behind)
    ensures FlagOk(Run(cfg, t, moves).w, c, BehindMoves(cfg, t, moves, c, behind))
    decreases |moves|
  {
    if moves != [] {
      FlagAfterMove(cfg, t, moves[0], c, behind);
      MoveKeeps(cfg, t, moves[0]);
      FlagInInterleavedRun(cfg, Moved(cfg, t, moves[0]), moves[1..], c, BehindMove(cfg, t, moves[0], c, behind));
    }
  }

  const QUIET := Traffic(START, [])

  /** Under every interleaving of the handlers, from the empty state: sources and known targets are unique
      and no known target is a source; each mirror that replies, replies to the other side of what its source
      replies to; and each live, known mirror of a text message shows a version of its source, and the newest
      one unless it is behind. */
  lemma {:induction false} InterleavingIsSafe(cfg: Config, moves: seq<Move>)
    requires TwoSided(cfg.pairs) && CanRun(cfg, QUIET, moves)
    ensures var w := Run(cfg, QUIET, moves).w;
      && Clean(w.rows)
      && (forall m :: m in w.rows ==> EdgeOk(w.rows, w.posts, m))
      && (forall m :: m in w.rows ==> AgreesWithSource(w, m, BehindMoves(cfg, QUIET, moves, m.source, false)))
  {
    StartIsSound(cfg);
    InterleavedRunKeeps(cfg, QUIET, moves);
    var w := Run(cfg, QUIET, moves).w;
    forall m | m in w.rows
      ensures EdgeOk(w.rows, w.posts, m)
      ensures AgreesWithSource(w, m, BehindMoves(cfg, QUIET, moves, m.source, false))
    {
      FlagInInterleavedRun(cfg, QUIET, moves, m.source, false);
      FlagMeansAgreement(cfg, w, m, BehindMoves(cfg, QUIET, moves, m.source, false));
    }
  }
}
