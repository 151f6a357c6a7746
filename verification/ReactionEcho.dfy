/** The echo of mirrored reactions: the account's own reaction on a mirror comes back as an event on
    the mirror, carrying the union of what users and the account put there. */
module ReactionEcho {
  import opened Common
  import opened MessageStore
  import opened Reactions
  import opened ReactionMirroring

  /** One of a message and its mirror: users' reactions, the account's, and the set in the cache. */
  datatype End = End(users: set<string>, bot: set<string>, seen: set<string>)

  datatype Echo = Echo(a: End, b: End)

  datatype Ping = Ping(onA: bool, applied: bool)

  function Shown(e: End): set<string> {
    e.users + e.bot
  }

  predicate Settled(e: End) {
    e.seen == Shown(e)
  }

  predicate Quiet(e: Echo) {
    Settled(e.a) && Settled(e.b)
  }

  function Swap(e: Echo): Echo {
    Echo(e.b, e.a)
  }

  /** An event on end `a`; it sends unless that end is settled. */
  function EventOnA(e: Echo, applied: bool): Echo {
    Echo(e.a.(seen := Shown(e.a)), if !Settled(e.a) && applied then e.b.(bot := Shown(e.a)) else e.b)
  }

  function EventOn(e: Echo, p: Ping): Echo {
    if p.onA then EventOnA(e, p.applied) else Swap(EventOnA(Swap(e), p.applied))
  }

  predicate Sends(e: Echo, p: Ping) {
    !Settled(if p.onA then e.a else e.b)
  }

  function Run(e: Echo, ps: seq<Ping>): Echo {
    if ps == [] then e else EventOn(Run(e, ps[..|ps| - 1]), ps[|ps| - 1])
  }

  /** `b` holds what `a` last sent. */
  predicate Passed(e: Echo) {
    Settled(e.a) && e.b.bot == e.a.seen
  }

  /** ... and what `a` sent already contains everything the users of `b` added. */
  predicate Merged(e: Echo) {
    Passed(e) && e.b.users <= e.a.seen
  }

  /** How many more sends are possible; `reliable` if every send is applied. */
  function Left(e: Echo, reliable: bool): nat {
    if Quiet(e) then 0
    else if Merged(e) || Merged(Swap(e)) then 1
    else if Passed(e) || Passed(Swap(e)) then 2
    else if reliable || Settled(e.a) || Settled(e.b) then 3
    else 4
  }

  /** Every send uses up one of the sends that were left; an event without a send changes nothing. */
  lemma EventUsesOne(e: Echo, p: Ping, reliable: bool)
    requires reliable ==> p.applied
    ensures Left(EventOn(e, p), reliable) + (if Sends(e, p) then 1 else 0) <= Left(e, reliable)
  {
    if p.onA { EventOnAUsesOne(e, p.applied, reliable); } else { EventOnAUsesOne(Swap(e), p.applied, reliable); }
  }

  lemma EventOnAUsesOne(e: Echo, applied: bool, reliable: bool)
    requires reliable ==> applied
    ensures Left(EventOnA(e, applied), reliable) + (if Settled(e.a) then 0 else 1) <= Left(e, reliable)
  {
    var after := EventOnA(e, applied);
    if Settled(e.a) {
      assert after == e;
    } else if applied {
      assert Passed(after);
      if Passed(Swap(e)) {
        assert e.b.users <= e.b.seen == e.a.bot <= after.a.seen;
        assert Merged(after);
        if Merged(Swap(e)) {
          assert Shown(e.a) == e.b.seen;
          assert Settled(after.b);
        }
      }
    }
  }

  /** End, and pair of ends, as seen in the relay's state. */
  function EndOf(w: Mirrors, c: Coord, users: set<string>): End {
    End(users, SetAt(w.bots, c), SetAt(w.cache, c))
  }

  function EchoOf(w: Mirrors, c: Coord, d: Coord, uc: set<string>, ud: set<string>): Echo {
    Echo(EndOf(w, c, uc), EndOf(w, d, ud))
  }

  /** No message is its own mirror. */
  lemma NotOwnOpposite(rows: seq<Mapping>, c: Coord)
    requires Clean(rows) && c.msg != 0
    ensures Opposite(rows, c) != Some(c)
  {
    if FindTarget(rows, c).Some? {
      CleanApart(rows, FindTarget(rows, c).value, FindTarget(rows, c).value);
    } else if FindSource(rows, c).Some? {
      CleanApart(rows, FindSource(rows, c).value, FindSource(rows, c).value);
    }
  }

  /** `c` and `d` are each other's recorded other side. */
  ghost predicate Linked(rows: seq<Mapping>, c: Coord, d: Coord) {
    && Clean(rows) && c.msg != 0 && d.msg != 0
    && Opposite(rows, c) == Some(d) && Opposite(rows, d) == Some(c)
  }

  /** What may happen while the users' reactions on `c` and `d` stay as they are: events on either carry
      the current union, and everything else is arbitrary. */
  ghost predicate EchoStep(w: Mirrors, h: Happening, c: Coord, d: Coord, uc: set<string>, ud: set<string>) {
    match h
    case Reacted(key, current, _, _) =>
      && key.msg != 0
      && (key == c ==> current == uc + SetAt(w.bots, c))
      && (key == d ==> current == ud + SetAt(w.bots, d))
    case Recorded(row) => Clean(w.rows + [row])
    case Evicted(_) => true
  }

  predicate OnEnd(h: Happening, c: Coord, d: Coord) {
    h.Reacted? && (h.key == c || h.key == d)
  }

  predicate EvictsEnd(h: Happening, c: Coord, d: Coord) {
    h.Evicted? && (c in h.keys || d in h.keys)
  }

  predicate Reliable(peers: set<int>, h: Happening, c: Coord, d: Coord) {
    OnEnd(h, c, d) ==> h.applied && h.faults == NO_FAULTS && c.chat in peers && d.chat in peers
  }

  ghost predicate AllReliable(peers: set<int>, hs: seq<Happening>, c: Coord, d: Coord) {
    hs == [] || (AllReliable(peers, hs[..|hs| - 1], c, d) && Reliable(peers, hs[|hs| - 1], c, d))
  }

  ghost predicate EchoRun(peers: set<int>, w: Mirrors, hs: seq<Happening>, c: Coord, d: Coord,
                          uc: set<string>, ud: set<string>) {
    hs == [] || (
      && EchoRun(peers, w, hs[..|hs| - 1], c, d, uc, ud)
      && EchoStep(Play(peers, w, hs[..|hs| - 1]), hs[|hs| - 1], c, d, uc, ud))
  }

  /** Whether a happening sends because of an event on `c` or `d`. */
  function SendOf(peers: set<int>, w: Mirrors, h: Happening, c: Coord, d: Coord): nat {
    if OnEnd(h, c, d) && SentTo(peers, w, h).Some? then 1 else 0
  }

  function SentFor(peers: set<int>, w: Mirrors, hs: seq<Happening>, c: Coord, d: Coord): nat {
    if hs == [] then 0
    else SentFor(peers, w, hs[..|hs| - 1], c, d) + SendOf(peers, Play(peers, w, hs[..|hs| - 1]), hs[|hs| - 1], c, d)
  }

  /** How often the set of `c` or `d` is evicted, by the clean-up or by a reconnect. */
  function Evictions(hs: seq<Happening>, c: Coord, d: Coord): nat {
    if hs == [] then 0
    else Evictions(hs[..|hs| - 1], c, d) + if EvictsEnd(hs[|hs| - 1], c, d) then 1 else 0
  }

  /** An event on `c` or `d` is exactly an event on that end of the echo. */
  lemma ReactionIsPing(peers: set<int>, w: Mirrors, h: Happening, c: Coord, d: Coord, uc: set<string>, ud: set<string>)
    requires Linked(w.rows, c, d) && OnEnd(h, c, d) && EchoStep(w, h, c, d, uc, ud)
    ensures var p := Ping(h.key == c, h.applied && SentTo(peers, w, h).Some?);
      && EchoOf(After(peers, w, h), c, d, uc, ud) == EventOn(EchoOf(w, c, d, uc, ud), p)
      && (SentTo(peers, w, h).Some? ==> Sends(EchoOf(w, c, d, uc, ud), p))
      && (Reliable(peers, h, c, d) ==> (Sends(EchoOf(w, c, d, uc, ud), p) <==> SentTo(peers, w, h).Some?))
  {
    NotOwnOpposite(w.rows, c);
    LookupOrdersAgree(w.rows, h.key);
    FoundIsMirror(w.rows, h.key, h.faults);
  }

  /** Apart from evictions, nothing else touches the two ends. */
  lemma OthersLeaveEndsAlone(peers: set<int>, w: Mirrors, h: Happening, c: Coord, d: Coord, uc: set<string>,
                             ud: set<string>)
    requires Linked(w.rows, c, d) && EchoStep(w, h, c, d, uc, ud) && !OnEnd(h, c, d) && !EvictsEnd(h, c, d)
    ensures EchoOf(After(peers, w, h), c, d, uc, ud) == EchoOf(w, c, d, uc, ud)
  {
    if h.Reacted? {
      LookupOrdersAgree(w.rows, h.key);
      FoundIsMirror(w.rows, h.key, h.faults);
      if Opposite(w.rows, h.key) == Some(d) { OppositeInjective(w.rows, h.key, c); }
      if Opposite(w.rows, h.key) == Some(c) { OppositeInjective(w.rows, h.key, d); }
    }
  }

  lemma StaysLinked(peers: set<int>, w: Mirrors, h: Happening, c: Coord, d: Coord, uc: set<string>, ud: set<string>)
    requires Linked(w.rows, c, d) && EchoStep(w, h, c, d, uc, ud)
    ensures Linked(After(peers, w, h).rows, c, d)
  {
    if h.Recorded? {
      OppositeStable(w.rows, h.row, c);
      OppositeStable(w.rows, h.row, d);
    }
  }

  /** The echo dies out.  Whatever the cache and the account's reactions were, whatever else happens,
      and in whatever order the events arrive, a message and its mirror cause at most four sends, and
      at most three if every send is applied; as many again after each eviction of one of their sets. */
  lemma {:induction false} EchoDiesOut(peers: set<int>, w: Mirrors, hs: seq<Happening>, c: Coord, d: Coord,
                                       uc: set<string>, ud: set<string>)
    requires Linked(w.rows, c, d) && EchoRun(peers, w, hs, c, d, uc, ud)
    ensures SentFor(peers, w, hs, c, d) <= 4 * (1 + Evictions(hs, c, d))
    ensures AllReliable(peers, hs, c, d) ==> SentFor(peers, w, hs, c, d) <= 3 * (1 + Evictions(hs, c, d))
  {
    ExtraPerEviction(hs, c, d);
    EchoBudget(peers, w, hs, c, d, uc, ud, false);
    if AllReliable(peers, hs, c, d) {
      EchoBudget(peers, w, hs, c, d, uc, ud, true);
    }
  }

  /** The most that can be left. */
  function Most(reliable: bool): nat {
    if reliable then 3 else 4
  }

  /** What evictions may add. */
  function Extra(hs: seq<Happening>, c: Coord, d: Coord, reliable: bool): nat {
    if hs == [] then 0
    else Extra(hs[..|hs| - 1], c, d, reliable) + if EvictsEnd(hs[|hs| - 1], c, d) then Most(reliable) else 0
  }

  lemma {:induction false} ExtraPerEviction(hs: seq<Happening>, c: Coord, d: Coord)
    ensures Extra(hs, c, d, false) == 4 * Evictions(hs, c, d) && Extra(hs, c, d, true) == 3 * Evictions(hs, c, d)
  {
    if hs != [] { ExtraPerEviction(hs[..|hs| - 1], c, d); }
  }

  lemma {:induction false} EchoBudget(peers: set<int>, w: Mirrors, hs: seq<Happening>, c: Coord, d: Coord,
                                      uc: set<string>, ud: set<string>, reliable: bool)
    requires Linked(w.rows, c, d) && EchoRun(peers, w, hs, c, d, uc, ud)
    requires reliable ==> AllReliable(peers, hs, c, d)
    ensures var v := Play(peers, w, hs);
      && Linked(v.rows, c, d)
      && SentFor(peers, w, hs, c, d) + Left(EchoOf(v, c, d, uc, ud), reliable)
           <= Left(EchoOf(w, c, d, uc, ud), reliable) + Extra(hs, c, d, reliable)
  {
    if hs != [] {
      var front, h := hs[..|hs| - 1], hs[|hs| - 1];
      EchoBudget(peers, w, front, c, d, uc, ud, reliable);
      EchoBudgetStep(peers, Play(peers, w, front), h, c, d, uc, ud, reliable);
      StaysLinked(peers, Play(peers, w, front), h, c, d, uc, ud);
    }
  }

  lemma EchoBudgetStep(peers: set<int>, w: Mirrors, h: Happening, c: Coord, d: Coord,
                       uc: set<string>, ud: set<string>, reliable: bool)
    requires Linked(w.rows, c, d) && EchoStep(w, h, c, d, uc, ud)
    requires reliable ==> Reliable(peers, h, c, d)
    ensures SendOf(peers, w, h, c, d) + Left(EchoOf(After(peers, w, h), c, d, uc, ud), reliable)
         <= Left(EchoOf(w, c, d, uc, ud), reliable) + if EvictsEnd(h, c, d) then Most(reliable) else 0
  {
    var e := EchoOf(w, c, d, uc, ud);
    if OnEnd(h, c, d) {
      ReactionIsPing(peers, w, h, c, d, uc, ud);
      var p := Ping(h.key == c, h.applied && SentTo(peers, w, h).Some?);
      if Sends(e, p) { EventUsesOne(e, p, reliable); } else { EventUsesOne(e, p.(applied := true), reliable); }
    } else if !EvictsEnd(h, c, d) {
      OthersLeaveEndsAlone(peers, w, h, c, d, uc, ud);
    }
  }

  function Fresh(ua: set<string>, ub: set<string>): Echo {
    Echo(End(ua, {}, {}), End(ub, {}, {}))
  }

  function SendsIn(e: Echo, ps: seq<Ping>): nat {
    if ps == [] then 0
    else SendsIn(e, ps[..|ps| - 1]) + if Sends(Run(e, ps[..|ps| - 1]), ps[|ps| - 1]) then 1 else 0
  }

  predicate AllApplied(ps: seq<Ping>) {
    ps == [] || (AllApplied(ps[..|ps| - 1]) && ps[|ps| - 1].applied)
  }

  lemma {:induction false} RunSnoc(e: Echo, ps: seq<Ping>, p: Ping)
    ensures Run(e, ps + [p]) == EventOn(Run(e, ps), p)
    ensures SendsIn(e, ps + [p]) == SendsIn(e, ps) + if Sends(Run(e, ps), p) then 1 else 0
    ensures AllApplied(ps + [p]) == (AllApplied(ps) && p.applied)
  {
    assert (ps + [p])[..|ps|] == ps;
  }

  /** Three sends do occur when all are applied: an event on each end in turn. */
  lemma ThreeSendsOccur(ua: set<string>, ub: set<string>) returns (ps: seq<Ping>)
    requires !(ua <= ub) && !(ub <= ua)
    ensures AllApplied(ps) && SendsIn(Fresh(ua, ub), ps) == 3
  {
    var e := Fresh(ua, ub);
    var here, there := Ping(true, true), Ping(false, true);
    RunSnoc(e, [], here);
    RunSnoc(e, [] + [here], there);
    RunSnoc(e, [] + [here] + [there], here);
    ps := [] + [here] + [there] + [here];
  }

  /** And four when the first of them fails. */
  lemma FourSendsOccur(ua: set<string>, ub: set<string>) returns (ps: seq<Ping>)
    requires !(ua <= ub) && !(ub <= ua)
    ensures SendsIn(Fresh(ua, ub), ps) == 4
  {
    var e := Fresh(ua, ub);
    var failed, here, there := Ping(true, false), Ping(true, true), Ping(false, true);
    RunSnoc(e, [], failed);
    RunSnoc(e, [] + [failed], there);
    RunSnoc(e, [] + [failed] + [there], here);
    RunSnoc(e, [] + [failed] + [there] + [here], there);
    ps := [] + [failed] + [there] + [here] + [there];
  }

  /** Both ends hold what the other last sent, and nothing that no user put anywhere. */
  ghost predicate InStep(e: Echo, all: set<string>) {
    && e.b.bot == e.a.seen && e.a.bot == e.b.seen
    && e.a.seen <= all && e.b.seen <= all && e.a.users + e.b.users == all
  }

  lemma {:induction false} ReliableRunInStep(e: Echo, ps: seq<Ping>, all: set<string>)
    requires InStep(e, all) && AllApplied(ps)
    ensures InStep(Run(e, ps), all)
    ensures Run(e, ps).a.users == e.a.users && Run(e, ps).b.users == e.b.users
  {
    if ps != [] {
      ReliableRunInStep(e, ps[..|ps| - 1], all);
    }
  }

  /** Once it is quiet, the account shows the union of both sides' reactions on both ends, so on each
      end also the reactions that the users of that end put there themselves. */
  lemma {:induction false} EchoConverges(ua: set<string>, ub: set<string>, ps: seq<Ping>)
    requires AllApplied(ps)
    requires Quiet(Run(Fresh(ua, ub), ps))
    ensures var e := Run(Fresh(ua, ub), ps);
      e.a == End(ua, ua + ub, ua + ub) && e.b == End(ub, ua + ub, ua + ub)
  {
    ReliableRunInStep(Fresh(ua, ub), ps, ua + ub);
    var e := Run(Fresh(ua, ub), ps);
    assert e.a.seen == ua + e.b.seen && e.b.seen == ub + e.a.seen;
    assert e.a.seen == ua + ub && e.b.seen == ua + ub;
  }

  /** Reactions stick.  After convergence to the set `all`, a change of the users' reactions is relayed
      if and only if it brings an emoji outside `all` on some end: removals never are. */
  lemma {:induction false} ReactionsStick(all: set<string>, ua: set<string>, ub: set<string>, ps: seq<Ping>)
    ensures var e := Echo(End(ua, all, all), End(ub, all, all));
      && (ua + ub <= all ==> Run(e, ps) == e && SendsIn(e, ps) == 0)
      && (Sends(e, Ping(true, true)) <==> !(ua <= all))
      && (Sends(e, Ping(false, true)) <==> !(ub <= all))
  {
    var e := Echo(End(ua, all, all), End(ub, all, all));
    assert ua <= all <==> ua + all == all;
    assert ub <= all <==> ub + all == all;
    if ps != [] { ReactionsStick(all, ua, ub, ps[..|ps| - 1]); }
  }

  /** Every undisturbed run of the relay is, for the two ends, a run of the echo, with at most as many sends;
      with as many, all of them applied, if the run is reliable. */
  lemma {:induction false} RelayRunIsEcho(peers: set<int>, w: Mirrors, hs: seq<Happening>, c: Coord, d: Coord,
                                          uc: set<string>, ud: set<string>, reliable: bool) returns (ps: seq<Ping>)
    requires Linked(w.rows, c, d) && EchoRun(peers, w, hs, c, d, uc, ud) && Evictions(hs, c, d) == 0
    requires reliable ==> AllReliable(peers, hs, c, d)
    ensures Linked(Play(peers, w, hs).rows, c, d)
    ensures EchoOf(Play(peers, w, hs), c, d, uc, ud) == Run(EchoOf(w, c, d, uc, ud), ps)
    ensures SentFor(peers, w, hs, c, d) <= SendsIn(EchoOf(w, c, d, uc, ud), ps)
    ensures reliable ==> SentFor(peers, w, hs, c, d) == SendsIn(EchoOf(w, c, d, uc, ud), ps) && AllApplied(ps)
  {
    ps := [];
    if hs != [] {
      var front, h := hs[..|hs| - 1], hs[|hs| - 1];
      ps := RelayRunIsEcho(peers, w, front, c, d, uc, ud, reliable);
      var v, e := Play(peers, w, front), EchoOf(w, c, d, uc, ud);
      StaysLinked(peers, v, h, c, d, uc, ud);
      if OnEnd(h, c, d) {
        ReactionIsPing(peers, v, h, c, d, uc, ud);
        var p := Ping(h.key == c, h.applied && SentTo(peers, v, h).Some?);
        if !Sends(Run(e, ps), p) { p := p.(applied := true); }
        assert (ps + [p])[..|ps|] == ps;
        ps := ps + [p];
      } else {
        OthersLeaveEndsAlone(peers, v, h, c, d, uc, ud);
      }
    }
  }

  /** What one more happening adds to a run. */
  lemma {:induction false} HappeningSnoc(peers: set<int>, w: Mirrors, hs: seq<Happening>, h: Happening, c: Coord,
                                         d: Coord, uc: set<string>, ud: set<string>)
    ensures var v, longer := Play(peers, w, hs), hs + [h];
      && Play(peers, w, longer) == After(peers, v, h)
      && EchoRun(peers, w, longer, c, d, uc, ud)
           == (EchoRun(peers, w, hs, c, d, uc, ud) && EchoStep(v, h, c, d, uc, ud))
      && SentFor(peers, w, longer, c, d) == SentFor(peers, w, hs, c, d) + SendOf(peers, v, h, c, d)
      && Evictions(longer, c, d) == Evictions(hs, c, d) + (if EvictsEnd(h, c, d) then 1 else 0)
      && AllReliable(peers, longer, c, d) == (AllReliable(peers, hs, c, d) && Reliable(peers, h, c, d))
  {
    assert (hs + [h])[..|hs|] == hs;
  }

  /** Every event of the echo can happen in the relay. */
  lemma PingIsRelayed(peers: set<int>, v: Mirrors, p: Ping, c: Coord, d: Coord, uc: set<string>, ud: set<string>)
    returns (h: Happening)
    requires Linked(v.rows, c, d) && c.chat in peers && d.chat in peers
    ensures OnEnd(h, c, d) && EchoStep(v, h, c, d, uc, ud) && Linked(After(peers, v, h).rows, c, d)
    ensures EchoOf(After(peers, v, h), c, d, uc, ud) == EventOn(EchoOf(v, c, d, uc, ud), p)
    ensures SendOf(peers, v, h, c, d) == if Sends(EchoOf(v, c, d, uc, ud), p) then 1 else 0
    ensures p.applied ==> Reliable(peers, h, c, d)
  {
    NotOwnOpposite(v.rows, c);
    h := Reacted(if p.onA then c else d, if p.onA then uc + SetAt(v.bots, c) else ud + SetAt(v.bots, d),
                 NO_FAULTS, p.applied);
    LookupOrdersAgree(v.rows, h.key);
    FoundIsMirror(v.rows, h.key, NO_FAULTS);
    ReactionIsPing(peers, v, h, c, d, uc, ud);
  }

  /** Every run of the echo happens in the relay. */
  lemma {:induction false} EchoRunIsRelayed(peers: set<int>, w: Mirrors, ps: seq<Ping>, c: Coord, d: Coord,
                                            uc: set<string>, ud: set<string>) returns (hs: seq<Happening>)
    requires Linked(w.rows, c, d) && c.chat in peers && d.chat in peers
    ensures EchoRun(peers, w, hs, c, d, uc, ud) && Evictions(hs, c, d) == 0
    ensures Linked(Play(peers, w, hs).rows, c, d)
    ensures EchoOf(Play(peers, w, hs), c, d, uc, ud) == Run(EchoOf(w, c, d, uc, ud), ps)
    ensures SentFor(peers, w, hs, c, d) == SendsIn(EchoOf(w, c, d, uc, ud), ps)
    ensures AllApplied(ps) ==> AllReliable(peers, hs, c, d)
  {
    hs := [];
    if ps != [] {
      hs := EchoRunIsRelayed(peers, w, ps[..|ps| - 1], c, d, uc, ud);
      var h := PingIsRelayed(peers, Play(peers, w, hs), ps[|ps| - 1], c, d, uc, ud);
      HappeningSnoc(peers, w, hs, h, c, d, uc, ud);
      hs := hs + [h];
    }
  }

  /** In the relay: from a message and mirror without reactions and cached sets, three sends do occur with
      all applied, and four with one failing. */
  lemma RelayReachesBounds(peers: set<int>, w: Mirrors, c: Coord, d: Coord, uc: set<string>, ud: set<string>)
    returns (good: seq<Happening>, bad: seq<Happening>)
    requires Linked(w.rows, c, d) && c.chat in peers && d.chat in peers
    requires EchoOf(w, c, d, uc, ud) == Fresh(uc, ud) && !(uc <= ud) && !(ud <= uc)
    ensures EchoRun(peers, w, good, c, d, uc, ud) && EchoRun(peers, w, bad, c, d, uc, ud)
    ensures Evictions(good, c, d) == Evictions(bad, c, d) == 0
    ensures AllReliable(peers, good, c, d)
    ensures SentFor(peers, w, good, c, d) == 3 && SentFor(peers, w, bad, c, d) == 4
  {
    var three := ThreeSendsOccur(uc, ud);
    var four := FourSendsOccur(uc, ud);
    good := EchoRunIsRelayed(peers, w, three, c, d, uc, ud);
    bad := EchoRunIsRelayed(peers, w, four, c, d, uc, ud);
  }

  /** In the relay: whatever else has happened, once a reliable echo that started without reactions and
      cached sets is quiet, the account shows the union on both ends. */
  lemma {:induction false} RelayEchoConverges(peers: set<int>, w: Mirrors, hs: seq<Happening>, c: Coord, d: Coord,
                                              uc: set<string>, ud: set<string>)
    requires Linked(w.rows, c, d) && EchoRun(peers, w, hs, c, d, uc, ud) && Evictions(hs, c, d) == 0
    requires AllReliable(peers, hs, c, d)
    requires EchoOf(w, c, d, uc, ud) == Fresh(uc, ud) && Quiet(EchoOf(Play(peers, w, hs), c, d, uc, ud))
    ensures var v := Play(peers, w, hs);
      && SetAt(v.bots, c) == SetAt(v.bots, d) == uc + ud
      && SetAt(v.cache, c) == SetAt(v.cache, d) == uc + ud
  {
    var ps := RelayRunIsEcho(peers, w, hs, c, d, uc, ud, true);
    EchoConverges(uc, ud, ps);
  }

  /** In the relay: after convergence to `all`, no run in which users only remove reactions, or repeat them,
      sends anything for the two ends or changes the account's reactions there; and an event with a new
      emoji is sent. */
  lemma {:induction false} RelayReactionsStick(peers: set<int>, w: Mirrors, hs: seq<Happening>, c: Coord, d: Coord,
                            all: set<string>, uc: set<string>, ud: set<string>, applied: bool)
    requires Linked(w.rows, c, d) && d.chat in peers
    requires EchoOf(w, c, d, uc, ud) == Echo(End(uc, all, all), End(ud, all, all))
    ensures uc + ud <= all && EchoRun(peers, w, hs, c, d, uc, ud) && Evictions(hs, c, d) == 0 ==>
      var v := Play(peers, w, hs);
      SentFor(peers, w, hs, c, d) == 0 && SetAt(v.bots, c) == SetAt(v.bots, d) == all
    ensures SentTo(peers, w, Reacted(c, uc + SetAt(w.bots, c), NO_FAULTS, applied)).Some? <==> !(uc <= all)
  {
    if uc + ud <= all && EchoRun(peers, w, hs, c, d, uc, ud) && Evictions(hs, c, d) == 0 {
      var ps := RelayRunIsEcho(peers, w, hs, c, d, uc, ud, false);
      ReactionsStick(all, uc, ud, ps);
    }
    LookupOrdersAgree(w.rows, c);
    FoundIsMirror(w.rows, c, NO_FAULTS);
    ReactionsStick(all, uc, ud, []);
  }
}
