/** The scheduler loop: connecting the account on duty, waiting for the boundary, disconnecting it. */
module SchedulerLoop {
  import Bridge
  import opened Common
  import opened Intervals
  import opened MessageStore
  import opened Pairs
  import Relay
  import opened Shifts

  /** What an attempt to come online meets: dialling, the session check, and the self lookup. */
  datatype Reach = Reach(dials: bool, statusKnown: bool, authorized: bool, self: Option<int>) {
    predicate Online() {
      dials && statusKnown && authorized && self.Some?
    }
  }

  /** One account's connection.  `connected` stands for the stop function that is set while the
      account is online, `storeOpen` for the handle of the file that keeps the update state. */
  class Client {
    const phone: string
    var selfID: int
    var connected: bool
    var storeOpen: bool
    var bridge: Bridge.Impl?

    constructor (phone: string)
      ensures this.phone == phone && !connected && storeOpen
    {
      this.phone := phone;
      selfID := 0;
      connected := false;
      storeOpen := true;
      bridge := null;
    }

    /** Refuses a second connect; otherwise dials, checks the session and looks itself up, and gives up
        what it has begun at the first failure.  The state store is used as it is found. */
    method Connect(r: Reach) returns (ok: bool)
      modifies this
      ensures ok <==> !old(connected) && r.dials && r.statusKnown && r.authorized && r.self.Some?
      ensures connected <==> old(connected) || ok
      ensures ok ==> Some(selfID) == r.self
      ensures storeOpen == old(storeOpen) && bridge == old(bridge)
    {
      if connected { return false; }
      if !r.dials { return false; }
      if !r.statusKnown { return false; }
      if !r.authorized { return false; }
      if r.self.None? { return false; }
      selfID := r.self.value;
      connected := true;
      return true;
    }

    /** Always ends disconnected with the store closed, whether or not an error is reported. */
    method Disconnect(clean: bool) returns (ok: bool)
      modifies this
      ensures !connected && !storeOpen && ok == clean && bridge == old(bridge)
    {
      connected := false;
      storeOpen := false;
      return clean;
    }
  }

  /** What happens around the client during one connect attempt; `peers` are the chats that could be
      resolved, if none of the lookups failed. */
  datatype Attempt = Attempt(reach: Reach, peers: Option<set<int>>, clean: bool) {
    predicate Succeeds() {
      reach.Online() && peers.Some?
    }
  }

  class ClientController {
    const client: Client
    const store: Store
    const pairs: seq<PairConfig>

    constructor (client: Client, store: Store, pairs: seq<PairConfig>)
      ensures this.client == client && this.store == store && this.pairs == pairs
    {
      this.client := client;
      this.store := store;
      this.pairs := pairs;
    }

    /** Connects the client and gives it a new bridge, on which no pair is disabled and no reaction is
        cached; when the peers cannot be resolved, the client is taken down again before the error is
        returned. */
    method Connect(a: Attempt) returns (ok: bool)
      modifies client
      ensures ok <==> !old(client.connected) && a.reach.dials && a.reach.statusKnown && a.reach.authorized
                      && a.reach.self.Some? && a.peers.Some?
      ensures ok ==> client.connected && client.storeOpen == old(client.storeOpen)
      ensures ok ==> client.bridge != null && fresh(client.bridge) && client.bridge.st == store
      ensures ok ==> client.bridge.disabledPairs == {} && client.bridge.rCache.items == map[]
      ensures ok ==>
                client.bridge.cfg
                  == Relay.Config(a.reach.self.value, client.phone, RoutesOf(pairs, |pairs|), a.peers.value)
      ensures !ok && !old(client.connected) ==> !client.connected
      ensures !ok ==> (client.storeOpen <==> old(client.storeOpen) && !Torn(a, old(client.connected)))
    {
      ok := client.Connect(a.reach);
      if !ok { return false; }
      if a.peers.None? {
        var _ := client.Disconnect(a.clean);
        return false;
      }
      var routes := BuildPairs(pairs);
      client.bridge := new Bridge.Impl(Relay.Config(client.selfID, client.phone, routes, a.peers.value), store);
    }

    method Disconnect(clean: bool) returns (ok: bool)
      modifies client
      ensures !client.connected && !client.storeOpen
    {
      ok := client.Disconnect(clean);
    }
  }

  /** A failed attempt that got as far as being online and was taken down again. */
  predicate Torn(a: Attempt, wasConnected: bool) {
    !wasConnected && a.reach.Online() && a.peers.None?
  }

  datatype Event =
    | Up(phone: string, at: Instant, storeOpen: bool, online: set<string>)
    | Down(phone: string)
    | Failed(phone: string, at: Instant, torn: bool)
    | NoController(phone: string, at: Instant)

  /** One turn of the loop: the clock reading, what connecting meets, and whether the wait that
      follows ends by cancellation. */
  datatype Turn = Turn(now: Instant, attempt: Attempt, cancelled: bool, cleanStop: bool)

  type Controllers = map<string, ClientController>

  ghost function Clients(cs: Controllers): set<Client> {
    set p | p in cs :: cs[p].client
  }

  ghost predicate WellKeyed(cs: Controllers) {
    forall p :: p in cs ==> cs[p].client.phone == p
  }

  function Online(cs: Controllers): set<string>
    reads set p | p in cs :: cs[p].client
  {
    set p | p in cs && cs[p].client.connected
  }

  predicate Closes(e: Event, phone: string) {
    (e.Down? && e.phone == phone) || (e.Failed? && e.torn && e.phone == phone)
  }

  ghost predicate ClosedBy(trace: seq<Event>, phone: string) {
    exists k {:trigger Closes(trace[k], phone)} :: 0 <= k < |trace| && Closes(trace[k], phone)
  }

  /** Each connect is answered by one disconnect of the same account, next in the trace; and no
      disconnect comes without its connect. */
  ghost predicate Paired(trace: seq<Event>) {
    forall k {:trigger Answered(trace, k)} :: 0 <= k < |trace| ==> Answered(trace, k)
  }

  predicate Answered(trace: seq<Event>, k: int)
    requires 0 <= k < |trace|
  {
    && (trace[k].Up? ==> k + 1 < |trace| && trace[k + 1] == Down(trace[k].phone))
    && (trace[k].Down? ==> k > 0 && trace[k - 1].Up?)
  }

  ghost predicate GoodUp(trace: seq<Event>, k: nat, shifts: seq<Shift>)
    requires k < |trace| && shifts != []
  {
    trace[k].Up? ==>
      && trace[k].online == {trace[k].phone}
      && trace[k].phone == Chosen(trace[k].at, shifts).0.phone
      && (trace[k].storeOpen <==> !ClosedBy(trace[..k], trace[k].phone))
  }

  /** The connects among the events from index `n` on are good. */
  ghost predicate GoodFrom(trace: seq<Event>, n: nat, shifts: seq<Shift>)
    requires shifts != []
  {
    forall k: nat {:trigger GoodUp(trace, k, shifts)} :: n <= k < |trace| ==> GoodUp(trace, k, shifts)
  }

  ghost predicate GoodTrace(trace: seq<Event>, shifts: seq<Shift>)
    requires shifts != []
  {
    Paired(trace) && GoodFrom(trace, 0, shifts)
  }

  /** Everybody is offline, and a store is open exactly if no event of the trace closed it. */
  ghost predicate AtRest(cs: Controllers, trace: seq<Event>)
    reads set p | p in cs :: cs[p].client
  {
    forall p :: p in cs ==> !cs[p].client.connected && (cs[p].client.storeOpen <==> !ClosedBy(trace, p))
  }

  lemma ClosedByGrows(trace: seq<Event>, e: Event, phone: string)
    ensures ClosedBy(trace + [e], phone) <==> ClosedBy(trace, phone) || Closes(e, phone)
  {
    var t := trace + [e];
    if ClosedBy(trace, phone) {
      var k :| 0 <= k < |trace| && Closes(trace[k], phone);
      assert Closes(t[k], phone);
    }
    if Closes(e, phone) { assert Closes(t[|trace|], phone); }
    if ClosedBy(t, phone) {
      var k :| 0 <= k < |t| && Closes(t[k], phone);
      assert k < |trace| ==> Closes(trace[k], phone);
    }
  }

  lemma GoodTraceGrows(trace: seq<Event>, more: seq<Event>, shifts: seq<Shift>)
    requires shifts != [] && GoodTrace(trace, shifts) && Paired(more)
    requires GoodFrom(trace + more, |trace|, shifts)
    ensures GoodTrace(trace + more, shifts)
  {
    var t := trace + more;
    forall k: nat | k < |t| ensures GoodUp(t, k, shifts) {
      if k < |trace| {
        assert t[..k] == trace[..k];
        assert GoodUp(trace, k, shifts);
      }
    }
    forall k | 0 <= k < |t| ensures Answered(t, k) {
      if k < |trace| { assert Answered(trace, k); } else { assert Answered(more, k - |trace|); }
    }
  }

  lemma ExtendRest(trace: seq<Event>, e: Event, f: Event, phone: string)
    ensures ClosedBy(trace + [e, f], phone) <==> ClosedBy(trace, phone) || Closes(e, phone) || Closes(f, phone)
  {
    ClosedByGrows(trace, e, phone);
    ClosedByGrows(trace + [e], f, phone);
    assert trace + [e] + [f] == trace + [e, f];
  }

  /** The clock readings at which accounts were connected, among the first `n` events. */
  ghost function UpTimes(trace: seq<Event>, n: nat): seq<Instant>
    requires n <= |trace|
  {
    if n == 0 then [] else UpTimes(trace, n - 1) + UpTime(trace[n - 1])
  }

  ghost function UpTime(e: Event): seq<Instant> {
    if e.Up? then [e.at] else []
  }

  lemma {:induction false} UpTimesPrefix(trace: seq<Event>, more: seq<Event>, n: nat)
    requires n <= |trace|
    ensures UpTimes(trace + more, n) == UpTimes(trace, n)
  {
    if n > 0 { UpTimesPrefix(trace, more, n - 1); }
  }

  lemma {:induction false} UpTimesStep(trace: seq<Event>, more: seq<Event>)
    requires 1 <= |more| <= 2 && (|more| == 2 ==> !more[1].Up?)
    ensures UpTimes(trace + more, |trace + more|) == UpTimes(trace, |trace|) + UpTime(more[0])
  {
    UpTimesPrefix(trace, more, |trace|);
    assert (trace + more)[|trace|] == more[0];
  }

  /** Nothing stands in the way of connecting the account on duty. */
  ghost predicate Succeeds(turn: Turn, phones: set<string>, shifts: seq<Shift>)
    requires shifts != []
  {
    Chosen(turn.now, shifts).0.phone in phones && turn.attempt.Succeeds()
  }

  /** The clock readings of the first `n` turns in which it could be connected. */
  ghost function Successes(turns: seq<Turn>, n: nat, phones: set<string>, shifts: seq<Shift>): seq<Instant>
    requires shifts != [] && n <= |turns|
  {
    if n == 0 then []
    else Successes(turns, n - 1, phones, shifts)
         + if Succeeds(turns[n - 1], phones, shifts) then [turns[n - 1].now] else []
  }

  /** Connect, wait, disconnect the account of an existing controller. */
  method ServeShift(cs: Controllers, phone: string, shifts: seq<Shift>, turn: Turn, ghost trace: seq<Event>)
    returns (more: seq<Event>)
    requires shifts != [] && WellKeyed(cs) && AtRest(cs, trace) && phone in cs
    requires phone == Chosen(turn.now, shifts).0.phone
    modifies Clients(cs)
    ensures AtRest(cs, trace + more)
    ensures 1 <= |more| <= 2 && Paired(more)
    ensures GoodFrom(trace + more, |trace|, shifts)
    ensures UpTime(more[0]) == (if turn.attempt.Succeeds() then [turn.now] else [])
    ensures |more| == 2 ==> !more[1].Up?
  {
    var ctrl := cs[phone];
    assert ctrl.client in Clients(cs);
    var ok := ctrl.Connect(turn.attempt);
    if !ok {
      more := [Failed(phone, turn.now, Torn(turn.attempt, false))];
      forall p ensures ClosedBy(trace + more, p) <==> ClosedBy(trace, p) || Closes(more[0], p) {
        ClosedByGrows(trace, more[0], p);
      }
      return;
    }
    var up := Up(phone, turn.now, ctrl.client.storeOpen, Online(cs));
    assert up.online == {phone};
    var _ := ctrl.Disconnect(turn.cleanStop);
    more := [up, Down(phone)];
    forall p ensures ClosedBy(trace + more, p) <==> ClosedBy(trace, p) || p == phone {
      ExtendRest(trace, up, more[1], p);
    }
    assert (trace + more)[..|trace|] == trace;
  }

  /** One turn: choose the account and, if there is a controller for it, let it serve its shift. */
  method TakeTurn(cs: Controllers, shifts: seq<Shift>, turn: Turn, ghost trace: seq<Event>)
    returns (more: seq<Event>)
    requires shifts != [] && WellKeyed(cs) && AtRest(cs, trace)
    modifies Clients(cs)
    ensures AtRest(cs, trace + more)
    ensures 1 <= |more| <= 2 && Paired(more)
    ensures GoodFrom(trace + more, |trace|, shifts)
    ensures UpTime(more[0]) == (if Succeeds(turn, cs.Keys, shifts) then [turn.now] else [])
    ensures |more| == 2 ==> !more[1].Up?
  {
    var active, _ := ActiveShift(turn.now, shifts);
    if active.phone in cs {
      more := ServeShift(cs, active.phone, shifts, turn, trace);
    } else {
      more := [NoController(active.phone, turn.now)];
      forall p ensures ClosedBy(trace + more, p) <==> ClosedBy(trace, p) { ClosedByGrows(trace, more[0], p); }
    }
  }

  /** One turn, recorded at the end of the trace. */
  method RecordTurn(cs: Controllers, shifts: seq<Shift>, turn: Turn, trace: seq<Event>) returns (longer: seq<Event>)
    requires shifts != [] && WellKeyed(cs) && AtRest(cs, trace) && GoodTrace(trace, shifts)
    modifies Clients(cs)
    ensures AtRest(cs, longer) && GoodTrace(longer, shifts)
    ensures UpTimes(longer, |longer|) ==
      UpTimes(trace, |trace|) + if Succeeds(turn, cs.Keys, shifts) then [turn.now] else []
  {
    var more := TakeTurn(cs, shifts, turn, trace);
    GoodTraceGrows(trace, more, shifts);
    UpTimesStep(trace, more);
    return trace + more;
  }

  /** The shift-switching loop over any finite number of turns; `taken` is how many were made before
      a cancelled one ended it.  Whatever fails, the trace is good and everybody is offline at the
      end; and no turn in which the account on duty could be connected went by without connecting it. */
  method RunShifted(cs: Controllers, shifts: seq<Shift>, turns: seq<Turn>) returns (trace: seq<Event>, taken: nat)
    requires shifts != [] && WellKeyed(cs) && AtRest(cs, [])
    modifies Clients(cs)
    ensures GoodTrace(trace, shifts)
    ensures AtRest(cs, trace)
    ensures taken <= |turns| && UpTimes(trace, |trace|) == Successes(turns, taken, cs.Keys, shifts)
    ensures forall j :: 0 <= j < taken - 1 ==> !turns[j].cancelled
    ensures taken == |turns| || (taken > 0 && turns[taken - 1].cancelled)
  {
    trace := [];
    for k := 0 to |turns|
      invariant GoodTrace(trace, shifts) && AtRest(cs, trace)
      invariant UpTimes(trace, |trace|) == Successes(turns, k, cs.Keys, shifts)
      invariant forall j :: 0 <= j < k ==> !turns[j].cancelled
    {
      trace := RecordTurn(cs, shifts, turns[k], trace);
      if turns[k].cancelled { return trace, k + 1; }
    }
    return trace, |turns|;
  }

  /** The account connected in a good trace is the one whose shift contains the clock reading. */
  lemma ConnectedIsOnDuty(trace: seq<Event>, shifts: seq<Shift>, ivs: seq<Interval>, k: nat)
    requires Tiles(ivs) && Scales(shifts, ivs) && shifts != []
    requires GoodTrace(trace, shifts) && k < |trace| && trace[k].Up?
    ensures exists i :: 0 <= i < |shifts| && ActiveAt(shifts[i], SinceMidnight(trace[k].at)) &&
              shifts[i].phone == trace[k].phone
  {
    assert GoodUp(trace, k, shifts);
    ChosenIsOnDuty(shifts, ivs, trace[k].at);
    ActiveIffOwner(shifts, ivs, SinceMidnight(trace[k].at), OnDuty(ivs, trace[k].at));
  }

  /** A second connect of the same account never finds its update store open: the handle is closed
      by the first disconnect and nothing opens it again. */
  lemma ReconnectFindsStoreClosed(trace: seq<Event>, shifts: seq<Shift>, i: nat, j: nat)
    requires shifts != [] && GoodTrace(trace, shifts)
    requires i < j < |trace| && trace[i].Up? && trace[j].Up? && trace[i].phone == trace[j].phone
    ensures !trace[j].storeOpen
  {
    assert GoodUp(trace, j, shifts);
    assert Answered(trace, i);
    assert i + 1 < j;
    assert Closes(trace[..j][i + 1], trace[j].phone);
  }

  /** Two connects have happened among the first `n` events if two clock readings have been noted. */
  lemma {:induction false} TwoUps(trace: seq<Event>, n: nat) returns (i: nat, j: nat)
    requires n <= |trace| && |UpTimes(trace, n)| >= 2
    ensures i < j < n && trace[i].Up? && trace[j].Up?
  {
    if |UpTimes(trace, n - 1)| >= 2 {
      i, j := TwoUps(trace, n - 1);
    } else {
      i := LastUp(trace, n - 1);
      j := n - 1;
    }
  }

  lemma {:induction false} LastUp(trace: seq<Event>, n: nat) returns (i: nat)
    requires n <= |trace| && |UpTimes(trace, n)| >= 1
    ensures i < n && trace[i].Up?
  {
    if trace[n - 1].Up? { i := n - 1; } else { i := LastUp(trace, n - 1); }
  }

  lemma {:induction false} TwoSuccesses(turns: seq<Turn>, phones: set<string>, shifts: seq<Shift>)
    requires shifts != [] && |turns| >= 2 && Succeeds(turns[0], phones, shifts) && Succeeds(turns[1], phones, shifts)
    ensures |Successes(turns, 2, phones, shifts)| == 2
  {
    assert Successes(turns, 1, phones, shifts) == [turns[0].now];
  }

  /** It does happen: an account whose turn comes twice, with nothing going wrong, connects the second time
      with its update store closed. */
  method ReconnectHappens() returns (trace: seq<Event>)
    ensures exists i, j :: 0 <= i < j < |trace| && trace[i].Up? && trace[j].Up? && trace[i].phone == trace[j].phone
                           && !trace[j].storeOpen
  {
    var client := new Client("A");
    var store := new Store();
    var ctrl := new ClientController(client, store, []);
    var cs := map["A" := ctrl];
    var shifts := [Shift("A", 0, 0)];
    var fine := Attempt(Reach(true, true, true, Some(1)), Some({}), true);
    var turns := [Turn(0, fine, false, true), Turn(DAY_NS, fine, false, true)];
    assert cs["A"].client == client && Clients(cs) == {client};
    FirstForEver(shifts, 0);
    FirstForEver(shifts, DAY_NS);
    var taken;
    trace, taken := RunShifted(cs, shifts, turns);
    assert Succeeds(turns[0], cs.Keys, shifts) && Succeeds(turns[1], cs.Keys, shifts);
    TwoSuccesses(turns, cs.Keys, shifts);
    var i, j := TwoUps(trace, |trace|);
    assert GoodUp(trace, i, shifts) && GoodUp(trace, j, shifts);
    FirstForEver(shifts, trace[i].at);
    FirstForEver(shifts, trace[j].at);
    ReconnectFindsStoreClosed(trace, shifts, i, j);
  }

  /** Single-account operation without shifts: one connect, one disconnect when the context ends. */
  method Run247(cs: Controllers, attempt: Attempt, cleanStop: bool) returns (trace: seq<Event>)
    requires cs != map[] && WellKeyed(cs) && AtRest(cs, [])
    modifies Clients(cs)
    ensures Online(cs) == {}
    ensures attempt.Succeeds() ==> exists p :: p in cs && trace == [Up(p, 0, true, {p}), Down(p)]
    ensures !attempt.Succeeds() ==> trace == []
  {
    var p :| p in cs;
    assert cs[p].client in Clients(cs);
    var ok := cs[p].Connect(attempt);
    if !ok { return []; }
    assert !ClosedBy([], p);
    trace := [Up(p, 0, cs[p].client.storeOpen, Online(cs)), Down(p)];
    assert Online(cs) == {p};
    var _ := cs[p].Disconnect(cleanStop);
  }
}
