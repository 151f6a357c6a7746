/** The buffering of album messages as interleaved atomic steps: handlers of incoming messages, timers,
    and flushes share one map of live buffers, and each buffer is guarded by its own lock. */
module AlbumBuffer {
  import opened Common

  /** `armed`: the quiet-period timer of the buffer will fire. */
  datatype Buffer = Buffer(gid: int, items: seq<nat>, armed: bool)

  datatype Thread =
    | Appending(msg: nat, buf: nat)         // has the buffer, has not appended yet
    | Full(buf: nat)                        // appended the tenth message or a later one
    | Flushing(gid: int)                    // about to remove the live buffer of the group
    | Taken(buf: nat)                       // removed it, has not copied the items yet
    | Copied(buf: nat, msgs: seq<nat>)      // has the items to deliver
    | Done

  datatype Delivery = Delivery(buf: nat, msgs: seq<nat>)

  /** Messages are numbered in order of arrival; `home[m]` is the buffer that message m was given. */
  datatype State = State(
    live: map<int, nat>, bufs: seq<Buffer>, threads: seq<Thread>, home: seq<nat>, delivered: seq<Delivery>)

  datatype Step =
    | Arrive(gid: int)
    | Append(t: nat)
    | Stop(t: nat)
    | Fire(buf: nat)
    | Take(t: nat)
    | Copy(t: nat)
    | Deliver(t: nat)

  const START := State(map[], [], [], [], [])
  const ALBUM_LIMIT: nat := 10

  predicate Enabled(s: State, step: Step) {
    match step
    case Arrive(_) => true
    case Append(t) => t < |s.threads| && s.threads[t].Appending? && s.threads[t].buf < |s.bufs|
    case Stop(t) => t < |s.threads| && s.threads[t].Full? && s.threads[t].buf < |s.bufs|
    case Fire(b) => b < |s.bufs| && s.bufs[b].armed
    case Take(t) => t < |s.threads| && s.threads[t].Flushing?
    case Copy(t) => t < |s.threads| && s.threads[t].Taken? && s.threads[t].buf < |s.bufs|
    case Deliver(t) => t < |s.threads| && s.threads[t].Copied?
  }

  function After(s: State, step: Step): State
    requires Enabled(s, step)
  {
    match step
    case Arrive(gid) =>
      var b := if gid in s.live then s.live[gid] else |s.bufs|;
      s.(live := s.live[gid := b],
         bufs := if gid in s.live then s.bufs else s.bufs + [Buffer(gid, [], false)],
         threads := s.threads + [Appending(|s.home|, b)],
         home := s.home + [b])
    case Append(t) =>
      var m, b := s.threads[t].msg, s.threads[t].buf;
      var items := s.bufs[b].items + [m];
      s.(bufs := s.bufs[b := Buffer(s.bufs[b].gid, items, true)],
         threads := s.threads[t := if |items| >= ALBUM_LIMIT then Full(b) else Done])
    case Stop(t) =>
      var b := s.threads[t].buf;
      s.(bufs := s.bufs[b := s.bufs[b].(armed := false)],
         threads := s.threads[t := if s.bufs[b].armed then Flushing(s.bufs[b].gid) else Done])
    case Fire(b) =>
      s.(bufs := s.bufs[b := s.bufs[b].(armed := false)], threads := s.threads + [Flushing(s.bufs[b].gid)])
    case Take(t) =>
      var g := s.threads[t].gid;
      if g in s.live then s.(live := s.live - {g}, threads := s.threads[t := Taken(s.live[g])])
      else s.(threads := s.threads[t := Done])
    case Copy(t) =>
      var b := s.threads[t].buf;
      s.(threads := s.threads[t := if s.bufs[b].items == [] then Done else Copied(b, s.bufs[b].items)])
    case Deliver(t) =>
      s.(delivered := s.delivered + [Delivery(s.threads[t].buf, s.threads[t].msgs)], threads := s.threads[t := Done])
  }

  /** The handler is done with appending unless its message is the tenth of the buffer, or a later one. */
  lemma DoneBelowTen(s: State, t: nat)
    requires Enabled(s, Append(t))
    ensures var v, b := After(s, Append(t)), s.threads[t].buf;
      && v.bufs[b].items == s.bufs[b].items + [s.threads[t].msg] && v.bufs[b].armed
      && v.threads[t] == if |v.bufs[b].items| < 10 then Done else Full(b)
  {
  }

  /** Thread `t` is about to flush in `v`, and was not in `s`. */
  predicate StartsFlush(s: State, v: State, t: nat, g: int) {
    t < |v.threads| && v.threads[t] == Flushing(g) && (t < |s.threads| ==> !s.threads[t].Flushing?)
  }

  /** A flush of a group starts exactly by disarming an armed timer of it: a handler or a timer that finds it
      disarmed starts none. */
  lemma FlushStartsByDisarming(s: State, step: Step, g: int)
    requires Enabled(s, step)
    ensures var v := After(s, step);
      (exists t: nat :: StartsFlush(s, v, t, g)) <==>
      (exists b: nat :: b < |s.bufs| && s.bufs[b].gid == g && s.bufs[b].armed && !v.bufs[b].armed)
  {
    var v := After(s, step);
    if step.Stop? {
      var b := s.threads[step.t].buf;
      if s.bufs[b].armed && s.bufs[b].gid == g { assert StartsFlush(s, v, step.t, g) && !v.bufs[b].armed; }
    } else if step.Fire? {
      if s.bufs[step.buf].gid == g { assert StartsFlush(s, v, |s.threads|, g) && !v.bufs[step.buf].armed; }
    }
  }

  ghost predicate CanRun(steps: seq<Step>)
    decreases |steps|, 0
  {
    steps == [] || (CanRun(steps[..|steps| - 1]) && Enabled(Run(steps[..|steps| - 1]), steps[|steps| - 1]))
  }

  ghost function Run(steps: seq<Step>): State
    requires CanRun(steps)
    decreases |steps|, 1
  {
    if steps == [] then START else After(Run(steps[..|steps| - 1]), steps[|steps| - 1])
  }

  predicate Live(s: State, b: nat) {
    b < |s.bufs| && s.bufs[b].gid in s.live && s.live[s.bufs[b].gid] == b
  }

  predicate Claims(th: Thread, b: nat) {
    (th.Taken? || th.Copied?) && th.buf == b
  }

  predicate ThreadOk(s: State, th: Thread) {
    match th
    case Appending(m, b) => m < |s.home| && s.home[m] == b && b < |s.bufs| && m !in s.bufs[b].items
    case Full(b) => b < |s.bufs|
    case Taken(b) => b < |s.bufs| && !Live(s, b)
    case Copied(b, ms) => b < |s.bufs| && !Live(s, b) && ms <= s.bufs[b].items && ms != []
    case _ => true
  }

  predicate ThreadsApart(x: Thread, y: Thread) {
    && (x.Appending? && y.Appending? ==> x.msg != y.msg)
    && (x.Taken? || x.Copied? ==> !Claims(y, x.buf))
  }

  predicate DeliveryOk(s: State, d: Delivery) {
    && d.buf < |s.bufs| && !Live(s, d.buf) && d.msgs <= s.bufs[d.buf].items
  }

  predicate Unclaimed(th: Thread, d: Delivery) {
    !Claims(th, d.buf)
  }

  predicate OtherBuffer(d: Delivery, e: Delivery) {
    d.buf != e.buf
  }

  ghost predicate BufferOk(s: State, b: nat)
    requires b < |s.bufs|
  {
    && Distinct(s.bufs[b].items)
    && forall m :: m in s.bufs[b].items ==> m < |s.home| && s.home[m] == b
  }

  /** Every message is in its buffer or about to be appended to it. */
  predicate MessageOk(s: State, m: nat)
    requires m < |s.home|
  {
    && s.home[m] < |s.bufs|
    && (m in s.bufs[s.home[m]].items || Appending(m, s.home[m]) in s.threads)
  }

  /** A live buffer with messages has an armed timer or a flush under way, and an empty one has a
      handler about to append. */
  predicate Tended(s: State, b: nat)
    requires b < |s.bufs|
  {
    if s.bufs[b].items != [] then s.bufs[b].armed || Flushing(s.bufs[b].gid) in s.threads
    else exists t :: 0 <= t < |s.threads| && s.threads[t].Appending? && s.threads[t].buf == b
  }

  predicate LiveOk(s: State, g: int)
    requires g in s.live
  {
    s.live[g] < |s.bufs| && s.bufs[s.live[g]].gid == g && Tended(s, s.live[g])
  }

  ghost predicate Inv(s: State) {
    && (forall t {:trigger ThreadOk(s, s.threads[t])} :: 0 <= t < |s.threads| ==> ThreadOk(s, s.threads[t]))
    && (forall t, u {:trigger ThreadsApart(s.threads[t], s.threads[u])} ::
          0 <= t < |s.threads| && 0 <= u < |s.threads| && t != u ==> ThreadsApart(s.threads[t], s.threads[u]))
    && (forall d {:trigger DeliveryOk(s, s.delivered[d])} :: 0 <= d < |s.delivered| ==> DeliveryOk(s, s.delivered[d]))
    && (forall t, d {:trigger Unclaimed(s.threads[t], s.delivered[d])} ::
          0 <= t < |s.threads| && 0 <= d < |s.delivered| ==> Unclaimed(s.threads[t], s.delivered[d]))
    && (forall d, e {:trigger OtherBuffer(s.delivered[d], s.delivered[e])} ::
          0 <= d < e < |s.delivered| ==> OtherBuffer(s.delivered[d], s.delivered[e]))
    && (forall b {:trigger BufferOk(s, b)} :: 0 <= b < |s.bufs| ==> BufferOk(s, b))
    && (forall m {:trigger MessageOk(s, m)} :: 0 <= m < |s.home| ==> MessageOk(s, m))
    && (forall g {:trigger LiveOk(s, g)} :: g in s.live ==> LiveOk(s, g))
  }

  lemma StepKeeps(s: State, step: Step)
    requires Inv(s) && Enabled(s, step)
    ensures Inv(After(s, step))
  {
    KeepsThreads(s, step);
    KeepsApart(s, step);
    KeepsDeliveries(s, step);
    KeepsUnclaimed(s, step);
    KeepsBuffers(s, step);
    KeepsMessages(s, step);
    KeepsLive(s, step);
  }

  lemma KeepsThreads(s: State, step: Step)
    requires Inv(s) && Enabled(s, step)
    ensures var v := After(s, step);
      forall t {:trigger ThreadOk(v, v.threads[t])} :: 0 <= t < |v.threads| ==> ThreadOk(v, v.threads[t])
  {
    var v := After(s, step);
    forall t | 0 <= t < |v.threads| ensures ThreadOk(v, v.threads[t]) { ThreadStaysOk(s, step, t); }
  }

  lemma ThreadStaysOk(s: State, step: Step, t: nat)
    requires Inv(s) && Enabled(s, step) && t < |After(s, step).threads|
    ensures ThreadOk(After(s, step), After(s, step).threads[t])
  {
    if t < |s.threads| { assert ThreadOk(s, s.threads[t]); }
    match step
    case Arrive(g) => ArrivalStaysOk(s, g, t);
    case Append(u) => AppendStaysOk(s, u, t);
    case Take(u) =>
      if s.threads[u].gid in s.live { assert LiveOk(s, s.threads[u].gid); }
    case _ =>
  }

  lemma ArrivalStaysOk(s: State, g: int, t: nat)
    requires Inv(s) && t <= |s.threads|
    ensures ThreadOk(After(s, Arrive(g)), After(s, Arrive(g)).threads[t])
  {
    if t < |s.threads| { assert ThreadOk(s, s.threads[t]); }
    if g in s.live { assert LiveOk(s, g); }
    var b := After(s, Arrive(g)).home[|s.home|];
    if b < |s.bufs| { assert BufferOk(s, b); }
  }

  lemma AppendStaysOk(s: State, u: nat, t: nat)
    requires Inv(s) && Enabled(s, Append(u)) && t < |s.threads|
    ensures ThreadOk(After(s, Append(u)), After(s, Append(u)).threads[t])
  {
    assert ThreadOk(s, s.threads[t]) && ThreadOk(s, s.threads[u]);
    if t != u { assert ThreadsApart(s.threads[t], s.threads[u]); }
  }

  lemma KeepsApart(s: State, step: Step)
    requires Inv(s) && Enabled(s, step)
    ensures var v := After(s, step);
      forall t, u {:trigger ThreadsApart(v.threads[t], v.threads[u])} ::
        0 <= t < |v.threads| && 0 <= u < |v.threads| && t != u ==> ThreadsApart(v.threads[t], v.threads[u])
  {
    var v := After(s, step);
    forall t, u | 0 <= t < |v.threads| && 0 <= u < |v.threads| && t != u
      ensures ThreadsApart(v.threads[t], v.threads[u])
    {
      StayApart(s, step, t, u);
    }
  }

  lemma StayApart(s: State, step: Step, t: nat, u: nat)
    requires Inv(s) && Enabled(s, step) && t < |After(s, step).threads| && u < |After(s, step).threads| && t != u
    ensures ThreadsApart(After(s, step).threads[t], After(s, step).threads[u])
  {
    if t < |s.threads| { assert ThreadOk(s, s.threads[t]); }
    if u < |s.threads| { assert ThreadOk(s, s.threads[u]); }
    if t < |s.threads| && u < |s.threads| {
      assert ThreadsApart(s.threads[t], s.threads[u]) && ThreadsApart(s.threads[u], s.threads[t]);
    }
    if step.Take? && s.threads[step.t].gid in s.live { assert LiveOk(s, s.threads[step.t].gid); }
  }

  lemma KeepsDeliveries(s: State, step: Step)
    requires Inv(s) && Enabled(s, step)
    ensures var v := After(s, step);
      && (forall d {:trigger DeliveryOk(v, v.delivered[d])} :: 0 <= d < |v.delivered| ==> DeliveryOk(v, v.delivered[d]))
      && (forall d, e {:trigger OtherBuffer(v.delivered[d], v.delivered[e])} ::
            0 <= d < e < |v.delivered| ==> OtherBuffer(v.delivered[d], v.delivered[e]))
  {
    var v := After(s, step);
    forall d | 0 <= d < |v.delivered| ensures DeliveryOk(v, v.delivered[d]) {
      if d < |s.delivered| { assert DeliveryOk(s, s.delivered[d]); } else { assert ThreadOk(s, s.threads[step.t]); }
    }
    forall d, e | 0 <= d < e < |v.delivered| ensures OtherBuffer(v.delivered[d], v.delivered[e]) {
      if e < |s.delivered| {
        assert OtherBuffer(s.delivered[d], s.delivered[e]);
      } else {
        assert Unclaimed(s.threads[step.t], s.delivered[d]);
      }
    }
  }

  lemma KeepsUnclaimed(s: State, step: Step)
    requires Inv(s) && Enabled(s, step)
    ensures var v := After(s, step);
      forall t, d {:trigger Unclaimed(v.threads[t], v.delivered[d])} ::
        0 <= t < |v.threads| && 0 <= d < |v.delivered| ==> Unclaimed(v.threads[t], v.delivered[d])
  {
    var v := After(s, step);
    forall t, d | 0 <= t < |v.threads| && 0 <= d < |v.delivered| ensures Unclaimed(v.threads[t], v.delivered[d]) {
      if t < |s.threads| && d < |s.delivered| { assert Unclaimed(s.threads[t], s.delivered[d]); }
      if d < |s.delivered| { assert DeliveryOk(s, s.delivered[d]); }
      if step.Take? && s.threads[step.t].gid in s.live { assert LiveOk(s, s.threads[step.t].gid); }
      if step.Deliver? && t != step.t { assert ThreadsApart(s.threads[step.t], s.threads[t]); }
    }
  }

  lemma KeepsBuffers(s: State, step: Step)
    requires Inv(s) && Enabled(s, step)
    ensures var v := After(s, step); forall b {:trigger BufferOk(v, b)} :: 0 <= b < |v.bufs| ==> BufferOk(v, b)
  {
    var v := After(s, step);
    forall b | 0 <= b < |v.bufs| ensures BufferOk(v, b) {
      if b < |s.bufs| { assert BufferOk(s, b); }
      if step.Append? { assert ThreadOk(s, s.threads[step.t]); }
    }
  }

  lemma KeepsMessages(s: State, step: Step)
    requires Inv(s) && Enabled(s, step)
    ensures var v := After(s, step); forall m {:trigger MessageOk(v, m)} :: 0 <= m < |v.home| ==> MessageOk(v, m)
  {
    var v := After(s, step);
    forall m | 0 <= m < |v.home| ensures MessageOk(v, m) { MessageStaysOk(s, step, m); }
  }

  lemma MessageStaysOk(s: State, step: Step, m: nat)
    requires Inv(s) && Enabled(s, step) && m < |After(s, step).home|
    ensures MessageOk(After(s, step), m)
  {
    var v := After(s, step);
    if m == |s.home| {
      if step.gid in s.live { assert LiveOk(s, step.gid); }
      assert v.threads[|s.threads|] == Appending(m, v.home[m]);
    } else {
      assert MessageOk(s, m);
      var th := Appending(m, s.home[m]);
      if m in s.bufs[s.home[m]].items {
      } else if step.Append? && s.threads[step.t] == th {
      } else {
        StillThere(s, step, th);
      }
    }
  }

  /** A thread that did not take the step is still there. */
  lemma StillThere(s: State, step: Step, th: Thread)
    requires Enabled(s, step) && th in s.threads
    requires step.Arrive? || step.Fire? || s.threads[step.t] != th
    ensures th in After(s, step).threads
  {
    var t :| 0 <= t < |s.threads| && s.threads[t] == th;
    assert After(s, step).threads[t] == th;
  }

  lemma KeepsLive(s: State, step: Step)
    requires Inv(s) && Enabled(s, step)
    ensures var v := After(s, step); forall g {:trigger LiveOk(v, g)} :: g in v.live ==> LiveOk(v, g)
  {
    var v := After(s, step);
    forall g | g in v.live ensures LiveOk(v, g) { LiveStaysOk(s, step, g); }
  }

  lemma LiveStaysOk(s: State, step: Step, g: int)
    requires Inv(s) && Enabled(s, step) && g in After(s, step).live
    ensures LiveOk(After(s, step), g)
  {
    var v := After(s, step);
    if g !in s.live {
      assert v.threads[|s.threads|].Appending?;
    } else {
      assert LiveOk(s, g);
      var b := s.live[g];
      if s.bufs[b].items == [] {
        var t :| 0 <= t < |s.threads| && s.threads[t].Appending? && s.threads[t].buf == b;
        assert v.threads[t].Appending? || step == Append(t);
      } else if s.bufs[b].armed {
        if step == Fire(b) { assert v.threads[|s.threads|] == Flushing(g); }
        if step.Stop? && s.threads[step.t].buf == b { assert v.threads[step.t] == Flushing(g); }
      } else {
        StillThere(s, step, Flushing(g));
      }
    }
  }
}
