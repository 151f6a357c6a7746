/** What album buffering guarantees in every run, whatever the interleaving. */
module AlbumDelivery {
  import opened AlbumBuffer

  lemma {:induction false} RunKeeps(steps: seq<Step>)
    requires CanRun(steps)
    ensures Inv(Run(steps))
    decreases |steps|
  {
    if steps != [] {
      RunKeeps(steps[..|steps| - 1]);
      StepKeeps(Run(steps[..|steps| - 1]), steps[|steps| - 1]);
    }
  }

  /** No buffer is delivered twice, and no message appears twice over all deliveries. */
  lemma {:induction false} DeliveredAtMostOnce(steps: seq<Step>, d: nat, i: nat, e: nat, j: nat)
    requires CanRun(steps)
    requires var s := Run(steps);
      d < |s.delivered| && i < |s.delivered[d].msgs| && e < |s.delivered| && j < |s.delivered[e].msgs|
    ensures var s := Run(steps);
      && (s.delivered[d].buf == s.delivered[e].buf ==> d == e)
      && (s.delivered[d].msgs[i] == s.delivered[e].msgs[j] ==> d == e && i == j)
  {
    RunKeeps(steps);
    var s := Run(steps);
    var x, y := s.delivered[d], s.delivered[e];
    assert DeliveryOk(s, x) && DeliveryOk(s, y);
    assert BufferOk(s, x.buf) && BufferOk(s, y.buf);
    assert x.msgs[i] == s.bufs[x.buf].items[i] && y.msgs[j] == s.bufs[y.buf].items[j];
    assert x.msgs[i] in s.bufs[x.buf].items && y.msgs[j] in s.bufs[y.buf].items;
    if d < e { assert OtherBuffer(x, y); }
    if e < d { assert OtherBuffer(y, x); }
  }

  predicate InThread(th: Thread, m: nat) {
    th.Copied? && m in th.msgs
  }

  ghost predicate InFlush(s: State, m: nat) {
    exists t {:trigger InThread(s.threads[t], m)} :: 0 <= t < |s.threads| && InThread(s.threads[t], m)
  }

  predicate InDelivery(d: Delivery, m: nat) {
    m in d.msgs
  }

  ghost predicate Delivered(s: State, m: nat) {
    exists d {:trigger InDelivery(s.delivered[d], m)} :: 0 <= d < |s.delivered| && InDelivery(s.delivered[d], m)
  }

  predicate AppendingTo(th: Thread, b: nat) {
    th.Appending? && th.buf == b
  }

  ghost predicate Awaited(s: State, b: nat) {
    exists t {:trigger AppendingTo(s.threads[t], b)} :: 0 <= t < |s.threads| && AppendingTo(s.threads[t], b)
  }

  /** The items of the buffer have been copied for good. */
  predicate CutOff(s: State, b: nat) {
    b < |s.bufs| && !Live(s, b) && Taken(b) !in s.threads
  }

  /** Appended, but to a buffer whose items had already been copied. */
  ghost predicate Lost(s: State, m: nat) {
    && m < |s.home| && s.home[m] < |s.bufs| && m in s.bufs[s.home[m]].items
    && CutOff(s, s.home[m]) && !InFlush(s, m) && !Delivered(s, m)
  }

  /** The step appends message m to a buffer that was already copied. */
  predicate LateAppend(s: State, step: Step, m: nat) {
    step.Append? && Enabled(s, step) && s.threads[step.t].msg == m && CutOff(s, s.threads[step.t].buf)
  }

  lemma LiveAfter(s: State, step: Step, b: nat)
    requires Inv(s) && Enabled(s, step) && b < |s.bufs|
    ensures Live(After(s, step), b) <==> Live(s, b) && !(step.Take? && s.threads[step.t].gid == s.bufs[b].gid)
  {
    var g := s.bufs[b].gid;
    if g in s.live { assert LiveOk(s, g); }
  }

  lemma TakenAfter(s: State, step: Step, b: nat)
    requires Inv(s) && Enabled(s, step) && b < |s.bufs|
    ensures Taken(b) in After(s, step).threads <==>
      if step.Take? && Live(s, b) && s.threads[step.t].gid == s.bufs[b].gid then true
      else Taken(b) in s.threads && !(step.Copy? && s.threads[step.t].buf == b)
  {
    var v := After(s, step);
    if step.Take? && s.threads[step.t].gid in s.live { assert LiveOk(s, s.threads[step.t].gid); }
    if Taken(b) in s.threads && !(step.Copy? && s.threads[step.t].buf == b) { StillThere(s, step, Taken(b)); }
    if Taken(b) in v.threads {
      var t :| 0 <= t < |v.threads| && v.threads[t] == Taken(b);
      if step.Copy? && t != step.t { assert ThreadsApart(s.threads[step.t], s.threads[t]); }
      if t < |s.threads| && s.threads[t] == Taken(b) { assert Taken(b) in s.threads; }
    }
    if step.Take? && Live(s, b) && s.threads[step.t].gid == s.bufs[b].gid { assert v.threads[step.t] == Taken(b); }
  }

  /** A buffer is cut off exactly by the copy of its items, and then for good. */
  lemma CutOffAfter(s: State, step: Step, b: nat)
    requires Inv(s) && Enabled(s, step) && b < |s.bufs|
    ensures CutOff(After(s, step), b) <==> CutOff(s, b) || (step.Copy? && s.threads[step.t].buf == b)
  {
    LiveAfter(s, step, b);
    TakenAfter(s, step, b);
    if step.Copy? { assert ThreadOk(s, s.threads[step.t]); }
  }

  lemma NewBufferNotCutOff(s: State, step: Step)
    requires Inv(s) && Enabled(s, step)
    ensures |After(s, step).bufs| > |s.bufs| ==> !CutOff(After(s, step), |s.bufs|)
  {
  }

  lemma StillCarried(s: State, step: Step, m: nat)
    requires Inv(s) && Enabled(s, step)
    requires InFlush(s, m) || Delivered(s, m) || (step.Copy? && m in s.bufs[s.threads[step.t].buf].items)
    ensures InFlush(After(s, step), m) || Delivered(After(s, step), m)
  {
    var v := After(s, step);
    if Delivered(s, m) {
      var d :| 0 <= d < |s.delivered| && InDelivery(s.delivered[d], m);
      assert InDelivery(v.delivered[d], m);
    } else if InFlush(s, m) {
      var t :| 0 <= t < |s.threads| && InThread(s.threads[t], m);
      if step == Deliver(t) {
        assert InDelivery(v.delivered[|s.delivered|], m);
      } else {
        assert InThread(v.threads[t], m);
      }
    } else {
      assert InThread(v.threads[step.t], m);
    }
  }

  lemma NewlyCarried(s: State, step: Step, m: nat)
    requires Inv(s) && Enabled(s, step)
    requires InFlush(After(s, step), m) || Delivered(After(s, step), m)
    ensures InFlush(s, m) || Delivered(s, m) || (step.Copy? && m in s.bufs[s.threads[step.t].buf].items)
  {
    var v := After(s, step);
    if InFlush(v, m) {
      var t :| 0 <= t < |v.threads| && InThread(v.threads[t], m);
      assert t < |s.threads|;
      assert InThread(s.threads[t], m) || step == Copy(t);
    } else {
      var d :| 0 <= d < |v.delivered| && InDelivery(v.delivered[d], m);
      if d < |s.delivered| { assert InDelivery(s.delivered[d], m); } else { assert InThread(s.threads[step.t], m); }
    }
  }

  /** What a flush carries or has delivered is preserved, and a copy picks up the whole buffer. */
  lemma CarriedAfter(s: State, step: Step, m: nat)
    requires Inv(s) && Enabled(s, step)
    ensures var v := After(s, step);
      InFlush(v, m) || Delivered(v, m) <==>
        InFlush(s, m) || Delivered(s, m) || (step.Copy? && m in s.bufs[s.threads[step.t].buf].items)
  {
    if InFlush(s, m) || Delivered(s, m) || (step.Copy? && m in s.bufs[s.threads[step.t].buf].items) {
      StillCarried(s, step, m);
    } else if InFlush(After(s, step), m) || Delivered(After(s, step), m) {
      NewlyCarried(s, step, m);
    }
  }

  lemma CarriedIsAppended(s: State, m: nat)
    requires Inv(s) && (InFlush(s, m) || Delivered(s, m))
    ensures m < |s.home| && s.home[m] < |s.bufs| && m in s.bufs[s.home[m]].items
  {
    if InFlush(s, m) {
      var t :| 0 <= t < |s.threads| && InThread(s.threads[t], m);
      assert ThreadOk(s, s.threads[t]);
      assert m in s.bufs[s.threads[t].buf].items && BufferOk(s, s.threads[t].buf);
    } else {
      var d :| 0 <= d < |s.delivered| && InDelivery(s.delivered[d], m);
      assert DeliveryOk(s, s.delivered[d]);
      assert m in s.bufs[s.delivered[d].buf].items && BufferOk(s, s.delivered[d].buf);
    }
  }

  /** A message is lost exactly by being appended after its buffer was copied, and it stays lost. */
  lemma LossIsLateAppend(s: State, step: Step, m: nat)
    requires Inv(s) && Enabled(s, step)
    ensures Lost(After(s, step), m) <==> Lost(s, m) || LateAppend(s, step, m)
  {
    CarriedAfter(s, step, m);
    if m < |s.home| {
      assert MessageOk(s, m);
      CutOffAfter(s, step, s.home[m]);
      AppendedAfter(s, step, m);
      if step.Append? && s.threads[step.t].msg == m { AppendedIsNew(s, step.t); }
      if step.Copy? {
        assert ThreadOk(s, s.threads[step.t]);
        assert BufferOk(s, s.threads[step.t].buf);
      }
    } else {
      FreshIsNotAppended(s, step, m);
      if step.Append? { assert ThreadOk(s, s.threads[step.t]); }
    }
  }

  lemma AppendedIsNew(s: State, t: nat)
    requires Inv(s) && Enabled(s, Append(t))
    ensures var m, b := s.threads[t].msg, s.threads[t].buf;
      m < |s.home| && s.home[m] == b && m !in s.bufs[b].items && !InFlush(s, m) && !Delivered(s, m)
  {
    assert ThreadOk(s, s.threads[t]);
    var m := s.threads[t].msg;
    if InFlush(s, m) || Delivered(s, m) { CarriedIsAppended(s, m); }
  }

  lemma AppendedAfter(s: State, step: Step, m: nat)
    requires Inv(s) && Enabled(s, step) && m < |s.home| && s.home[m] < |s.bufs|
    ensures m in After(s, step).bufs[s.home[m]].items <==>
      m in s.bufs[s.home[m]].items || (step.Append? && s.threads[step.t].msg == m)
  {
    if step.Append? { assert ThreadOk(s, s.threads[step.t]); }
  }

  lemma FreshIsNotAppended(s: State, step: Step, m: nat)
    requires Inv(s) && Enabled(s, step) && m >= |s.home|
    ensures !Lost(After(s, step), m)
  {
    var v := After(s, step);
    if m < |v.home| && v.home[m] < |s.bufs| { assert BufferOk(s, v.home[m]); }
  }

  predicate Idle(th: Thread) {
    th.Done?
  }

  /** No handler or flush is under way and no timer is armed. */
  ghost predicate Quiescent(s: State) {
    && (forall t {:trigger Idle(s.threads[t])} :: 0 <= t < |s.threads| ==> Idle(s.threads[t]))
    && (forall b {:trigger s.bufs[b]} :: 0 <= b < |s.bufs| ==> !s.bufs[b].armed)
  }

  lemma AtRest(s: State, th: Thread)
    requires Quiescent(s) && th in s.threads
    ensures th == Done
  {
    var t :| 0 <= t < |s.threads| && s.threads[t] == th;
    assert Idle(s.threads[t]);
  }

  /** No buffer is stranded: when everything has come to rest, no buffer is live and every message that
      arrived has been delivered or lost. */
  lemma NothingStranded(s: State, m: nat)
    requires Inv(s) && Quiescent(s)
    ensures s.live == map[]
    ensures m < |s.home| ==> (Delivered(s, m) <==> !Lost(s, m))
  {
    forall g | g in s.live ensures false {
      assert LiveOk(s, g);
      var b := s.live[g];
      if s.bufs[b].items != [] {
        AtRest(s, Flushing(g));
      } else {
        var t :| 0 <= t < |s.threads| && s.threads[t].Appending? && s.threads[t].buf == b;
        AtRest(s, s.threads[t]);
      }
    }
    if m < |s.home| {
      assert MessageOk(s, m);
      if Appending(m, s.home[m]) in s.threads { AtRest(s, Appending(m, s.home[m])); }
      if Taken(s.home[m]) in s.threads { AtRest(s, Taken(s.home[m])); }
      if InFlush(s, m) {
        var t :| 0 <= t < |s.threads| && InThread(s.threads[t], m);
        AtRest(s, s.threads[t]);
      }
    }
  }

  /** No flush copies a buffer while a handler that already holds the buffer has yet to append. */
  ghost predicate Gapless(steps: seq<Step>)
    requires CanRun(steps)
    decreases |steps|
  {
    steps == [] || (
      var s, step := Run(steps[..|steps| - 1]), steps[|steps| - 1];
      && Gapless(steps[..|steps| - 1])
      && (step.Copy? ==> !Awaited(s, s.threads[step.t].buf)))
  }

  /** A gap in the run: a handler that will append too late, or a message already lost. */
  ghost predicate Broken(s: State) {
    (exists m: nat :: Lost(s, m)) || (exists b: nat :: CutOff(s, b) && Awaited(s, b))
  }

  lemma AwaitedAfter(s: State, step: Step, b: nat)
    requires Inv(s) && Enabled(s, step) && b < |s.bufs|
    ensures var v := After(s, step);
      && (Awaited(s, b) ==> Awaited(v, b) || (step.Append? && s.threads[step.t].buf == b))
      && (Awaited(v, b) ==> Awaited(s, b) || Live(s, b))
  {
    var v := After(s, step);
    if Awaited(s, b) {
      var t :| 0 <= t < |s.threads| && AppendingTo(s.threads[t], b);
      if step != Append(t) { assert AppendingTo(v.threads[t], b); }
    }
    if Awaited(v, b) {
      var t :| 0 <= t < |v.threads| && AppendingTo(v.threads[t], b);
      if t < |s.threads| {
        assert AppendingTo(s.threads[t], b);
      } else if step.gid in s.live {
        assert LiveOk(s, step.gid);
      }
    }
  }

  /** A run breaks exactly at a copy that leaves a gap. */
  lemma BrokenAfter(s: State, step: Step)
    requires Inv(s) && Enabled(s, step)
    ensures Broken(After(s, step)) <==> Broken(s) || (step.Copy? && Awaited(s, s.threads[step.t].buf))
  {
    var v := After(s, step);
    if exists m: nat :: Lost(s, m) {
      var m: nat :| Lost(s, m);
      LossIsLateAppend(s, step, m);
    } else if exists b: nat :: CutOff(s, b) && Awaited(s, b) {
      var b: nat :| CutOff(s, b) && Awaited(s, b);
      AwaitedAfter(s, step, b);
      CutOffAfter(s, step, b);
      if !Awaited(v, b) { LossIsLateAppend(s, step, s.threads[step.t].msg); }
    }
    if step.Copy? {
      assert ThreadOk(s, s.threads[step.t]);
      var b := s.threads[step.t].buf;
      AwaitedAfter(s, step, b);
      CutOffAfter(s, step, b);
    }
    if !Broken(s) && Broken(v) { BreaksAtCopy(s, step); }
  }

  lemma BreaksAtCopy(s: State, step: Step)
    requires Inv(s) && Enabled(s, step) && !Broken(s) && Broken(After(s, step))
    ensures step.Copy? && Awaited(s, s.threads[step.t].buf)
  {
    var v := After(s, step);
    if exists m: nat :: Lost(v, m) {
      var m: nat :| Lost(v, m);
      LossIsLateAppend(s, step, m);
      assert AppendingTo(s.threads[step.t], s.threads[step.t].buf);
      assert Awaited(s, s.threads[step.t].buf);
      assert false;
    } else {
      var b: nat :| CutOff(v, b) && Awaited(v, b);
      NewBufferNotCutOff(s, step);
      CutOffAfter(s, step, b);
      AwaitedAfter(s, step, b);
    }
  }

  lemma {:induction false} GaplessIsUnbroken(steps: seq<Step>)
    requires CanRun(steps)
    ensures Gapless(steps) <==> !Broken(Run(steps))
    decreases |steps|
  {
    if steps != [] {
      var front, step := steps[..|steps| - 1], steps[|steps| - 1];
      GaplessIsUnbroken(front);
      RunKeeps(front);
      BrokenAfter(Run(front), step);
    }
  }

  /** When a run has come to rest, every message has been delivered if and only if no flush copied a
      buffer for which a handler still had to append. */
  lemma {:induction false} AllDeliveredIffGapless(steps: seq<Step>)
    requires CanRun(steps) && Quiescent(Run(steps))
    ensures (forall m :: 0 <= m < |Run(steps).home| ==> Delivered(Run(steps), m)) <==> Gapless(steps)
  {
    var s := Run(steps);
    RunKeeps(steps);
    GaplessIsUnbroken(steps);
    forall m: nat ensures m < |s.home| ==> (Delivered(s, m) <==> !Lost(s, m)) { NothingStranded(s, m); }
    forall b: nat | Awaited(s, b) ensures false {
      var t :| 0 <= t < |s.threads| && AppendingTo(s.threads[t], b);
      AtRest(s, s.threads[t]);
    }
  }

  /** Handlers that append in the same step in which they obtain the buffer. */
  ghost predicate Prompt(steps: seq<Step>)
    requires CanRun(steps)
    decreases |steps|
  {
    steps == [] || (
      var s, step := Run(steps[..|steps| - 1]), steps[|steps| - 1];
      && Prompt(steps[..|steps| - 1])
      && (step.Append? || forall b: nat :: !Awaited(s, b)))
  }

  /** If obtaining the buffer and appending were one step, nothing could be lost, at rest or before. */
  lemma {:induction false} PromptRunsLoseNothing(steps: seq<Step>, m: nat)
    requires CanRun(steps) && Prompt(steps)
    ensures Gapless(steps) && !Lost(Run(steps), m)
    decreases |steps|
  {
    if steps != [] { PromptRunsLoseNothing(steps[..|steps| - 1], m); }
    GaplessIsUnbroken(steps);
  }

  ghost predicate Reachable(s: State) {
    exists steps :: CanRun(steps) && Run(steps) == s
  }

  lemma ReachableAfter(s: State, step: Step)
    requires Reachable(s) && Enabled(s, step)
    ensures Reachable(After(s, step))
  {
    var steps :| CanRun(steps) && Run(steps) == s;
    assert (steps + [step])[..|steps|] == steps;
    assert Run(steps + [step]) == After(s, step);
  }

  lemma ReachableInv(s: State)
    requires Reachable(s)
    ensures Inv(s)
  {
    var steps :| CanRun(steps) && Run(steps) == s;
    RunKeeps(steps);
  }

  lemma GroupKnown(s: State, g: int)
    requires Reachable(s)
    ensures g in s.live ==> s.live[g] < |s.bufs| && s.bufs[s.live[g]].gid == g
  {
    ReachableInv(s);
    if g in s.live { assert LiveOk(s, g); }
  }

  ghost predicate Goes(s: State, step: Step, v: State) {
    Enabled(s, step) && After(s, step) == v
  }

  /** Left alone, the handler of the tenth message of a buffer disarms the timer and delivers the whole
      buffer itself, in order of arrival; the group is then free for a new buffer. */
  lemma TenthMessageFlushes(s: State, b: nat) returns (path: seq<State>)
    requires Live(s, b) && |s.bufs[b].items| >= 9
    ensures var g, t := s.bufs[b].gid, |s.threads|;
      && |path| == 6
      && Goes(s, Arrive(g), path[0]) && Goes(path[0], Append(t), path[1]) && Goes(path[1], Stop(t), path[2])
      && Goes(path[2], Take(t), path[3]) && Goes(path[3], Copy(t), path[4]) && Goes(path[4], Deliver(t), path[5])
      && path[5].delivered == s.delivered + [Delivery(b, s.bufs[b].items + [|s.home|])]
      && path[5].live == s.live - {g} && !path[5].bufs[b].armed && path[5].threads == s.threads + [Done]
  {
    var g, t := s.bufs[b].gid, |s.threads|;
    var s0 := After(s, Arrive(g));
    var s1 := After(s0, Append(t));
    var s2 := After(s1, Stop(t));
    var s3 := After(s2, Take(t));
    var s4 := After(s3, Copy(t));
    path := [s0, s1, s2, s3, s4, After(s4, Deliver(t))];
  }

  /** Whenever a flush is about to take a live buffer, the next message of the group can be lost: its
      handler obtains the buffer just before the flush takes it and appends just after it was copied. */
  lemma NextMessageCanBeLost(s: State, f: nat) returns (v: State)
    requires Reachable(s) && f < |s.threads| && s.threads[f].Flushing? && s.threads[f].gid in s.live
    ensures Reachable(v) && v.home == s.home + [s.live[s.threads[f].gid]] && Lost(v, |s.home|)
  {
    var g, b, m, t := s.threads[f].gid, s.live[s.threads[f].gid], |s.home|, |s.threads|;
    GroupKnown(s, g);
    var s1 := After(s, Arrive(g));
    ReachableAfter(s, Arrive(g));
    assert s1.threads[t] == Appending(m, b);
    var s2 := After(s1, Take(f));
    ReachableAfter(s1, Take(f));
    assert s2.threads[f] == Taken(b) && s2.threads[t] == Appending(m, b);
    var s3 := After(s2, Copy(f));
    ReachableAfter(s2, Copy(f));
    assert s3.threads[t] == Appending(m, b);
    ReachableInv(s2);
    CutOffAfter(s2, Copy(f), b);
    ReachableInv(s3);
    v := After(s3, Append(t));
    ReachableAfter(s3, Append(t));
    LossIsLateAppend(s3, Append(t), m);
  }

  /** From every reachable state and for every group, two more messages are enough for a loss: the
      timer set by the first starts the flush in which the second is lost. */
  lemma LossIsAlwaysPossible(s: State, g: int) returns (v: State)
    requires Reachable(s)
    ensures Reachable(v) && s.home <= v.home && |v.home| == |s.home| + 2 && Lost(v, |s.home| + 1)
  {
    var s1, b := MessagePosted(s, g);
    var s2 := After(s1, Fire(b));
    ReachableAfter(s1, Fire(b));
    v := NextMessageCanBeLost(s2, |s1.threads|);
  }

  lemma MessagePosted(s: State, g: int) returns (v: State, b: nat)
    requires Reachable(s)
    ensures Reachable(v) && |v.home| == |s.home| + 1 && s.home <= v.home
    ensures g in v.live && v.live[g] == b < |v.bufs| && v.bufs[b].gid == g && v.bufs[b].armed
  {
    GroupKnown(s, g);
    var s1 := After(s, Arrive(g));
    ReachableAfter(s, Arrive(g));
    b := s1.live[g];
    v := After(s1, Append(|s.threads|));
    ReachableAfter(s1, Append(|s.threads|));
  }

  lemma StartIsReachable()
    ensures Reachable(START)
  {
    assert CanRun([]) && Run([]) == START;
  }

  /** So it does happen: to the second message ever received. */
  lemma LossHappens() returns (v: State)
    ensures Reachable(v) && |v.home| == 2 && Lost(v, 1)
  {
    StartIsReachable();
    v := LossIsAlwaysPossible(START, 1);
  }
}
