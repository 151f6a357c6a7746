/** The handler of an album message and the flush as the code they are, and the interleaved steps as
    what that code does when nothing interferes. */
module AlbumHandlers {
  import opened Common
  import opened AlbumBuffer

  ghost predicate Known(s: State) {
    forall g :: g in s.live ==> s.live[g] < |s.bufs| && s.bufs[s.live[g]].gid == g
  }

  /** Thread t, about to flush, runs to its end. */
  ghost function FlushAlone(s: State, t: nat): State
    requires Known(s) && t < |s.threads| && s.threads[t].Flushing?
  {
    var s1 := After(s, Take(t));
    if s1.threads[t].Done? then s1
    else
      var s2 := After(s1, Copy(t));
      if s2.threads[t].Done? then s2 else After(s2, Deliver(t))
  }

  /** Thread t, having appended, runs to its end. */
  ghost function FinishAlone(s: State, t: nat): State
    requires Known(s) && t < |s.threads| && (s.threads[t].Done? || (s.threads[t].Full? && s.threads[t].buf < |s.bufs|))
  {
    if s.threads[t].Done? then s
    else
      var s1 := After(s, Stop(t));
      if s1.threads[t].Done? then s1 else FlushAlone(s1, t)
  }

  /** A message of the group arrives, and its handler runs to its end. */
  ghost function HandleAlone(s: State, gid: int): State
    requires Known(s)
  {
    FinishAlone(After(After(s, Arrive(gid)), Append(|s.threads|)), |s.threads|)
  }

  /** The messages buffered for a group. */
  ghost function Buffered(s: State, gid: int): seq<nat>
    requires Known(s)
  {
    if gid in s.live then s.bufs[s.live[gid]].items else []
  }

  /** What a handler that runs alone does.  With fewer than nine messages buffered for the group, its message
      joins them, the timer is armed, and nothing is delivered; with nine, all ten are delivered, and the
      group is free for a new buffer. */
  lemma HandlerWaitsForTen(s: State, gid: int)
    requires Known(s)
    ensures var v, items := HandleAlone(s, gid), Buffered(s, gid) + [|s.home|];
      var b := if gid in s.live then s.live[gid] else |s.bufs|;
      && v.threads == s.threads + [Done] && v.home == s.home + [b]
      && (|Buffered(s, gid)| < 9 ==>
            && v.live == s.live[gid := b] && b < |v.bufs| && v.bufs[b] == Buffer(gid, items, true)
            && v.delivered == s.delivered)
      && (|Buffered(s, gid)| >= 9 ==>
            && v.live == s.live - {gid} && b < |v.bufs| && v.bufs[b] == Buffer(gid, items, false)
            && v.delivered == s.delivered + [Delivery(b, items)])
  {
    var s1 := After(s, Arrive(gid));
    DoneBelowTen(s1, |s.threads|);
    if |Buffered(s, gid)| >= 9 {
      var s2 := After(s1, Append(|s.threads|));
      var s3 := After(s2, Stop(|s.threads|));
      assert s3.threads[|s.threads|] == Flushing(gid) && s3.live[gid] == s1.home[|s.home|];
      assert s1.live - {gid} == s.live - {gid};
    }
  }

  class Albums {
    var live: map<int, nat>
    var bufs: seq<Buffer>

    /** The shared state, with the messages that have arrived and no thread under way. */
    ghost function Shared(threads: seq<Thread>, home: seq<nat>): State
      reads this
    {
      State(live, bufs, threads, home, [])
    }

    constructor ()
      ensures live == map[] && bufs == []
    {
      live, bufs := map[], [];
    }

    /** Removes the live buffer of the group and hands over its messages, if it has any. */
    method FlushAlbum(gid: int, ghost home: seq<nat>) returns (event: Option<Delivery>)
      requires Known(Shared([], []))
      modifies this
      ensures Known(Shared([], []))
      ensures var v := FlushAlone(old(Shared([Flushing(gid)], home)), 0);
        && v.live == live && v.bufs == bufs
        && v.delivered == match event case None => [] case Some(e) => [e]
    {
      if gid !in live { return None; }
      var b := live[gid];
      live := live - {gid};
      var msgs := bufs[b].items;
      if |msgs| == 0 { return None; }
      return Some(Delivery(b, msgs));
    }

    /** The live buffer of the group, or a new one. */
    method LoadOrStore(gid: int, ghost home: seq<nat>) returns (b: nat)
      requires Known(Shared([], []))
      modifies this
      ensures Known(Shared([], [])) && gid in live && live[gid] == b
      ensures Shared([Appending(|home|, b)], home + [b]) == After(old(Shared([], home)), Arrive(gid))
    {
      if gid !in live {
        live := live[gid := |bufs|];
        bufs := bufs + [Buffer(gid, [], false)];
      }
      return live[gid];
    }

    /** Appends under the lock of the buffer and arms its timer; `n` is the new number of messages. */
    method AppendTo(b: nat, m: nat, ghost home: seq<nat>) returns (n: nat)
      requires Known(Shared([], [])) && b < |bufs|
      modifies this
      ensures Known(Shared([], [])) && live == old(live) && |bufs| == |old(bufs)| && bufs[b].gid == old(bufs)[b].gid
      ensures Shared([if n >= ALBUM_LIMIT then Full(b) else Done], home)
           == After(old(Shared([Appending(m, b)], home)), Append(0))
    {
      n := |bufs[b].items| + 1;
      bufs := bufs[b := Buffer(bufs[b].gid, bufs[b].items + [m], true)];
    }

    /** Disarms the timer under the lock of the buffer, and says whether it was armed. */
    method StopTimer(b: nat, ghost home: seq<nat>) returns (stopped: bool)
      requires Known(Shared([], [])) && b < |bufs|
      modifies this
      ensures Known(Shared([], [])) && live == old(live) && |bufs| == |old(bufs)|
      ensures Shared([if stopped then Flushing(bufs[b].gid) else Done], home)
           == After(old(Shared([Full(b)], home)), Stop(0))
    {
      stopped := bufs[b].armed;
      bufs := bufs[b := bufs[b].(armed := false)];
    }

    /** After the tenth message of a buffer the handler stops the timer and, if it did, flushes. */
    method FlushIfFull(gid: int, b: nat, n: nat, ghost home: seq<nat>) returns (event: Option<Delivery>)
      requires Known(Shared([], [])) && b < |bufs| && bufs[b].gid == gid
      modifies this
      ensures Known(Shared([], []))
      ensures var v := FinishAlone(old(Shared([if n >= ALBUM_LIMIT then Full(b) else Done], home)), 0);
        && v.live == live && v.bufs == bufs
        && v.delivered == match event case None => [] case Some(e) => [e]
    {
      event := None;
      if n >= ALBUM_LIMIT {
        var stopped := StopTimer(b, home);
        if stopped { event := FlushAlbum(gid, home); }
      }
    }

    /** Handles one message of an album. */
    method HandleAlbumMessage(gid: int, m: nat, ghost home: seq<nat>) returns (event: Option<Delivery>)
      requires Known(Shared([], [])) && m == |home|
      modifies this
      ensures Known(Shared([], []))
      ensures var v := HandleAlone(old(Shared([], home)), gid);
        && v.live == live && v.bufs == bufs
        && v.delivered == match event case None => [] case Some(e) => [e]
      ensures var before := old(Buffered(Shared([], home), gid));
        && (event.Some? <==> |before| >= 9)
        && (event.Some? ==> event.value.msgs == before + [m] && gid !in live)
        && (event.None? ==> gid in live && bufs[live[gid]] == Buffer(gid, before + [m], true))
    {
      HandlerWaitsForTen(Shared([], home), gid);
      var b := LoadOrStore(gid, home);
      var n := AppendTo(b, m, home + [b]);
      event := FlushIfFull(gid, b, n, home + [b]);
      ghost var v := HandleAlone(old(Shared([], home)), gid);
      assert event.Some? ==> v.delivered[0] == event.value;
    }
  }
}
