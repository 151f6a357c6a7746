/** Batches of deletions, and the events that report the relay's own deletes. */
module RelayDeletes {
  import opened Common
  import opened MessageStore
  import opened Relay
  import opened RelayInvariant
  import opened RelayResults
  import opened RelayTheorems
  import opened RelayWorld

  /** The ids of a batch, by position, that lead to a call. */
  ghost function Hits(cfg: Config, rows: seq<Mapping>, ev: DeleteEvent, fails: nat -> bool, n: nat): set<nat>
    requires n <= |ev.ids|
  {
    set i: nat | i < n && DeleteCall(cfg, rows, ev.chat, ev.ids[i], fails(i)).Some?
  }

  lemma HitsGrow(cfg: Config, rows: seq<Mapping>, ev: DeleteEvent, fails: nat -> bool, n: nat)
    requires n < |ev.ids|
    ensures var call := DeleteCall(cfg, rows, ev.chat, ev.ids[n], fails(n));
      |Hits(cfg, rows, ev, fails, n + 1)| == |Hits(cfg, rows, ev, fails, n)| + if call.Some? then 1 else 0
  {
    var before := Hits(cfg, rows, ev, fails, n);
    if DeleteCall(cfg, rows, ev.chat, ev.ids[n], fails(n)).Some? {
      assert Hits(cfg, rows, ev, fails, n + 1) == before + {n};
    } else {
      assert Hits(cfg, rows, ev, fails, n + 1) == before;
    }
  }

  /** A batch makes exactly one call per occurrence of a known, reachable source. */
  lemma {:induction false} OneDeletePerHit(cfg: Config, rows: seq<Mapping>, ev: DeleteEvent, fails: nat -> bool, n: nat)
    requires n <= |ev.ids|
    ensures |DeleteCalls(cfg, rows, ev, fails, n)| == |Hits(cfg, rows, ev, fails, n)|
  {
    if n > 0 {
      OneDeletePerHit(cfg, rows, ev, fails, n - 1);
      HitsGrow(cfg, rows, ev, fails, n - 1);
    }
  }

  /** The call for position `i` comes after as many calls as there are hits before it: batch order. */
  lemma {:induction false} DeletesInBatchOrder(cfg: Config, rows: seq<Mapping>, ev: DeleteEvent, fails: nat -> bool,
                                               n: nat, i: nat)
    requires i < n <= |ev.ids| && i in Hits(cfg, rows, ev, fails, n)
    ensures |Hits(cfg, rows, ev, fails, i)| < |DeleteCalls(cfg, rows, ev, fails, n)|
    ensures DeleteCalls(cfg, rows, ev, fails, n)[|Hits(cfg, rows, ev, fails, i)|]
         == DeleteCall(cfg, rows, ev.chat, ev.ids[i], fails(i)).value
  {
    if i == n - 1 {
      OneDeletePerHit(cfg, rows, ev, fails, i);
    } else {
      DeletesInBatchOrder(cfg, rows, ev, fails, n - 1, i);
    }
  }

  /** A known source is deleted on the other side, whichever of the two that is. */
  lemma {:induction false} KnownSourceIsDeleted(cfg: Config, w: World, ev: DeleteEvent, fails: nat -> bool,
                                                answers: nat -> DeleteAnswer, m: Mapping)
    requires FindSource(w.rows, m.source) == Some(m) && m.target.chat in cfg.peers
    requires ev.chat != 0 && ev.chat in cfg.pairs && cfg.pairs[ev.chat].key !in w.disabled
    requires m.source.chat == ev.chat && m.source.msg in ev.ids
    requires forall i :: !fails(i)
    ensures Delete(m.target.chat, m.target.msg) in CallsOf(cfg, w, Deleted(ev, fails, answers))
  {
    var i: nat :| i < |ev.ids| && ev.ids[i] == m.source.msg;
    assert i in Hits(cfg, w.rows, ev, fails, |ev.ids|);
    DeletesInBatchOrder(cfg, w.rows, ev, fails, |ev.ids|, i);
  }

  /** An id of a batch is a hit exactly if its lookup does not fail and finds a row with a reachable mirror. */
  lemma {:induction false} HitExactlyIf(cfg: Config, rows: seq<Mapping>, ev: DeleteEvent, fails: nat -> bool, n: nat,
                                        i: nat)
    requires i < n <= |ev.ids|
    ensures var row := FindSource(rows, Coord(ev.chat, ev.ids[i]));
      && (i in Hits(cfg, rows, ev, fails, n) <==> !fails(i) && row.Some? && row.value.target.chat in cfg.peers)
      && (i in Hits(cfg, rows, ev, fails, n) ==>
            DeleteCall(cfg, rows, ev.chat, ev.ids[i], fails(i))
              == Some(Delete(row.value.target.chat, row.value.target.msg)))
  {
  }

  /** Each call belongs to one of the hits. */
  lemma {:induction false} CallIsHit(cfg: Config, rows: seq<Mapping>, ev: DeleteEvent, fails: nat -> bool, n: nat,
                                     k: nat) returns (i: nat)
    requires n <= |ev.ids| && k < |DeleteCalls(cfg, rows, ev, fails, n)|
    ensures i in Hits(cfg, rows, ev, fails, n) && |Hits(cfg, rows, ev, fails, i)| == k
  {
    if k < |DeleteCalls(cfg, rows, ev, fails, n - 1)| {
      i := CallIsHit(cfg, rows, ev, fails, n - 1, k);
    } else {
      i := n - 1;
      OneDeletePerHit(cfg, rows, ev, fails, n - 1);
    }
  }

  /** Position `i` of the batch names the source of `m`, and nothing stands in the way of the call. */
  predicate Calls(cfg: Config, ev: DeleteEvent, fails: nat -> bool, m: Mapping, i: nat) {
    i < |ev.ids| && Coord(ev.chat, ev.ids[i]) == m.source && !fails(i) && m.target.chat in cfg.peers
  }

  /** In a reachable state, a known mirror is deleted if and only if the batch is of a configured, enabled
      chat, on whichever side, and names its source with a lookup that works, and its chat is reachable. */
  lemma {:induction false} MirrorIsDeletedExactlyIf(cfg: Config, w: World, ev: DeleteEvent, fails: nat -> bool,
                                                    answers: nat -> DeleteAnswer, m: Mapping)
    requires Inv(cfg, w) && m in w.rows && m.target.msg != 0
    ensures Delete(m.target.chat, m.target.msg) in CallsOf(cfg, w, Deleted(ev, fails, answers)) <==>
            && ev.chat != 0 && ev.chat in cfg.pairs && cfg.pairs[ev.chat].key !in w.disabled
            && exists i: nat :: Calls(cfg, ev, fails, m, i)
  {
    var calls := CallsOf(cfg, w, Deleted(ev, fails, answers));
    LookupsUnique(w.rows, m);
    if Delete(m.target.chat, m.target.msg) in calls {
      var k: nat :| k < |calls| && calls[k] == Delete(m.target.chat, m.target.msg);
      var i := CallIsHit(cfg, w.rows, ev, fails, |ev.ids|, k);
      DeletesInBatchOrder(cfg, w.rows, ev, fails, |ev.ids|, i);
      HitExactlyIf(cfg, w.rows, ev, fails, |ev.ids|, i);
      CleanApart(w.rows, FindSource(w.rows, Coord(ev.chat, ev.ids[i])).value, m);
      assert Calls(cfg, ev, fails, m, i);
    }
    if HandlesDeletes(cfg, w.disabled, ev) && exists i: nat :: Calls(cfg, ev, fails, m, i) {
      var i: nat :| Calls(cfg, ev, fails, m, i);
      HitExactlyIf(cfg, w.rows, ev, fails, |ev.ids|, i);
      DeletesInBatchOrder(cfg, w.rows, ev, fails, |ev.ids|, i);
    }
  }

  /** Position `i` of the batch is a hit whose row points at `c`, and its call is accepted. */
  ghost predicate Strikes(cfg: Config, rows: seq<Mapping>, ev: DeleteEvent, fails: nat -> bool,
                          answers: nat -> DeleteAnswer, c: Coord, i: nat) {
    && i < |ev.ids| && i in Hits(cfg, rows, ev, fails, |ev.ids|)
    && FindSource(rows, Coord(ev.chat, ev.ids[i])).value.target == c
    && answers(|Hits(cfg, rows, ev, fails, i)|).DeleteAccepted?
  }

  /** What a handled batch does to the chats: a live post dies if and only if some accepted hit is for a row
      that points at it. */
  lemma {:induction false} PostDiesIffStruck(cfg: Config, w: World, ev: DeleteEvent, fails: nat -> bool,
                                             answers: nat -> DeleteAnswer, c: Coord)
    requires HandlesDeletes(cfg, w.disabled, ev) && c in w.posts && w.posts[c].alive
    ensures var after := Next(cfg, w, Deleted(ev, fails, answers)).posts;
      && c in after && after[c].(alive := true) == w.posts[c]
      && (!after[c].alive <==> exists i: nat :: Strikes(cfg, w.rows, ev, fails, answers, c, i))
  {
    var calls := DeleteCalls(cfg, w.rows, ev, fails, |ev.ids|);
    if KilledBy(c, calls, answers) {
      var k: nat :| k < |calls| && calls[k] == Delete(c.chat, c.msg) && answers(k).DeleteAccepted?;
      var i := CallIsHit(cfg, w.rows, ev, fails, |ev.ids|, k);
      DeletesInBatchOrder(cfg, w.rows, ev, fails, |ev.ids|, i);
      assert Strikes(cfg, w.rows, ev, fails, answers, c, i);
    }
    if i: nat :| Strikes(cfg, w.rows, ev, fails, answers, c, i) {
      DeletesInBatchOrder(cfg, w.rows, ev, fails, |ev.ids|, i);
      assert calls[|Hits(cfg, w.rows, ev, fails, i)|] == Delete(c.chat, c.msg);
    }
  }

  /** In a reachable state, a live, known mirror dies if and only if the batch contains its own source and
      the call for it is accepted: no deletion takes down the mirror of another message. */
  lemma {:induction false} MirrorDiesIffSourceDoes(cfg: Config, w: World, ev: DeleteEvent, fails: nat -> bool,
                                                   answers: nat -> DeleteAnswer, m: Mapping)
    requires Inv(cfg, w) && HandlesDeletes(cfg, w.disabled, ev)
    requires m in w.rows && m.target.msg != 0 && m.target in w.posts && w.posts[m.target].alive
    ensures var after := Next(cfg, w, Deleted(ev, fails, answers)).posts;
      m.target in after &&
      (!after[m.target].alive <==>
         exists i: nat :: i in Hits(cfg, w.rows, ev, fails, |ev.ids|) && Coord(ev.chat, ev.ids[i]) == m.source
                          && answers(|Hits(cfg, w.rows, ev, fails, i)|).DeleteAccepted?)
  {
    PostDiesIffStruck(cfg, w, ev, fails, answers, m.target);
    LookupsUnique(w.rows, m);
    forall i: nat | i in Hits(cfg, w.rows, ev, fails, |ev.ids|)
      ensures FindSource(w.rows, Coord(ev.chat, ev.ids[i])).value.target == m.target <==>
              Coord(ev.chat, ev.ids[i]) == m.source
    {
      CleanApart(w.rows, FindSource(w.rows, Coord(ev.chat, ev.ids[i])).value, m);
    }
    assert forall i: nat :: Strikes(cfg, w.rows, ev, fails, answers, m.target, i) <==>
      i in Hits(cfg, w.rows, ev, fails, |ev.ids|) && Coord(ev.chat, ev.ids[i]) == m.source
      && answers(|Hits(cfg, w.rows, ev, fails, i)|).DeleteAccepted?;
  }

  lemma {:induction false} NoKnownSourceNoDelete(cfg: Config, rows: seq<Mapping>, ev: DeleteEvent, fails: nat -> bool,
                                                 n: nat)
    requires n <= |ev.ids|
    requires forall id :: id in ev.ids ==> FindSource(rows, Coord(ev.chat, id)).None?
    ensures DeleteCalls(cfg, rows, ev, fails, n) == []
  {
    if n > 0 { NoKnownSourceNoDelete(cfg, rows, ev, fails, n - 1); }
  }

  lemma UnknownBatchIsSilent(cfg: Config, w: World, ev: DeleteEvent, fails: nat -> bool, answers: nat -> DeleteAnswer)
    requires forall id :: id in ev.ids ==> FindSource(w.rows, Coord(ev.chat, id)).None?
    ensures var s := Deleted(ev, fails, answers);
      CallsOf(cfg, w, s) == [] && Next(cfg, w, s) == w
  {
    NoKnownSourceNoDelete(cfg, w.rows, ev, fails, |ev.ids|);
    assert Killed(w.posts, [], answers) == w.posts;
  }

  /** Each call of a batch names the target of a row. */
  lemma {:induction false} DeletesNameTargets(cfg: Config, rows: seq<Mapping>, ev: DeleteEvent, fails: nat -> bool,
                                              n: nat, k: nat)
    returns (m: Mapping)
    requires n <= |ev.ids| && k < |DeleteCalls(cfg, rows, ev, fails, n)|
    ensures m in rows && DeleteCalls(cfg, rows, ev, fails, n)[k] == Delete(m.target.chat, m.target.msg)
  {
    if k < |DeleteCalls(cfg, rows, ev, fails, n - 1)| {
      m := DeletesNameTargets(cfg, rows, ev, fails, n - 1, k);
    } else {
      m := FindSource(rows, Coord(ev.chat, ev.ids[n - 1])).value;
    }
  }

  /** Delete echoes die out: an event by which Telegram reports deletes that the relay has made, in whatever
      grouping and order, and after whatever has happened since, makes no further call, although delete
      events carry no sender. */
  lemma {:induction false} DeleteEchoIsSilent(cfg: Config, w: World, ev: DeleteEvent, fails: nat -> bool,
                                              answers: nat -> DeleteAnswer,
                                              steps: seq<Step>, echo: DeleteEvent, echoFails: nat -> bool,
                                              echoAnswers: nat -> DeleteAnswer)
    requires Inv(cfg, w) && Legal(cfg, w, steps)
    requires forall id :: id in echo.ids ==>
               id != 0 && Delete(echo.chat, id) in CallsOf(cfg, w, Deleted(ev, fails, answers))
    ensures CallsOf(cfg, Exec(cfg, w, steps), Deleted(echo, echoFails, echoAnswers)) == []
  {
    var calls, last := CallsOf(cfg, w, Deleted(ev, fails, answers)), Exec(cfg, w, steps);
    RunKeeps(cfg, w, steps);
    RunGrows(cfg, w, steps);
    forall id | id in echo.ids ensures FindSource(last.rows, Coord(echo.chat, id)).None? {
      var k :| 0 <= k < |calls| && calls[k] == Delete(echo.chat, id);
      var m := DeletesNameTargets(cfg, w.rows, ev, fails, |ev.ids|, k);
      assert m in last.rows[..|w.rows|];
      LookupsUnique(last.rows, m);
    }
    NoKnownSourceNoDelete(cfg, last.rows, echo, echoFails, |echo.ids|);
  }
}
