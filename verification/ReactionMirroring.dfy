/** Reaction mirroring over whole runs: what the account's reactions on a mirror are after any
    sequence of reaction events, new rows and cache evictions. */
module ReactionMirroring {
  import opened Common
  import opened MessageStore
  import opened Reactions

  /** The rows, the sets in the cache, and the account's own reactions on each message. */
  datatype Mirrors = Mirrors(rows: seq<Mapping>, cache: map<Coord, set<string>>, bots: map<Coord, set<string>>)

  /** `applied` says whether Telegram really replaced the reactions, if a call is made at all. */
  datatype Happening =
    | Reacted(key: Coord, current: set<string>, faults: MirrorFaults, applied: bool)
    | Recorded(row: Mapping)
    | Evicted(keys: set<Coord>)

  const NO_FAULTS := MirrorFaults(false, false)

  function SentTo(peers: set<int>, w: Mirrors, h: Happening): Option<Coord> {
    if h.Reacted? then SendsTo(w.rows, peers, w.cache, h.key, h.current, h.faults) else None
  }

  function After(peers: set<int>, w: Mirrors, h: Happening): Mirrors {
    match h
    case Reacted(key, current, _, applied) =>
      var to := SentTo(peers, w, h);
      Mirrors(w.rows, w.cache[key := current], if to.Some? && applied then w.bots[to.value := current] else w.bots)
    case Recorded(row) => w.(rows := w.rows + [row])
    case Evicted(keys) => w.(cache := w.cache - keys)
  }

  function Play(peers: set<int>, w: Mirrors, hs: seq<Happening>): Mirrors {
    if hs == [] then w else After(peers, Play(peers, w, hs[..|hs| - 1]), hs[|hs| - 1])
  }

  lemma {:induction false} PlayOne(peers: set<int>, w: Mirrors, h: Happening)
    ensures Play(peers, w, [h]) == After(peers, w, h)
  {
    assert Play(peers, w, [h][..0]) == w;
  }

  /** A lookup that succeeds finds the recorded other side. */
  lemma FoundIsMirror(rows: seq<Mapping>, c: Coord, faults: MirrorFaults)
    ensures FindReactionMirror(rows, c, faults).MirrorAt? ==>
              Mirror(rows, c) == Some(FindReactionMirror(rows, c, faults).at)
    ensures Mirror(rows, c).Some? ==> FindReactionMirror(rows, c, NO_FAULTS) == MirrorAt(Mirror(rows, c).value)
  {
  }

  /** The hourly clean-up of the cache is an eviction of the keys it removes. */
  lemma CleanupIsEviction(items: map<Coord, CacheEntry>, now: int)
    ensures var kept := map k | k in items && items[k].updatedAt >= now - 24 * 60 * 60 :: items[k];
      SetsOf(kept) == SetsOf(items) - set k | k in items && items[k].updatedAt < now - 24 * 60 * 60
  {
    var kept := map k | k in items && items[k].updatedAt >= now - 24 * 60 * 60 :: items[k];
    var stale := set k | k in items && items[k].updatedAt < now - 24 * 60 * 60;
    assert SetsOf(kept).Keys == SetsOf(items).Keys - stale;
    assert (SetsOf(items) - stale).Keys == SetsOf(items).Keys - stale;
  }

  /** A reconnect builds a bridge with an empty cache: an eviction of every key. */
  lemma ReconnectEvictsAll(peers: set<int>, w: Mirrors)
    ensures After(peers, w, Evicted(w.cache.Keys)) == w.(cache := map[])
  {
    assert (w.cache - w.cache.Keys).Keys == {};
  }

  /** What keeps the mirrors up to date: calls reach Telegram, no reaction precedes the row of its
      message, and only empty sets are evicted. */
  ghost predicate Sound(peers: set<int>, w: Mirrors, h: Happening) {
    match h
    case Reacted(key, _, faults, applied) =>
      && key.msg != 0 && faults == NO_FAULTS && applied
      && (Mirror(w.rows, key).Some? ==> Mirror(w.rows, key).value.chat in peers)
    case Recorded(row) =>
      Clean(w.rows + [row]) && SetAt(w.cache, row.source) == {} && SetAt(w.cache, row.target) == {}
    case Evicted(keys) => forall k :: k in keys ==> SetAt(w.cache, k) == {}
  }

  ghost predicate SoundRun(peers: set<int>, w: Mirrors, hs: seq<Happening>) {
    hs == [] || (
      && SoundRun(peers, w, hs[..|hs| - 1])
      && Sound(peers, Play(peers, w, hs[..|hs| - 1]), hs[|hs| - 1]))
  }

  /** The account's reactions on the other side of `c` are the set cached for `c`. */
  predicate SyncedAt(w: Mirrors, c: Coord) {
    match Opposite(w.rows, c)
    case None => SetAt(w.bots, c) == {}
    case Some(m) => m.msg != 0 ==> SetAt(w.bots, m) == SetAt(w.cache, c)
  }

  ghost predicate Synced(w: Mirrors) {
    && Clean(w.rows)
    && forall c: Coord {:trigger SyncedAt(w, c)} :: c.msg != 0 ==> SyncedAt(w, c)
  }

  /** The last set reported for `c`; nothing reported counts as the empty set. */
  function Latest(hs: seq<Happening>, c: Coord): set<string> {
    if hs == [] then {}
    else
      var h := hs[|hs| - 1];
      if h.Reacted? && h.key == c then h.current else Latest(hs[..|hs| - 1], c)
  }

  lemma ReactedKeepsSync(peers: set<int>, w: Mirrors, h: Happening, c: Coord)
    requires Synced(w) && Sound(peers, w, h) && h.Reacted? && c.msg != 0
    ensures SyncedAt(After(peers, w, h), c)
  {
    LookupOrdersAgree(w.rows, h.key);
    FoundIsMirror(w.rows, h.key, NO_FAULTS);
    assert SyncedAt(w, h.key) && SyncedAt(w, c);
    var to := SentTo(peers, w, h);
    if to.Some? && to.value.msg != 0 {
      OppositeTwice(w.rows, h.key);
      if c != h.key && Opposite(w.rows, c) == to { OppositeInjective(w.rows, c, h.key); }
    }
  }

  lemma RecordedKeepsSync(w: Mirrors, row: Mapping, c: Coord)
    requires Synced(w) && Clean(w.rows + [row]) && c.msg != 0
    requires SetAt(w.cache, row.source) == {} && SetAt(w.cache, row.target) == {}
    ensures SyncedAt(w.(rows := w.rows + [row]), c)
  {
    var rows := w.rows + [row];
    assert row in rows;
    assert SyncedAt(w, c);
    if Opposite(w.rows, c).Some? {
      OppositeStable(w.rows, row, c);
    } else {
      NewOpposite(w.rows, row, c);
      if Opposite(rows, c).Some? {
        var m := Opposite(rows, c).value;
        if m.msg != 0 {
          NewOppositeBack(w.rows, row, c);
          assert SyncedAt(w, m);
        }
      }
    }
  }

  /** A new row gives an other side only to its own two ends. */
  lemma NewOpposite(rows: seq<Mapping>, row: Mapping, c: Coord)
    requires Clean(rows + [row]) && c.msg != 0 && Opposite(rows, c).None?
    ensures Opposite(rows + [row], c) ==
      if c == row.target then Some(row.source) else if c == row.source then Some(row.target) else None
  {
    var after := rows + [row];
    assert row in after;
    assert forall m :: m in rows ==> m in after;
    LookupsUnique(after, row);
    if FindTarget(after, c).Some? { assert FindTarget(after, c).value in rows + [row]; }
    if FindSource(after, c).Some? { assert FindSource(after, c).value in rows + [row]; }
  }

  lemma NewOppositeBack(rows: seq<Mapping>, row: Mapping, c: Coord)
    requires Clean(rows) && Clean(rows + [row]) && c.msg != 0 && Opposite(rows, c).None?
    requires Opposite(rows + [row], c).Some? && Opposite(rows + [row], c).value.msg != 0
    ensures Opposite(rows, Opposite(rows + [row], c).value).None?
  {
    var m := Opposite(rows + [row], c).value;
    if Opposite(rows, m).Some? {
      OppositeStable(rows, row, m);
      OppositeTwice(rows + [row], c);
      var r := if FindTarget(rows, m).Some? then FindTarget(rows, m).value else FindSource(rows, m).value;
      LookupsUnique(rows, r);
    }
  }

  lemma SoundKeepsSync(peers: set<int>, w: Mirrors, h: Happening)
    requires Synced(w) && Sound(peers, w, h)
    ensures Synced(After(peers, w, h))
  {
    var v := After(peers, w, h);
    forall c: Coord | c.msg != 0 ensures SyncedAt(v, c) {
      assert SyncedAt(w, c);
      match h
      case Reacted(_, _, _, _) => ReactedKeepsSync(peers, w, h, c);
      case Recorded(row) => RecordedKeepsSync(w, row, c);
      case Evicted(_) =>
    }
  }

  /** The account's reactions on a mirror are always the last set reported for its original, although
      unchanged sets are not sent again. */
  lemma {:induction false} MirrorShowsLatest(peers: set<int>, rows: seq<Mapping>, hs: seq<Happening>, c: Coord)
    requires Clean(rows) && SoundRun(peers, Mirrors(rows, map[], map[]), hs) && c.msg != 0
    ensures var w := Play(peers, Mirrors(rows, map[], map[]), hs);
      && Synced(w) && SetAt(w.cache, c) == Latest(hs, c)
      && (Opposite(w.rows, c).Some? && Opposite(w.rows, c).value.msg != 0 ==>
            SetAt(w.bots, Opposite(w.rows, c).value) == Latest(hs, c))
  {
    var start := Mirrors(rows, map[], map[]);
    if hs == [] {
      assert forall d :: SyncedAt(start, d);
    } else {
      MirrorShowsLatest(peers, rows, hs[..|hs| - 1], c);
      SoundKeepsSync(peers, Play(peers, start, hs[..|hs| - 1]), hs[|hs| - 1]);
    }
    assert SyncedAt(Play(peers, start, hs), c);
  }

  /** The plain design: every event with a reachable mirror sends its set. */
  function AlwaysSend(peers: set<int>, w: Mirrors, bots: map<Coord, set<string>>, h: Happening): map<Coord,
                      set<string>> {
    if h.Reacted? && Mirror(w.rows, h.key).Some? && Mirror(w.rows, h.key).value.chat in peers
    then bots[Mirror(w.rows, h.key).value := h.current]
    else bots
  }

  function PlayAlways(peers: set<int>, w: Mirrors, hs: seq<Happening>): map<Coord, set<string>> {
    if hs == [] then w.bots
    else AlwaysSend(peers, Play(peers, w, hs[..|hs| - 1]), PlayAlways(peers, w, hs[..|hs| - 1]), hs[|hs| - 1])
  }

  /** Suppressing unchanged sets loses nothing: the chats end up as if every set had been sent. */
  lemma {:induction false} SuppressionRefinesAlwaysSend(peers: set<int>, rows: seq<Mapping>, hs: seq<Happening>,
                                                        c: Coord)
    requires Clean(rows) && SoundRun(peers, Mirrors(rows, map[], map[]), hs) && c.msg != 0
    ensures var start := Mirrors(rows, map[], map[]);
      SetAt(Play(peers, start, hs).bots, c) == SetAt(PlayAlways(peers, start, hs), c)
  {
    if hs != [] {
      var start, front, h := Mirrors(rows, map[], map[]), hs[..|hs| - 1], hs[|hs| - 1];
      SuppressionRefinesAlwaysSend(peers, rows, front, c);
      MirrorShowsLatest(peers, rows, front, c);
      var w := Play(peers, start, front);
      if h.Reacted? {
        LookupOrdersAgree(w.rows, h.key);
        FoundIsMirror(w.rows, h.key, NO_FAULTS);
        assert SyncedAt(w, h.key);
      }
    }
  }

  /** The ends of a new row had no other side before. */
  lemma NoOldOpposite(rows: seq<Mapping>, row: Mapping)
    requires Clean(rows) && Clean(rows + [row]) && row.source.msg != 0 && row.target.msg != 0
    ensures Opposite(rows, row.source).None? && Opposite(rows, row.target).None?
  {
    var after := rows + [row];
    assert row in after;
    LookupsUnique(after, row);
    forall m | m in rows
      ensures m.source != row.source && m.source != row.target
      ensures m.target != row.source && m.target != row.target
    {
      assert m in after;
      var i :| 0 <= i < |rows| && rows[i] == m;
      assert Apart(after[i], after[|rows|]);
    }
  }

  /** After the set of a message has been evicted, the next set reported for it reaches the mirror if and
      only if it is not empty or nothing was there to remove: the removal of all reactions is lost, and
      nothing else. */
  lemma {:induction false} EvictionHidesTotalRemoval(peers: set<int>, w: Mirrors, keys: set<Coord>, c: Coord,
                                                     at: Coord, current: set<string>)
    requires Synced(w) && c in keys && c.msg != 0 && Opposite(w.rows, c) == Some(at) && at.msg != 0 && at.chat in peers
    ensures var v := Play(peers, w, [Evicted(keys), Reacted(c, current, NO_FAULTS, true)]);
      && (SetAt(v.bots, at) == current <==> current != {} || SetAt(w.cache, c) == {})
      && (current == {} ==> SetAt(v.bots, at) == SetAt(w.cache, c))
  {
    assert SyncedAt(w, c);
    LookupOrdersAgree(w.rows, c);
    FoundIsMirror(w.rows, c, NO_FAULTS);
    var hs := [Evicted(keys), Reacted(c, current, NO_FAULTS, true)];
    var mid := After(peers, w, Evicted(keys));
    PlayOne(peers, w, Evicted(keys));
    assert hs[..1] == [Evicted(keys)];
    assert Play(peers, w, hs) == After(peers, mid, hs[1]);
  }

  /** A set reported before the row of its message is saved counts as sent.  What is reported once the row
      is there reaches the mirror if and only if it is a different set, or there is nothing to show. */
  lemma {:induction false} EarlyReactionHidesRepetition(peers: set<int>, w: Mirrors, row: Mapping, s: set<string>,
                                                        t: set<string>)
    requires Synced(w) && Clean(w.rows + [row]) && row.source.msg != 0 && row.target.msg != 0
    requires row.target.chat in peers
    ensures var v := Play(peers, w, [Reacted(row.source, s, NO_FAULTS, true), Recorded(row),
                                     Reacted(row.source, t, NO_FAULTS, true)]);
      && Opposite(v.rows, row.source) == Some(row.target)
      && (SetAt(v.bots, row.target) == t <==> t != s || s == {})
      && (t == s ==> SetAt(v.bots, row.target) == {})
  {
    var early, late := Reacted(row.source, s, NO_FAULTS, true), Reacted(row.source, t, NO_FAULTS, true);
    var hs := [early, Recorded(row), late];
    assert hs[..2][..1] == [early] && hs[..2][1] == Recorded(row);
    var w1 := After(peers, w, early);
    PlayOne(peers, w, early);
    NoOldOpposite(w.rows, row);
    LookupOrdersAgree(w.rows, row.source);
    FoundIsMirror(w.rows, row.source, NO_FAULTS);
    assert w1.bots == w.bots;
    var w2 := After(peers, w1, Recorded(row));
    assert Play(peers, w, hs[..2]) == w2;
    RecordedMirror(w2.rows, row);
    FoundIsMirror(w2.rows, row.source, NO_FAULTS);
    assert SyncedAt(w, row.target);
  }

  lemma RecordedMirror(rows: seq<Mapping>, row: Mapping)
    requires Clean(rows) && row in rows && row.source.msg != 0
    ensures Opposite(rows, row.source) == Some(row.target) == Mirror(rows, row.source)
  {
    LookupsUnique(rows, row);
  }
}
