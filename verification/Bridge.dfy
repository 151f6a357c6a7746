/** The bridge object of one connected account and its message handlers. */
module Bridge {
  import opened Common
  import Entities
  import opened MessageStore
  import opened Reactions
  import opened Relay
  import opened Retry
  import opened Updates

  /** A call that replaces the account's reactions on a message. */
  datatype React = React(chat: int, id: int, reactions: seq<string>)

  datatype ReactionsEvent = ReactionsEvent(chat: int, id: int, reactions: seq<Reaction>)

  /** How many of the first `n` answers are successes. */
  function Successes(answers: nat -> DeleteAnswer, n: nat): nat {
    if n == 0 then 0 else Successes(answers, n - 1) + if answers(n - 1).DeleteAccepted? then 1 else 0
  }

  /** The number of accepted ones among them. */
  lemma {:induction false} SuccessesCount(answers: nat -> DeleteAnswer, n: nat)
    ensures Successes(answers, n) == |set k: nat | k < n && answers(k).DeleteAccepted?|
  {
    if n > 0 {
      SuccessesCount(answers, n - 1);
      var front := set k: nat | k < n - 1 && answers(k).DeleteAccepted?;
      var all := set k: nat | k < n && answers(k).DeleteAccepted?;
      assert all == if answers(n - 1).DeleteAccepted? then front + {n - 1} else front;
    }
  }

  class Impl {
    const cfg: Config
    const st: Store
    const rCache: ReactionsCache
    var disabledPairs: set<string>

    constructor (cfg: Config, st: Store)
      ensures this.cfg == cfg && this.st == st && disabledPairs == {}
      ensures fresh(rCache) && rCache.items == map[]
    {
      this.cfg := cfg;
      this.st := st;
      rCache := new ReactionsCache();
      disabledPairs := {};
    }

    /** Looks the replied-to message up as a mirror first, then as a source. */
    method ResolveReplyTarget(chat: int, replyTo: int, faults: Faults) returns (id: int, found: bool, failed: bool)
      ensures (if !failed && found then id else 0) == ReplyId(st.rows, chat, Some(replyTo), faults)
      ensures !failed && found ==> Opposite(st.rows, Coord(chat, replyTo)).Some?
      ensures !failed && !found ==> Opposite(st.rows, Coord(chat, replyTo)).None?
    {
      var m := st.FindByTarget(Coord(chat, replyTo), faults.first);
      if m.LookupFailed? { return 0, false, true; }
      if m.Row? { return m.row.source.msg, true, false; }
      m := st.FindBySource(Coord(chat, replyTo), faults.second);
      if m.LookupFailed? { return 0, false, true; }
      if m.Row? { return m.row.target.msg, true, false; }
      return 0, false, false;
    }

    method ChooseReply(chat: int, replyTo: Option<int>, faults: Faults) returns (id: int)
      ensures id == ReplyId(st.rows, chat, replyTo, faults)
    {
      id := 0;
      if replyTo.Some? {
        var target, found, failed := ResolveReplyTarget(chat, replyTo.value, faults);
        if !failed && found { id := target; }
      }
    }

    /** The body to send; a text is sent with its entities converted back. */
    method ToBody(content: Content) returns (body: Body)
      ensures body == Outgoing(content)
    {
      if content.MediaContent? { return Media; }
      var entities := Entities.ConvertEntitiesToTG(content.entities);
      return Text(content.text, entities);
    }

    /** Relays one message: route, resolve the reply, send with retries, record the mirror. */
    method OnNewMessage(ev: MessageEvent, env: SendEnv, fault: SaveFault) returns (calls: seq<Call>, r: Result)
      modifies this, st
      ensures Effect(st.rows, disabledPairs, calls, r)
           == NewMessageEffect(cfg, old(st.rows), old(disabledPairs), ev, env, fault)
    {
      if !IsRelevant(ev.chat, ev.from, cfg.selfID, cfg.pairs) { return [], Ignored; }
      var pair := cfg.pairs[ev.chat];
      if pair.key in disabledPairs { return [], Ignored; }
      var direction, target;
      if ev.chat == pair.merchant {
        direction, target := MerchantToSupport, pair.support;
      } else if ev.chat == pair.support {
        direction, target := SupportToMerchant, pair.merchant;
      } else {
        return [], Ignored;
      }
      if target !in cfg.peers { return [], Ignored; }
      var replyTo := ChooseReply(ev.chat, ev.replyTo, env.faults);
      if env.waitCancelled { return [], Errored; }
      var body := ToBody(ev.content);
      var report := WithRetry(env.script, env.cancels);
      calls := Repeat(Send(target, body, replyTo), report.calls);
      match report.outcome {
        case ChatForbidden =>
          disabledPairs := disabledPairs + {pair.key};
          return calls, PairDisabled;
        case Done(response) =>
          var id, _ := ExtractMessageID(response);
          var saved := st.SaveMapping(
            Mapping(pair.key, Coord(ev.chat, ev.id), Coord(target, id), direction, None, cfg.phone), fault);
          return calls, if saved.SaveFailed? then Errored else Relayed;
        case _ =>
          return calls, Errored;
      }
    }

    method DownloadItems(ev: AlbumEvent, downloads: nat -> bool) returns (ok: bool)
      ensures ok <==> AllDownloaded(ev, downloads)
    {
      for i := 0 to |ev.items|
        invariant forall k: nat :: k < i ==> downloads(k)
      {
        if !downloads(i) { return false; }
      }
      return true;
    }

    /** Saves one row per item; a failed or duplicate save does not stop the others. */
    method RecordAlbum(route: Route, ev: AlbumEvent, ids: seq<int>, faults: nat -> SaveFault) returns (saved: nat)
      modifies st
      ensures st.rows == RecordItems(cfg, route, old(st.rows), ev, ids, faults, |ev.items|)
      ensures saved <= |ev.items|
    {
      saved := 0;
      for i := 0 to |ev.items|
        invariant st.rows == RecordItems(cfg, route, old(st.rows), ev, ids, faults, i)
        invariant saved <= i
      {
        var targetMsg := 0;
        if i < |ids| { targetMsg := ids[i]; }
        var r := st.SaveMapping(
          Mapping(route.key, Coord(ev.chat, ev.items[i]), Coord(route.target, targetMsg), route.direction,
                  Some(ev.group), cfg.phone), faults(i));
        if r.Saved? { saved := saved + 1; }
      }
    }

    /** Relays an album in one send and records every item against its mirror. */
    method OnAlbum(ev: AlbumEvent, downloads: nat -> bool, env: SendEnv, faults: nat -> SaveFault)
      returns (calls: seq<Call>, r: Result)
      modifies this, st
      ensures Effect(st.rows, disabledPairs, calls, r)
           == AlbumEffect(cfg, old(st.rows), old(disabledPairs), ev, downloads, env, faults)
    {
      if !IsRelevant(ev.chat, ev.from, cfg.selfID, cfg.pairs) { return [], Ignored; }
      var pair := cfg.pairs[ev.chat];
      if pair.key in disabledPairs { return [], Ignored; }
      var route;
      if ev.chat == pair.merchant {
        route := Route(pair.key, MerchantToSupport, pair.support);
      } else if ev.chat == pair.support {
        route := Route(pair.key, SupportToMerchant, pair.merchant);
      } else {
        return [], Ignored;
      }
      if route.target !in cfg.peers { return [], Ignored; }
      var ready := DownloadItems(ev, downloads);
      if !ready { return [], Errored; }
      var replyTo := ChooseReply(ev.chat, ev.replyTo, env.faults);
      if env.waitCancelled { return [], Errored; }
      if |ev.items| == 0 { return [], Panicked; }
      var report := WithRetry(env.script, env.cancels);
      calls := Repeat(SendAlbum(route.target, |ev.items|, replyTo), report.calls);
      match report.outcome {
        case ChatForbidden =>
          disabledPairs := disabledPairs + {pair.key};
          return calls, PairDisabled;
        case Done(response) =>
          var ids := ExtractAlbumMessageIDs(response);
          var _ := RecordAlbum(route, ev, ids, faults);
          return calls, Relayed;
        case _ =>
          return calls, Errored;
      }
    }

    /** Relays an edit to the recorded mirror of the edited message. */
    method OnMessageEdited(ev: EditEvent, lookupFails: bool, answer: EditAnswer) returns (calls: seq<Call>, r: Result)
      ensures (calls, r) == EditEffect(cfg, st.rows, disabledPairs, ev, lookupFails, answer)
    {
      if !IsRelevant(ev.chat, ev.from, cfg.selfID, cfg.pairs) { return [], Ignored; }
      if cfg.pairs[ev.chat].key in disabledPairs { return [], Ignored; }
      var m := st.FindBySource(Coord(ev.chat, ev.id), lookupFails);
      if m.LookupFailed? { return [], Errored; }
      if m.NoRow? { return [], Ignored; }
      if m.row.target.chat !in cfg.peers { return [], Ignored; }
      var entities := [];
      if |ev.entities| > 0 { entities := Entities.ConvertEntitiesToTG(ev.entities); }
      calls := [Edit(m.row.target.chat, m.row.target.msg, ev.text, entities, ev.newMedia)];
      match answer {
        case EditAccepted => return calls, Relayed;
        case NotModified => return calls, Ignored;
        case IdInvalid => return calls, Ignored;
        case EditRefused => return calls, Errored;
      }
    }

    /** Relays a batch of deletions, one call per known id; `answers(k)` answers the k-th call made. */
    method OnMessageDeleted(ev: DeleteEvent, fails: nat -> bool, answers: nat -> DeleteAnswer)
      returns (calls: seq<Call>, deleted: nat)
      ensures calls == if HandlesDeletes(cfg, disabledPairs, ev)
                       then DeleteCalls(cfg, st.rows, ev, fails, |ev.ids|) else []
      ensures deleted == Successes(answers, |calls|)
    {
      calls, deleted := [], 0;
      if ev.chat == 0 { return; }
      if ev.chat !in cfg.pairs { return; }
      if cfg.pairs[ev.chat].key in disabledPairs { return; }
      for i := 0 to |ev.ids|
        invariant calls == DeleteCalls(cfg, st.rows, ev, fails, i)
        invariant deleted == Successes(answers, |calls|)
      {
        var m := st.FindBySource(Coord(ev.chat, ev.ids[i]), fails(i));
        if m.Row? && m.row.target.chat in cfg.peers {
          if answers(|calls|).DeleteAccepted? { deleted := deleted + 1; }
          calls := calls + [Delete(m.row.target.chat, m.row.target.msg)];
        }
      }
    }

    method LookUpMirror(c: Coord, faults: MirrorFaults) returns (r: MirrorLookup)
      ensures r == FindReactionMirror(st.rows, c, faults)
    {
      var m := st.FindBySource(c, faults.first);
      if m.LookupFailed? { return MirrorFailed; }
      if m.Row? { return MirrorAt(m.row.target); }
      m := st.FindByTarget(c, faults.second);
      if m.LookupFailed? { return MirrorFailed; }
      if m.Row? { return MirrorAt(m.row.source); }
      return NoMirror;
    }

    /** The canonical list of the standard reactions of an event. */
    method CurrentSet(reactions: seq<Reaction>) returns (current: seq<string>)
      ensures Canonical(current) && Elems(current) == Standard(reactions)
    {
      var list: seq<string> := [];
      for i := 0 to |reactions|
        invariant Elems(list) == Standard(reactions[..i])
      {
        var r := reactions[i];
        assert reactions[..i + 1] == reactions[..i] + [r];
        ElemsSnoc(list, r.emoji);
        if !r.custom && r.emoji != "" { list := list + [r.emoji]; }
      }
      assert reactions[..|reactions|] == reactions;
      var a := new string[|list|](i requires 0 <= i < |list| => list[i]);
      assert a[..] == list;
      SortStrings(a);
      SortSorts(list);
      DedupIsCanonical(SortOf(list));
      var n := DedupStrings(a);
      return a[..n];
    }

    /** Mirrors the reaction set of a message, unless it is the set last seen on that message.  The
        cache takes the set and the time first, whatever becomes of the call; an emoji refused by the target chat
        (`Accepted(false)`) counts as sent, and a failed send is not reported. */
    method OnReactions(ev: ReactionsEvent, now: int, faults: MirrorFaults, script: nat -> Answer<bool>,
                       cancels: nat -> bool)
      returns (calls: seq<React>, r: Result)
      modifies rCache
      ensures var key := Coord(ev.chat, ev.id);
        var to := SendsTo(st.rows, cfg.peers, SetsOf(old(rCache.items)), key, Standard(ev.reactions), faults);
        && rCache.items == old(rCache.items)[key := CacheEntry(Cached(rCache.items, key), now)]
        && Canonical(Cached(rCache.items, key)) && Elems(Cached(rCache.items, key)) == Standard(ev.reactions)
        && SetsOf(rCache.items) == SetsOf(old(rCache.items))[key := Standard(ev.reactions)]
        && (to.None? ==> calls == [])
        && (to.Some? ==> |calls| == Retried(script, cancels).calls)
        && (to.Some? ==>
              forall k :: 0 <= k < |calls| ==>
                calls[k] == React(to.value.chat, to.value.msg, Cached(rCache.items, key)))
        && (r == Relayed <==> to.Some? && Retried(script, cancels).outcome.Done?)
        && (r == Errored <==> Standard(ev.reactions) != SetAt(SetsOf(old(rCache.items)), key)
                              && FindReactionMirror(st.rows, key, faults).MirrorFailed?)
        && (r == Relayed || r == Errored || r == Ignored)
    {
      var current := CurrentSet(ev.reactions);
      var key := Coord(ev.chat, ev.id);
      var prev := rCache.Get(key);
      rCache.Set(key, current, now);
      var added := SetDiff(current, prev);
      var removed := SetDiff(prev, current);
      if |added| == 0 && |removed| == 0 { return [], Ignored; }
      var mirror := LookUpMirror(key, faults);
      if mirror.MirrorFailed? { return [], Errored; }
      if mirror.NoMirror? { return [], Ignored; }
      if mirror.at.chat !in cfg.peers { return [], Ignored; }
      var report := WithRetry(script, cancels);
      calls := seq(report.calls, _ => React(mirror.at.chat, mirror.at.msg, current));
      return calls, if report.outcome.Done? then Relayed else Ignored;
    }
  }
}
