/** What becomes of each event, in terms of the event, the rows, the faults and the answers alone. */
module RelayOutcomes {
  import opened Common
  import opened MessageStore
  import opened Pairs
  import opened Relay
  import RelayAlbums
  import opened RelayResults
  import opened RelayTheorems
  import opened RelayWorld
  import opened Retry
  import opened Updates

  /** The id a reply is sent with: none if the first table access fails, or the second when it is needed;
      otherwise that of the other side, if one is recorded. */
  lemma {:induction false} ReplyIdExactly(rows: seq<Mapping>, chat: int, replyTo: Option<int>, faults: Faults)
    ensures ReplyId(rows, chat, None, faults) == 0
    ensures replyTo.Some? ==>
              var c := Coord(chat, replyTo.value);
              ReplyId(rows, chat, replyTo, faults) ==
              if faults.first || (FindTarget(rows, c).None? && faults.second) || Opposite(rows, c).None? then 0
              else Opposite(rows, c).value.msg
  {
  }

  /** Everything up to the send has gone well. */
  predicate Sends(cfg: Config, disabled: set<string>, chat: int, from: int, env: SendEnv) {
    Relays(cfg, disabled, chat, from) && !env.waitCancelled
  }

  /** The row that records the mirror `id` of a message. */
  function FullRow(cfg: Config, source: Coord, id: int, group: Option<string>): Mapping
    requires source.chat in cfg.pairs
  {
    var pair := cfg.pairs[source.chat];
    Mapping(pair.key, source, Coord(pair.target, id),
            if source.chat == pair.merchant then MerchantToSupport else SupportToMerchant, group, cfg.phone)
  }

  /** A new message: which calls are made, which pair is disabled, which row is added, and what is reported. */
  lemma {:induction false} MessageOutcome(cfg: Config, rows: seq<Mapping>, disabled: set<string>, ev: MessageEvent,
                                          env: SendEnv, fault: SaveFault)
    requires TwoSided(cfg.pairs)
    ensures var e := NewMessageEffect(cfg, rows, disabled, ev, env, fault);
      var sends := Sends(cfg, disabled, ev.chat, ev.from, env);
      var source := Coord(ev.chat, ev.id);
      var outcome := Attempts(env).outcome;
      && |e.calls| == (if sends then Attempts(env).calls else 0)
      && e.disabled == (if sends && outcome.ChatForbidden? then disabled + {cfg.pairs[ev.chat].key} else disabled)
      && e.rows == (if sends && outcome.Done? && !fault.LostBefore? && FindSource(rows, source).None?
                    then rows + [FullRow(cfg, source, TargetId(IdsOf(outcome.value), 0), None)] else rows)
      && (e.result.PairDisabled? <==> sends && outcome.ChatForbidden?)
      && (e.result.Ignored? <==> !Relays(cfg, disabled, ev.chat, ev.from))
      && (e.result.Errored? <==>
            Relays(cfg, disabled, ev.chat, ev.from) &&
            (env.waitCancelled || outcome.Failed? || outcome.Cancelled? ||
             (outcome.Done? && (fault.LostBefore? || (fault.LostAfter? && FindSource(rows, source).None?)))))
      && !e.result.Panicked?
  {
    if ev.chat in cfg.pairs { assert SidesMatch(cfg.pairs, ev.chat); }
  }

  /** Album items are there to be sent: all of them could be fetched. */
  ghost predicate Fetched(ev: AlbumEvent, downloads: nat -> bool) {
    forall i: nat {:trigger downloads(i)} :: i < |ev.items| ==> downloads(i)
  }

  /** An album: the same.  Saves that fail are not reported. */
  lemma AlbumOutcome(cfg: Config, rows: seq<Mapping>, disabled: set<string>, ev: AlbumEvent, downloads: nat -> bool,
                     env: SendEnv, faults: nat -> SaveFault)
    requires TwoSided(cfg.pairs)
    ensures var e := AlbumEffect(cfg, rows, disabled, ev, downloads, env, faults);
      var relays := Relays(cfg, disabled, ev.chat, ev.from);
      var sends := relays && Fetched(ev, downloads) && !env.waitCancelled && ev.items != [];
      var outcome := Attempts(env).outcome;
      && |e.calls| == (if sends then Attempts(env).calls else 0)
      && e.disabled == (if sends && outcome.ChatForbidden? then disabled + {cfg.pairs[ev.chat].key} else disabled)
      && (!(sends && outcome.Done?) ==> e.rows == rows)
      && (e.result.PairDisabled? <==> sends && outcome.ChatForbidden?)
      && (e.result.Relayed? <==> sends && outcome.Done?)
      && (e.result.Ignored? <==> !relays)
      && (e.result.Panicked? <==> relays && !env.waitCancelled && ev.items == [])
      && (e.result.Errored? <==>
            relays && (env.waitCancelled || !Fetched(ev, downloads) ||
                       (ev.items != [] && (outcome.Failed? || outcome.Cancelled?))))
  {
    if ev.chat in cfg.pairs { assert SidesMatch(cfg.pairs, ev.chat); }
  }

  /** The rows of a sent album of different items: each item that had none, and whose save does not fail
      beforehand, gets its own, marked with the group. */
  lemma {:induction false} AlbumRows(cfg: Config, rows: seq<Mapping>, disabled: set<string>, ev: AlbumEvent,
                                     downloads: nat -> bool, env: SendEnv, faults: nat -> SaveFault, i: nat)
    requires TwoSided(cfg.pairs) && i < |ev.items| && Distinct(ev.items)
    requires Relays(cfg, disabled, ev.chat, ev.from) && Fetched(ev, downloads) && !env.waitCancelled
    requires Attempts(env).outcome.Done? && FindSource(rows, Coord(ev.chat, ev.items[i])).None?
    ensures var after := AlbumEffect(cfg, rows, disabled, ev, downloads, env, faults).rows;
      var source := Coord(ev.chat, ev.items[i]);
      FindSource(after, source) ==
        if faults(i).LostBefore? then None
        else Some(FullRow(cfg, source, TargetId(IdsOf(Attempts(env).outcome.value), i), Some(ev.group)))
  {
    assert SidesMatch(cfg.pairs, ev.chat);
    var route := RouteOf(cfg, disabled, ev.chat, ev.from).value;
    RelayAlbums.EveryItemGetsItsSave(cfg, route, rows, ev, IdsOf(Attempts(env).outcome.value), faults, |ev.items|, i);
  }

  /** An edit: what is reported. */
  lemma {:induction false} EditOutcome(cfg: Config, rows: seq<Mapping>, disabled: set<string>, ev: EditEvent,
                                       fails: bool, answer: EditAnswer)
    ensures var (calls, r) := EditEffect(cfg, rows, disabled, ev, fails, answer);
      var concerns := ev.chat in cfg.pairs && ev.from != cfg.selfID && cfg.pairs[ev.chat].key !in disabled;
      var row := FindSource(rows, Coord(ev.chat, ev.id));
      var sends := concerns && !fails && row.Some? && row.value.target.chat in cfg.peers;
      && (calls != [] <==> sends)
      && (r.Relayed? <==> sends && answer.EditAccepted?)
      && (r.Errored? <==> (concerns && fails) || (sends && answer.EditRefused?))
      && (r.Relayed? || r.Errored? || r.Ignored?)
  {
  }
}
