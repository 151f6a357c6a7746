/** What interleaving costs: what happens to an event that comes while a message is sent but not recorded, or
    to a message whose pair is disabled while it is under way. */
module RelayInFlight {
  import opened Common
  import opened MessageStore
  import opened Relay
  import RelayAlbums
  import opened RelayDeletes
  import opened RelayInterleaving
  import opened RelayInvariant
  import opened RelayMoves
  import opened RelayPieces
  import opened RelayResults
  import opened RelayTraffic
  import opened RelayWorld
  import opened Updates

  /** The next item of flight `f` has a mirror, whose id is known, and no row yet. */
  ghost predicate InFlight(t: Traffic, f: nat) {
    && f < |t.flights| && t.flights[f].Recording? && t.flights[f].next < |t.flights[f].job.items|
    && FindSource(t.w.rows, ItemInFlight(t, f)).None?
    && TargetId(t.flights[f].ids, t.flights[f].next) != 0
  }

  function ItemInFlight(t: Traffic, f: nat): Coord
    requires f < |t.flights| && t.flights[f].Recording? && t.flights[f].next < |t.flights[f].job.items|
  {
    Coord(t.flights[f].job.chat, t.flights[f].job.items[t.flights[f].next])
  }

  /** After the save: the row leads from the item to its mirror, which is as it was sent. */
  lemma SaveInFlight(cfg: Config, t: Traffic, f: nat)
    requires TrafficOk(cfg, t) && InFlight(t, f)
    ensures var m := RowOf(cfg, t.flights[f].job, t.flights[f].ids, t.flights[f].next);
      var v := Moved(cfg, t, Record(f, NoFault)).w;
      && Inv(cfg, v) && m.source == ItemInFlight(t, f) && FindSource(v.rows, m.source) == Some(m)
      && v.posts == t.w.posts && v.disabled == t.w.disabled
      && m.target in v.posts && v.posts[m.target].body == Outgoing(t.flights[f].job.content)
  {
    var m := RowOf(cfg, t.flights[f].job, t.flights[f].ids, t.flights[f].next);
    RecordedRow(cfg, t, f);
    RecordIsSound(cfg, t, f, NoFault);
    FindSourceAppend(t.w.rows, m, m.source);
  }

  /** An edit that is handled while its message is in flight is lost: it causes no call and changes nothing,
      and the row saved afterwards leads to a mirror with the content that was sent.  Handled after the save,
      the same edit would have been relayed. */
  lemma EditInFlightIsLost(cfg: Config, t: Traffic, f: nat, ev: EditEvent, version: nat, fails: bool,
                           answer: EditAnswer)
    requires TrafficOk(cfg, t) && InFlight(t, f) && Coord(ev.chat, ev.id) == ItemInFlight(t, f)
    ensures var s := Edited(ev, version, fails, answer);
      CallsOf(cfg, t.w, s) == [] && Next(cfg, t.w, s) == t.w
    ensures var m := RowOf(cfg, t.flights[f].job, t.flights[f].ids, t.flights[f].next);
      var v := Moved(cfg, t, Record(f, NoFault)).w;
      && FindSource(v.rows, m.source) == Some(m)
      && m.target in v.posts && v.posts[m.target].body == Outgoing(t.flights[f].job.content)
      && (Relays(cfg, v.disabled, ev.chat, ev.from) ==>
            CallsOf(cfg, v, Edited(ev, version, false, answer)) == [EditCall(ev, m.target)])
  {
    SaveInFlight(cfg, t, f);
    EditIsSentExactlyIf(cfg, t.w, ev, fails, answer);
    EditIsSentExactlyIf(cfg, Moved(cfg, t, Record(f, NoFault)).w, ev, false, answer);
  }

  /** So is a deletion: the mirror stays alive, and is recorded afterwards.  Handled after the save, the same
      batch would have taken it down. */
  lemma {:induction false} DeletionInFlightIsLost(cfg: Config, t: Traffic, f: nat, ev: DeleteEvent,
                                                  fails: nat -> bool, answers: nat -> DeleteAnswer)
    requires TrafficOk(cfg, t) && InFlight(t, f)
    requires ev.chat == ItemInFlight(t, f).chat && ItemInFlight(t, f).msg in ev.ids
    requires forall id :: id in ev.ids ==> FindSource(t.w.rows, Coord(ev.chat, id)).None?
    ensures var s := Deleted(ev, fails, answers);
      CallsOf(cfg, t.w, s) == [] && Next(cfg, t.w, s) == t.w
    ensures var m := RowOf(cfg, t.flights[f].job, t.flights[f].ids, t.flights[f].next);
      var v := Moved(cfg, t, Record(f, NoFault)).w;
      && FindSource(v.rows, m.source) == Some(m) && m.target in v.posts && v.posts == t.w.posts
      && (HandlesDeletes(cfg, v.disabled, ev) && m.target.chat in cfg.peers && (forall i :: !fails(i)) ==>
            Delete(m.target.chat, m.target.msg) in CallsOf(cfg, v, Deleted(ev, fails, answers)))
  {
    var m := RowOf(cfg, t.flights[f].job, t.flights[f].ids, t.flights[f].next);
    var v := Moved(cfg, t, Record(f, NoFault)).w;
    SaveInFlight(cfg, t, f);
    UnknownBatchIsSilent(cfg, t.w, ev, fails, answers);
    if HandlesDeletes(cfg, v.disabled, ev) && m.target.chat in cfg.peers && (forall i :: !fails(i)) {
      KnownSourceIsDeleted(cfg, v, ev, fails, answers, m);
    }
  }

  /** A message or album past its guards is sent although its pair has been disabled meanwhile, while every
      event that comes now from the same chat causes no call. */
  lemma DisabledPairStillSends(cfg: Config, t: Traffic, f: nat, created: set<int>, ids: seq<int>, s: Step)
    requires TrafficOk(cfg, t) && CanMove(cfg, t, Dispatch(f, created, SentAs(ids)))
    requires t.flights[f].job.route.key in t.w.disabled && ChatOf(s) == Some(t.flights[f].job.chat)
    ensures CallsOf(cfg, t.w, s) == []
    ensures var v := Moved(cfg, t, Dispatch(f, created, SentAs(ids))).w;
      forall id :: id in created ==>
        var c := Coord(t.flights[f].job.route.target, id);
        && c !in t.w.posts && c in v.posts && v.posts[c].alive && v.posts[c].sender == cfg.selfID
        && v.posts[c].body == Outgoing(t.flights[f].job.content)
  {
    assert FlightOk(cfg, t.w, t.flights[f]);
    DisabledPairIsSilent(cfg, t.w, s);
  }

  const PHOTO := Post(7, Media, [], None, true)

  /** An album of one photo, on its way between the chats of the one pair. */
  function PhotoJob(id: int): Job {
    Job(1, 7, [id], None, Some("g"), 0, MediaContent, Route("p", MerchantToSupport, 2))
  }

  function Photos(): map<Coord, Post> {
    map[Coord(1, 5) := PHOTO, Coord(1, 6) := PHOTO]
  }

  /** Two photos have been posted. */
  lemma PhotosPosted() returns (moves: seq<Move>)
    ensures CanRun(RelayAlbums.OnePair(), QUIET, moves)
    ensures Run(RelayAlbums.OnePair(), QUIET, moves) == Traffic(World([], {}, Photos(), map[]), [])
  {
    var cfg := RelayAlbums.OnePair();
    RunSnoc(cfg, QUIET, [], Whole(Posted(Coord(1, 5), PHOTO)));
    moves := [] + [Whole(Posted(Coord(1, 5), PHOTO))];
    RunSnoc(cfg, QUIET, moves, Whole(Posted(Coord(1, 6), PHOTO)));
    moves := moves + [Whole(Posted(Coord(1, 6), PHOTO))];
  }

  /** Each of them can be admitted, and message 100 of the other chat is new. */
  lemma PhotoIsAdmitted(id: int, flights: seq<Flight>)
    requires id == 5 || id == 6
    ensures CanMove(RelayAlbums.OnePair(), Traffic(World([], {}, Photos(), map[]), flights), Admit(PhotoJob(id)))
    ensures FreshIds(Photos(), 2, {100})
  {
    assert ItemReported(Photos(), PhotoJob(id), id);
  }

  lemma {:induction false} ReachedIsSound(moves: seq<Move>)
    requires CanRun(RelayAlbums.OnePair(), QUIET, moves)
    ensures TrafficOk(RelayAlbums.OnePair(), Run(RelayAlbums.OnePair(), QUIET, moves))
  {
    RelayAlbums.OnePairIsTwoSided();
    StartIsSound(RelayAlbums.OnePair());
    InterleavedRunKeeps(RelayAlbums.OnePair(), QUIET, moves);
  }

  /** A run that leads to an item in flight, whose author may now edit its caption or delete it. */
  lemma InFlightHappens() returns (moves: seq<Move>)
    ensures var cfg := RelayAlbums.OnePair();
      && CanRun(cfg, QUIET, moves)
      && var t := Run(cfg, QUIET, moves);
         && TrafficOk(cfg, t) && InFlight(t, 0) && ItemInFlight(t, 0) == Coord(1, 5)
         && t.w.rows == [] && t.w.disabled == {} && Coord(1, 5) in t.w.posts && t.w.posts[Coord(1, 5)] == PHOTO
  {
    var cfg := RelayAlbums.OnePair();
    moves := PhotosPosted();
    PhotoIsAdmitted(5, []);
    moves := SendPieces(cfg, QUIET, moves, PhotoJob(5), Faults(false, false), {100}, SentAs([100]));
    ReachedIsSound(moves);
  }

  /** There the two lemmas apply: the edit and the deletion are enabled, unanswered by any call, and would have
      been relayed after the save. */
  lemma LossHappens(text: string, media: string, answers: nat -> DeleteAnswer, fails: nat -> bool)
    returns (moves: seq<Move>)
    requires forall i :: !fails(i)
    ensures var cfg := RelayAlbums.OnePair();
      && CanRun(cfg, QUIET, moves) && CanMove(cfg, Run(cfg, QUIET, moves), Record(0, NoFault))
      && var edit := Edited(EditEvent(1, 5, 7, text, [], Some(media)), 0, false, EditRefused);
         var deletion := Deleted(DeleteEvent(1, [5]), fails, answers);
         var before := Run(cfg, QUIET, moves).w;
         var after := Moved(cfg, Run(cfg, QUIET, moves), Record(0, NoFault)).w;
         && Enabled(cfg, before, edit) && CallsOf(cfg, before, edit) == [] && CallsOf(cfg, after, edit) != []
         && CallsOf(cfg, before, deletion) == [] && CallsOf(cfg, after, deletion) != []
  {
    var cfg := RelayAlbums.OnePair();
    moves := InFlightHappens();
    var t := Run(cfg, QUIET, moves);
    EditInFlightIsLost(cfg, t, 0, EditEvent(1, 5, 7, text, [], Some(media)), 0, false, EditRefused);
    DeletionInFlightIsLost(cfg, t, 0, DeleteEvent(1, [5]), fails, answers);
    SaveInFlight(cfg, t, 0);
  }

  /** A run after which an album is still sent although its pair is disabled: both photos are on their way as
      albums when the answer to the second disables the pair. */
  lemma DisabledInFlightHappens() returns (moves: seq<Move>)
    ensures var cfg := RelayAlbums.OnePair();
      && CanRun(cfg, QUIET, moves)
      && var t := Run(cfg, QUIET, moves);
         TrafficOk(cfg, t) && "p" in t.w.disabled && CanMove(cfg, t, Dispatch(0, {100}, SentAs([100])))
         && t.flights[0].job == PhotoJob(5)
  {
    var cfg := RelayAlbums.OnePair();
    moves := PhotosPosted();
    PhotoIsAdmitted(5, []);
    moves := StartPieces(cfg, QUIET, moves, PhotoJob(5), Faults(false, false));
    PhotoIsAdmitted(6, Run(cfg, QUIET, moves).flights);
    moves := SendPieces(cfg, QUIET, moves, PhotoJob(6), Faults(false, false), {}, Forbidden);
    ReachedIsSound(moves);
  }
}
