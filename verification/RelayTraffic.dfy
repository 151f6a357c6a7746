/** The relay with its handlers cut into the pieces between which other handlers can run.  Albums are handled
    by the goroutines of their timers, beside the dispatcher, whose callbacks handle messages, edits and
    deletions; the pieces of any handlers may interleave here. */
module RelayTraffic {
  import opened Common
  import Entities
  import opened MessageStore
  import opened Relay
  import opened RelayInvariant
  import opened RelayTheorems
  import opened RelayWorld
  import opened Updates

  /** What a handler has taken from its event, and where it sends; a single message has one item. */
  datatype Job = Job(
    chat: int, from: int, items: seq<int>, replyTo: Option<int>, group: Option<string>, version: nat, content: Content,
    route: Route)

  /** A handler under way.  One that sends is past its guards; with the reply resolved; sent, and recording its
      items one by one, with `ids` read from the response.  An edit has looked up its mirror, a batch of
      deletions perhaps that of its next id. */
  datatype Flight =
    | Admitted(job: Job)
    | Resolved(job: Job, replyId: int)
    | Recording(job: Job, replyId: int, ids: seq<int>, next: nat)
    | Amending(edit: EditEvent, version: nat, mirror: Coord)
    | Erasing(batch: DeleteEvent, pos: nat, found: Option<Coord>)
    | Landed

  datatype SendResult = SentAs(ids: seq<int>) | Forbidden | NotSent

  datatype Traffic = Traffic(w: World, flights: seq<Flight>)

  /** `Whole` is a step of users, a reconnect, or a handler that runs undisturbed. */
  datatype Move =
    | Whole(s: Step)
    | Admit(job: Job)
    | Resolve(f: nat, faults: Faults)
    | Dispatch(f: nat, created: set<int>, result: SendResult)
    | Record(f: nat, fault: SaveFault)
    | FindEdited(edit: EditEvent, version: nat)
    | SendEdit(f: nat, answer: EditAnswer)
    | AdmitBatch(batch: DeleteEvent)
    | FindDeleted(f: nat, fails: bool)
    | SendDelete(f: nat, reply: DeleteAnswer)

  function RowOf(cfg: Config, job: Job, ids: seq<int>, k: nat): Mapping
    requires k < |job.items|
  {
    MappingFor(cfg, job.route, Coord(job.chat, job.items[k]), TargetId(ids, k), job.group)
  }

  function EditCall(ev: EditEvent, mirror: Coord): Call {
    Edit(mirror.chat, mirror.msg, ev.text, Entities.ToTg(ev.entities), ev.newMedia)
  }

  function DeletedMirror(cfg: Config, rows: seq<Mapping>, chat: int, id: int, fails: bool): Option<Coord> {
    match DeleteCall(cfg, rows, chat, id, fails)
    case None => None
    case Some(call) => Some(Coord(call.chat, call.id))
  }

  predicate ItemReported(posts: map<Coord, Post>, job: Job, id: int) {
    var c := Coord(job.chat, id);
    Truthful(posts, c, job.from, job.replyTo) && Carries(posts[c], job.version, job.content)
  }

  ghost predicate CanMove(cfg: Config, t: Traffic, m: Move) {
    match m
    case Whole(s) => Enabled(cfg, t.w, s)
    case Admit(job) =>
      && RouteOf(cfg, t.w.disabled, job.chat, job.from) == Some(job.route) && job.items != []
      && forall id {:trigger ItemReported(t.w.posts, job, id)} :: id in job.items ==> ItemReported(t.w.posts, job, id)
    case Resolve(f, _) => f < |t.flights| && t.flights[f].Admitted?
    case Dispatch(f, created, result) =>
      && f < |t.flights| && t.flights[f].Resolved?
      && FreshIds(t.w.posts, t.flights[f].job.route.target, created)
      && (result.SentAs? ==> NamesSent(result.ids, created, |t.flights[f].job.items|))
    case Record(f, _) => f < |t.flights| && t.flights[f].Recording? && t.flights[f].next < |t.flights[f].job.items|
    case FindEdited(ev, version) => TruthfulEdit(t.w.posts, ev, version) && FindsEdited(cfg, t.w.rows, t.w.disabled, ev)
    case SendEdit(f, answer) =>
      && f < |t.flights| && t.flights[f].Amending?
      && HonestEdit(t.w.posts, [EditCall(t.flights[f].edit, t.flights[f].mirror)], answer)
    case AdmitBatch(ev) => HandlesDeletes(cfg, t.w.disabled, ev)
    case FindDeleted(f, _) =>
      && f < |t.flights| && t.flights[f].Erasing?
      && t.flights[f].pos < |t.flights[f].batch.ids| && t.flights[f].found.None?
    case SendDelete(f, _) => f < |t.flights| && t.flights[f].Erasing? && t.flights[f].found.Some?
  }

  /** The edit gets past its guards and finds a reachable mirror. */
  predicate FindsEdited(cfg: Config, rows: seq<Mapping>, disabled: set<string>, ev: EditEvent) {
    EditEffect(cfg, rows, disabled, ev, false, EditAccepted).0 != []
  }

  predicate Holding(answer: EditAnswer) {
    answer.EditAccepted? || answer.NotModified?
  }

  /** The chats after an accepted deletion of the message `c`. */
  function Without(posts: map<Coord, Post>, c: Coord): map<Coord, Post> {
    if c in posts then posts[c := posts[c].(alive := false)] else posts
  }

  /** The ids that are used belong to messages which the call created, one each. */
  ghost predicate NamesSent(ids: seq<int>, created: set<int>, n: nat) {
    && (forall i :: 0 <= i < n && i < |ids| ==> ids[i] in created)
    && (forall i, j :: 0 <= i < j < n && j < |ids| ==> ids[i] != ids[j])
  }

  ghost function Moved(cfg: Config, t: Traffic, m: Move): Traffic
    requires CanMove(cfg, t, m)
  {
    match m
    case Whole(s) => t.(w := Next(cfg, t.w, s))
    case Admit(job) => t.(flights := t.flights + [Admitted(job)])
    case Resolve(f, faults) =>
      var job := t.flights[f].job;
      t.(flights := t.flights[f := Resolved(job, ReplyId(t.w.rows, job.chat, job.replyTo, faults))])
    case Dispatch(f, created, result) =>
      var job, replyId := t.flights[f].job, t.flights[f].replyId;
      Traffic(
        t.w.(posts := Spread(t.w.posts, job.route.target, created, OwnPost(cfg, Outgoing(job.content), replyId)),
             disabled := if result.Forbidden? then t.w.disabled + {job.route.key} else t.w.disabled),
        t.flights[f := if result.SentAs? then Recording(job, replyId, result.ids, 0) else Landed])
    case Record(f, fault) =>
      var job, ids, k := t.flights[f].job, t.flights[f].ids, t.flights[f].next;
      var rows := SaveRow(t.w.rows, RowOf(cfg, job, ids, k), fault).0;
      Traffic(
        t.w.(rows := rows,
             shown := if |rows| > |t.w.rows| && job.content.TextContent?
                      then t.w.shown[Coord(job.chat, job.items[k]) := job.version] else t.w.shown),
        t.flights[f := t.flights[f].(next := k + 1)])
    case FindEdited(ev, version) =>
      var mirror := FindSource(t.w.rows, Coord(ev.chat, ev.id)).value.target;
      t.(flights := t.flights + [Amending(ev, version, mirror)])
    case SendEdit(f, answer) =>
      var ev, version, mirror := t.flights[f].edit, t.flights[f].version, t.flights[f].mirror;
      Traffic(
        if Holding(answer) then EditMade(t.w, Coord(ev.chat, ev.id), version, EditCall(ev, mirror)) else t.w,
        t.flights[f := Landed])
    case AdmitBatch(ev) => t.(flights := t.flights + [Erasing(ev, 0, None)])
    case FindDeleted(f, fails) =>
      var ev, pos := t.flights[f].batch, t.flights[f].pos;
      var found := DeletedMirror(cfg, t.w.rows, ev.chat, ev.ids[pos], fails);
      t.(flights := t.flights[f := Erasing(ev, if found.Some? then pos else pos + 1, found)])
    case SendDelete(f, reply) =>
      var ev, pos, c := t.flights[f].batch, t.flights[f].pos, t.flights[f].found.value;
      Traffic(
        t.w.(posts := if reply.DeleteAccepted? then Without(t.w.posts, c) else t.w.posts),
        t.flights[f := Erasing(ev, pos + 1, None)])
  }

  ghost predicate CanRun(cfg: Config, t: Traffic, moves: seq<Move>)
    decreases |moves|
  {
    moves != [] ==> CanMove(cfg, t, moves[0]) && CanRun(cfg, Moved(cfg, t, moves[0]), moves[1..])
  }

  ghost function Run(cfg: Config, t: Traffic, moves: seq<Move>): Traffic
    requires CanRun(cfg, t, moves)
    decreases |moves|
  {
    if moves == [] then t else Run(cfg, Moved(cfg, t, moves[0]), moves[1..])
  }

  lemma {:induction false} RunSnoc(cfg: Config, t: Traffic, moves: seq<Move>, m: Move)
    requires CanRun(cfg, t, moves) && CanMove(cfg, Run(cfg, t, moves), m)
    ensures CanRun(cfg, t, moves + [m])
    ensures Run(cfg, t, moves + [m]) == Moved(cfg, Run(cfg, t, moves), m)
    decreases |moves|
  {
    if moves == [] {
      assert [m][1..] == [];
    } else {
      assert (moves + [m])[1..] == moves[1..] + [m];
      RunSnoc(cfg, Moved(cfg, t, moves[0]), moves[1..], m);
    }
  }

  ghost predicate JobOk(cfg: Config, posts: map<Coord, Post>, job: Job) {
    && job.chat in cfg.pairs && job.from != cfg.selfID && (job.replyTo.Some? ==> job.replyTo.value > 0)
    && job.route.target == cfg.pairs[job.chat].target && job.route.key == cfg.pairs[job.chat].key
    && job.route.direction
         == (if job.chat == cfg.pairs[job.chat].merchant then MerchantToSupport else SupportToMerchant)
    && forall id {:trigger ItemReported(posts, job, id)} :: id in job.items ==> ItemReported(posts, job, id)
  }

  /** The resolved id names the other side of what the message replies to. */
  predicate EdgeFits(rows: seq<Mapping>, job: Job, replyId: int) {
    replyId != 0 ==>
      && replyId > 0 && job.replyTo.Some?
      && Opposite(rows, Coord(job.chat, job.replyTo.value)) == Some(Coord(job.route.target, replyId))
  }

  /** A message sent for an item and not recorded yet: a post of the account that no row knows. */
  ghost predicate ItemSent(cfg: Config, w: World, job: Job, replyId: int, id: int) {
    id != 0 ==>
      var c := Coord(job.route.target, id);
      && c in w.posts && w.posts[c].sender == cfg.selfID && w.posts[c].replyTo == EdgeTo(replyId)
      && w.posts[c].body == Outgoing(job.content)
      && Unrecorded(w.rows, c)
  }

  predicate Unrecorded(rows: seq<Mapping>, c: Coord) {
    forall a :: a in rows ==> a.target != c
  }

  ghost predicate FlightOk(cfg: Config, w: World, f: Flight) {
    match f
    case Admitted(job) => JobOk(cfg, w.posts, job)
    case Resolved(job, replyId) => JobOk(cfg, w.posts, job) && EdgeFits(w.rows, job, replyId)
    case Recording(job, replyId, ids, next) =>
      && JobOk(cfg, w.posts, job) && EdgeFits(w.rows, job, replyId)
      && (forall k: nat {:trigger TargetId(ids, k)} :: next <= k < |job.items| ==>
            ItemSent(cfg, w, job, replyId, TargetId(ids, k)))
      && (forall i, j :: 0 <= i < j < |job.items| && j < |ids| ==> ids[i] != ids[j])
    case Amending(ev, version, mirror) => TruthfulEdit(w.posts, ev, version) && EditFound(cfg, w.rows, ev, mirror)
    case Erasing(ev, pos, found) =>
      && HandlesDeletes(cfg, {}, ev)
      && (found.Some? ==>
            pos < |ev.ids| && DeletedMirror(cfg, w.rows, ev.chat, ev.ids[pos], false) == found)
    case Landed => true
  }

  /** A lookup made now would find the same mirror. */
  predicate EditFound(cfg: Config, rows: seq<Mapping>, ev: EditEvent, mirror: Coord) {
    FindsEdited(cfg, rows, {}, ev) && FindSource(rows, Coord(ev.chat, ev.id)).value.target == mirror
  }

  /** The flight has sent the message `c` and not recorded it yet. */
  ghost predicate Holds(f: Flight, c: Coord) {
    f.Recording? && c.chat == f.job.route.target && c.msg != 0 &&
    exists k: nat {:trigger TargetId(f.ids, k)} :: f.next <= k < |f.job.items| && TargetId(f.ids, k) == c.msg
  }

  ghost predicate FlightsApart(f: Flight, g: Flight) {
    forall c {:trigger Holds(f, c)} {:trigger Holds(g, c)} :: Holds(f, c) ==> !Holds(g, c)
  }

  ghost predicate TrafficOk(cfg: Config, t: Traffic) {
    && Inv(cfg, t.w)
    && (forall i {:trigger FlightOk(cfg, t.w, t.flights[i])} :: 0 <= i < |t.flights| ==>
          FlightOk(cfg, t.w, t.flights[i]))
    && (forall i, j {:trigger FlightsApart(t.flights[i], t.flights[j])} ::
          0 <= i < |t.flights| && 0 <= j < |t.flights| && i != j ==> FlightsApart(t.flights[i], t.flights[j]))
  }

  /** How the world may change under a flight that is not affected: rows are appended, posts are kept, and
      a message that no row knew stays as it is, and unknown except if it is `spent`. */
  ghost predicate Later(cfg: Config, w: World, v: World, spent: Option<Coord>) {
    && Clean(v.rows) && Prefix(w.rows, v.rows) && Extends(w.posts, v.posts)
    && (forall c {:trigger KeptPost(cfg, w, v, c)} :: c in w.posts ==> KeptPost(cfg, w, v, c))
    && (forall c {:trigger Unrecorded(v.rows, c)} :: c in w.posts && Unrecorded(w.rows, c) && Some(c) != spent ==>
          Unrecorded(v.rows, c))
  }

  ghost predicate KeptPost(cfg: Config, w: World, v: World, c: Coord) {
    c in w.posts && c in v.posts
    && (w.posts[c].sender != cfg.selfID ==> SameHistory(w.posts[c], v.posts[c]))
    && (w.posts[c].sender == cfg.selfID && Unrecorded(w.rows, c) ==> v.posts[c].body == w.posts[c].body)
  }

  lemma JobSurvives(cfg: Config, w: World, v: World, spent: Option<Coord>, job: Job)
    requires Later(cfg, w, v, spent) && JobOk(cfg, w.posts, job)
    ensures JobOk(cfg, v.posts, job)
  {
    forall id | id in job.items ensures ItemReported(v.posts, job, id) {
      assert ItemReported(w.posts, job, id) && KeptPost(cfg, w, v, Coord(job.chat, id));
    }
  }

  lemma EdgeStillFits(cfg: Config, w: World, v: World, spent: Option<Coord>, job: Job, replyId: int)
    requires Later(cfg, w, v, spent) && JobOk(cfg, w.posts, job) && EdgeFits(w.rows, job, replyId)
    ensures EdgeFits(v.rows, job, replyId)
  {
    if replyId != 0 { PrefixStable(w.rows, v.rows, Coord(job.chat, job.replyTo.value)); }
  }

  /** Rows are found for good. */
  lemma {:induction false} SourceStays(rows: seq<Mapping>, later: seq<Mapping>, c: Coord)
    requires Clean(later) && Prefix(rows, later) && FindSource(rows, c).Some?
    ensures FindSource(later, c) == FindSource(rows, c)
  {
    var m := FindSource(rows, c).value;
    assert m in later[..|rows|];
    LookupsUnique(later, m);
  }

  lemma EditSurvives(cfg: Config, w: World, v: World, spent: Option<Coord>, ev: EditEvent, version: nat,
                     mirror: Coord)
    requires Later(cfg, w, v, spent) && TruthfulEdit(w.posts, ev, version) && EditFound(cfg, w.rows, ev, mirror)
    ensures TruthfulEdit(v.posts, ev, version) && EditFound(cfg, v.rows, ev, mirror)
  {
    assert KeptPost(cfg, w, v, Coord(ev.chat, ev.id));
    SourceStays(w.rows, v.rows, Coord(ev.chat, ev.id));
  }

  lemma FlightSurvives(cfg: Config, w: World, v: World, spent: Option<Coord>, f: Flight)
    requires Later(cfg, w, v, spent) && FlightOk(cfg, w, f) && (spent.Some? ==> !Holds(f, spent.value))
    ensures FlightOk(cfg, v, f)
  {
    if f.Admitted? || f.Resolved? || f.Recording? { JobSurvives(cfg, w, v, spent, f.job); }
    if f.Amending? { EditSurvives(cfg, w, v, spent, f.edit, f.version, f.mirror); }
    if f.Erasing? && f.found.Some? { SourceStays(w.rows, v.rows, Coord(f.batch.chat, f.batch.ids[f.pos])); }
    if f.Resolved? || f.Recording? { EdgeStillFits(cfg, w, v, spent, f.job, f.replyId); }
    if f.Recording? {
      forall k: nat | f.next <= k < |f.job.items| ensures ItemSent(cfg, v, f.job, f.replyId, TargetId(f.ids, k)) {
        var c := Coord(f.job.route.target, TargetId(f.ids, k));
        if c.msg != 0 {
          assert ItemSent(cfg, w, f.job, f.replyId, TargetId(f.ids, k)) && Holds(f, c);
          assert KeptPost(cfg, w, v, c);
          assert Unrecorded(v.rows, c);
        }
      }
    }
  }
}
