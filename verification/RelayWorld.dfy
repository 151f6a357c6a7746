/** The relay together with the chats it works in: posts with sender, body and reply edge, and the
    steps by which users, Telegram and the relay change them. */
module RelayWorld {
  import opened Common
  import opened MessageStore
  import opened Relay
  import opened Updates

  /** `past` holds the bodies a post had before it was edited, oldest first. */
  datatype Post = Post(sender: int, body: Body, past: seq<Body>, replyTo: Option<int>, alive: bool)

  /** The body a post had after `k` edits. */
  function Version(p: Post, k: nat): Body
    requires k <= |p.past|
  {
    if k < |p.past| then p.past[k] else p.body
  }

  /** `shown` remembers, for the source of each row made from a text message, which version of it was
      relayed last: sent and recorded, or put in place by an edit which Telegram accepted or found
      already made. */
  datatype World = World(
    rows: seq<Mapping>, disabled: set<string>, posts: map<Coord, Post>, shown: map<Coord, nat>)

  /** One step.  An event reports some `version` of its post, not necessarily the newest.  `created` holds
      the ids of the messages which Telegram created in the target chat during all attempts of the call,
      answered or not.  A reconnect builds a new bridge object. */
  datatype Step =
    | Posted(at: Coord, post: Post)
    | Rewrote(at: Coord, body: Body)
    | Erased(at: Coord)
    | Message(ev: MessageEvent, version: nat, env: SendEnv, fault: SaveFault, created: set<int>)
    | Album(album: AlbumEvent, downloads: nat -> bool, env: SendEnv, faults: nat -> SaveFault, created: set<int>)
    | Edited(edit: EditEvent, version: nat, lookupFails: bool, answer: EditAnswer)
    | Deleted(batch: DeleteEvent, fails: nat -> bool, answers: nat -> DeleteAnswer)
    | Reconnected

  function EdgeTo(id: int): Option<int> {
    if id == 0 then None else Some(id)
  }

  /** The chats after the account has posted `ids` into `chat`. */
  function Spread(posts: map<Coord, Post>, chat: int, ids: set<int>, post: Post): map<Coord, Post> {
    posts + map c | c in At(chat, ids) :: post
  }

  function At(chat: int, ids: set<int>): set<Coord> {
    set id | id in ids :: Coord(chat, id)
  }

  /** A post after an edit call on it; the old body of a mirror is of no further interest. */
  function Replaced(p: Post, call: Call): Post
    requires call.Edit?
  {
    if p.body.Text? && call.media.None? then p.(body := Text(call.text, call.entities)) else p
  }

  /** The chats after the delete calls, as far as they were accepted. */
  function Killed(posts: map<Coord, Post>, calls: seq<Call>, answers: nat -> DeleteAnswer): map<Coord, Post> {
    map c | c in posts :: if KilledBy(c, calls, answers) then posts[c].(alive := false) else posts[c]
  }

  predicate KilledBy(c: Coord, calls: seq<Call>, answers: nat -> DeleteAnswer) {
    exists k :: 0 <= k < |calls| && calls[k] == Delete(c.chat, c.msg) && answers(k).DeleteAccepted?
  }

  /** The calls a step makes. */
  function CallsOf(cfg: Config, w: World, s: Step): seq<Call> {
    match s
    case Message(ev, _, env, fault, _) => NewMessageEffect(cfg, w.rows, w.disabled, ev, env, fault).calls
    case Album(ev, downloads, env, faults, _) => AlbumEffect(cfg, w.rows, w.disabled, ev, downloads, env, faults).calls
    case Edited(ev, _, fails, answer) => EditEffect(cfg, w.rows, w.disabled, ev, fails, answer).0
    case Deleted(ev, fails, _) =>
      if HandlesDeletes(cfg, w.disabled, ev) then DeleteCalls(cfg, w.rows, ev, fails, |ev.ids|) else []
    case _ => []
  }

  /** The chat of the event a step handles, if it handles one. */
  function ChatOf(s: Step): Option<int> {
    match s
    case Message(ev, _, _, _, _) => Some(ev.chat)
    case Album(ev, _, _, _, _) => Some(ev.chat)
    case Edited(ev, _, _, _) => Some(ev.chat)
    case Deleted(ev, _, _) => Some(ev.chat)
    case _ => None
  }

  function Next(cfg: Config, w: World, s: Step): World {
    match s
    case Posted(at, post) => w.(posts := w.posts[at := post])
    case Rewrote(at, body) => if at in w.posts then w.(posts := w.posts[at := Amended(w.posts[at], body)]) else w
    case Erased(at) => if at in w.posts then w.(posts := w.posts[at := w.posts[at].(alive := false)]) else w
    case Message(ev, version, env, fault, created) => AfterMessage(cfg, w, ev, version, env, fault, created)
    case Album(ev, downloads, env, faults, created) => AfterAlbum(cfg, w, ev, downloads, env, faults, created)
    case Edited(ev, version, fails, answer) => AfterEdit(cfg, w, ev, version, fails, answer)
    case Deleted(ev, fails, answers) => w.(posts := Killed(w.posts, CallsOf(cfg, w, s), answers))
    case Reconnected => w.(disabled := {})
  }

  /** A post after its author has edited it. */
  function Amended(p: Post, body: Body): Post {
    p.(body := body, past := p.past + [p.body])
  }

  /** A post that the account sends. */
  function OwnPost(cfg: Config, body: Body, replyId: int): Post {
    Post(cfg.selfID, body, [], EdgeTo(replyId), true)
  }

  function AfterMessage(cfg: Config, w: World, ev: MessageEvent, version: nat, env: SendEnv, fault: SaveFault,
                        created: set<int>): World {
    var e := NewMessageEffect(cfg, w.rows, w.disabled, ev, env, fault);
    var source := Coord(ev.chat, ev.id);
    World(e.rows, e.disabled,
      if e.calls == [] then w.posts
      else Spread(w.posts, e.calls[0].chat, created,
                  OwnPost(cfg, Outgoing(ev.content), ReplyId(w.rows, ev.chat, ev.replyTo, env.faults))),
      if |e.rows| > |w.rows| && ev.content.TextContent? then w.shown[source := version] else w.shown)
  }

  function AfterAlbum(cfg: Config, w: World, ev: AlbumEvent, downloads: nat -> bool, env: SendEnv,
                      faults: nat -> SaveFault, created: set<int>): World {
    var e := AlbumEffect(cfg, w.rows, w.disabled, ev, downloads, env, faults);
    World(e.rows, e.disabled,
      if e.calls == [] then w.posts
      else Spread(w.posts, e.calls[0].chat, created,
                  OwnPost(cfg, Media, ReplyId(w.rows, ev.chat, ev.replyTo, env.faults))),
      w.shown)
  }

  function AfterEdit(cfg: Config, w: World, ev: EditEvent, version: nat, fails: bool, answer: EditAnswer): World {
    if EditTakesHold(cfg, w, ev, fails, answer)
    then EditMade(w, Coord(ev.chat, ev.id), version, EditEffect(cfg, w.rows, w.disabled, ev, fails, answer).0[0])
    else w
  }

  /** After an edit call for a version of `source` has taken hold. */
  function EditMade(w: World, source: Coord, version: nat, call: Call): World
    requires call.Edit?
  {
    var target := Coord(call.chat, call.id);
    w.(posts := if target in w.posts then w.posts[target := Replaced(w.posts[target], call)] else w.posts,
       shown := if source in w.shown then w.shown[source := version] else w.shown)
  }

  /** The edit is relayed, and Telegram accepts it or finds it already made. */
  predicate EditTakesHold(cfg: Config, w: World, ev: EditEvent, fails: bool, answer: EditAnswer) {
    EditEffect(cfg, w.rows, w.disabled, ev, fails, answer).0 != [] && (answer.EditAccepted? || answer.NotModified?)
  }

  /** An event tells the truth about the post it is about. */
  predicate Truthful(posts: map<Coord, Post>, at: Coord, from: int, replyTo: Option<int>) {
    at in posts && posts[at].sender == from && posts[at].replyTo == replyTo
  }

  /** An event reports a version that the post really had. */
  predicate Carries(p: Post, version: nat, content: Content) {
    version <= |p.past| && content == Incoming(Version(p, version))
  }

  /** Telegram gives new messages new positive ids. */
  ghost predicate FreshIds(posts: map<Coord, Post>, chat: int, ids: set<int>) {
    forall id :: id in ids ==> id > 0 && Coord(chat, id) !in posts
  }

  /** The ids a successful response names first are those of messages the call created. */
  ghost predicate HonestResponse(env: SendEnv, created: set<int>, n: nat) {
    Attempts(env).outcome.Done? ==>
      var ids := IdsOf(Attempts(env).outcome.value);
      (forall i :: 0 <= i < n && i < |ids| ==> ids[i] in created)
  }

  /** It names no message twice among its first `n` ids (see `DoubledIdsMisassign`). */
  ghost predicate NamesApart(env: SendEnv, n: nat) {
    Attempts(env).outcome.Done? ==>
      var ids := IdsOf(Attempts(env).outcome.value);
      (forall i, j :: 0 <= i < j < n && j < |ids| ==> ids[i] != ids[j])
  }

  /** Which steps Telegram and its users can make, with one account `selfID` throughout.  Users edit only
      their own text messages. */
  ghost predicate Enabled(cfg: Config, w: World, s: Step) {
    match s
    case Posted(at, post) =>
      at.msg > 0 && at !in w.posts && post.alive && post.past == [] && (post.replyTo.Some? ==> post.replyTo.value > 0)
    case Rewrote(at, body) =>
      at in w.posts && w.posts[at].sender != cfg.selfID && w.posts[at].body.Text? && body.Text?
    case Erased(at) => true
    case Message(ev, version, env, _, created) =>
      var at := Coord(ev.chat, ev.id);
      && Truthful(w.posts, at, ev.from, ev.replyTo) && Carries(w.posts[at], version, ev.content)
      && (ev.chat in cfg.pairs ==> FreshIds(w.posts, cfg.pairs[ev.chat].target, created))
      && HonestResponse(env, created, 1)
    case Album(ev, _, env, _, created) => TruthfulAlbum(cfg, w, ev, env, created) && NamesApart(env, |ev.items|)
    case Edited(ev, version, fails, answer) =>
      && TruthfulEdit(w.posts, ev, version)
      && HonestEdit(w.posts, EditEffect(cfg, w.rows, w.disabled, ev, fails, answer).0, answer)
    case Deleted(ev, fails, _) => true
    case Reconnected => true
  }

  ghost predicate TruthfulAlbum(cfg: Config, w: World, ev: AlbumEvent, env: SendEnv, created: set<int>) {
    && (forall id :: id in ev.items ==> TruthfulItem(w.posts, ev, id))
    && (ev.chat in cfg.pairs ==> FreshIds(w.posts, cfg.pairs[ev.chat].target, created))
    && HonestResponse(env, created, |ev.items|)
  }

  predicate TruthfulItem(posts: map<Coord, Post>, ev: AlbumEvent, id: int) {
    Truthful(posts, Coord(ev.chat, id), ev.from, ev.replyTo) && posts[Coord(ev.chat, id)].body.Media?
  }

  predicate TruthfulEdit(posts: map<Coord, Post>, ev: EditEvent, version: nat) {
    var at := Coord(ev.chat, ev.id);
    && at in posts && posts[at].sender == ev.from
    && (posts[at].body.Text? ==>
          Carries(posts[at], version, TextContent(ev.text, ev.entities)) && ev.newMedia.None?)
  }

  /** Telegram edits only what exists, and reports "not modified" only if the text is already there. */
  predicate HonestEdit(posts: map<Coord, Post>, calls: seq<Call>, answer: EditAnswer) {
    |calls| == 1 && calls[0].Edit? ==>
      var target := Coord(calls[0].chat, calls[0].id);
      && (answer.EditAccepted? || answer.NotModified? ==> target in posts && posts[target].alive)
      && (answer.NotModified? && posts[target].body.Text? ==>
            posts[target].body == Text(calls[0].text, calls[0].entities))
  }

  ghost predicate Legal(cfg: Config, w: World, steps: seq<Step>)
    decreases |steps|
  {
    steps != [] ==> Enabled(cfg, w, steps[0]) && Legal(cfg, Next(cfg, w, steps[0]), steps[1..])
  }

  ghost function Exec(cfg: Config, w: World, steps: seq<Step>): World
    decreases |steps|
  {
    if steps == [] then w else Exec(cfg, Next(cfg, w, steps[0]), steps[1..])
  }
}
