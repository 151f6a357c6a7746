/** What the relay does on each event: routing, reply resolution, and the effect of one handler call
    on the store, the disabled pairs and the outgoing calls. */
module Relay {
  import opened Common
  import Entities
  import opened MessageStore
  import opened Pairs
  import opened Retry
  import opened Updates

  /** What a post shows: a formatted text, or media, of which only the presence matters here; captions are not
      part of the model. */
  datatype Body = Text(text: string, entities: seq<Entities.TgEntity>) | Media

  /** The same as the bridge gets it in an event. */
  datatype Content = TextContent(text: string, entities: seq<Entities.MessageEntity>) | MediaContent

  function Incoming(b: Body): Content {
    if b.Text? then TextContent(b.text, Entities.FromTg(b.entities)) else MediaContent
  }

  function Outgoing(c: Content): Body {
    if c.TextContent? then Text(c.text, Entities.ToTg(c.entities)) else Media
  }

  /** What becomes of a body on its way through the bridge: the text is the same, and the formatting is
      what survives relaying. */
  lemma BodyRoundTrip(b: Body)
    ensures Outgoing(Incoming(b)) == if b.Text? then Text(b.text, Entities.Relayed(b.entities)) else Media
  {
    if b.Text? { Entities.EntityRoundTrip(b.entities); }
  }

  datatype MessageEvent = MessageEvent(chat: int, id: int, from: int, content: Content, replyTo: Option<int>)
  datatype AlbumEvent = AlbumEvent(chat: int, from: int, group: string, items: seq<int>, replyTo: Option<int>)

  /** `newMedia` names the media of an edited message that has some. */
  datatype EditEvent = EditEvent(
    chat: int, id: int, from: int, text: string, entities: seq<Entities.MessageEntity>, newMedia: Option<string>)
  datatype DeleteEvent = DeleteEvent(chat: int, ids: seq<int>)

  /** Calls that change a chat.  `replyTo` 0 means a plain message. */
  datatype Call =
    | Send(chat: int, body: Body, replyTo: int)
    | SendAlbum(chat: int, size: nat, replyTo: int)
    | Edit(chat: int, id: int, text: string, entities: seq<Entities.TgEntity>, media: Option<string>)
    | Delete(chat: int, id: int)

  datatype Result = Ignored | Relayed | PairDisabled | Errored | Panicked

  /** `peers` are the chats whose peer has been resolved. */
  datatype Config = Config(selfID: int, phone: string, pairs: map<int, Pair>, peers: set<int>)

  datatype Effect = Effect(rows: seq<Mapping>, disabled: set<string>, calls: seq<Call>, result: Result)

  predicate IsRelevant(chat: int, from: int, selfID: int, pairs: map<int, Pair>) {
    chat in pairs && from != selfID
  }

  datatype Route = Route(key: string, direction: Direction, target: int)

  /** Pair, direction and target chat of an event, if it is to be relayed at all. */
  function RouteOf(cfg: Config, disabled: set<string>, chat: int, from: int): Option<Route> {
    if !IsRelevant(chat, from, cfg.selfID, cfg.pairs) || cfg.pairs[chat].key in disabled then None
    else
      var pair := cfg.pairs[chat];
      if chat == pair.merchant then WithPeer(cfg, Route(pair.key, MerchantToSupport, pair.support))
      else if chat == pair.support then WithPeer(cfg, Route(pair.key, SupportToMerchant, pair.merchant))
      else None
  }

  function WithPeer(cfg: Config, r: Route): Option<Route> {
    if r.target in cfg.peers then Some(r) else None
  }

  /** Which of the two lookups of a reply fail with a storage error. */
  datatype Faults = Faults(first: bool, second: bool)

  /** The message id to reply to in the target chat; 0 for a plain message, also after a failed lookup. */
  function ReplyId(rows: seq<Mapping>, chat: int, replyTo: Option<int>, faults: Faults): int {
    match replyTo
    case None => 0
    case Some(id) =>
      if faults.first then 0
      else
        match FindTarget(rows, Coord(chat, id))
        case Some(m) => m.source.msg
        case None =>
          if faults.second then 0
          else
            match FindSource(rows, Coord(chat, id))
            case Some(m) => m.target.msg
            case None => 0
  }

  /** What a send meets: storage faults, cancellation of the delay before it, and the answers. */
  datatype SendEnv = SendEnv(faults: Faults, waitCancelled: bool, script: nat -> Answer<Response>, cancels: nat -> bool)

  function Attempts(env: SendEnv): Report<Response> {
    Retried(env.script, env.cancels)
  }

  function Repeat(call: Call, n: nat): seq<Call> {
    seq(n, _ => call)
  }

  /** First id of a response, 0 if it has none. */
  function SentId(r: Response): int {
    if IdsOf(r) == [] then 0 else IdsOf(r)[0]
  }

  function MappingFor(cfg: Config, route: Route, source: Coord, targetMsg: int, group: Option<string>): Mapping {
    Mapping(route.key, source, Coord(route.target, targetMsg), route.direction, group, cfg.phone)
  }

  function NewMessageEffect(cfg: Config, rows: seq<Mapping>, disabled: set<string>,
                            ev: MessageEvent, env: SendEnv, fault: SaveFault): Effect {
    match RouteOf(cfg, disabled, ev.chat, ev.from)
    case None => Effect(rows, disabled, [], Ignored)
    case Some(route) =>
      if env.waitCancelled then Effect(rows, disabled, [], Errored)
      else
        var replyTo := ReplyId(rows, ev.chat, ev.replyTo, env.faults);
        var calls := Repeat(Send(route.target, Outgoing(ev.content), replyTo), Attempts(env).calls);
        match Attempts(env).outcome
        case ChatForbidden => Effect(rows, disabled + {route.key}, calls, PairDisabled)
        case Done(response) =>
          var (after, saved) :=
            SaveRow(rows, MappingFor(cfg, route, Coord(ev.chat, ev.id), SentId(response), None), fault);
          Effect(after, disabled, calls, if saved.SaveFailed? then Errored else Relayed)
        case _ => Effect(rows, disabled, calls, Errored)
  }

  function ItemMapping(cfg: Config, route: Route, ev: AlbumEvent, ids: seq<int>, i: nat): Mapping
    requires i < |ev.items|
  {
    MappingFor(cfg, route, Coord(ev.chat, ev.items[i]), TargetId(ids, i), Some(ev.group))
  }

  /** Rows after recording the first `n` items of an album, each save on its own. */
  function RecordItems(cfg: Config, route: Route, rows: seq<Mapping>, ev: AlbumEvent, ids: seq<int>,
                       faults: nat -> SaveFault, n: nat): seq<Mapping>
    requires n <= |ev.items|
  {
    if n == 0 then rows
    else SaveRow(RecordItems(cfg, route, rows, ev, ids, faults, n - 1), ItemMapping(cfg, route, ev, ids, n - 1),
                 faults(n - 1)).0
  }

  /** `downloads(i)` says whether item i could be downloaded and uploaded again.  An album without
      items makes the handler panic after the delay, before anything is sent. */
  function AlbumEffect(cfg: Config, rows: seq<Mapping>, disabled: set<string>, ev: AlbumEvent,
                       downloads: nat -> bool, env: SendEnv, faults: nat -> SaveFault): Effect {
    match RouteOf(cfg, disabled, ev.chat, ev.from)
    case None => Effect(rows, disabled, [], Ignored)
    case Some(route) =>
      if !AllDownloaded(ev, downloads) then Effect(rows, disabled, [], Errored)
      else if env.waitCancelled then Effect(rows, disabled, [], Errored)
      else if ev.items == [] then Effect(rows, disabled, [], Panicked)
      else
        var replyTo := ReplyId(rows, ev.chat, ev.replyTo, env.faults);
        var calls := Repeat(SendAlbum(route.target, |ev.items|, replyTo), Attempts(env).calls);
        match Attempts(env).outcome
        case ChatForbidden => Effect(rows, disabled + {route.key}, calls, PairDisabled)
        case Done(response) =>
          Effect(RecordItems(cfg, route, rows, ev, IdsOf(response), faults, |ev.items|), disabled, calls, Relayed)
        case _ => Effect(rows, disabled, calls, Errored)
  }

  predicate AllDownloaded(ev: AlbumEvent, downloads: nat -> bool) {
    forall i: nat :: i < |ev.items| ==> downloads(i)
  }

  datatype EditAnswer = EditAccepted | NotModified | IdInvalid | EditRefused

  function EditEffect(cfg: Config, rows: seq<Mapping>, disabled: set<string>, ev: EditEvent,
                      lookupFails: bool, answer: EditAnswer): (seq<Call>, Result) {
    if !IsRelevant(ev.chat, ev.from, cfg.selfID, cfg.pairs) || cfg.pairs[ev.chat].key in disabled then ([], Ignored)
    else if lookupFails then ([], Errored)
    else
      match FindSource(rows, Coord(ev.chat, ev.id))
      case None => ([], Ignored)
      case Some(m) =>
        if m.target.chat !in cfg.peers then ([], Ignored)
        else ([Edit(m.target.chat, m.target.msg, ev.text, Entities.ToTg(ev.entities), ev.newMedia)],
              match answer
              case EditRefused => Errored
              case EditAccepted => Relayed
              case _ => Ignored)
  }

  datatype DeleteAnswer = DeleteAccepted | DeleteIdInvalid | DeleteRefused

  predicate HandlesDeletes(cfg: Config, disabled: set<string>, ev: DeleteEvent) {
    ev.chat != 0 && ev.chat in cfg.pairs && cfg.pairs[ev.chat].key !in disabled
  }

  /** The delete call for one id, if it is a known source whose mirror can be reached. */
  function DeleteCall(cfg: Config, rows: seq<Mapping>, chat: int, id: int, lookupFails: bool): Option<Call> {
    if lookupFails then None
    else
      match FindSource(rows, Coord(chat, id))
      case None => None
      case Some(m) => if m.target.chat in cfg.peers then Some(Delete(m.target.chat, m.target.msg)) else None
  }

  /** Calls for the first `n` ids, in order, one per occurrence. */
  function DeleteCalls(cfg: Config, rows: seq<Mapping>, ev: DeleteEvent, fails: nat -> bool, n: nat): seq<Call>
    requires n <= |ev.ids|
  {
    if n == 0 then []
    else
      var call := DeleteCall(cfg, rows, ev.chat, ev.ids[n - 1], fails(n - 1));
      DeleteCalls(cfg, rows, ev, fails, n - 1) + if call.Some? then [call.value] else []
  }
}
