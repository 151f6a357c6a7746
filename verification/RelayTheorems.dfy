/** The invariant holds in every run, and what follows from it. */
module RelayTheorems {
  import opened Common
  import opened MessageStore
  import opened Pairs
  import opened Relay
  import opened RelayInvariant
  import opened RelayWorld
  import opened Retry
  import opened Updates

  lemma RouteFacts(cfg: Config, disabled: set<string>, chat: int, from: int)
    requires TwoSided(cfg.pairs) && RouteOf(cfg, disabled, chat, from).Some?
    ensures chat in cfg.pairs && from != cfg.selfID && cfg.pairs[chat].key !in disabled
    ensures var r := RouteOf(cfg, disabled, chat, from).value;
      && r.target == cfg.pairs[chat].target && r.target in cfg.peers && r.key == cfg.pairs[chat].key
      && r.direction == (if chat == cfg.pairs[chat].merchant then MerchantToSupport else SupportToMerchant)
  {
    assert SidesMatch(cfg.pairs, chat);
  }

  /** The chats right after a send: the account's new posts all carry the resolved reply edge. */
  ghost function Sent(cfg: Config, w: World, chat: int, body: Body, replyId: int, created: set<int>): map<Coord, Post>
    requires chat in cfg.pairs
  {
    Spread(w.posts, cfg.pairs[chat].target, created, OwnPost(cfg, body, replyId))
  }

  /** The situation between sending and recording. */
  ghost predicate SentFrom(cfg: Config, w: World, chat: int, from: int, replyTo: Option<int>, faults: Faults,
                           created: set<int>) {
    && Inv(cfg, w) && RouteOf(cfg, w.disabled, chat, from).Some? && chat in cfg.pairs
    && FreshIds(w.posts, cfg.pairs[chat].target, created)
    && (replyTo.Some? ==> replyTo.value > 0)
  }

  lemma SendKeeps(cfg: Config, w: World, chat: int, from: int, replyTo: Option<int>, faults: Faults, body: Body,
                  created: set<int>)
    requires SentFrom(cfg, w, chat, from, replyTo, faults, created)
    ensures Inv(cfg, w.(posts := Sent(cfg, w, chat, body, ReplyId(w.rows, chat, replyTo, faults), created)))
  {
    var id := ReplyId(w.rows, chat, replyTo, faults);
    if id != 0 { ReplyIsOpposite(cfg, w, chat, replyTo, faults); }
    SpreadKeeps(cfg, w, cfg.pairs[chat].target, created, OwnPost(cfg, body, id));
  }

  /** The row for a truthfully reported message and one of the new posts, or no known post, is sound. */
  lemma RowForSent(cfg: Config, w: World, chat: int, from: int, replyTo: Option<int>, faults: Faults,
                   body: Body, created: set<int>, sourceId: int, targetId: int, group: Option<string>)
    requires SentFrom(cfg, w, chat, from, replyTo, faults, created)
    requires Truthful(w.posts, Coord(chat, sourceId), from, replyTo)
    requires targetId == 0 || targetId in created
    ensures var posts := Sent(cfg, w, chat, body, ReplyId(w.rows, chat, replyTo, faults), created);
      var m := MappingFor(cfg, RouteOf(cfg, w.disabled, chat, from).value, Coord(chat, sourceId), targetId, group);
      && RowOk(cfg, posts, m) && EdgeOk(w.rows, posts, m)
      && m.source in posts && posts[m.source] == w.posts[m.source]
      && (m.target in posts ==> posts[m.target].body == body)
      && (targetId != 0 ==> m.target !in w.posts)
  {
    var id := ReplyId(w.rows, chat, replyTo, faults);
    RouteFacts(cfg, w.disabled, chat, from);
    SpreadKeeps(cfg, w, cfg.pairs[chat].target, created, OwnPost(cfg, body, id)) by {
      if id != 0 { ReplyIsOpposite(cfg, w, chat, replyTo, faults); }
    }
    if id != 0 { ReplyIsOpposite(cfg, w, chat, replyTo, faults); }
    assert Coord(cfg.pairs[chat].target, 0) !in Sent(cfg, w, chat, body, id, created);
  }

  /** Recorded targets were posted before; a new post cannot be among them. */
  lemma NewTargetIsNew(cfg: Config, w: World, target: Coord)
    requires Inv(cfg, w) && target.msg != 0 && target !in w.posts
    ensures forall a :: a in w.rows ==> a.target != target
  {
    forall a | a in w.rows ensures a.target != target {
      assert RowOk(cfg, w.posts, a);
    }
  }

  lemma AfterMessageShape(cfg: Config, w: World, ev: MessageEvent, version: nat, env: SendEnv, fault: SaveFault,
                          created: set<int>)
    requires TwoSided(cfg.pairs) && NewMessageEffect(cfg, w.rows, w.disabled, ev, env, fault).calls != []
    ensures RouteOf(cfg, w.disabled, ev.chat, ev.from).Some? && ev.chat in cfg.pairs
    ensures AfterMessage(cfg, w, ev, version, env, fault, created).posts
         == Sent(cfg, w, ev.chat, Outgoing(ev.content), ReplyId(w.rows, ev.chat, ev.replyTo, env.faults), created)
  {
    RouteFacts(cfg, w.disabled, ev.chat, ev.from);
  }

  lemma MessageKeeps(cfg: Config, w: World, ev: MessageEvent, version: nat, env: SendEnv, fault: SaveFault,
                     created: set<int>)
    requires Inv(cfg, w) && Enabled(cfg, w, Message(ev, version, env, fault, created))
    ensures Inv(cfg, AfterMessage(cfg, w, ev, version, env, fault, created))
  {
    if NewMessageEffect(cfg, w.rows, w.disabled, ev, env, fault).calls == [] {
      QuietMessage(cfg, w.rows, w.disabled, ev, env, fault);
    } else {
      AfterMessageShape(cfg, w, ev, version, env, fault, created);
      SendKeeps(cfg, w, ev.chat, ev.from, ev.replyTo, env.faults, Outgoing(ev.content), created);
      if Attempts(env).outcome.Done? {
        MessageRecordKeeps(cfg, w, ev, version, env, fault, created);
      }
    }
  }

  /** A handler that sends nothing changes nothing. */
  lemma QuietMessage(cfg: Config, rows: seq<Mapping>, disabled: set<string>, ev: MessageEvent, env: SendEnv,
                     fault: SaveFault)
    requires NewMessageEffect(cfg, rows, disabled, ev, env, fault).calls == []
    ensures NewMessageEffect(cfg, rows, disabled, ev, env, fault).rows == rows
    ensures NewMessageEffect(cfg, rows, disabled, ev, env, fault).disabled == disabled
  {
    RetryFacts(env.script, env.cancels);
  }

  lemma QuietAlbum(cfg: Config, rows: seq<Mapping>, disabled: set<string>, ev: AlbumEvent,
                   downloads: nat -> bool, env: SendEnv, faults: nat -> SaveFault)
    requires AlbumEffect(cfg, rows, disabled, ev, downloads, env, faults).calls == []
    ensures AlbumEffect(cfg, rows, disabled, ev, downloads, env, faults).rows == rows
    ensures AlbumEffect(cfg, rows, disabled, ev, downloads, env, faults).disabled == disabled
  {
    RetryFacts(env.script, env.cancels);
  }

  lemma MessageRecordKeeps(cfg: Config, w: World, ev: MessageEvent, version: nat, env: SendEnv, fault: SaveFault,
                           created: set<int>)
    requires Inv(cfg, w) && Enabled(cfg, w, Message(ev, version, env, fault, created))
    requires NewMessageEffect(cfg, w.rows, w.disabled, ev, env, fault).calls != [] && Attempts(env).outcome.Done?
    requires ev.chat in cfg.pairs
    requires Inv(cfg, w.(posts := Sent(cfg, w, ev.chat, Outgoing(ev.content),
                                       ReplyId(w.rows, ev.chat, ev.replyTo, env.faults), created)))
    ensures Inv(cfg, AfterMessage(cfg, w, ev, version, env, fault, created))
  {
    var posts := Sent(cfg, w, ev.chat, Outgoing(ev.content), ReplyId(w.rows, ev.chat, ev.replyTo, env.faults), created);
    var route := RouteOf(cfg, w.disabled, ev.chat, ev.from).value;
    var id := SentId(Attempts(env).outcome.value);
    var m := MappingFor(cfg, route, Coord(ev.chat, ev.id), id, None);
    RouteFacts(cfg, w.disabled, ev.chat, ev.from);
    RowForSent(cfg, w, ev.chat, ev.from, ev.replyTo, env.faults, Outgoing(ev.content), created, ev.id, id, None);
    if id != 0 { NewTargetIsNew(cfg, w, m.target); }
    AddRow(cfg, w.rows, posts, m, fault);
    if FindSource(w.rows, m.source).None? {
      if ev.content.TextContent? {
        NewTextRow(w.rows, posts, w.shown, m, version);
      } else {
        NewOtherRow(w.rows, posts, w.shown, m);
      }
    }
  }

  /** The chats after the send of an album, and the rows after recording its first `n` items. */
  ghost function AlbumPosts(cfg: Config, w: World, ev: AlbumEvent, env: SendEnv, created: set<int>): map<Coord, Post>
    requires ev.chat in cfg.pairs
  {
    Sent(cfg, w, ev.chat, Media, ReplyId(w.rows, ev.chat, ev.replyTo, env.faults), created)
  }

  ghost function AlbumRows(cfg: Config, w: World, ev: AlbumEvent, env: SendEnv, faults: nat -> SaveFault,
                           n: nat): seq<Mapping>
    requires RouteOf(cfg, w.disabled, ev.chat, ev.from).Some? && Attempts(env).outcome.Done? && n <= |ev.items|
  {
    var route := RouteOf(cfg, w.disabled, ev.chat, ev.from).value;
    RecordItems(cfg, route, w.rows, ev, IdsOf(Attempts(env).outcome.value), faults, n)
  }

  /** What holds while the items of an album are being recorded. */
  ghost predicate AlbumSent(cfg: Config, w: World, ev: AlbumEvent, env: SendEnv, created: set<int>) {
    && SentFrom(cfg, w, ev.chat, ev.from, ev.replyTo, env.faults, created)
    && TruthfulAlbum(cfg, w, ev, env, created) && NamesApart(env, |ev.items|)
    && Attempts(env).outcome.Done?
  }

  ghost predicate ItemsOk(cfg: Config, w: World, ev: AlbumEvent, env: SendEnv, created: set<int>, rows: seq<Mapping>,
                          n: nat)
    requires AlbumSent(cfg, w, ev, env, created)
  {
    var posts := AlbumPosts(cfg, w, ev, env, created);
    && RowsOk(cfg, rows, posts) && TextsOk(rows, posts, w.shown) && PostsOk(posts) && Prefix(w.rows, rows)
    && TargetsLeft(IdsOf(Attempts(env).outcome.value), cfg.pairs[ev.chat].target, rows, n, |ev.items|)
  }

  lemma NoItemYet(cfg: Config, w: World, ev: AlbumEvent, env: SendEnv, created: set<int>)
    requires AlbumSent(cfg, w, ev, env, created)
    ensures ItemsOk(cfg, w, ev, env, created, w.rows, 0)
  {
    SendKeeps(cfg, w, ev.chat, ev.from, ev.replyTo, env.faults, Media, created);
    var ids, target := IdsOf(Attempts(env).outcome.value), cfg.pairs[ev.chat].target;
    forall k: nat, a | k < |ev.items| && a in w.rows ensures FreeOf(a, target, TargetId(ids, k)) {
      if TargetId(ids, k) != 0 { NewTargetIsNew(cfg, w, Coord(target, TargetId(ids, k))); }
    }
  }

  /** Recording one more item keeps the rows sound and free of the later targets. */
  lemma OneMoreItem(cfg: Config, w: World, ev: AlbumEvent, env: SendEnv, created: set<int>, rows: seq<Mapping>, n: nat,
                    fault: SaveFault)
    requires AlbumSent(cfg, w, ev, env, created) && n < |ev.items| && ItemsOk(cfg, w, ev, env, created, rows, n)
    ensures var route := RouteOf(cfg, w.disabled, ev.chat, ev.from).value;
      var m := ItemMapping(cfg, route, ev, IdsOf(Attempts(env).outcome.value), n);
      ItemsOk(cfg, w, ev, env, created, SaveRow(rows, m, fault).0, n + 1)
  {
    var posts := AlbumPosts(cfg, w, ev, env, created);
    var ids := IdsOf(Attempts(env).outcome.value);
    var m := ItemMapping(cfg, RouteOf(cfg, w.disabled, ev.chat, ev.from).value, ev, ids, n);
    ItemIsSound(cfg, w, ev, env, created, rows, n);
    AddRow(cfg, rows, posts, m, fault);
    if FindSource(rows, m.source).None? { NewOtherRow(rows, posts, w.shown, m); }
    LaterTargetsLeft(ids, rows, m, n, |ev.items|, fault);
  }

  lemma ItemIsSound(cfg: Config, w: World, ev: AlbumEvent, env: SendEnv, created: set<int>, rows: seq<Mapping>, n: nat)
    requires AlbumSent(cfg, w, ev, env, created) && n < |ev.items| && ItemsOk(cfg, w, ev, env, created, rows, n)
    ensures var route := RouteOf(cfg, w.disabled, ev.chat, ev.from).value;
      var m := ItemMapping(cfg, route, ev, IdsOf(Attempts(env).outcome.value), n);
      var posts := AlbumPosts(cfg, w, ev, env, created);
      && RowOk(cfg, posts, m) && EdgeOk(rows, posts, m) && posts[m.source].body.Media?
      && m.target == Coord(cfg.pairs[ev.chat].target, TargetId(IdsOf(Attempts(env).outcome.value), n))
      && forall a :: a in rows && m.target.msg != 0 ==> a.target != m.target
  {
    var ids := IdsOf(Attempts(env).outcome.value);
    var m := ItemMapping(cfg, RouteOf(cfg, w.disabled, ev.chat, ev.from).value, ev, ids, n);
    RouteFacts(cfg, w.disabled, ev.chat, ev.from);
    assert TruthfulItem(w.posts, ev, ev.items[n]);
    RowForSent(cfg, w, ev.chat, ev.from, ev.replyTo, env.faults, Media, created, ev.items[n], TargetId(ids, n),
               Some(ev.group));
    EdgeSurvives(w.rows, rows, AlbumPosts(cfg, w, ev, env, created), m);
    forall a | a in rows && m.target.msg != 0 ensures a.target != m.target {
      assert FreeOf(a, cfg.pairs[ev.chat].target, TargetId(ids, n));
    }
  }

  lemma LaterTargetsLeft(ids: seq<int>, rows: seq<Mapping>, m: Mapping, n: nat, items: nat, fault: SaveFault)
    requires TargetsLeft(ids, m.target.chat, rows, n, items) && n < items && m.target.msg == TargetId(ids, n)
    requires forall i, j :: 0 <= i < j < items && j < |ids| ==> ids[i] != ids[j]
    ensures TargetsLeft(ids, m.target.chat, SaveRow(rows, m, fault).0, n + 1, items)
  {
    forall k: nat, a | n + 1 <= k < items && a in SaveRow(rows, m, fault).0
      ensures FreeOf(a, m.target.chat, TargetId(ids, k))
    {
      if a in rows { assert FreeOf(a, m.target.chat, TargetId(ids, k)); }
    }
  }

  lemma {:induction false} ItemsKeep(cfg: Config, w: World, ev: AlbumEvent, env: SendEnv, faults: nat -> SaveFault,
                                     created: set<int>, n: nat)
    requires AlbumSent(cfg, w, ev, env, created) && n <= |ev.items|
    ensures ItemsOk(cfg, w, ev, env, created, AlbumRows(cfg, w, ev, env, faults, n), n)
  {
    if n == 0 {
      NoItemYet(cfg, w, ev, env, created);
    } else {
      ItemsKeep(cfg, w, ev, env, faults, created, n - 1);
      OneMoreItem(cfg, w, ev, env, created, AlbumRows(cfg, w, ev, env, faults, n - 1), n - 1, faults(n - 1));
    }
  }

  ghost predicate Prefix(before: seq<Mapping>, after: seq<Mapping>) {
    |before| <= |after| && after[..|before|] == before
  }

  /** No row uses the target of an item from position `n` on. */
  ghost predicate TargetsLeft(ids: seq<int>, chat: int, rows: seq<Mapping>, n: nat, items: nat) {
    forall k: nat, a {:trigger FreeOf(a, chat, TargetId(ids, k))} :: n <= k < items && a in rows ==>
      FreeOf(a, chat, TargetId(ids, k))
  }

  predicate FreeOf(a: Mapping, chat: int, id: int) {
    id != 0 ==> a.target != Coord(chat, id)
  }

  lemma {:induction false} PrefixStable(before: seq<Mapping>, after: seq<Mapping>, c: Coord)
    requires Clean(after) && Prefix(before, after) && c.msg != 0 && Opposite(before, c).Some?
    ensures Opposite(after, c) == Opposite(before, c)
    decreases |after|
  {
    if after != before {
      var front := after[..|after| - 1];
      assert after == front + [after[|after| - 1]];
      CleanPrefix(after);
      assert front[..|before|] == before;
      PrefixStable(before, front, c);
      OppositeStable(front, after[|after| - 1], c);
    }
  }

  lemma CleanPrefix(rows: seq<Mapping>)
    requires Clean(rows) && rows != []
    ensures Clean(rows[..|rows| - 1])
  {
    var front := rows[..|rows| - 1];
    forall i | 0 <= i < |front| ensures NotOwnMirror(front[i]) {
      assert NotOwnMirror(rows[i]);
    }
    forall i, j | 0 <= i < j < |front| ensures Apart(front[i], front[j]) {
      assert Apart(rows[i], rows[j]);
    }
  }

  lemma EdgeSurvives(before: seq<Mapping>, after: seq<Mapping>, posts: map<Coord, Post>, m: Mapping)
    requires Clean(after) && Prefix(before, after) && PostsOk(posts) && EdgeOk(before, posts, m)
    ensures EdgeOk(after, posts, m)
  {
    if m.target in posts && posts[m.target].replyTo.Some? {
      PrefixStable(before, after, Coord(m.source.chat, posts[m.source].replyTo.value));
    }
  }

  lemma AfterAlbumShape(cfg: Config, w: World, ev: AlbumEvent, downloads: nat -> bool, env: SendEnv,
                        faults: nat -> SaveFault, created: set<int>)
    requires TwoSided(cfg.pairs) && AlbumEffect(cfg, w.rows, w.disabled, ev, downloads, env, faults).calls != []
    ensures ev.items != [] && RouteOf(cfg, w.disabled, ev.chat, ev.from).Some? && ev.chat in cfg.pairs
    ensures AfterAlbum(cfg, w, ev, downloads, env, faults, created).posts
         == Sent(cfg, w, ev.chat, Media, ReplyId(w.rows, ev.chat, ev.replyTo, env.faults), created)
  {
    RouteFacts(cfg, w.disabled, ev.chat, ev.from);
  }

  lemma AlbumKeeps(cfg: Config, w: World, ev: AlbumEvent, downloads: nat -> bool, env: SendEnv,
                   faults: nat -> SaveFault, created: set<int>)
    requires Inv(cfg, w) && Enabled(cfg, w, Album(ev, downloads, env, faults, created))
    ensures Inv(cfg, AfterAlbum(cfg, w, ev, downloads, env, faults, created))
  {
    if AlbumEffect(cfg, w.rows, w.disabled, ev, downloads, env, faults).calls == [] {
      QuietAlbum(cfg, w.rows, w.disabled, ev, downloads, env, faults);
    } else {
      AfterAlbumShape(cfg, w, ev, downloads, env, faults, created);
      assert TruthfulItem(w.posts, ev, ev.items[0]);
      SendKeeps(cfg, w, ev.chat, ev.from, ev.replyTo, env.faults, Media, created);
      if Attempts(env).outcome.Done? {
        ItemsKeep(cfg, w, ev, env, faults, created, |ev.items|);
      }
    }
  }

  /** An edit changes at most the body of the mirror, and what is shown of its source. */
  lemma EditedPosts(cfg: Config, w: World, ev: EditEvent, version: nat, fails: bool, answer: EditAnswer)
    requires Inv(cfg, w) && Enabled(cfg, w, Edited(ev, version, fails, answer))
    requires EditTakesHold(cfg, w, ev, fails, answer)
    ensures var after := AfterEdit(cfg, w, ev, version, fails, answer);
      var m := FindSource(w.rows, Coord(ev.chat, ev.id)).value;
      && PostsOk(after.posts) && after.posts.Keys == w.posts.Keys && after.shown.Keys == w.shown.Keys
      && (forall c :: c in w.posts && c != m.target ==> after.posts[c] == w.posts[c])
      && (forall c :: c in w.shown && c != m.source ==> after.shown[c] == w.shown[c])
  {
    var m := FindSource(w.rows, Coord(ev.chat, ev.id)).value;
    assert RowOk(cfg, w.posts, m);
  }

  lemma EditKeepsText(cfg: Config, w: World, ev: EditEvent, version: nat, fails: bool, answer: EditAnswer, a: Mapping)
    requires Inv(cfg, w) && Enabled(cfg, w, Edited(ev, version, fails, answer))
    requires EditTakesHold(cfg, w, ev, fails, answer)
    requires a in w.rows
    ensures var after := AfterEdit(cfg, w, ev, version, fails, answer); TextOk(after.posts, after.shown, a)
  {
    var m := FindSource(w.rows, Coord(ev.chat, ev.id)).value;
    assert RowOk(cfg, w.posts, m) && RowOk(cfg, w.posts, a) && TextOk(w.posts, w.shown, a);
    if a == m {
      EditedMirrorText(cfg, w, ev, version, fails, answer);
    } else {
      EditedPosts(cfg, w, ev, version, fails, answer);
      CleanApart(w.rows, a, m);
    }
  }

  lemma EditedMirrorText(cfg: Config, w: World, ev: EditEvent, version: nat, fails: bool, answer: EditAnswer)
    requires Inv(cfg, w) && Enabled(cfg, w, Edited(ev, version, fails, answer))
    requires EditTakesHold(cfg, w, ev, fails, answer)
    ensures var after := AfterEdit(cfg, w, ev, version, fails, answer);
      TextOk(after.posts, after.shown, FindSource(w.rows, Coord(ev.chat, ev.id)).value)
  {
    var source := Coord(ev.chat, ev.id);
    var m := FindSource(w.rows, source).value;
    assert RowOk(cfg, w.posts, m) && TextOk(w.posts, w.shown, m);
    if source in w.shown { assert ShownOk(w.rows, w.posts, w.shown, source); }
  }

  lemma EditKeepsRows(cfg: Config, w: World, ev: EditEvent, version: nat, fails: bool, answer: EditAnswer)
    requires Inv(cfg, w) && Enabled(cfg, w, Edited(ev, version, fails, answer))
    requires EditTakesHold(cfg, w, ev, fails, answer)
    ensures RowsOk(cfg, w.rows, AfterEdit(cfg, w, ev, version, fails, answer).posts)
  {
    var m := FindSource(w.rows, Coord(ev.chat, ev.id)).value;
    assert RowOk(cfg, w.posts, m);
    RowsSurvive(cfg, w.rows, w.posts, AfterEdit(cfg, w, ev, version, fails, answer).posts);
  }

  lemma EditKeepsShown(cfg: Config, w: World, ev: EditEvent, version: nat, fails: bool, answer: EditAnswer, c: Coord)
    requires Inv(cfg, w) && Enabled(cfg, w, Edited(ev, version, fails, answer))
    requires EditTakesHold(cfg, w, ev, fails, answer)
    requires c in w.shown
    ensures var after := AfterEdit(cfg, w, ev, version, fails, answer);
      c in after.shown && ShownOk(w.rows, after.posts, after.shown, c)
  {
    assert ShownOk(w.rows, w.posts, w.shown, c);
    assert RowOk(cfg, w.posts, FindSource(w.rows, c).value);
    assert RowOk(cfg, w.posts, FindSource(w.rows, Coord(ev.chat, ev.id)).value);
    EditedPosts(cfg, w, ev, version, fails, answer);
  }

  lemma EditKeeps(cfg: Config, w: World, ev: EditEvent, version: nat, fails: bool, answer: EditAnswer)
    requires Inv(cfg, w) && Enabled(cfg, w, Edited(ev, version, fails, answer))
    ensures Inv(cfg, AfterEdit(cfg, w, ev, version, fails, answer))
  {
    if EditTakesHold(cfg, w, ev, fails, answer) {
      var after := AfterEdit(cfg, w, ev, version, fails, answer);
      EditedPosts(cfg, w, ev, version, fails, answer);
      EditKeepsRows(cfg, w, ev, version, fails, answer);
      forall a | a in w.rows ensures TextOk(after.posts, after.shown, a) {
        EditKeepsText(cfg, w, ev, version, fails, answer, a);
      }
      forall c | c in after.shown ensures ShownOk(w.rows, after.posts, after.shown, c) {
        EditKeepsShown(cfg, w, ev, version, fails, answer, c);
      }
    }
  }

  lemma DeleteKeeps(cfg: Config, w: World, calls: seq<Call>, answers: nat -> DeleteAnswer)
    requires Inv(cfg, w)
    ensures Inv(cfg, w.(posts := Killed(w.posts, calls, answers)))
  {
    var after := Killed(w.posts, calls, answers);
    RowsSurvive(cfg, w.rows, w.posts, after);
    TextsSurvive(cfg, w.rows, w.posts, after, w.shown);
  }

  /** Users post, edit and erase. */
  lemma UsersKeep(cfg: Config, w: World, at: Coord, post: Post)
    requires Inv(cfg, w) && at.msg > 0 && PostOk(post)
    requires at in w.posts ==>
      && post.sender == w.posts[at].sender && post.replyTo == w.posts[at].replyTo
      && KeepsPost(cfg, w.posts[at], post)
    ensures Inv(cfg, w.(posts := w.posts[at := post]))
  {
    var after := w.posts[at := post];
    RowsSurvive(cfg, w.rows, w.posts, after);
    TextsSurvive(cfg, w.rows, w.posts, after, w.shown);
  }

  /** Every step keeps the invariant. */
  lemma StepKeeps(cfg: Config, w: World, s: Step)
    requires Inv(cfg, w) && Enabled(cfg, w, s)
    ensures Inv(cfg, Next(cfg, w, s))
  {
    match s
    case Posted(at, post) => UsersKeep(cfg, w, at, post);
    case Rewrote(at, body) => if at in w.posts { UsersKeep(cfg, w, at, Amended(w.posts[at], body)); }
    case Erased(at) => if at in w.posts { UsersKeep(cfg, w, at, w.posts[at].(alive := false)); }
    case Message(ev, version, env, fault, created) => MessageKeeps(cfg, w, ev, version, env, fault, created);
    case Album(ev, downloads, env, faults, created) => AlbumKeeps(cfg, w, ev, downloads, env, faults, created);
    case Edited(ev, version, fails, answer) => EditKeeps(cfg, w, ev, version, fails, answer);
    case Deleted(ev, fails, answers) => DeleteKeeps(cfg, w, CallsOf(cfg, w, s), answers);
    case Reconnected =>
  }

  /** So does every run. */
  lemma {:induction false} RunKeeps(cfg: Config, w: World, steps: seq<Step>)
    requires Inv(cfg, w) && Legal(cfg, w, steps)
    ensures Inv(cfg, Exec(cfg, w, steps))
    decreases |steps|
  {
    if steps != [] {
      StepKeeps(cfg, w, steps[0]);
      RunKeeps(cfg, Next(cfg, w, steps[0]), steps[1..]);
    }
  }
}
