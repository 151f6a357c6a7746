/** What every run of the relay keeps. */
module RelayInvariant {
  import opened Common
  import opened MessageStore
  import opened Pairs
  import opened Relay
  import opened RelayWorld

  /** A row pairs a foreign post in one chat of a configured pair with, if the id is known, a post of
      the account itself in the partner chat; key, direction and phone are those of the pair. */
  ghost predicate RowOk(cfg: Config, posts: map<Coord, Post>, m: Mapping) {
    && m.source in posts && posts[m.source].sender != cfg.selfID
    && m.source.chat in cfg.pairs
    && var pair := cfg.pairs[m.source.chat];
    && m.target.chat == pair.target && m.pairKey == pair.key && m.phone == cfg.phone
    && m.direction == (if m.source.chat == pair.merchant then MerchantToSupport else SupportToMerchant)
    && (m.target.msg != 0 ==> m.target in posts && posts[m.target].sender == cfg.selfID)
  }

  /** If the mirror replies to something, it is the other side of what the source replies to. */
  ghost predicate EdgeOk(rows: seq<Mapping>, posts: map<Coord, Post>, m: Mapping) {
    m.target in posts && posts[m.target].replyTo.Some? ==>
      && m.source in posts && posts[m.source].replyTo.Some?
      && Opposite(rows, Coord(m.source.chat, posts[m.source].replyTo.value))
           == Some(Coord(m.target.chat, posts[m.target].replyTo.value))
  }

  /** Of every recorded text message it is known which version was relayed last, and a live mirror shows
      that version, as far as the bridge can express it. */
  ghost predicate TextOk(posts: map<Coord, Post>, shown: map<Coord, nat>, m: Mapping) {
    && (m.source in posts && posts[m.source].body.Text? ==> m.source in shown)
    && (m.source in shown && m.target.msg != 0 && m.target in posts && posts[m.target].alive ==>
      && m.source in posts && shown[m.source] <= |posts[m.source].past|
      && posts[m.target].body == Outgoing(Incoming(Version(posts[m.source], shown[m.source]))))
  }

  /** Only for recorded sources is a version shown, one that the source had, and a text. */
  predicate ShownOk(rows: seq<Mapping>, posts: map<Coord, Post>, shown: map<Coord, nat>, c: Coord)
    requires c in shown
  {
    FindSource(rows, c).Some? && c in posts && shown[c] <= |posts[c].past| && Version(posts[c], shown[c]).Text?
  }

  /** Only texts are edited, and into texts. */
  predicate PostOk(p: Post) {
    && (p.replyTo.Some? ==> p.replyTo.value > 0)
    && (forall k :: 0 <= k < |p.past| ==> p.past[k].Text? == p.body.Text?)
  }

  ghost predicate PostsOk(posts: map<Coord, Post>) {
    forall c {:trigger posts[c]} :: c in posts ==> c.msg > 0 && PostOk(posts[c])
  }

  ghost predicate RowsOk(cfg: Config, rows: seq<Mapping>, posts: map<Coord, Post>) {
    && Clean(rows)
    && (forall m {:trigger RowOk(cfg, posts, m)} :: m in rows ==> RowOk(cfg, posts, m))
    && (forall m {:trigger EdgeOk(rows, posts, m)} :: m in rows ==> EdgeOk(rows, posts, m))
  }

  ghost predicate TextsOk(rows: seq<Mapping>, posts: map<Coord, Post>, shown: map<Coord, nat>) {
    && (forall m {:trigger TextOk(posts, shown, m)} :: m in rows ==> TextOk(posts, shown, m))
    && (forall c {:trigger ShownOk(rows, posts, shown, c)} :: c in shown ==> ShownOk(rows, posts, shown, c))
  }

  ghost predicate Inv(cfg: Config, w: World) {
    && TwoSided(cfg.pairs)
    && PostsOk(w.posts)
    && RowsOk(cfg, w.rows, w.posts)
    && TextsOk(w.rows, w.posts, w.shown)
  }

  /** Posts are never lost and never change sender or reply edge. */
  ghost predicate Extends(before: map<Coord, Post>, after: map<Coord, Post>) {
    forall c {:trigger c in after} {:trigger c in before} :: c in before ==>
      c in after && after[c].sender == before[c].sender && after[c].replyTo == before[c].replyTo
  }

  /** The versions a post had are not forgotten. */
  predicate SameHistory(p: Post, q: Post) {
    && q.body.Text? == p.body.Text? && |p.past| <= |q.past|
    && forall k: nat {:trigger Version(q, k)} :: k <= |p.past| ==> Version(q, k) == Version(p, k)
  }

  /** The histories of foreign posts are kept, and a live post of the account still has its body. */
  predicate KeepsPost(cfg: Config, p: Post, q: Post) {
    if p.sender != cfg.selfID then SameHistory(p, q) else q.alive ==> p.alive && q.body == p.body
  }

  lemma TextsSurvive(cfg: Config, rows: seq<Mapping>, before: map<Coord, Post>, after: map<Coord, Post>,
                     shown: map<Coord, nat>)
    requires RowsOk(cfg, rows, before) && TextsOk(rows, before, shown) && Extends(before, after)
    requires forall c :: c in before ==> KeepsPost(cfg, before[c], after[c])
    ensures TextsOk(rows, after, shown)
  {
    forall m | m in rows ensures TextOk(after, shown, m) {
      assert RowOk(cfg, before, m) && TextOk(before, shown, m);
      if m.source in shown { assert ShownOk(rows, before, shown, m.source); }
    }
    forall c | c in shown ensures ShownOk(rows, after, shown, c) {
      assert ShownOk(rows, before, shown, c);
      assert RowOk(cfg, before, FindSource(rows, c).value);
    }
  }

  lemma RowsSurvive(cfg: Config, rows: seq<Mapping>, before: map<Coord, Post>, after: map<Coord, Post>)
    requires RowsOk(cfg, rows, before) && Extends(before, after)
    requires forall m :: m in rows && m.target.msg == 0 ==> m.target !in after
    ensures RowsOk(cfg, rows, after)
  {
    forall m | m in rows ensures RowOk(cfg, after, m) && EdgeOk(rows, after, m) {
      assert RowOk(cfg, before, m) && EdgeOk(rows, before, m);
    }
  }

  /** The two sides of a pair, seen from a row. */
  lemma RowChats(cfg: Config, posts: map<Coord, Post>, m: Mapping)
    requires TwoSided(cfg.pairs) && RowOk(cfg, posts, m)
    ensures m.target.chat in cfg.pairs && cfg.pairs[m.target.chat].target == m.source.chat
    ensures cfg.pairs[m.source.chat].target == m.target.chat
  {
    assert SidesMatch(cfg.pairs, m.source.chat);
  }

  /** The id a reply is sent with belongs to the chat it is sent into: it names the other side of the
      message that was replied to. */
  lemma ReplyIsOpposite(cfg: Config, w: World, chat: int, replyTo: Option<int>, faults: Faults)
    requires Inv(cfg, w) && chat in cfg.pairs
    requires ReplyId(w.rows, chat, replyTo, faults) != 0
    ensures replyTo.Some?
    ensures var there := Coord(cfg.pairs[chat].target, ReplyId(w.rows, chat, replyTo, faults));
      there in w.posts && Opposite(w.rows, Coord(chat, replyTo.value)) == Some(there)
  {
    var c := Coord(chat, replyTo.value);
    var m := if FindTarget(w.rows, c).Some? then FindTarget(w.rows, c).value else FindSource(w.rows, c).value;
    assert RowOk(cfg, w.posts, m);
    RowChats(cfg, w.posts, m);
  }

  /** With working lookups a reply is sent plain exactly when no known other side is recorded. */
  lemma PlainExactlyWithoutOpposite(cfg: Config, w: World, chat: int, replyTo: Option<int>)
    requires Inv(cfg, w) && chat in cfg.pairs
    ensures ReplyId(w.rows, chat, replyTo, Faults(false, false)) == 0 <==>
            replyTo.None? || Opposite(w.rows, Coord(chat, replyTo.value)).None? ||
            Opposite(w.rows, Coord(chat, replyTo.value)).value.msg == 0
  {
  }

  lemma AddRow(cfg: Config, rows: seq<Mapping>, posts: map<Coord, Post>, m: Mapping, fault: SaveFault)
    requires PostsOk(posts) && RowsOk(cfg, rows, posts) && RowOk(cfg, posts, m) && EdgeOk(rows, posts, m)
    requires forall a :: a in rows && m.target.msg != 0 ==> a.target != m.target
    ensures RowsOk(cfg, SaveRow(rows, m, fault).0, posts)
  {
    var after := SaveRow(rows, m, fault).0;
    if after != rows {
      forall a | a in rows ensures Apart(a, m) {
        assert RowOk(cfg, posts, a);
      }
      CleanGrows(rows, m);
      forall a | a in after ensures RowOk(cfg, posts, a) && EdgeOk(after, posts, a) {
        if a in rows { assert RowOk(cfg, posts, a) && EdgeOk(rows, posts, a); }
        if a.target in posts && posts[a.target].replyTo.Some? {
          OppositeStable(rows, m, Coord(a.source.chat, posts[a.source].replyTo.value));
        }
      }
    }
  }

  lemma {:induction false} NewTextRow(rows: seq<Mapping>, posts: map<Coord, Post>, shown: map<Coord, nat>, m: Mapping,
                                      version: nat)
    requires TextsOk(rows, posts, shown) && FindSource(rows, m.source).None?
    requires m.source in posts && version <= |posts[m.source].past| && Version(posts[m.source], version).Text?
    requires m.target in posts ==> posts[m.target].body == Outgoing(Incoming(Version(posts[m.source], version)))
    ensures TextsOk(rows + [m], posts, shown[m.source := version])
  {
    var later := shown[m.source := version];
    forall a | a in rows + [m] ensures TextOk(posts, later, a) {
      if a in rows { assert TextOk(posts, shown, a); }
    }
    forall c | c in later ensures ShownOk(rows + [m], posts, later, c) {
      if c in shown {
        assert ShownOk(rows, posts, shown, c) && FindSource(rows, c).value in rows + [m];
      } else {
        assert m in rows + [m];
      }
    }
  }

  lemma {:induction false} NewOtherRow(rows: seq<Mapping>, posts: map<Coord, Post>, shown: map<Coord, nat>, m: Mapping)
    requires TextsOk(rows, posts, shown) && FindSource(rows, m.source).None?
    requires m.source in posts ==> posts[m.source].body.Media?
    ensures TextsOk(rows + [m], posts, shown)
  {
    assert m.source in shown ==> ShownOk(rows, posts, shown, m.source);
    forall a | a in rows + [m] ensures TextOk(posts, shown, a) {
      if a in rows { assert TextOk(posts, shown, a); }
    }
    forall c | c in shown ensures ShownOk(rows + [m], posts, shown, c) {
      assert ShownOk(rows, posts, shown, c) && FindSource(rows, c).value in rows + [m];
    }
  }

  /** New posts of the account disturb nothing that is recorded. */
  lemma SpreadKeeps(cfg: Config, w: World, chat: int, ids: set<int>, post: Post)
    requires Inv(cfg, w) && FreshIds(w.posts, chat, ids)
    requires PostOk(post)
    ensures Inv(cfg, w.(posts := Spread(w.posts, chat, ids, post)))
    ensures forall id :: id in ids ==> Coord(chat, id) in Spread(w.posts, chat, ids, post) &&
                                       Spread(w.posts, chat, ids, post)[Coord(chat, id)] == post
    ensures forall c :: c in w.posts ==>
              c in Spread(w.posts, chat, ids, post) && Spread(w.posts, chat, ids, post)[c] == w.posts[c]
  {
    var after := Spread(w.posts, chat, ids, post);
    assert PostsOk(after);
    RowsSurvive(cfg, w.rows, w.posts, after);
    TextsSurvive(cfg, w.rows, w.posts, after, w.shown);
  }
}
