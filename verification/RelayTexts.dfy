/** Content agreement: what the mirror of a text message shows, compared with the message itself. */
module RelayTexts {
  import Entities
  import opened MessageStore
  import opened Pairs
  import opened Relay
  import opened RelayInvariant
  import opened RelayResults
  import opened RelayTheorems
  import opened RelayWorld

  /** Whether the post `c` has an edit that is not relayed yet, or failed to be: set by an edit of its
      author, and by relaying an older version; cleared by relaying the newest. */
  ghost function BehindAfter(cfg: Config, w: World, s: Step, c: Coord, behind: bool): bool {
    match s
    case Rewrote(at, _) => at == c || behind
    case Message(ev, version, _, _, _) =>
      if c == Coord(ev.chat, ev.id) && |Next(cfg, w, s).rows| > |w.rows| then !Newest(w, c, version) else behind
    case Edited(ev, version, fails, answer) =>
      if c == Coord(ev.chat, ev.id) && EditTakesHold(cfg, w, ev, fails, answer) then !Newest(w, c, version) else behind
    case _ => behind
  }

  predicate Newest(w: World, c: Coord, version: nat) {
    c in w.posts && version == |w.posts[c].past|
  }

  ghost predicate Behind(cfg: Config, w: World, steps: seq<Step>, c: Coord, behind: bool)
    decreases |steps|
  {
    if steps == [] then behind
    else Behind(cfg, Next(cfg, w, steps[0]), steps[1..], c, BehindAfter(cfg, w, steps[0], c, behind))
  }

  /** The flag agrees with the version that is shown. */
  ghost predicate FlagOk(w: World, c: Coord, behind: bool) {
    c in w.shown ==> (behind <==> !Newest(w, c, w.shown[c]))
  }

  /** The source of a shown version is a recorded foreign post. */
  lemma {:induction false} ShownIsForeign(cfg: Config, w: World, c: Coord)
    requires Inv(cfg, w) && c in w.shown
    ensures c in w.posts && FindSource(w.rows, c).Some? && w.posts[c].sender != cfg.selfID
    ensures w.shown[c] <= |w.posts[c].past|
  {
    assert ShownOk(w.rows, w.posts, w.shown, c);
    assert RowOk(cfg, w.posts, FindSource(w.rows, c).value);
  }

  lemma {:induction false} MessageFlag(cfg: Config, w: World, ev: MessageEvent, version: nat, env: SendEnv,
                                       fault: SaveFault, created: set<int>, c: Coord, behind: bool)
    requires Inv(cfg, w) && Enabled(cfg, w, Message(ev, version, env, fault, created)) && FlagOk(w, c, behind)
    requires c in w.shown ==> c in w.posts && FindSource(w.rows, c).Some?
    ensures var s := Message(ev, version, env, fault, created);
      FlagOk(Next(cfg, w, s), c, BehindAfter(cfg, w, s, c, behind))
  {
    if NewMessageEffect(cfg, w.rows, w.disabled, ev, env, fault).calls == [] {
      QuietMessage(cfg, w.rows, w.disabled, ev, env, fault);
    } else {
      AfterMessageShape(cfg, w, ev, version, env, fault, created);
    }
  }

  lemma EditFlag(cfg: Config, w: World, ev: EditEvent, version: nat, fails: bool, answer: EditAnswer, c: Coord,
                 behind: bool)
    requires Inv(cfg, w) && Enabled(cfg, w, Edited(ev, version, fails, answer)) && FlagOk(w, c, behind)
    requires EditTakesHold(cfg, w, ev, fails, answer)
    requires c in w.shown ==> c in w.posts && w.posts[c].sender != cfg.selfID
    ensures var s := Edited(ev, version, fails, answer);
      FlagOk(Next(cfg, w, s), c, BehindAfter(cfg, w, s, c, behind))
  {
    var m := FindSource(w.rows, Coord(ev.chat, ev.id)).value;
    assert RowOk(cfg, w.posts, m);
    EditedPosts(cfg, w, ev, version, fails, answer);
  }

  lemma AlbumFlag(cfg: Config, w: World, ev: AlbumEvent, downloads: nat -> bool, env: SendEnv, faults: nat -> SaveFault,
                  created: set<int>, c: Coord, behind: bool)
    requires Inv(cfg, w) && Enabled(cfg, w, Album(ev, downloads, env, faults, created)) && FlagOk(w, c, behind)
    requires c in w.shown ==> c in w.posts
    ensures FlagOk(AfterAlbum(cfg, w, ev, downloads, env, faults, created), c, behind)
  {
    if AlbumEffect(cfg, w.rows, w.disabled, ev, downloads, env, faults).calls != [] {
      AfterAlbumShape(cfg, w, ev, downloads, env, faults, created);
    }
  }

  lemma FlagAfter(cfg: Config, w: World, s: Step, c: Coord, behind: bool)
    requires Inv(cfg, w) && Enabled(cfg, w, s) && FlagOk(w, c, behind)
    ensures FlagOk(Next(cfg, w, s), c, BehindAfter(cfg, w, s, c, behind))
  {
    if c in w.shown { ShownIsForeign(cfg, w, c); }
    match s
    case Message(ev, version, env, fault, created) => MessageFlag(cfg, w, ev, version, env, fault, created, c, behind);
    case Album(ev, downloads, env, faults, created) =>
      AlbumFlag(cfg, w, ev, downloads, env, faults, created, c, behind);
    case Edited(ev, version, fails, answer) =>
      if EditTakesHold(cfg, w, ev, fails, answer) { EditFlag(cfg, w, ev, version, fails, answer, c, behind); }
    case _ =>
  }

  lemma {:induction false} FlagInRun(cfg: Config, w: World, steps: seq<Step>, c: Coord, behind: bool)
    requires Inv(cfg, w) && Legal(cfg, w, steps) && FlagOk(w, c, behind)
    ensures FlagOk(Exec(cfg, w, steps), c, Behind(cfg, w, steps, c, behind))
    decreases |steps|
  {
    if steps != [] {
      FlagAfter(cfg, w, steps[0], c, behind);
      StepKeeps(cfg, w, steps[0]);
      FlagInRun(cfg, Next(cfg, w, steps[0]), steps[1..], c, BehindAfter(cfg, w, steps[0], c, behind));
    }
  }

  /** The mirror shows the text, and of its formatting what survives relaying. */
  predicate Shows(mirror: Post, b: Body) {
    b.Text? && mirror.body == Text(b.text, Entities.Relayed(b.entities))
  }

  /** The mirror of a text message, while it lives, shows a version of its source, and the newest unless it is
      behind. */
  ghost predicate AgreesWithSource(w: World, m: Mapping, behind: bool) {
    m.source in w.posts && w.posts[m.source].body.Text? &&
    m.target.msg != 0 && m.target in w.posts && w.posts[m.target].alive ==>
      var source, mirror := w.posts[m.source], w.posts[m.target];
      && (exists k: nat :: k <= |source.past| && Shows(mirror, Version(source, k)))
      && (!behind ==> Shows(mirror, source.body))
  }

  lemma FlagMeansAgreement(cfg: Config, w: World, m: Mapping, behind: bool)
    requires Inv(cfg, w) && m in w.rows && FlagOk(w, m.source, behind)
    ensures AgreesWithSource(w, m, behind)
  {
    assert TextOk(w.posts, w.shown, m);
    if m.source in w.shown {
      assert ShownOk(w.rows, w.posts, w.shown, m.source);
      var k := w.shown[m.source];
      BodyRoundTrip(Version(w.posts[m.source], k));
      assert m.target in w.posts && w.posts[m.target].alive && m.target.msg != 0 ==>
        Shows(w.posts[m.target], Version(w.posts[m.source], k));
    }
  }

  /** In every reachable state, the live and known mirror of a text message shows some version of the
      message, in the formatting that survives relaying; and it shows the newest one whenever no edit is
      still unprocessed or failed. */
  lemma {:induction false} MirrorsShowTheirSource(cfg: Config, steps: seq<Step>, m: Mapping)
    requires TwoSided(cfg.pairs) && Legal(cfg, START, steps) && m in Exec(cfg, START, steps).rows
    ensures AgreesWithSource(Exec(cfg, START, steps), m, Behind(cfg, START, steps, m.source, false))
  {
    StartIsSound(cfg);
    RunKeeps(cfg, START, steps);
    FlagInRun(cfg, START, steps, m.source, false);
    FlagMeansAgreement(cfg, Exec(cfg, START, steps), m, Behind(cfg, START, steps, m.source, false));
  }

  /** Relaying the newest version, as a message or as an edit that takes hold, brings the mirror up to date,
      whatever was missed before. */
  lemma EditCatchesUp(cfg: Config, w: World, ev: EditEvent, version: nat, fails: bool, answer: EditAnswer)
    requires Inv(cfg, w) && Enabled(cfg, w, Edited(ev, version, fails, answer))
    requires EditTakesHold(cfg, w, ev, fails, answer)
    requires w.posts[Coord(ev.chat, ev.id)].body.Text? && Newest(w, Coord(ev.chat, ev.id), version)
    ensures var m := FindSource(w.rows, Coord(ev.chat, ev.id)).value;
      m.target.msg != 0 ==>
        m.target in w.posts &&
        Shows(Next(cfg, w, Edited(ev, version, fails, answer)).posts[m.target], w.posts[Coord(ev.chat, ev.id)].body)
  {
    var m := FindSource(w.rows, Coord(ev.chat, ev.id)).value;
    assert RowOk(cfg, w.posts, m) && TextOk(w.posts, w.shown, m) && ShownOk(w.rows, w.posts, w.shown, m.source);
    BodyRoundTrip(w.posts[m.source].body);
  }
}
