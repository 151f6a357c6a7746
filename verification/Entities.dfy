/** Text formatting on its way through the relay: from Telegram's entities to the bridge's own and back. */
module Entities {

  datatype Kind =
    | Bold | Italic | Underline | Strike | Spoiler | Code
    | Pre(language: string) | TextURL(url: string) | Mention | Hashtag | BotCommand
    | Other(name: string)

  datatype TgEntity = TgEntity(kind: Kind, offset: int, length: int)

  /** The bridge's own form: the kind is a string, and `url` is empty unless the kind has one. */
  datatype MessageEntity = MessageEntity(kind: string, offset: int, length: int, url: string)

  function KindName(k: Kind): string {
    match k
    case Bold => "bold"
    case Italic => "italic"
    case Underline => "underline"
    case Strike => "strike"
    case Spoiler => "spoiler"
    case Code => "code"
    case Pre(_) => "pre"
    case TextURL(_) => "text_url"
    case Mention => "mention"
    case Hashtag => "hashtag"
    case BotCommand => "bot_command"
    case Other(_) => "unknown"
  }

  const KNOWN := {"bold", "italic", "underline", "strike", "spoiler", "code", "pre", "text_url", "mention",
                  "hashtag", "bot_command"}

  function FromTgEntity(e: TgEntity): MessageEntity {
    MessageEntity(KindName(e.kind), e.offset, e.length, if e.kind.TextURL? then e.kind.url else "")
  }

  function KindNamed(name: string, url: string): Kind
    requires name in KNOWN
  {
    if name == "bold" then Bold
    else if name == "italic" then Italic
    else if name == "underline" then Underline
    else if name == "strike" then Strike
    else if name == "spoiler" then Spoiler
    else if name == "code" then Code
    else if name == "pre" then Pre("")
    else if name == "text_url" then TextURL(url)
    else if name == "mention" then Mention
    else if name == "hashtag" then Hashtag
    else BotCommand
  }

  function FromTg(es: seq<TgEntity>): seq<MessageEntity> {
    seq(|es|, i requires 0 <= i < |es| => FromTgEntity(es[i]))
  }

  /** Kinds without a counterpart are dropped. */
  function ToTg(es: seq<MessageEntity>): seq<TgEntity> {
    if es == [] then []
    else
      var e := es[|es| - 1];
      ToTg(es[..|es| - 1]) + if e.kind in KNOWN then [TgEntity(KindNamed(e.kind, e.url), e.offset, e.length)] else []
  }

  method ConvertEntities(es: seq<TgEntity>) returns (result: seq<MessageEntity>)
    ensures result == FromTg(es)
  {
    result := [];
    for i := 0 to |es|
      invariant result == FromTg(es[..i])
    {
      assert es[..i + 1][..i] == es[..i];
      result := result + [FromTgEntity(es[i])];
    }
    assert es[..|es|] == es;
  }

  method ConvertEntitiesToTG(es: seq<MessageEntity>) returns (result: seq<TgEntity>)
    ensures result == ToTg(es)
  {
    result := [];
    for i := 0 to |es|
      invariant result == ToTg(es[..i])
    {
      assert es[..i + 1][..i] == es[..i];
      if es[i].kind in KNOWN {
        result := result + [TgEntity(KindNamed(es[i].kind, es[i].url), es[i].offset, es[i].length)];
      }
    }
    assert es[..|es|] == es;
  }

  /** What the recipient of a relayed text sees of an entity: unknown kinds vanish, and preformatted text
      forgets its language. */
  function Relayed(es: seq<TgEntity>): seq<TgEntity> {
    if es == [] then []
    else
      var e := es[|es| - 1];
      Relayed(es[..|es| - 1])
      + if e.kind.Other? then [] else [e.(kind := if e.kind.Pre? then Pre("") else e.kind)]
  }

  /** Faithful relaying needs every kind to be known and preformatted text to have no language. */
  ghost predicate Faithful(es: seq<TgEntity>) {
    forall i {:trigger Survives(es[i])} :: 0 <= i < |es| ==> Survives(es[i])
  }

  predicate Survives(e: TgEntity) {
    !e.kind.Other? && (e.kind.Pre? ==> e.kind.language == "")
  }

  lemma KindRoundTrip(k: Kind, url: string)
    requires url == if k.TextURL? then k.url else ""
    ensures KindName(k) in KNOWN <==> !k.Other?
    ensures !k.Other? ==> KindNamed(KindName(k), url) == if k.Pre? then Pre("") else k
  {
  }

  /** Into the bridge and out again: order, positions and links survive. */
  lemma {:induction false} EntityRoundTrip(es: seq<TgEntity>)
    ensures ToTg(FromTg(es)) == Relayed(es)
  {
    if es != [] {
      var front, e := es[..|es| - 1], es[|es| - 1];
      EntityRoundTrip(front);
      assert FromTg(es)[..|es| - 1] == FromTg(front);
      KindRoundTrip(e.kind, if e.kind.TextURL? then e.kind.url else "");
    }
  }

  lemma {:induction false} RelayedNoLonger(es: seq<TgEntity>)
    ensures |Relayed(es)| <= |es|
  {
    if es != [] { RelayedNoLonger(es[..|es| - 1]); }
  }

  /** The formatting is unchanged if and only if every entity is faithful. */
  lemma UnchangedIffFaithful(es: seq<TgEntity>)
    ensures ToTg(FromTg(es)) == es <==> Faithful(es)
  {
    EntityRoundTrip(es);
    RelayedIffFaithful(es);
  }

  lemma {:induction false} RelayedIffFaithful(es: seq<TgEntity>)
    ensures Relayed(es) == es <==> Faithful(es)
  {
    if es != [] {
      var front, e := es[..|es| - 1], es[|es| - 1];
      RelayedIffFaithful(front);
      RelayedNoLonger(front);
      assert es == front + [e];
      assert Faithful(es) <==> Faithful(front) && Survives(e) by { FaithfulSnoc(front, e); }
      if Relayed(es) == es {
        assert |Relayed(front)| == |front|;
        assert Relayed(front) == Relayed(es)[..|front|] == front;
        assert Relayed(es)[|front|] == e;
      }
    }
  }

  lemma FaithfulSnoc(es: seq<TgEntity>, e: TgEntity)
    ensures Faithful(es + [e]) <==> Faithful(es) && Survives(e)
  {
    var all := es + [e];
    if Faithful(all) {
      assert Survives(all[|es|]);
      forall i | 0 <= i < |es| ensures Survives(es[i]) { assert Survives(all[i]); }
    }
  }

  /** On the way in, each kind gets its name; the language of preformatted text is forgotten. */
  lemma InByKind(o: int, l: int, text: string)
    ensures FromTgEntity(TgEntity(Bold, o, l)) == MessageEntity("bold", o, l, "")
    ensures FromTgEntity(TgEntity(Italic, o, l)) == MessageEntity("italic", o, l, "")
    ensures FromTgEntity(TgEntity(Underline, o, l)) == MessageEntity("underline", o, l, "")
    ensures FromTgEntity(TgEntity(Strike, o, l)) == MessageEntity("strike", o, l, "")
    ensures FromTgEntity(TgEntity(Spoiler, o, l)) == MessageEntity("spoiler", o, l, "")
    ensures FromTgEntity(TgEntity(Code, o, l)) == MessageEntity("code", o, l, "")
    ensures FromTgEntity(TgEntity(Mention, o, l)) == MessageEntity("mention", o, l, "")
    ensures FromTgEntity(TgEntity(Hashtag, o, l)) == MessageEntity("hashtag", o, l, "")
    ensures FromTgEntity(TgEntity(BotCommand, o, l)) == MessageEntity("bot_command", o, l, "")
    ensures FromTgEntity(TgEntity(Pre(text), o, l)) == MessageEntity("pre", o, l, "")
    ensures FromTgEntity(TgEntity(TextURL(text), o, l)) == MessageEntity("text_url", o, l, text)
    ensures FromTgEntity(TgEntity(Other(text), o, l)) == MessageEntity("unknown", o, l, "")
  {
  }

  /** On the way out, each of the eleven names stands for its kind, and no other name for any. */
  lemma OutByName(name: string, url: string)
    ensures name in KNOWN <==>
            name in {"bold", "italic", "underline", "strike", "spoiler", "code", "pre", "text_url", "mention",
                     "hashtag", "bot_command"}
    ensures name in KNOWN ==>
              match KindNamed(name, url)
              case Bold => name == "bold"
              case Italic => name == "italic"
              case Underline => name == "underline"
              case Strike => name == "strike"
              case Spoiler => name == "spoiler"
              case Code => name == "code"
              case Mention => name == "mention"
              case Hashtag => name == "hashtag"
              case BotCommand => name == "bot_command"
              case Pre(language) => name == "pre" && language == ""
              case TextURL(link) => name == "text_url" && link == url
              case Other(_) => false
  {
  }

  /** An entity adds its kind in its place if its name is known, and nothing otherwise. */
  lemma {:induction false} OutOne(es: seq<MessageEntity>, e: MessageEntity)
    ensures ToTg(es + [e]) ==
            if e.kind in KNOWN then ToTg(es) + [TgEntity(KindNamed(e.kind, e.url), e.offset, e.length)] else ToTg(es)
  {
    assert (es + [e])[..|es|] == es;
  }
}
