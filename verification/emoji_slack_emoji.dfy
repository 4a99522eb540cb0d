/**
 * The six-entry `SlackEmoji` enum (package `utils.emoji`): the same table as
 * the seven-entry one without LUNCH. The two are separate types in the app;
 * the agreement lemma relates them entry by entry.
 */
module EmojiSlackEmoji {
  import opened Wrappers
  import Full = SlackEmoji

  /** Declaration order: HUT, WALK, RUN, LEAVE, HOME, CLEAR. */
  datatype SlackEmoji = Hut | Walk | Run | Leave | Home | Clear
  {
    function Code(): string {
      match this
      case Hut => ":hut:"
      case Walk => ":walking:"
      case Run => ":runner:"
      case Leave => ":thought_balloon:"
      case Home => ":house:"
      case Clear => ":x:"
    }

    function SuggestedMessage(): string {
      match this
      case Hut => "Off for the day"
      case Walk => "Commuting"
      case Run => "Nearby"
      case Leave => "Unavailable"
      case Home => "Off"
      case Clear => "Clear"
    }
  }

  /** `values()`: every entry once, in declaration order. */
  const Entries: seq<SlackEmoji> := [Hut, Walk, Run, Leave, Home, Clear]

  /** `emojiText()`. */
  function EmojiText(e: SlackEmoji): string {
    match e
    case Hut => "\U{1F6D6}"
    case Walk => "\U{1F6B6}\U{200D}\U{2642}\U{FE0F}"
    case Run => "\U{1F3C3}\U{200D}\U{2642}\U{FE0F}"
    case Leave => "\U{1F4AD}"
    case Home => "\U{1F3E0}"
    case Clear => "\U{274C}"
  }

  /** `commuteEmojis()`: every entry except CLEAR. */
  function CommuteEmojis(): seq<SlackEmoji> {
    [Hut, Walk, Run, Leave, Home]
  }

  /** The seven-entry enum's entry of the same name. */
  function SameNamed(e: SlackEmoji): (f: Full.SlackEmoji)
    ensures f != Full.Lunch
  {
    match e
    case Hut => Full.Hut
    case Walk => Full.Walk
    case Run => Full.Run
    case Leave => Full.Leave
    case Home => Full.Home
    case Clear => Full.Clear
  }

  /** The entry of the same name, when this enum has one. */
  function FromFull(f: Full.SlackEmoji): (r: Option<SlackEmoji>)
  {
    match f
    case Hut => Some(Hut)
    case Walk => Some(Walk)
    case Run => Some(Run)
    case Leave => Some(Leave)
    case Home => Some(Home)
    case Lunch => None
    case Clear => Some(Clear)
  }

  /** `Entries` lists every entry exactly once. */
  lemma EntriesComplete(e: SlackEmoji)
    ensures |Entries| == 6
    ensures e in Entries
    ensures forall i, j :: 0 <= i < j < |Entries| ==> Entries[i] != Entries[j]
  {
  }

  lemma CodesDistinct(a: SlackEmoji, b: SlackEmoji)
    ensures a.Code() == b.Code() <==> a == b
  {
    if a != b {
      assert a.Code()[1] != b.Code()[1] || |a.Code()| != |b.Code()|;
    }
  }

  lemma SuggestedMessageNonEmpty(e: SlackEmoji)
    ensures e.SuggestedMessage() != ""
  {
  }

  lemma EmojiTextInjective(a: SlackEmoji, b: SlackEmoji)
    ensures EmojiText(a) != ""
    ensures EmojiText(a) == EmojiText(b) <==> a == b
  {
    if a != b {
      assert EmojiText(a)[0] != EmojiText(b)[0] || |EmojiText(a)| != |EmojiText(b)|;
    }
  }

  /** The composer offers every entry except CLEAR, in declaration order. */
  lemma CommuteEmojisOrder(e: SlackEmoji)
    ensures e in CommuteEmojis() <==> e != Clear
    ensures CommuteEmojis() == Entries[..5]
  {
  }

  /**
   * The two enums agree on every shared entry (code, message and emoji text),
   * the shared entries are all of the seven but LUNCH, and both offer the same
   * commute emojis in the same order.
   */
  lemma AgreesWithFullEnum(e: SlackEmoji, f: Full.SlackEmoji)
    ensures e.Code() == SameNamed(e).Code()
    ensures e.SuggestedMessage() == SameNamed(e).SuggestedMessage()
    ensures EmojiText(e) == Full.EmojiText(SameNamed(e))
    ensures FromFull(SameNamed(e)) == Some(e)
    ensures FromFull(f).None? <==> f == Full.Lunch
    ensures FromFull(f).Some? ==> SameNamed(FromFull(f).value) == f
    ensures |CommuteEmojis()| == |Full.CommuteEmojis()|
    ensures forall i :: 0 <= i < |CommuteEmojis()| ==> SameNamed(CommuteEmojis()[i]) == Full.CommuteEmojis()[i]
  {
  }
}
