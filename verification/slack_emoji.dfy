/**
 * The seven-entry `SlackEmoji` enum (package `utils`): each entry's Slack
 * code, suggested status message and rendered emoji text.
 */
module SlackEmoji {

  /** Declaration order: HUT, WALK, RUN, LEAVE, HOME, LUNCH, CLEAR. */
  datatype SlackEmoji = Hut | Walk | Run | Leave | Home | Lunch | Clear
  {
    function Code(): string {
      match this
      case Hut => ":hut:"
      case Walk => ":walking:"
      case Run => ":runner:"
      case Leave => ":thought_balloon:"
      case Home => ":house:"
      case Lunch => ":fork_and_knife:"
      case Clear => ":x:"
    }

    function SuggestedMessage(): string {
      match this
      case Hut => "Off for the day"
      case Walk => "Commuting"
      case Run => "Nearby"
      case Leave => "Unavailable"
      case Home => "Off"
      case Lunch => "Lunch break"
      case Clear => "Clear"
    }
  }

  /** `values()`: every entry once, in declaration order. */
  const Entries: seq<SlackEmoji> := [Hut, Walk, Run, Leave, Home, Lunch, Clear]

  /** `emojiText()`: the characters shown for an entry. */
  function EmojiText(e: SlackEmoji): string {
    match e
    case Hut => "\U{1F6D6}"
    case Walk => "\U{1F6B6}\U{200D}\U{2642}\U{FE0F}"
    case Run => "\U{1F3C3}\U{200D}\U{2642}\U{FE0F}"
    case Leave => "\U{1F4AD}"
    case Home => "\U{1F3E0}"
    case Lunch => "\U{1F355}"
    case Clear => "\U{274C}"
  }

  /** `commuteEmojis()`: the entries offered in the status composer. */
  function CommuteEmojis(): seq<SlackEmoji> {
    [Hut, Walk, Run, Leave, Home]
  }

  /** `Entries` lists every entry exactly once. */
  lemma EntriesComplete(e: SlackEmoji)
    ensures |Entries| == 7
    ensures e in Entries
    ensures forall i, j :: 0 <= i < j < |Entries| ==> Entries[i] != Entries[j]
  {
  }

  /** Codes tell entries apart, so an entry can be looked up by its code. */
  lemma CodesDistinct(a: SlackEmoji, b: SlackEmoji)
    ensures a.Code() == b.Code() <==> a == b
  {
    if a != b {
      assert a.Code()[1] != b.Code()[1] || |a.Code()| != |b.Code()|;
    }
  }

  /** Every entry suggests a message: the empty default is never used. */
  lemma SuggestedMessageNonEmpty(e: SlackEmoji)
    ensures e.SuggestedMessage() != ""
  {
  }

  /** `emojiText()` is defined on every entry and distinct entries render differently. */
  lemma EmojiTextInjective(a: SlackEmoji, b: SlackEmoji)
    ensures EmojiText(a) != ""
    ensures EmojiText(a) == EmojiText(b) <==> a == b
  {
    if a != b {
      assert EmojiText(a)[0] != EmojiText(b)[0] || |EmojiText(a)| != |EmojiText(b)|;
    }
  }

  /** The composer offers every entry except LUNCH and CLEAR, in declaration order. */
  lemma CommuteEmojisOrder(e: SlackEmoji)
    ensures e in CommuteEmojis() <==> e != Lunch && e != Clear
    ensures CommuteEmojis() == Entries[..5]
    ensures forall i, j :: 0 <= i < j < |CommuteEmojis()| ==> CommuteEmojis()[i] != CommuteEmojis()[j]
  {
  }
}
