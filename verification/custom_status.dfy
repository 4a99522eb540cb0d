/**
 * `CustomStatus`: the composer for a custom status. A row of commute emojis
 * (tap to select, tap again to deselect), a one-line message, a 0..100 minute
 * slider and an Apply button enabled from one whole minute on.
 */
module CustomStatus {
  import opened Wrappers
  import opened Text
  import opened EmojiSlackEmoji

  /** The message is limited to fewer than this many UTF-16 code units. */
  const MaxTextUnits: nat := 50

  /** The message shown while no emoji is selected. */
  const DefaultText: string := "ETA"

  /** The slider's range is `0f..100f`. */
  const SliderMax: real := 100.0

  /** The composer's remembered state; the slider is the `Float` position. */
  datatype Composer = Composer(selected: Option<SlackEmoji>, text: string, slider: real)

  /** On first composition: nothing selected, "ETA", slider at 0. */
  function Initial(): Composer {
    Composer(None, DefaultText, 0.0)
  }

  /** `Float.toInt()`: truncation toward zero. */
  function FloatToInt(v: real): (n: int)
    ensures 0.0 <= v ==> 0 <= n && n as real <= v < n as real + 1.0
    ensures v < 0.0 ==> n <= 0 && n as real - 1.0 < v <= n as real
  {
    if v >= 0.0 then v.Floor else -((-v).Floor)
  }

  /** The message the selection effect writes: the entry's suggestion, or "ETA". */
  function TextFor(selected: Option<SlackEmoji>): string {
    match selected
    case None => DefaultText
    case Some(e) => e.SuggestedMessage()
  }

  /**
   * Tapping emoji `e`: deselects it when selected, selects it otherwise. The
   * selection therefore always changes, so the effect keyed on it resets the
   * message.
   */
  function Tap(c: Composer, e: SlackEmoji): Composer {
    var selected := if c.selected == Some(e) then None else Some(e);
    Composer(selected, TextFor(selected), c.slider)
  }

  /** Typing: the new text is taken only when it is shorter than 50 code units. */
  function Edit(c: Composer, t: string): Composer {
    if Utf16Length(t) < MaxTextUnits then c.(text := t) else c
  }

  /** Dragging the slider; the widget keeps the reported value within its range. */
  function Slide(c: Composer, v: real): Composer {
    c.(slider := if v < 0.0 then 0.0 else if v > SliderMax then SliderMax else v)
  }

  /** The whole minutes shown and sent: `sliderPosition.toInt()`. */
  function Minutes(c: Composer): int {
    FloatToInt(c.slider)
  }

  /** The arguments of `onApply(minutes, text, emoji)`. */
  datatype ApplyCall = ApplyCall(minutes: int, text: string, emoji: SlackEmoji)

  /** Pressing Apply: nothing while disabled; otherwise the minutes, the message and the emoji, LEAVE when none. */
  function Apply(c: Composer): Option<ApplyCall> {
    if Minutes(c) > 0 then Some(ApplyCall(Minutes(c), c.text, c.selected.GetOr(Leave))) else None
  }

  /** The emoji part of the summary line. */
  function EmojiLabel(selected: Option<SlackEmoji>): string {
    match selected
    case None => "Default Emoji"
    case Some(e) => e.Code() + " " + EmojiText(e)
  }

  /** The summary line under the slider. */
  function Summary(c: Composer): string {
    "Set \"" + c.text + "\" for \"" + IntToString(Minutes(c)) + "\"m (" + EmojiLabel(c.selected) + ")"
  }

  /** What every reachable composer satisfies. */
  predicate Valid(c: Composer) {
    && Utf16Length(c.text) < MaxTextUnits
    && 0.0 <= c.slider <= SliderMax
    && (c.selected.Some? ==> c.selected.value in CommuteEmojis())
  }

  /** The initial composer is valid and its Apply button is disabled. */
  lemma InitialCannotApply()
    ensures Valid(Initial())
    ensures Initial().selected == None && Initial().text == "ETA"
    ensures Apply(Initial()) == None
  {
  }

  /**
   * Tapping selects `e` exactly when it was not selected, shows its suggested
   * message (or "ETA" when deselecting), keeps the slider, and a second tap
   * restores a selection that was empty or `e`.
   */
  lemma TapToggles(c: Composer, e: SlackEmoji)
    ensures Tap(c, e).selected == Some(e) <==> c.selected != Some(e)
    ensures Tap(c, e).selected == None <==> c.selected == Some(e)
    ensures Tap(c, e).text == (if c.selected == Some(e) then "ETA" else e.SuggestedMessage())
    ensures Tap(c, e).slider == c.slider
    ensures c.selected == None || c.selected == Some(e) ==> Tap(Tap(c, e), e).selected == c.selected
  {
  }

  /** An edit is taken exactly when the new text is shorter than 50 code units; nothing else changes. */
  lemma EditGuard(c: Composer, t: string)
    ensures Utf16Length(t) < MaxTextUnits ==> Edit(c, t).text == t
    ensures Utf16Length(t) >= MaxTextUnits ==> Edit(c, t) == c
    ensures Edit(c, t).selected == c.selected && Edit(c, t).slider == c.slider
  {
  }

  /** The suggested messages all fit the limit. */
  lemma SuggestedMessagesFit(e: SlackEmoji)
    ensures Utf16Length(TextFor(Some(e))) < MaxTextUnits
    ensures Utf16Length(TextFor(None)) < MaxTextUnits
  {
  }

  /** Taps on the row, edits and slides keep the composer valid. */
  lemma EventsPreserveValid(c: Composer, e: SlackEmoji, t: string, v: real)
    requires Valid(c)
    requires e in CommuteEmojis()
    ensures Valid(Tap(c, e))
    ensures Valid(Edit(c, t))
    ensures Valid(Slide(c, v))
  {
    SuggestedMessagesFit(e);
  }

  /**
   * Apply is enabled exactly from slider position 1.0 on; it then sends 1 to
   * 100 whole minutes, the current message, and the selected emoji or LEAVE.
   */
  lemma ApplyEnabledIff(c: Composer)
    requires Valid(c)
    ensures Apply(c).Some? <==> c.slider >= 1.0
    ensures Apply(c).Some? ==>
              && 1 <= Apply(c).value.minutes <= 100
              && Apply(c).value.minutes as real <= c.slider
              && Apply(c).value.text == c.text
              && Apply(c).value.emoji == (if c.selected.Some? then c.selected.value else Leave)
              && Apply(c).value.emoji in CommuteEmojis()
              && Utf16Length(Apply(c).value.text) < MaxTextUnits
  {
  }

  /**
   * The summary line shows the minutes and message Apply sends; without a
   * selection it says "Default Emoji" while Apply sends LEAVE.
   */
  lemma SummaryShowsApply(c: Composer)
    requires Apply(c).Some?
    ensures var a := Apply(c).value;
            && Summary(c) == "Set \"" + a.text + "\" for \"" + NatToString(a.minutes) + "\"m (" + EmojiLabel(c.selected) + ")"
            && (c.selected == None ==> EmojiLabel(c.selected) == "Default Emoji" && a.emoji == Leave)
            && (c.selected.Some? ==> EmojiLabel(c.selected) == a.emoji.Code() + " " + EmojiText(a.emoji))
  {
  }
}
