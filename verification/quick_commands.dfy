/**
 * `QuickCommands`: the fixed row of six quick-command squares.
 *
 * The file builds its squares from the six-entry enum, which has no LUNCH;
 * the "lunch" square is given the seven-entry LUNCH's emoji text here.
 */
module QuickCommands {
  import opened Commands
  import E = EmojiSlackEmoji
  import Full = SlackEmoji
  import opened HomeScreen
  import opened HomeViewModel

  /** The squares, left to right. */
  function Items(): seq<Command> {
    [ ToCommand(E.Clear, "clear", "Clear status"),
      ToCommand(E.Walk, "commute30", "Commuting (30)"),
      ToCommand(E.Run, "nearby", "Nearby (5)"),
      Command("lunch", "Lunch (45)", Full.EmojiText(Full.Lunch)),
      ToCommand(E.Hut, "tomo", "Off until tomorrow"),
      ToCommand(E.Home, "next_week", "Off until next week") ]
  }

  function Ids(items: seq<Command>): (ids: seq<string>)
    ensures |ids| == |items|
    ensures forall i :: 0 <= i < |items| ==> ids[i] == items[i].id
  {
    if items == [] then [] else [items[0].id] + Ids(items[1..])
  }

  /** Six commands, in order: clear, commute30, nearby, lunch, tomo, next_week; ids pairwise distinct. */
  lemma SixDistinctCommands()
    ensures Ids(Items()) == ["clear", "commute30", "nearby", "lunch", "tomo", "next_week"]
    ensures forall i, j :: 0 <= i < j < |Items()| ==> Items()[i].id != Items()[j].id
  {
  }

  /** Every square's id has its own branch in `onQuickCommandClicked`. */
  lemma EveryCommandIsHandled(c: Command)
    requires c in Items()
    ensures c.id in KnownIds
    ensures QuickActionOf(c.id).Some?
  {
    KnownIdsHaveActions(c.id);
  }

  /** Each square shows its enum entry's emoji text, the `toCommand` default. */
  lemma SquaresShowEntryEmoji()
    ensures Items()[0].emojiText == E.EmojiText(E.Clear)
    ensures Items()[1].emojiText == E.EmojiText(E.Walk)
    ensures Items()[2].emojiText == E.EmojiText(E.Run)
    ensures Items()[3].emojiText == Full.EmojiText(Full.Lunch)
    ensures Items()[4].emojiText == E.EmojiText(E.Hut)
    ensures Items()[5].emojiText == E.EmojiText(E.Home)
  {
  }

  /**
   * Except for "next_week", the emoji a square shows is the emoji of the
   * result line its command logs. "next_week" shows HOME but posts and
   * reports HUT.
   */
  lemma ShownEmojiMatchesPostedEmoji(i: nat)
    requires i < |Items()|
    ensures var a := QuickActionOf(Items()[i].id).value;
            i != 5 ==> a.resultEmoji == Items()[i].emojiText
    ensures var a := QuickActionOf(Items()[5].id).value;
            && Items()[5].emojiText == E.EmojiText(E.Home)
            && a.statusEmoji == E.SlackEmoji.Hut.Code() && a.statusEmoji != E.SlackEmoji.Home.Code()
            && a.resultEmoji != Items()[5].emojiText
  {
  }

  /**
   * Clicking square `i` on an unblocked screen runs exactly that square's
   * command, which posts a status.
   */
  lemma ClickingASquareRunsItsCommand(i: nat, s: HomeUiState, nowMillis: int, offset: int, succeeded: bool)
    requires i < |Items()| && !s.commandBlocked
    requires -64800 <= offset <= 64800
    ensures Dispatch(s, QuickCommandClicked(Items()[i])) == CallQuickCommand(Items()[i])
    ensures PostedProfile(OnQuickCommandClicked(Items()[i], nowMillis, offset, succeeded)).Some?
  {
    EveryCommandIsHandled(Items()[i]);
    KnownCommandPostsOnce(Items()[i], nowMillis, offset, succeeded);
  }
}
