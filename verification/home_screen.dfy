/**
 * `HomeScreen`: how the home screen's callbacks reach the view model, and
 * `toCommand`, which turns an emoji entry into a quick command.
 */
module HomeScreen {
  import opened Commands
  import E = EmojiSlackEmoji
  import opened HomeViewModel

  /** `SlackEmoji.toCommand(id, title, emojiText)` with its defaults. */
  function ToCommand(e: E.SlackEmoji, id: string := e.Code(), title: string := e.SuggestedMessage(),
                     emojiText: string := E.EmojiText(e)): Command {
    Command(id, title, emojiText)
  }

  /** Omitted arguments default to the entry's code, suggested message and emoji text. */
  lemma ToCommandDefaults(e: E.SlackEmoji, id: string, title: string)
    ensures ToCommand(e) == Command(e.Code(), e.SuggestedMessage(), E.EmojiText(e))
    ensures ToCommand(e, id, title) == Command(id, title, E.EmojiText(e))
  {
  }

  /** The line logged for a click while a command runs: "Wait..." and U+1F611. */
  const WaitLine: LogText := LogText("Wait... \U{1F611}", Color(0xCA6C25, 1.0))

  /** What the user did on the home screen. */
  datatype HomeEvent =
    | QuickCommandClicked(command: Command)
    | CustomApplied(minutes: int, text: string, emoji: E.SlackEmoji)
    | ConsoleCleared
    | ReloadClicked

  /** The view-model call an event makes. */
  datatype ViewModelCall =
    | CallLog(line: LogText)
    | CallQuickCommand(command: Command)
    | CallCustomStatus(minutes: int, text: string, emoji: E.SlackEmoji)
    | CallClearLogs
    | CallUpdateStatus

  /**
   * The screen's wiring: a quick-command click is guarded by `commandBlocked`;
   * Apply goes to `onCustomStatus`, the console's clear to `clearLogs`, the
   * status card's reload to `updateStatus`.
   */
  function Dispatch(s: HomeUiState, event: HomeEvent): ViewModelCall {
    match event
    case QuickCommandClicked(c) => if s.commandBlocked then CallLog(WaitLine) else CallQuickCommand(c)
    case CustomApplied(m, t, e) => CallCustomStatus(m, t, e)
    case ConsoleCleared => CallClearLogs
    case ReloadClicked => CallUpdateStatus
  }

  /**
   * A click while blocked only logs "Wait..."; a click while unblocked
   * dispatches that very command and logs nothing here.
   */
  lemma ClickGuard(s: HomeUiState, c: Command)
    ensures s.commandBlocked <==> Dispatch(s, QuickCommandClicked(c)) == CallLog(WaitLine)
    ensures !s.commandBlocked <==> Dispatch(s, QuickCommandClicked(c)) == CallQuickCommand(c)
    ensures forall d: Command :: Dispatch(s, QuickCommandClicked(c)) == CallQuickCommand(d) ==> d == c
  {
  }

  /** Apply, clear and reload reach `onCustomStatus`, `clearLogs` and `updateStatus`, blocked or not. */
  lemma OtherCallbacksUnguarded(s: HomeUiState, m: int, t: string, e: E.SlackEmoji)
    ensures Dispatch(s, CustomApplied(m, t, e)) == CallCustomStatus(m, t, e)
    ensures Dispatch(s, ConsoleCleared) == CallClearLogs
    ensures Dispatch(s, ReloadClicked) == CallUpdateStatus
  {
  }

  /**
   * The composer's emoji is of the six-entry type while `onCustomStatus`
   * takes the seven-entry one; read by name, the status posted carries the
   * composer entry's own code and message.
   */
  lemma CustomStatusUsesComposerEntry(m: int, t: string, e: E.SlackEmoji, nowMillis: int, offset: int, succeeded: bool)
    requires -64800 <= offset <= 64800
    ensures var trace := OnCustomStatus(m, t, E.SameNamed(e), nowMillis, offset, succeeded);
            && trace[0].profile.statusEmoji == e.Code()
            && trace[0].profile.statusText == (if t == "" then e.SuggestedMessage() else t)
  {
    E.AgreesWithFullEnum(e, E.SameNamed(e));
    CustomStatusPost(m, t, E.SameNamed(e), nowMillis, offset, succeeded);
  }
}
