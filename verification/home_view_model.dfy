/**
 * `HomeViewModel`: the home screen's state (click blocking, the log console,
 * the current status, the routing flag) and what each command does to it.
 *
 * A command's coroutine is modelled as the sequence of steps it performs;
 * `RunSteps` applies the steps in order, each log step stamped with its own clock
 * reading. Whether the Slack call succeeded is an input.
 */
module HomeViewModel {
  import opened Wrappers
  import opened CivilTime
  import TimeUtil
  import opened SlackEmoji
  import opened SlackStatus
  import opened CurrentStatusCard
  import opened LocalBroadcast
  import opened Commands

  /** A Compose colour: 24-bit RGB and an alpha in 0..1. */
  datatype Color = Color(rgb: int, alpha: real)

  const Gray: Color := Color(0x888888, 1.0)
  const WipColor: Color := Color(0xDFB64E, 1.0)
  const SuccessColor: Color := Color(0x00FF00, 0.5)
  const FailureColor: Color := Color(0xFF0000, 1.0)
  const UnknownColor: Color := Color(0xFF0000, 0.7)

  /** `text.colored(color)`: one console line. */
  datatype LogText = LogText(text: string, color: Color)

  datatype HomeUiState = HomeUiState(
    commandBlocked: bool,
    logs: map<TimeUtil.Time, LogText>,
    currentStatus: CurrentStatus,
    routingInProgress: bool)

  /** `HomeUiState()`: unblocked, no logs, the empty status, not routing. */
  function InitialState(): (s: HomeUiState)
    ensures !s.commandBlocked && s.logs == map[] && !s.routingInProgress
    ensures s.currentStatus == Empty() && s.currentStatus.IsEmpty() && !s.currentStatus.updating
  {
    HomeUiState(false, map[], Empty(), false)
  }

  // ------------------------------------------------------------- log console

  /** `log(text, time)`: inserts under the time key. */
  function Log(s: HomeUiState, text: LogText, at: TimeUtil.Time): HomeUiState {
    s.(logs := s.logs[at := text])
  }

  /** `clearLogs()`. */
  function ClearLogs(s: HomeUiState): (r: HomeUiState)
    ensures r.logs == map[]
    ensures r.commandBlocked == s.commandBlocked && r.currentStatus == s.currentStatus
    ensures r.routingInProgress == s.routingInProgress
  {
    s.(logs := map[])
  }

  /**
   * A log line is found under its time; a second line with the same time
   * replaces the first; lines under other times and the rest of the state are kept.
   */
  lemma LogIsKeyedByTime(s: HomeUiState, a: LogText, b: LogText, at: TimeUtil.Time, other: TimeUtil.Time)
    requires other != at
    ensures Log(s, a, at).logs[at] == a
    ensures Log(Log(s, a, at), b, at).logs == Log(s, b, at).logs
    ensures other in s.logs <==> other in Log(s, a, at).logs
    ensures other in s.logs ==> Log(s, a, at).logs[other] == s.logs[other]
    ensures Log(s, a, at).logs.Keys == s.logs.Keys + {at}
    ensures Log(s, a, at).(logs := s.logs) == s
  {
  }

  // ----------------------------------------------------------- updateStatus

  /** `updateStatus()`, first half: mark the status as updating and log it. */
  function BeginUpdate(s: HomeUiState, at: TimeUtil.Time): (r: HomeUiState)
    ensures r.currentStatus.updating
    ensures r.currentStatus.(updating := s.currentStatus.updating) == s.currentStatus
    ensures r.logs == s.logs[at := LogText("~ Updating status...", Gray)]
    ensures r.commandBlocked == s.commandBlocked && r.routingInProgress == s.routingInProgress
  {
    Log(s.(currentStatus := s.currentStatus.(updating := true)), LogText("~ Updating status...", Gray), at)
  }

  /** The profile fetch: the decoded profile, or an exception. */
  datatype FetchOutcome = Fetched(profile: UserProfile) | FetchFailed

  /** `updateStatus()`, second half: the fetched status, or the empty one and a warning line. */
  function FinishUpdate(s: HomeUiState, outcome: FetchOutcome, at: TimeUtil.Time): (r: HomeUiState)
    ensures !r.currentStatus.updating
    ensures outcome.Fetched? ==> r.currentStatus == AsUiStatus(outcome.profile) && r.logs == s.logs
    ensures outcome.FetchFailed? ==> r.currentStatus == Empty() && r.logs == s.logs[at := LogText("~ Couldn't update status", WipColor)]
    ensures r.commandBlocked == s.commandBlocked && r.routingInProgress == s.routingInProgress
  {
    match outcome
    case Fetched(p) => s.(currentStatus := AsUiStatus(p))
    case FetchFailed => Log(s.(currentStatus := Empty()), LogText("~ Couldn't update status", WipColor), at)
  }

  /** A completed update never leaves the spinner on, whatever the outcome. */
  lemma UpdateEndsSpinner(s: HomeUiState, outcome: FetchOutcome, t1: TimeUtil.Time, t2: TimeUtil.Time, offset: UtcOffset)
    ensures CardOf(BeginUpdate(s, t1).currentStatus, offset) == Spinner
    ensures CardOf(FinishUpdate(BeginUpdate(s, t1), outcome, t2).currentStatus, offset) != Spinner
    ensures outcome.FetchFailed? ==> CardOf(FinishUpdate(BeginUpdate(s, t1), outcome, t2).currentStatus, offset) == NoStatusSet
  {
    CardPrecedence(BeginUpdate(s, t1).currentStatus, offset);
    CardPrecedence(FinishUpdate(BeginUpdate(s, t1), outcome, t2).currentStatus, offset);
  }

  // ---------------------------------------------------------------- routing

  /** `routingInProgress` as derived from the latest broadcast event. */
  function RoutingFromEvent(a: BroadcastAction): bool {
    a.ServiceStarted? || a.Destination? || a.DistanceUpdated? || a.LocationUpdated?
  }

  /** `observeLocalEvents()`: each event only sets the routing flag. */
  function OnBroadcast(s: HomeUiState, a: BroadcastAction): (r: HomeUiState)
    ensures r.(routingInProgress := s.routingInProgress) == s
  {
    s.(routingInProgress := RoutingFromEvent(a))
  }

  /** Only `Idle` and `ServiceStopped` turn routing off; `Destination` counts as routing. */
  lemma RoutingOffOnlyWhenIdleOrStopped(s: HomeUiState, a: BroadcastAction)
    ensures !OnBroadcast(s, a).routingInProgress <==> a.Idle? || a.ServiceStopped?
    ensures OnBroadcast(s, Destination).routingInProgress
  {
  }

  // ------------------------------------------------------- command execution

  /** How a command computes its expiration. */
  datatype Expiry =
    | NoExpiry                 // `{ 0 }`
    | InMinutes(minutes: int)  // `now().plusMinutes(m)`
    | TomorrowAtSeven          // `now().plusDays(1).withHour(7)`
    | NextMondayAtSeven        // `now().with(next(MONDAY)).withHour(7)`

  /** The epoch second an expiry rule yields at a clock reading and offset. */
  function ExpirationOf(expiry: Expiry, nowMillis: int, offset: UtcOffset): int {
    match expiry
    case NoExpiry => 0
    case InMinutes(m) => FromLocal(PlusMinutes(Now(nowMillis, offset), m), offset)
    case TomorrowAtSeven => FromLocal(WithHour(PlusDays(Now(nowMillis, offset), 1), 7), offset)
    case NextMondayAtSeven => FromLocal(WithHour(NextMonday(Now(nowMillis, offset)), 7), offset)
  }

  /** One row of the command table: progress line, status text, emoji code, expiry, emoji of the result line. */
  datatype QuickAction = QuickAction(progress: string, statusText: string, statusEmoji: string, expiry: Expiry, resultEmoji: string)

  const Hourglass: string := "\U{231B}"

  function Progress(e: SlackEmoji, tag: string): string {
    "~ " + EmojiText(e) + " " + tag + " " + Hourglass
  }

  /** `onQuickCommandClicked`'s `when (command.id)`; `None` is the `else` branch. */
  function QuickActionOf(id: string): Option<QuickAction> {
    if id == "clear" then
      Some(QuickAction("~ \U{274C} Clearing " + Hourglass, "", "", NoExpiry, "\U{274C}"))
    else if id == "commute30" then
      Some(QuickAction(Progress(Walk, "commute-30"), Walk.SuggestedMessage(), Walk.Code(), InMinutes(30), EmojiText(Walk)))
    else if id == "nearby" then
      Some(QuickAction(Progress(Run, "5-min-away"), Run.SuggestedMessage(), Run.Code(), InMinutes(5), EmojiText(Run)))
    else if id == "tomo" then
      Some(QuickAction(Progress(Hut, "Off-for-the-day"), Hut.SuggestedMessage(), Hut.Code(), TomorrowAtSeven, EmojiText(Hut)))
    else if id == "next_week" then
      Some(QuickAction(Progress(Hut, "Off-for-the-week"), "Off for the week", Hut.Code(), NextMondayAtSeven, EmojiText(Hut)))
    else if id == "lunch" then
      Some(QuickAction(Progress(Lunch, "Lunch-break"), Lunch.SuggestedMessage(), Lunch.Code(), InMinutes(45), EmojiText(Lunch)))
    else None
  }

  /** The ids with a branch of their own. */
  const KnownIds: set<string> := {"clear", "commute30", "nearby", "tomo", "next_week", "lunch"}

  lemma KnownIdsHaveActions(id: string)
    ensures QuickActionOf(id).Some? <==> id in KnownIds
  {
  }

  /** One step of a command's coroutine. */
  datatype Step =
    | Block                       // `ignoreClicks()`
    | Unblock                     // `allowClicks()`
    | AppendLog(line: LogText)    // `log(...)` at the current time
    | PostStatus(profile: Profile) // `setStatus(...)`, not a dry run
    | Pause(millis: int)          // `delay(...)`
    | Refresh                     // `updateStatus()`, its synchronous half

  /** `Boolean.logResult(emojiText)`. */
  function ResultLine(succeeded: bool, emojiText: string): LogText {
    if succeeded then LogText(emojiText + " Status set \U{2713}", SuccessColor)
    else LogText("Couldn't set the status", FailureColor)
  }

  const UnknownLine: LogText := LogText("Unknown command", UnknownColor)

  /** `onQuickCommandClicked(command)`: the steps it performs. */
  function OnQuickCommandClicked(command: Command, nowMillis: int, offset: UtcOffset, succeeded: bool): (trace: seq<Step>)
    ensures 4 <= |trace| && trace[0] == Block
  {
    match QuickActionOf(command.id)
    case None => [Block, AppendLog(UnknownLine), Pause(20), Unblock]
    case Some(a) =>
      [Block, AppendLog(LogText(a.progress, WipColor)),
       PostStatus(Profile(a.statusText, a.statusEmoji, ExpirationOf(a.expiry, nowMillis, offset))),
       AppendLog(ResultLine(succeeded, a.resultEmoji)), Unblock, Refresh]
  }

  /** `onCustomStatus(minutes, text, emoji)`: posts, logs the result, refreshes; clicks are not blocked. */
  function OnCustomStatus(minutes: int, text: string, emoji: SlackEmoji, nowMillis: int, offset: UtcOffset, succeeded: bool): seq<Step> {
    var statusText := if text == "" then emoji.SuggestedMessage() else text;
    [PostStatus(Profile(statusText, emoji.Code(), ExpirationOf(InMinutes(minutes), nowMillis, offset))),
     AppendLog(ResultLine(succeeded, EmojiText(emoji))), Refresh]
  }

  function ApplyStep(s: HomeUiState, step: Step, at: TimeUtil.Time): HomeUiState {
    match step
    case Block => s.(commandBlocked := true)
    case Unblock => s.(commandBlocked := false)
    case AppendLog(line) => Log(s, line, at)
    case PostStatus(_) => s
    case Pause(_) => s
    case Refresh => BeginUpdate(s, at)
  }

  /** The state after the steps, the `k`-th performed at `times[k]`. */
  function RunSteps(s: HomeUiState, steps: seq<Step>, times: seq<TimeUtil.Time>): HomeUiState
    requires |times| == |steps|
  {
    if steps == [] then s
    else ApplyStep(RunSteps(s, steps[..|steps| - 1], times[..|times| - 1]), steps[|steps| - 1], times[|times| - 1])
  }

  /** Once blocked, the flag stays set through every step that is not `Unblock`. */
  lemma {:induction false} BlockedUntilUnblock(s: HomeUiState, steps: seq<Step>, times: seq<TimeUtil.Time>, k: nat)
    requires |times| == |steps| && 1 <= k <= |steps|
    requires steps[0] == Block
    requires forall j :: 0 <= j < k ==> steps[j] != Unblock
    ensures RunSteps(s, steps[..k], times[..k]).commandBlocked
  {
    var pre, preT := steps[..k], times[..k];
    assert pre[..k - 1] == steps[..k - 1] && preT[..k - 1] == times[..k - 1];
    if k > 1 {
      BlockedUntilUnblock(s, steps, times, k - 1);
    }
  }

  /**
   * `commandBlocked` is set from the first step of a quick command until its
   * `allowClicks()`, and clear when it finishes, known id or not.
   */
  lemma QuickCommandBlocksWhileRunning(s: HomeUiState, command: Command, nowMillis: int, offset: UtcOffset, succeeded: bool, times: seq<TimeUtil.Time>)
    requires |times| == |OnQuickCommandClicked(command, nowMillis, offset, succeeded)|
    ensures var trace := OnQuickCommandClicked(command, nowMillis, offset, succeeded);
            var unblockAt := if QuickActionOf(command.id).Some? then 4 else 3;
            && trace[unblockAt] == Unblock
            && (forall k :: 1 <= k <= unblockAt ==> RunSteps(s, trace[..k], times[..k]).commandBlocked)
            && !RunSteps(s, trace, times).commandBlocked
  {
    var trace := OnQuickCommandClicked(command, nowMillis, offset, succeeded);
    var unblockAt := if QuickActionOf(command.id).Some? then 4 else 3;
    forall k | 1 <= k <= unblockAt
      ensures RunSteps(s, trace[..k], times[..k]).commandBlocked
    {
      BlockedUntilUnblock(s, trace, times, k);
    }
    var last := |trace| - 1;
    assert trace[..last] == trace[..|trace| - 1];
    if QuickActionOf(command.id).Some? {
      assert trace[last] == Refresh;
      assert trace[..last][..last - 1] == trace[..last - 1];
      assert times[..last][..last - 1] == times[..last - 1];
    }
  }

  /** An unknown id logs "Unknown command", pauses 20 ms and unblocks; it neither posts nor refreshes. */
  lemma UnknownCommandDoesNothing(command: Command, nowMillis: int, offset: UtcOffset, succeeded: bool)
    requires command.id !in KnownIds
    ensures var trace := OnQuickCommandClicked(command, nowMillis, offset, succeeded);
            && AppendLog(UnknownLine) in trace && Pause(20) in trace && trace[|trace| - 1] == Unblock
            && Refresh !in trace
            && forall step | step in trace :: !step.PostStatus?
  {
    KnownIdsHaveActions(command.id);
  }

  /** The one status a known command posts. */
  function PostedProfile(trace: seq<Step>): Option<Profile> {
    if |trace| == 6 && trace[2].PostStatus? then Some(trace[2].profile) else None
  }

  /** A known command posts exactly once, then unblocks and refreshes the status. */
  lemma KnownCommandPostsOnce(command: Command, nowMillis: int, offset: UtcOffset, succeeded: bool)
    requires command.id in KnownIds
    ensures var trace := OnQuickCommandClicked(command, nowMillis, offset, succeeded);
            && PostedProfile(trace).Some?
            && (forall j | 0 <= j < |trace| && trace[j].PostStatus? :: j == 2)
            && trace[|trace| - 2..] == [Unblock, Refresh]
            && trace[3] == AppendLog(ResultLine(succeeded, QuickActionOf(command.id).value.resultEmoji))
  {
    KnownIdsHaveActions(command.id);
  }

  /** "clear" posts empty text, empty emoji and expiration 0. */
  lemma ClearPostsEmptyStatus(command: Command, nowMillis: int, offset: UtcOffset, succeeded: bool)
    requires command.id == "clear"
    ensures PostedProfile(OnQuickCommandClicked(command, nowMillis, offset, succeeded)) == Some(Profile("", "", 0))
  {
  }

  /**
   * "commute30", "nearby" and "lunch" post the suggested message and code of
   * WALK, RUN and LUNCH, expiring 30, 5 and 45 minutes after the clock reading.
   */
  lemma TimedCommandsExpireInMinutes(command: Command, nowMillis: int, offset: UtcOffset, succeeded: bool)
    requires command.id in {"commute30", "nearby", "lunch"}
    ensures var e := if command.id == "commute30" then Walk else if command.id == "nearby" then Run else Lunch;
            var m := if command.id == "commute30" then 30 else if command.id == "nearby" then 5 else 45;
            PostedProfile(OnQuickCommandClicked(command, nowMillis, offset, succeeded))
            == Some(Profile(e.SuggestedMessage(), e.Code(), MillisToSeconds(nowMillis) + 60 * m))
  {
    MinutesFromNow(nowMillis, offset, 30);
    MinutesFromNow(nowMillis, offset, 5);
    MinutesFromNow(nowMillis, offset, 45);
  }

  /**
   * "tomo" posts HUT's message and code, expiring at 07 of the next day, local
   * time, with the minute and second of the clock reading kept.
   */
  lemma TomorrowExpiresAtSeven(command: Command, nowMillis: int, offset: UtcOffset, succeeded: bool)
    requires command.id == "tomo"
    ensures var p := PostedProfile(OnQuickCommandClicked(command, nowMillis, offset, succeeded));
            var today := Now(nowMillis, offset);
            var until := ToLocal(p.value.statusExpiration, offset);
            && p.Some? && p.value.statusText == "Off for the day" && p.value.statusEmoji == ":hut:"
            && until.epochDay == today.epochDay + 1
            && Hour(until) == 7 && Minute(until) == Minute(today) && Second(until) == Second(today)
  {
    var today := Now(nowMillis, offset);
    var at := WithHour(PlusDays(today, 1), 7);
    LocalRoundTrip(0, at, offset);
  }

  /**
   * "next_week" posts "Off for the week" with HUT's code, expiring at 07 local
   * time on the first Monday strictly after today.
   */
  lemma NextWeekExpiresMondayAtSeven(command: Command, nowMillis: int, offset: UtcOffset, succeeded: bool)
    requires command.id == "next_week"
    ensures var p := PostedProfile(OnQuickCommandClicked(command, nowMillis, offset, succeeded));
            var today := Now(nowMillis, offset);
            var until := ToLocal(p.value.statusExpiration, offset);
            && p.Some? && p.value.statusText == "Off for the week" && p.value.statusEmoji == Hut.Code()
            && DayOfWeek(until.epochDay) == Monday
            && today.epochDay < until.epochDay <= today.epochDay + 7
            && (forall d :: today.epochDay < d < until.epochDay ==> DayOfWeek(d) != Monday)
            && Hour(until) == 7 && Minute(until) == Minute(today) && Second(until) == Second(today)
  {
    var today := Now(nowMillis, offset);
    NextMondayIsFirstMondayAfter(today);
    var at := WithHour(NextMonday(today), 7);
    LocalRoundTrip(0, at, offset);
  }

  /**
   * A custom status posts the typed text, or the emoji's suggested message
   * when none was typed, so the posted text is never empty; it expires
   * `minutes` after the clock reading.
   */
  lemma CustomStatusPost(minutes: int, text: string, emoji: SlackEmoji, nowMillis: int, offset: UtcOffset, succeeded: bool)
    ensures var trace := OnCustomStatus(minutes, text, emoji, nowMillis, offset, succeeded);
            && trace[0].PostStatus?
            && trace[0].profile.statusText == (if text == "" then emoji.SuggestedMessage() else text)
            && trace[0].profile.statusText != ""
            && trace[0].profile.statusEmoji == emoji.Code()
            && trace[0].profile.statusExpiration == MillisToSeconds(nowMillis) + 60 * minutes
            && trace[1..] == [AppendLog(ResultLine(succeeded, EmojiText(emoji))), Refresh]
  {
    MinutesFromNow(nowMillis, offset, minutes);
    SuggestedMessageNonEmpty(emoji);
  }
}
