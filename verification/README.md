# Slack Status Assistant — a Dafny model

This project models the decision logic of an Android app. The app sets the user's Slack status from quick
commands, from a custom-status composer, and from a location service. That service tracks the commute to the
office and clears the status on arrival. Everything the app leaves to the platform becomes a parameter of the
model:

- the clock (epoch milliseconds);
- the zone, as a fixed UTC offset;
- the device location and the permission flags;
- the measured distance;
- the double-to-float narrowing;
- the text of the HTTP reply.

What remains are pure functions and traces of effects. The model contains:

- The preference store (`LocalStorage`): a map from key to typed value, with reads that take a default. A
  location is stored as a pair of floats. The office lives under the base key `"work_location"`
  (`DistanceController`).
- The location service (`RequestService`). At start it checks that an office exists. On each location
  update it broadcasts events, then applies the strict 100 m arrival rule. Below it, the status is cleared
  and the service stops. Otherwise it posts "Commuting, <d>m away". The one-slot `LocalBroadcast` cell
  carries the events.
- `setStatus`: either a dry run, or a POST whose success is a literal substring test on the reply.
- The home screen:
  - the quick-command table and its blocking flag;
  - the log map, keyed by time;
  - the routing flag;
  - the status card;
  - the click guard;
  - the fixed list of six commands;
  - the custom-status composer.
- The location screen: the event reducer, the routing toggle, the office selection and the permission-screen
  selector. It also covers the distance label and routing button, and the commute-log table.
- Both `SlackEmoji` enums (seven entries and six entries), kept separate as in the app.
- Civil time under a fixed offset: "yyyy-MM-dd HH:mm:ss", "yy/MM/dd HH:mm" and "hh:mm", "tomorrow at 7" and
  "next Monday at 7". Each format has a read-back lemma, and the status card's end time also has the app's
  unit-test vector.

Three quirks of the app are kept as written:

- The two enums diverge.
- The "next_week" square shows the HOME emoji but posts the HUT code.
- On `Destination` the home screen's routing flag is true, while the location screen's flag is false.

## Model

| member | source | states |
|---|---|---|
| LocalStorage.SaveThenGet | app/src/main/java/dk/malv/slack/assistant/persistance/LocalStorage.kt:20-108 | a typed get right after a save of the same key and type returns the saved value, whatever default is supplied |
| LocalStorage.AbsentKeyReadsDefault | app/src/main/java/dk/malv/slack/assistant/persistance/LocalStorage.kt:20-108 | a key never written reads as the supplied default for all four types |
| LocalStorage.SaveChangesOnlyItsKey | app/src/main/java/dk/malv/slack/assistant/persistance/LocalStorage.kt:20-108 | each save changes its own key only; every other key keeps its presence and value |
| LocalStorage.RemoveThenGet | app/src/main/java/dk/malv/slack/assistant/persistance/LocalStorage.kt:110-115 | after remove(k), every typed get of k returns its default, and no other key changes |
| LocalStorage.LocationKeysDistinct | app/src/main/java/dk/malv/slack/assistant/persistance/LocalStorage.kt:120-128 | the "_lat" and "_long" keys of one location never coincide |
| LocalStorage.SaveNullLocationRemovesBothKeys | app/src/main/java/dk/malv/slack/assistant/persistance/LocalStorage.kt:120-125 | saveLocation(key, null) removes exactly the two keys, and the location then reads as null |
| LocalStorage.SaveLocationWritesBothKeys | app/src/main/java/dk/malv/slack/assistant/persistance/LocalStorage.kt:127-128 | saveLocation(key, loc) writes exactly the two keys, as the narrowed coordinates; nothing else changes |
| LocalStorage.GetLocationNullIffOrigin | app/src/main/java/dk/malv/slack/assistant/persistance/LocalStorage.kt:131-139 | on well-typed keys getLocation does not throw; it is null iff both stored floats (absent = 0) are 0, and a single zero coordinate is still returned |
| LocalStorage.GetLocationFailsIffIllTyped | app/src/main/java/dk/malv/slack/assistant/persistance/LocalStorage.kt:131-139 | getLocation throws exactly when one of the two keys holds a non-float value |
| LocalStorage.NeverSavedLocationIsNull | app/src/main/java/dk/malv/slack/assistant/persistance/LocalStorage.kt:131-134 | a never-saved location reads as null, since the float default is 0 |
| LocalStorage.LocationRoundTrip | app/src/main/java/dk/malv/slack/assistant/persistance/LocalStorage.kt:127-139 | after saveLocation(k, loc), getLocation(k) yields the narrowed coordinates, or null when both narrow to 0 |
| LocalStorage.SaveLocationKeepsKeysWellTyped | app/src/main/java/dk/malv/slack/assistant/persistance/LocalStorage.kt:120-139 | saving or clearing a location never makes any location's keys ill-typed |
| DistanceController.CurrentLocation | app/src/main/java/dk/malv/slack/assistant/features/location/DistanceController.kt:32-42 | null without the permissions or when the lookup throws; otherwise the last known location |
| DistanceController.OfficeUsesWorkLocationKeys | app/src/main/java/dk/malv/slack/assistant/features/location/DistanceController.kt:14 | the office is stored under "work_location_lat" and "work_location_long", and writing or clearing it touches nothing else |
| DistanceController.SaveThenGetOffice | app/src/main/java/dk/malv/slack/assistant/features/location/DistanceController.kt:49-51 | after saveOfficeLocation(l), getOfficeLocation returns l's narrowed coordinates, subject to the (0,0) rule |
| DistanceController.ClearThenGetOffice | app/src/main/java/dk/malv/slack/assistant/features/location/DistanceController.kt:56-58 | after clearOfficeLocation, getOfficeLocation returns null |
| DistanceController.NoOfficeMeansZeroDistance | app/src/main/java/dk/malv/slack/assistant/features/location/DistanceController.kt:74-90 | with no office stored, distanceFromOffice and distanceFarFromUser both return 0 |
| DistanceController.OfficeDistance | app/src/main/java/dk/malv/slack/assistant/features/location/DistanceController.kt:74-90 | with an office stored, both queries return the measured distance; an unknown device location gives 0 |
| DistanceController.OfficeReadableAfterOwnWrites | app/src/main/java/dk/malv/slack/assistant/features/location/DistanceController.kt:49-67 | the app's own office writes and clears leave the office readable, so it never throws |
| LocalBroadcast.Initial | app/src/main/java/dk/malv/slack/assistant/receiver/LocalBroadcast.kt:13 | the initial event is Idle |
| LocalBroadcast.LatestWins | app/src/main/java/dk/malv/slack/assistant/receiver/LocalBroadcast.kt:13-18 | after a run of sends the cell holds the last action; earlier sends and the prior state leave no trace |
| LocalBroadcast.SixVariants | app/src/main/java/dk/malv/slack/assistant/receiver/LocalBroadcast.kt:21-28 | every action is one of the six variants |
| RequestService.OnStartCommand | app/src/main/java/dk/malv/slack/assistant/features/location/RequestService.kt:57-74 | always logs first; when reading the office throws it crashes right after that log and returns no mode; without an office it stops itself and returns NOT_STICKY; with one it goes to the foreground, does not stop, and returns STICKY |
| RequestService.StartAnnouncesState | app/src/main/java/dk/malv/slack/assistant/features/location/RequestService.kt:59-73 | exactly one action is broadcast: ServiceStopped with NOT_STICKY without an office, ServiceStarted with STICKY with one, and nothing when the office read throws; the broadcast cell then says whether the service runs, whatever it held before |
| RequestService.OnCreate | app/src/main/java/dk/malv/slack/assistant/features/location/RequestService.kt:76-95 | creation subscribes to location updates every 30,000 ms |
| RequestService.SubscribedWhileAlive | app/src/main/java/dk/malv/slack/assistant/features/location/RequestService.kt:76-95 | after creation the service is subscribed, and after destruction it no longer is |
| RequestService.OnDestroy | app/src/main/java/dk/malv/slack/assistant/features/location/RequestService.kt:137-141 | destruction removes the location updates |
| RequestService.OnLocationUpdated | app/src/main/java/dk/malv/slack/assistant/features/location/RequestService.kt:97-135 | each update first broadcasts LocationUpdated(location); the trace ends in a crash, right after that broadcast, iff the office read throws; otherwise the second effect broadcasts DistanceUpdated(d) |
| RequestService.FixBroadcasts | app/src/main/java/dk/malv/slack/assistant/features/location/RequestService.kt:98-111 | a fix broadcasts exactly LocationUpdated, DistanceUpdated(d), then Destination when d < 100, and only the first two otherwise |
| RequestService.ArrivalClearsAndStops | app/src/main/java/dk/malv/slack/assistant/features/location/RequestService.kt:98-114 | the service stops, the empty status with expiration 0 is posted, and Destination is broadcast, each iff d < 100; on arrival the clearing post is the only post, it comes before Destination, and stopping is the last effect |
| RequestService.CommutingPostsDistance | app/src/main/java/dk/malv/slack/assistant/features/location/RequestService.kt:104-133 | when d >= 100 the only post is "Commuting, <d>m away" with ":walking:", expiring 5 minutes from now, and it comes before the "<d>m away" notification; Destination is never sent and the service does not stop |
| RequestService.HundredMetresIsNotArrival | app/src/main/java/dk/malv/slack/assistant/features/location/RequestService.kt:104 | exactly 100 m is not an arrival |
| RequestService.RemovedOfficeCountsAsArrival | app/src/main/java/dk/malv/slack/assistant/features/location/RequestService.kt:101-104 | once the office is removed the distance is 0, so the update takes the clear-and-stop branch |
| RequestService.FixLeavesLatestEvent | app/src/main/java/dk/malv/slack/assistant/features/location/RequestService.kt:98-114 | after an update the broadcast cell holds Destination on arrival, else DistanceUpdated(d) |
| RequestService.CommutingTextRoundTrip | app/src/main/java/dk/malv/slack/assistant/features/location/RequestService.kt:117 | the commuting text has the fixed prefix and suffix, and the distance parses back from between them |
| RequestService.CommutingExpiration | app/src/main/java/dk/malv/slack/assistant/features/location/RequestService.kt:120-125 | the commuting expiration is now (in seconds) plus 300 |
| RequestService.PostsAreSetStatusRequests | app/src/main/java/dk/malv/slack/assistant/features/location/RequestService.kt:105-125 | every post in an update trace is the setStatus POST of its profile |
| RequestService.BroadcastsAppend | app/src/main/java/dk/malv/slack/assistant/features/location/RequestService.kt:97-135 | the broadcasts of a concatenated trace are the concatenation of the broadcasts |
| SlackStatus.SetStatus | app/src/main/java/dk/malv/slack/assistant/api/SlackStatus.kt:21-42 | a dry run succeeds without sending or calling expirationTime; otherwise one POST of (text, emoji, one call of expirationTime) to users.profile.set, successful iff the reply contains "ok":true |
| SlackStatus.CurrentStatusRequest | app/src/main/java/dk/malv/slack/assistant/api/SlackStatus.kt:49-52 | currentStatus issues a GET to users.profile.get |
| SlackStatus.MarkerAnywhereSucceeds | app/src/main/java/dk/malv/slack/assistant/api/SlackStatus.kt:41 | a reply with "ok":true anywhere in it succeeds |
| SlackStatus.CompactOkReplySucceeds | app/src/main/java/dk/malv/slack/assistant/api/SlackStatus.kt:41 | a compact {"ok":true,...} reply succeeds |
| SlackStatus.ErrorReplyFails | app/src/main/java/dk/malv/slack/assistant/api/SlackStatus.kt:41 | {"ok":false} fails |
| SlackStatus.SpacedOkReplyFails | app/src/main/java/dk/malv/slack/assistant/api/SlackStatus.kt:41 | {"ok": true} with a space fails, since the test is on the literal text |
| SlackStatus.DryRunIgnoresReply | app/src/main/java/dk/malv/slack/assistant/api/SlackStatus.kt:27-30 | a dry run's outcome does not depend on any reply, and nothing is sent |
| Text.SearchSubstring | app/src/main/java/dk/malv/slack/assistant/api/SlackStatus.kt:41 | the substring search answers true exactly when the pattern occurs somewhere in the text |
| SlackEmoji.EntriesComplete | app/src/main/java/dk/malv/slack/assistant/utils/SlackEmoji.kt:6-13 | seven entries, each listed once |
| SlackEmoji.CodesDistinct | app/src/main/java/dk/malv/slack/assistant/utils/SlackEmoji.kt:6-13 | two entries share a code iff they are the same entry |
| SlackEmoji.SuggestedMessageNonEmpty | app/src/main/java/dk/malv/slack/assistant/utils/SlackEmoji.kt:7-13 | every suggested message is non-empty |
| SlackEmoji.CommuteEmojisOrder | app/src/main/java/dk/malv/slack/assistant/utils/SlackEmoji.kt:16-22 | commuteEmojis is HUT, WALK, RUN, LEAVE, HOME without repeats; an entry is in it iff it is neither LUNCH nor CLEAR |
| SlackEmoji.EmojiTextInjective | app/src/main/java/dk/malv/slack/assistant/utils/SlackEmoji.kt:26-34 | emojiText is non-empty for every entry and injective |
| EmojiSlackEmoji.EntriesComplete | app/src/main/java/dk/malv/slack/assistant/utils/emoji/SlackEmoji.kt:8-14 | six entries, each listed once |
| EmojiSlackEmoji.CodesDistinct | app/src/main/java/dk/malv/slack/assistant/utils/emoji/SlackEmoji.kt:8-14 | two entries share a code iff they are the same entry |
| EmojiSlackEmoji.SuggestedMessageNonEmpty | app/src/main/java/dk/malv/slack/assistant/utils/emoji/SlackEmoji.kt:9-14 | every suggested message is non-empty |
| EmojiSlackEmoji.CommuteEmojisOrder | app/src/main/java/dk/malv/slack/assistant/utils/emoji/SlackEmoji.kt:19-25 | commuteEmojis is the first five entries without repeats; an entry is in it iff it is not CLEAR |
| EmojiSlackEmoji.EmojiTextInjective | app/src/main/java/dk/malv/slack/assistant/utils/emoji/SlackEmoji.kt:29-36 | emojiText is non-empty for every entry and injective |
| EmojiSlackEmoji.SameNamed | app/src/main/java/dk/malv/slack/assistant/utils/emoji/SlackEmoji.kt:8-14 | the seven-entry enum's entry of the same name is never LUNCH |
| EmojiSlackEmoji.AgreesWithFullEnum | app/src/main/java/dk/malv/slack/assistant/utils/emoji/SlackEmoji.kt:9-36 | same-named entries agree on code, message and emoji text; only LUNCH has no counterpart; the commute lists correspond element by element |
| TimeUtil.Now | app/src/main/java/dk/malv/slack/assistant/utils/Time.kt:7-9 | now() carries the clock's epoch millis |
| TimeUtil.TimeKeyIsMillis | app/src/main/java/dk/malv/slack/assistant/utils/Time.kt:7-9 | two Times are equal iff their millis are equal |
| TimeUtil.HourAndMinShape | app/src/main/java/dk/malv/slack/assistant/utils/Time.kt:10-14 | hourAndMin is five characters "hh:mm"; the hour is 1 to 12 and agrees with the local hour modulo 12; the minute is the local minute |
| CivilTime.HourMinute12ReadsBack | app/src/main/java/dk/malv/slack/assistant/utils/Time.kt:10-14 | the "hh:mm" text reads back as the 12-hour clock hour (0 shown as 12) and the minute |
| CivilTime.FormatThenParseYmdHms | app/src/main/java/dk/malv/slack/assistant/ui/components/CurrentStatusCard.kt:44-50 | "yyyy-MM-dd HH:mm:ss" of a local time (years 1 to 9999) parses back to that very time |
| CivilTime.PatternShortReadsBack | app/src/main/java/dk/malv/slack/assistant/ui/screens/locationbased/components/CommuteLogUi.kt:57-67 | "yy/MM/dd HH:mm" is 14 characters whose fields read back as year of era mod 100, month, day, hour and minute |
| CivilTime.NextMondayIsFirstMondayAfter | app/src/main/java/dk/malv/slack/assistant/ui/screens/home/HomeViewModel.kt:165-180 | the adjusted day is a Monday strictly after the day, within 7 days, with no Monday in between, at the same time of day |
| CivilTime.MinutesFromNow | app/src/main/java/dk/malv/slack/assistant/features/location/RequestService.kt:121-124 | now plus m minutes, converted back to epoch seconds at the same offset, is now's epoch second plus 60m |
| CivilTime.LocalRoundTrip | app/src/main/java/dk/malv/slack/assistant/ui/components/CurrentStatusCard.kt:44-50 | converting an instant to local time under a fixed offset and back is the identity, in both directions |
| CivilTime.CivilRoundTrip | app/src/main/java/dk/malv/slack/assistant/ui/components/CurrentStatusCard.kt:44-50 | day number to calendar date inverts date to day number on every valid date |
| CurrentStatusCard.AsUiStatusEmptiness | app/src/main/java/dk/malv/slack/assistant/ui/components/CurrentStatusCard.kt:42 | isEmpty holds iff text and emoji are both empty; the expiration is ignored |
| CurrentStatusCard.Empty | app/src/main/java/dk/malv/slack/assistant/ui/components/CurrentStatusCard.kt:54-59 | empty() is empty, not updating, and expires at 0 |
| CurrentStatusCard.AsUiStatus | app/src/main/java/dk/malv/slack/assistant/ui/components/CurrentStatusCard.kt:63-68 | asUiStatus copies text, emoji and expiration from the profile and is not updating |
| CurrentStatusCard.WrapLong | app/src/main/java/dk/malv/slack/assistant/ui/components/CurrentStatusCard.kt:45 | the seconds-to-millis product wraps into the Long range, congruent to the exact product |
| CurrentStatusCard.EndSecondWithoutOverflow | app/src/main/java/dk/malv/slack/assistant/ui/components/CurrentStatusCard.kt:45 | without overflow the instant shown is the expiration itself |
| CurrentStatusCard.EndTimeReadsBack | app/src/main/java/dk/malv/slack/assistant/ui/components/CurrentStatusCard.kt:44-50 | endTime is 19 characters in "yyyy-MM-dd HH:mm:ss" form, and parsing it back at the offset gives the expiration |
| CurrentStatusCard.EndTimeTestVector | app/src/test/java/dk/malv/slack/assistant/ui/components/CurrentStatusTest.kt:10-20 | expiration 1702508380 at UTC+1 renders "2023-12-13 23:59:40" |
| CurrentStatusCard.CardPrecedence | app/src/main/java/dk/malv/slack/assistant/ui/components/CurrentStatusCard.kt:83-122 | spinner iff updating; otherwise "No status set" iff empty; otherwise the full card with the status text |
| CurrentStatusCard.FindByCode | app/src/main/java/dk/malv/slack/assistant/ui/components/CurrentStatusCard.kt:135-136 | the lookup finds an entry with the code iff one exists |
| CurrentStatusCard.DisplayedEmojiLookup | app/src/main/java/dk/malv/slack/assistant/ui/components/CurrentStatusCard.kt:135-136 | a known code shows its entry's emoji text; an unknown code is shown raw |
| HomeViewModel.InitialState | app/src/main/java/dk/malv/slack/assistant/ui/screens/home/HomeViewModel.kt:265-273 | the initial state is unblocked, with no logs, no routing, and the empty status (empty, not updating) |
| HomeViewModel.LogIsKeyedByTime | app/src/main/java/dk/malv/slack/assistant/ui/screens/home/HomeViewModel.kt:226-230 | log inserts under its Time key, a later log at the same key overwrites, and all other entries and fields stay |
| HomeViewModel.ClearLogs | app/src/main/java/dk/malv/slack/assistant/ui/screens/home/HomeViewModel.kt:210-214 | clearLogs empties the log map and keeps the other fields |
| HomeViewModel.BeginUpdate | app/src/main/java/dk/malv/slack/assistant/ui/screens/home/HomeViewModel.kt:57-66 | a status refresh first marks the status as updating and logs "~ Updating status..." at its time; blocking and routing are kept |
| HomeViewModel.FinishUpdate | app/src/main/java/dk/malv/slack/assistant/ui/screens/home/HomeViewModel.kt:62-83 | a fetched profile becomes the status; a failure gives the empty status and logs "~ Couldn't update status"; updating ends either way |
| HomeViewModel.UpdateEndsSpinner | app/src/main/java/dk/malv/slack/assistant/ui/screens/home/HomeViewModel.kt:57-83 | the card shows the spinner during a refresh and never after it; after a failure it shows "No status set" |
| HomeViewModel.OnBroadcast | app/src/main/java/dk/malv/slack/assistant/ui/screens/home/HomeViewModel.kt:242-256 | an event changes only the routing flag |
| HomeViewModel.RoutingOffOnlyWhenIdleOrStopped | app/src/main/java/dk/malv/slack/assistant/ui/screens/home/HomeViewModel.kt:246-251 | routing is off iff the event is Idle or ServiceStopped, so Destination counts as routing |
| HomeViewModel.KnownIdsHaveActions | app/src/main/java/dk/malv/slack/assistant/ui/screens/home/HomeViewModel.kt:106-208 | exactly the six ids clear, commute30, nearby, lunch, tomo and next_week have a table entry |
| HomeViewModel.OnQuickCommandClicked | app/src/main/java/dk/malv/slack/assistant/ui/screens/home/HomeViewModel.kt:106-208 | a quick command's trace starts by blocking clicks |
| HomeViewModel.BlockedUntilUnblock | app/src/main/java/dk/malv/slack/assistant/ui/screens/home/HomeViewModel.kt:219-240 | once blocked, clicks stay blocked through every step until an Unblock step |
| HomeViewModel.QuickCommandBlocksWhileRunning | app/src/main/java/dk/malv/slack/assistant/ui/screens/home/HomeViewModel.kt:106-208 | clicks are blocked at every step before the last and unblocked after it |
| HomeViewModel.UnknownCommandDoesNothing | app/src/main/java/dk/malv/slack/assistant/ui/screens/home/HomeViewModel.kt:197-206 | an unknown id logs "Unknown command" and unblocks; it neither posts nor refreshes |
| HomeViewModel.KnownCommandPostsOnce | app/src/main/java/dk/malv/slack/assistant/ui/screens/home/HomeViewModel.kt:106-208 | a known id posts exactly one status, logs its result and refreshes |
| HomeViewModel.ClearPostsEmptyStatus | app/src/main/java/dk/malv/slack/assistant/ui/screens/home/HomeViewModel.kt:110-117 | "clear" posts text "", emoji "" and expiration 0 |
| HomeViewModel.TimedCommandsExpireInMinutes | app/src/main/java/dk/malv/slack/assistant/ui/screens/home/HomeViewModel.kt:119-195 | commute30, nearby and lunch post WALK, RUN and LUNCH's message and code, expiring 30, 5 and 45 minutes from now |
| HomeViewModel.TomorrowExpiresAtSeven | app/src/main/java/dk/malv/slack/assistant/ui/screens/home/HomeViewModel.kt:149-163 | "tomo" posts HUT, expiring the next day at hour 7 with the current minutes and seconds kept |
| HomeViewModel.NextWeekExpiresMondayAtSeven | app/src/main/java/dk/malv/slack/assistant/ui/screens/home/HomeViewModel.kt:165-180 | "next_week" posts "Off for the week" with the HUT code, expiring at hour 7 on the first Monday strictly after today, with the minute and second of now |
| HomeViewModel.CustomStatusPost | app/src/main/java/dk/malv/slack/assistant/ui/screens/home/HomeViewModel.kt:88-104 | onCustomStatus posts the emoji's code and the text (its suggested message when empty), expiring the given minutes from now |
| HomeScreen.ToCommandDefaults | app/src/main/java/dk/malv/slack/assistant/ui/screens/home/HomeScreen.kt:105-109 | omitted toCommand arguments default to the entry's code, suggested message and emoji text |
| HomeScreen.ClickGuard | app/src/main/java/dk/malv/slack/assistant/ui/screens/home/HomeScreen.kt:74-80 | a blocked click only logs "Wait..."; an unblocked click dispatches onQuickCommandClicked with that very command |
| HomeScreen.OtherCallbacksUnguarded | app/src/main/java/dk/malv/slack/assistant/ui/screens/home/HomeScreen.kt:53-96 | Apply goes to onCustomStatus, the console's clear to clearLogs and reload to updateStatus, blocked or not |
| HomeScreen.CustomStatusUsesComposerEntry | app/src/main/java/dk/malv/slack/assistant/ui/screens/home/HomeScreen.kt:87 | a composer apply posts the composer entry's own code, and its message when the text is empty |
| QuickCommands.SixDistinctCommands | app/src/main/java/dk/malv/slack/assistant/ui/components/QuickCommands.kt:25-51 | exactly six commands, in the order clear, commute30, nearby, lunch, tomo, next_week, with pairwise distinct ids |
| QuickCommands.EveryCommandIsHandled | app/src/main/java/dk/malv/slack/assistant/ui/components/QuickCommands.kt:26-50 | every listed id has a table entry, so none reaches the unknown branch |
| QuickCommands.SquaresShowEntryEmoji | app/src/main/java/dk/malv/slack/assistant/ui/components/QuickCommands.kt:26-50 | each square shows its enum entry's emoji text, through the toCommand default |
| QuickCommands.ShownEmojiMatchesPostedEmoji | app/src/main/java/dk/malv/slack/assistant/ui/components/QuickCommands.kt:47-50 | every square except next_week reports the emoji it shows; next_week shows HOME but posts and reports HUT |
| QuickCommands.ClickingASquareRunsItsCommand | app/src/main/java/dk/malv/slack/assistant/ui/components/QuickCommands.kt:58 | clicking a square on an unblocked screen dispatches exactly that command, and it posts a status |
| CustomStatus.FloatToInt | app/src/main/java/dk/malv/slack/assistant/ui/components/CustomStatus.kt:156 | Float.toInt truncates toward zero |
| CustomStatus.InitialCannotApply | app/src/main/java/dk/malv/slack/assistant/ui/components/CustomStatus.kt:70-77 | the composer starts with slider 0, text "ETA" and no emoji; it is valid, and Apply is disabled |
| CustomStatus.TapToggles | app/src/main/java/dk/malv/slack/assistant/ui/components/CustomStatus.kt:80-97 | a tap selects the emoji iff it was not selected, resets the text to its message (or "ETA" on deselect), keeps the slider, and a second tap undoes it |
| CustomStatus.EditGuard | app/src/main/java/dk/malv/slack/assistant/ui/components/CustomStatus.kt:121-123 | an edit is taken iff the new text is under 50 UTF-16 units; otherwise nothing changes |
| CustomStatus.SuggestedMessagesFit | app/src/main/java/dk/malv/slack/assistant/ui/components/CustomStatus.kt:80-83 | every message the selection effect writes fits the 50-unit limit |
| CustomStatus.EventsPreserveValid | app/src/main/java/dk/malv/slack/assistant/ui/components/CustomStatus.kt:87-143 | row taps, edits and slides keep the text under 50 units, the slider in 0..100 and the selection among commuteEmojis |
| CustomStatus.ApplyEnabledIff | app/src/main/java/dk/malv/slack/assistant/ui/components/CustomStatus.kt:143-158 | Apply is enabled iff the slider is at least 1.0; it then sends 1 to 100 minutes, the text, and the selection or LEAVE |
| CustomStatus.SummaryShowsApply | app/src/main/java/dk/malv/slack/assistant/ui/components/CustomStatus.kt:150 | the summary shows the minutes and text Apply sends; with no selection it says "Default Emoji" while LEAVE is sent |
| LocationViewModel.EventRouting | app/src/main/java/dk/malv/slack/assistant/ui/screens/locationbased/LocationViewModel.kt:119-136 | Destination and ServiceStopped turn routing off, ServiceStarted turns it on, and other events keep it |
| LocationViewModel.EventTouchesOneField | app/src/main/java/dk/malv/slack/assistant/ui/screens/locationbased/LocationViewModel.kt:115-139 | each event changes only its own field; Idle changes nothing |
| LocationViewModel.DestinationDisagreesWithHome | app/src/main/java/dk/malv/slack/assistant/ui/screens/locationbased/LocationViewModel.kt:119-121 | on Destination this screen stops routing while the home screen's flag says routing |
| LocationViewModel.ToggleFlips | app/src/main/java/dk/malv/slack/assistant/ui/screens/locationbased/LocationViewModel.kt:93-102 | toggling flips only the routing flag; on starts the service, off stops it and posts the empty status with expiration 0 |
| LocationViewModel.ToggleTwice | app/src/main/java/dk/malv/slack/assistant/ui/screens/locationbased/LocationViewModel.kt:93-102 | toggling twice restores the state and starts and stops the service once each |
| LocationViewModel.NotifiedSurvivesRestart | app/src/main/java/dk/malv/slack/assistant/ui/screens/locationbased/LocationViewModel.kt:42-64 | userNotifiedOfPermission sets the flag, and the next view model reads it back as true |
| LocationViewModel.FreshInstallShowsIntro | app/src/main/java/dk/malv/slack/assistant/ui/screens/locationbased/LocationViewModel.kt:42-53 | on empty preferences the intro flag is false and there is no office |
| LocationViewModel.SelectedOfficeSurvivesRestart | app/src/main/java/dk/malv/slack/assistant/ui/screens/locationbased/LocationViewModel.kt:82-86 | onLocationSelected sets the office as given; the next view model reads back the narrowed coordinates, or none for (0,0) |
| LocationViewModel.RemovedOfficeSurvivesRestart | app/src/main/java/dk/malv/slack/assistant/ui/screens/locationbased/LocationViewModel.kt:88-91 | removeLocation clears the office from the state and from the next view model |
| LocationViewModel.DistanceToSelectedOffice | app/src/main/java/dk/malv/slack/assistant/ui/screens/locationbased/LocationViewModel.kt:104-106 | after an office is selected, distanceInMeters is the distance to its stored coordinates, or 0 without a device location |
| LocationViewModel.NavigateMovesCameraOnly | app/src/main/java/dk/malv/slack/assistant/ui/screens/locationbased/LocationViewModel.kt:66-80 | the camera moves to the device location at zoom 15 exactly when one is known; nothing else changes |
| LocationViewModel.GeoPointFallbacks | app/src/main/java/dk/malv/slack/assistant/ui/screens/locationbased/LocationViewModel.kt:163-169 | the map points carry the locations' coordinates, or (0,0) when absent |
| LocationViewModel.CommuteTimesReplaceList | app/src/main/java/dk/malv/slack/assistant/ui/screens/locationbased/LocationViewModel.kt:141-146 | a new commute list replaces the old one and nothing else |
| LocationScreen.ScreenSelection | app/src/main/java/dk/malv/slack/assistant/ui/screens/locationbased/LocationScreen.kt:68-119 | the three branches cover every input: the map iff permitted; otherwise the rationale screen iff a rationale is asked or the intro was never shown; otherwise the settings screen |
| LocationScreen.DeniedAfterIntroGoesToSettings | app/src/main/java/dk/malv/slack/assistant/ui/screens/locationbased/LocationScreen.kt:58-63 | once the dialog has answered and no rationale is asked, a denial leads to the settings screen |
| LocationScreen.OfficeGatesControls | app/src/main/java/dk/malv/slack/assistant/ui/screens/locationbased/LocationScreen.kt:88-93 | the routing button, the distance label and the office marker appear exactly when an office is set |
| LocationScreen.PersonMarkerWhileRouting | app/src/main/java/dk/malv/slack/assistant/ui/screens/locationbased/LocationScreen.kt:182-188 | the person marker appears exactly while routing with a known location, at that location |
| LocationScreen.DistanceLabelReadsBack | app/src/main/java/dk/malv/slack/assistant/ui/screens/locationbased/LocationScreen.kt:211-213 | the label is "Unknown distance" iff the distance is 0; otherwise "<d>m away", with d parsing back |
| LocationScreen.RoutingButtonLabel | app/src/main/java/dk/malv/slack/assistant/ui/screens/locationbased/LocationScreen.kt:226-271 | "Stop routing" iff routing, else "Start routing"; on TIRAMISU+ without the notification permission, "Routing: Allow permission", which asks for it |
| LocationScreen.ButtonFollowsToggle | app/src/main/java/dk/malv/slack/assistant/ui/screens/locationbased/LocationScreen.kt:241 | after the button toggles routing, it shows the opposite label |
| CommuteLogUi.DrawnUnlessEmpty | app/src/main/java/dk/malv/slack/assistant/ui/screens/locationbased/components/CommuteLogUi.kt:34 | nothing is drawn exactly for an empty list without showIfEmpty |
| CommuteLogUi.TableLayout | app/src/main/java/dk/malv/slack/assistant/ui/screens/locationbased/components/CommuteLogUi.kt:37-72 | otherwise the header comes first, and entry i is row i + 1 |
| CommuteLogUi.TruncDiv | app/src/main/java/dk/malv/slack/assistant/ui/screens/locationbased/components/CommuteLogUi.kt:70 | Kotlin's integer division truncates toward zero |
| CommuteLogUi.DurationIsTruncatedMinutes | app/src/main/java/dk/malv/slack/assistant/ui/screens/locationbased/components/CommuteLogUi.kt:70 | without overflow the duration is the elapsed whole minutes, rounded toward zero; swapping start and arrival flips its sign |
| CommuteLogUi.DurationCellReadsBack | app/src/main/java/dk/malv/slack/assistant/ui/screens/locationbased/components/CommuteLogUi.kt:70 | the duration cell is the minutes followed by "m", and they parse back |
| CommuteLogUi.TimeCellReadsBack | app/src/main/java/dk/malv/slack/assistant/ui/screens/locationbased/components/CommuteLogUi.kt:57-67 | a time cell has the "yy/MM/dd HH:mm" layout; its yy, MM and dd digits read back as the year of era modulo 100, the month and the day of the instant's local date (the civil date of its local epoch day), and its HH and mm digits as the local hour and minute |
| CommuteLogUi.SampleEntriesShowSixtyMinutes | app/src/main/java/dk/malv/slack/assistant/ui/screens/locationbased/components/CommuteLogUi.kt:95-96 | the two sample entries are an hour apart and show "60m" |

## Left out

- Compose rendering, layout, colours other than the log colours, the map widget, and navigation are not modelled.
  MainActivity, Home, Console, CommandCard and LocationBasedQuickCard are UI with no decision logic. The
  composables are modelled only through what they select, dispatch or display.
- The HTTP client, dependency injection and JSON (de)serialisation are foreign libraries. A request is a record,
  and the reply is its text. `Profile` and `UserProfile` are plain records.
- Network exceptions thrown by `setStatus` are not modelled; a call either posts or is a dry run.
- `PeriodicService` (a stub) and `CommuteLogPersistence` are not part of this model. The persistence relies
  on store operations that the shown store does not have. The commute list reaches the location screen as an
  input.
- `onBind` always returns null, and there is nothing to state about it.
- The geodesic distance and its rounding are parameters, as is the double-to-float narrowing. The model relies
  on no property of either.
- Coroutine and StateFlow scheduling are not modelled: updates apply in program order.
- The time zone is a single fixed UTC offset, with no daylight-saving changes.
- The dry-run branch of `setStatus` also writes a logcat line, which is not modelled.
- QuickCommands.Items: the file refers to LUNCH from the six-entry enum, which has no LUNCH. The "lunch" square
  uses the seven-entry LUNCH's emoji text, which is what `toCommand` would give it.
- HomeScreen.Dispatch: the composer is passed an argument, `clicksAllowed`, that its declaration does not
  have. The model ignores it, so Apply is never blocked.
- HomeScreen.CustomStatusUsesComposerEntry: `onCustomStatus` takes the seven-entry enum while the composer
  yields the six-entry one. The model converts by name.
- TimeUtil.HourAndMinShape: that `hourAndMin` depends only on the millis and the offset holds by its
  signature, and is not stated separately. The shape is stated for a locale with Latin digits and the
  Gregorian calendar (see the next line).
- TimeUtil.HourAndMin formats with `SimpleDateFormat` in the device's default locale. Such a locale may
  use other digits (Arabic-Indic, Persian) or another calendar (Buddhist), and the model does not cover
  that. It assumes Latin digits and the Gregorian calendar.
- CommuteLogUi.TimeCell: the same default-locale `SimpleDateFormat` is modelled for Latin digits and the
  proleptic Gregorian calendar only. In a Buddhist-calendar locale, `yy` would be the Buddhist year. The
  platform's `GregorianCalendar` is a hybrid: it prints instants before 1582-10-15 as Julian dates. The
  model shows them in the proleptic Gregorian calendar (for example, it gives "82/10/14 23:59" where the
  platform gives "82/10/04 23:59"). No entry the app can show comes from that period.
- CommuteLogUi.TimeCellReadsBack: the read-back is stated only for a Latin-digit default locale whose
  calendar is proleptic Gregorian, so instants before 1582-10-15 are outside the promise. `CurrentStatusCard.EndTime` is not affected, because `DateTimeFormatter.ofPattern` always
  prints ASCII digits in the ISO calendar.
- LocationScreen.MapViewOf: the distance is taken as the value `distanceInMeters()` returned. That call's
  throwing case belongs to `DistanceController`.
- CustomStatus.Slide: the slider widget keeps its value within 0..100. The model clamps to that range rather
  than modelling the widget.
- CurrentStatusCard.EndTimeReadsBack: the read-back is stated for years 1 to 9999 and for expirations whose
  millisecond value fits a Long. Outside that range the format still works, but the four-digit layout and the
  wrap-around break the simple read-back.
