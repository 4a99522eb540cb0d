/**
 * `RequestService`: the foreground service that, on every location fix,
 * publishes the distance to the office and either clears the Slack status
 * and stops (within 100 m) or posts a "Commuting" status that expires in five
 * minutes. Each callback is modelled as the trace of effects it performs.
 */
module RequestService {
  import opened Wrappers
  import opened Geo
  import opened Text
  import opened CivilTime
  import opened LocalStorage
  import opened DistanceController
  import opened LocalBroadcast
  import opened SlackStatus

  const NotificationId: int := 0x123485
  const NotificationChannelId: string := "location_tracking_channel"
  const ChannelName: string := "Location Tracking Service"
  /** Milliseconds between location requests. */
  const RequestInterval: int := 30_000
  /** Android's `Service.START_STICKY` and `START_NOT_STICKY`. */
  const StartSticky: int := 1
  const StartNotSticky: int := 2
  /** A fix strictly closer than this many metres counts as arrival. */
  const ArrivalRadius: int := 100
  /** Minutes until a "Commuting" status expires. */
  const CommutingMinutes: int := 5

  /**
   * The title of the commuting notification: a walking-man sequence whose
   * male sign was mis-decoded into the three characters U+00E2 U+2122 U+201A.
   */
  const CommutingTitle: string := "You are commuting to the office \U{1F6B6}\U{200D}\U{00E2}\U{2122}\U{201A}\U{FE0F}"

  datatype Notification = Notification(title: string, content: string)

  datatype Effect =
    | Log(message: string)
    | Broadcast(action: BroadcastAction)
    | StopSelf
    | CreateChannel(channelId: string, name: string)
    | StartForeground(id: int, notification: Notification)
    | PostStatus(profile: Profile)
    | Notify(id: int, notification: Notification)
    | RequestLocationUpdates(intervalMillis: int)
    | RemoveLocationUpdates
    | CancelScope
    /** The preferences getter threw; nothing after it runs. */
    | Crash(error: StoreError)

  /**
   * What `onStartCommand` did and the restart mode it returned; the mode is
   * `None` when the office getter threw and the call returned nothing.
   */
  datatype Started = Started(effects: seq<Effect>, mode: Option<int>)

  /** The actions a trace sent to the broadcast cell, in order. */
  function Broadcasts(trace: seq<Effect>): (r: seq<BroadcastAction>)
    ensures |r| <= |trace|
  {
    if trace == [] then []
    else (if trace[0].Broadcast? then [trace[0].action] else []) + Broadcasts(trace[1..])
  }

  lemma {:induction false} BroadcastsAppend(a: seq<Effect>, b: seq<Effect>)
    ensures Broadcasts(a + b) == Broadcasts(a) + Broadcasts(b)
    decreases |a|
  {
    if a == [] {
      assert a + b == b;
    } else {
      assert (a + b)[0] == a[0];
      assert (a + b)[1..] == a[1..] + b;
      BroadcastsAppend(a[1..], b);
    }
  }

  /** `onCreate()`: logs, then subscribes to location updates every 30 seconds. */
  function OnCreate(): (trace: seq<Effect>)
    ensures RequestLocationUpdates(RequestInterval) in trace
  {
    [Log("Creating location service"), RequestLocationUpdates(RequestInterval)]
  }

  /** `onDestroy()`: unsubscribes and cancels the pending work. */
  function OnDestroy(): (trace: seq<Effect>)
    ensures RemoveLocationUpdates in trace
  {
    [RemoveLocationUpdates, CancelScope]
  }

  /** Whether location updates are subscribed after a trace: the last (un)subscription decides. */
  function Subscribed(trace: seq<Effect>): bool {
    if trace == [] then false
    else if trace[|trace| - 1].RequestLocationUpdates? then true
    else if trace[|trace| - 1].RemoveLocationUpdates? then false
    else Subscribed(trace[..|trace| - 1])
  }

  /** The service is subscribed between creation and destruction, and not after. */
  lemma SubscribedWhileAlive()
    ensures Subscribed(OnCreate())
    ensures !Subscribed(OnCreate() + OnDestroy())
  {
  }

  /**
   * `onStartCommand()`: logs, then without an office announces
   * `ServiceStopped`, stops itself and asks not to be restarted; otherwise it
   * announces `ServiceStarted`, goes to the foreground and asks to be
   * restarted. A preferences error is the getter's exception, thrown after
   * the first log line.
   */
  function OnStartCommand(p: Prefs): (r: Started)
    ensures 2 <= |r.effects| && r.effects[0] == Log("Starting location service")
    ensures r.mode.None? <==> GetOfficeLocation(p).Err?
    ensures GetOfficeLocation(p).Err? ==> r.effects == [Log("Starting location service"), Crash(GetOfficeLocation(p).error)]
    ensures GetOfficeLocation(p) == Ok(None) ==> r.mode == Some(StartNotSticky) && StopSelf in r.effects
    ensures GetOfficeLocation(p).Ok? && GetOfficeLocation(p).value.Some? ==>
              && r.mode == Some(StartSticky)
              && StopSelf !in r.effects
              && StartForeground(NotificationId, Notification(ChannelName, "Tracking your location")) in r.effects
  {
    var start := Log("Starting location service");
    match GetOfficeLocation(p)
    case Err(e) => Started([start, Crash(e)], None)
    case Ok(None) =>
      Started([start, Log("No office location set, stopping service"),
               Broadcast(ServiceStopped), StopSelf], Some(StartNotSticky))
    case Ok(Some(_)) =>
      Started([start, CreateChannel(NotificationChannelId, ChannelName),
               Broadcast(ServiceStarted),
               StartForeground(NotificationId, Notification(ChannelName, "Tracking your location"))], Some(StartSticky))
  }

  /**
   * `onStartCommand` broadcasts exactly one action: `ServiceStopped` (and asks
   * not to be restarted) without an office, `ServiceStarted` (and asks to be
   * restarted) with one, nothing when the getter throws. Whatever the cell
   * held before, it then says whether the service runs.
   */
  lemma StartAnnouncesState(p: Prefs, b: LocalBroadcast)
    ensures var r := OnStartCommand(p);
            var after := SendAll(b, Broadcasts(r.effects));
            && (GetOfficeLocation(p).Err? ==> Broadcasts(r.effects) == [] && after == b)
            && (GetOfficeLocation(p) == Ok(None) ==>
                  Broadcasts(r.effects) == [ServiceStopped] && r.mode == Some(StartNotSticky) && after.events == ServiceStopped)
            && (GetOfficeLocation(p).Ok? && GetOfficeLocation(p).value.Some? ==>
                  Broadcasts(r.effects) == [ServiceStarted] && r.mode == Some(StartSticky) && after.events == ServiceStarted)
  {
    var effects := OnStartCommand(p).effects;
    if GetOfficeLocation(p).Err? {
      assert effects[1..][1..] == [];
      assert Broadcasts(effects) == Broadcasts(effects[1..]) == [];
    } else {
      assert effects[1..][1..][1..][1..] == [];
      assert Broadcasts(effects[1..][1..][1..]) == [];
      assert Broadcasts(effects[1..][1..]) == [effects[2].action];
      assert Broadcasts(effects) == Broadcasts(effects[1..]) == Broadcasts(effects[1..][1..]);
    }
    LatestWins(b, Broadcasts(effects));
  }

  /** The status text while commuting. */
  function CommutingText(distance: int): string {
    "Commuting, " + IntToString(distance) + "m away"
  }

  /** The distance can be read back from the commuting status text. */
  lemma CommutingTextRoundTrip(distance: int)
    ensures var t := CommutingText(distance);
            && 18 <= |t|
            && t[11..|t| - 6] == IntToString(distance)
            && ParseInt(t[11..|t| - 6]) == distance
  {
    var t := CommutingText(distance);
    var digits := IntToString(distance);
    assert |"Commuting, "| == 11 && |"m away"| == 6;
    assert t[11..|t| - 6] == digits by {
      assert t == "Commuting, " + digits + "m away";
      forall k | 0 <= k < |digits|
        ensures t[11 + k] == digits[k]
      {
      }
    }
    IntToStringRoundTrip(distance);
  }

  /** The expiration of a commuting status: five minutes from now, at the device's offset. */
  function CommutingExpiration(nowMillis: int, offset: UtcOffset): (e: int)
    ensures e == MillisToSeconds(nowMillis) + 60 * CommutingMinutes
  {
    MinutesFromNow(nowMillis, offset, CommutingMinutes);
    FromLocal(PlusMinutes(Now(nowMillis, offset), CommutingMinutes), offset)
  }

  /** The profile that clears the status: empty text and emoji, expiration 0. */
  const ClearProfile: Profile := Profile("", "", 0)

  /**
   * `locationUpdated(location)`: announces the fix, then the distance to the
   * office (0 when none is stored), then either arrives or keeps commuting.
   */
  function OnLocationUpdated(p: Prefs, location: Location, distanceTo: Distance, nowMillis: int, offset: UtcOffset): (trace: seq<Effect>)
    ensures 2 <= |trace| && trace[0] == Broadcast(BroadcastAction.LocationUpdated(location))
    ensures DistanceFromOffice(location, p, distanceTo).Err? <==> trace[|trace| - 1].Crash?
    ensures DistanceFromOffice(location, p, distanceTo).Err? ==> |trace| == 2
    ensures DistanceFromOffice(location, p, distanceTo).Ok? ==>
              trace[1] == Broadcast(DistanceUpdated(DistanceFromOffice(location, p, distanceTo).value))
  {
    var fix := Broadcast(BroadcastAction.LocationUpdated(location));
    match DistanceFromOffice(location, p, distanceTo)
    case Err(e) => [fix, Crash(e)]
    case Ok(d) =>
      [fix, Broadcast(DistanceUpdated(d))] +
      if d < ArrivalRadius then
        [PostStatus(ClearProfile), Broadcast(Destination), StopSelf]
      else
        [PostStatus(Profile(CommutingText(d), ":walking:", CommutingExpiration(nowMillis, offset))),
         Notify(NotificationId, Notification(CommutingTitle, IntToString(d) + "m away"))]
  }

  /**
   * The actions a fix broadcasts, in order: the fix, the distance, and
   * `Destination` on arrival.
   */
  lemma FixBroadcasts(p: Prefs, location: Location, distanceTo: Distance, nowMillis: int, offset: UtcOffset)
    requires DistanceFromOffice(location, p, distanceTo).Ok?
    ensures var d := DistanceFromOffice(location, p, distanceTo).value;
            var sent := Broadcasts(OnLocationUpdated(p, location, distanceTo, nowMillis, offset));
            && (d < ArrivalRadius ==> sent == [BroadcastAction.LocationUpdated(location), DistanceUpdated(d), Destination])
            && (d >= ArrivalRadius ==> sent == [BroadcastAction.LocationUpdated(location), DistanceUpdated(d)])
  {
    var d := DistanceFromOffice(location, p, distanceTo).value;
    var trace := OnLocationUpdated(p, location, distanceTo, nowMillis, offset);
    var fix := Broadcast(BroadcastAction.LocationUpdated(location));
    var tail := if d < ArrivalRadius then [PostStatus(ClearProfile), Broadcast(Destination), StopSelf]
                else [PostStatus(Profile(CommutingText(d), ":walking:", CommutingExpiration(nowMillis, offset))),
                      Notify(NotificationId, Notification(CommutingTitle, IntToString(d) + "m away"))];
    assert trace == [fix, Broadcast(DistanceUpdated(d))] + tail;
    BroadcastsAppend([fix, Broadcast(DistanceUpdated(d))], tail);
    assert Broadcasts([fix, Broadcast(DistanceUpdated(d))]) == [fix.action, DistanceUpdated(d)] by {
      assert [fix, Broadcast(DistanceUpdated(d))][1..] == [Broadcast(DistanceUpdated(d))];
    }
    if d < ArrivalRadius {
      assert Broadcasts(tail) == [Destination] by {
        assert tail[1..] == [Broadcast(Destination), StopSelf];
        assert tail[1..][1..] == [StopSelf];
        assert Broadcasts([StopSelf]) == [] by {
          assert [StopSelf][1..] == [];
        }
      }
    } else {
      assert Broadcasts(tail) == [] by {
        assert tail[1..][1..] == [];
      }
    }
  }

  /**
   * A fix strictly inside 100 m clears the status (the only post), then
   * announces `Destination`, and the service stops last; a farther fix does
   * none of the three.
   */
  lemma ArrivalClearsAndStops(p: Prefs, location: Location, distanceTo: Distance, nowMillis: int, offset: UtcOffset)
    requires DistanceFromOffice(location, p, distanceTo).Ok?
    ensures var d := DistanceFromOffice(location, p, distanceTo).value;
            var trace := OnLocationUpdated(p, location, distanceTo, nowMillis, offset);
            && (StopSelf in trace <==> d < ArrivalRadius)
            && (PostStatus(ClearProfile) in trace <==> d < ArrivalRadius)
            && (Broadcast(Destination) in trace <==> d < ArrivalRadius)
    ensures var d := DistanceFromOffice(location, p, distanceTo).value;
            var trace := OnLocationUpdated(p, location, distanceTo, nowMillis, offset);
            d < ArrivalRadius ==>
              && trace[|trace| - 1] == StopSelf
              && (forall e | e in trace && e.PostStatus? :: e == PostStatus(ClearProfile))
              && (exists i, j :: 1 < i < j < |trace| && trace[i] == PostStatus(ClearProfile) && trace[j] == Broadcast(Destination))
  {
    var d := DistanceFromOffice(location, p, distanceTo).value;
    var trace := OnLocationUpdated(p, location, distanceTo, nowMillis, offset);
    if d < ArrivalRadius {
      assert trace[2] == PostStatus(ClearProfile) && trace[3] == Broadcast(Destination);
    }
  }

  /**
   * Outside 100 m the service posts the commuting status with the distance in
   * its text, expiring five minutes from now (the only post), then updates
   * its notification; it neither announces `Destination` nor stops.
   */
  lemma CommutingPostsDistance(p: Prefs, location: Location, distanceTo: Distance, nowMillis: int, offset: UtcOffset)
    requires DistanceFromOffice(location, p, distanceTo).Ok?
    requires DistanceFromOffice(location, p, distanceTo).value >= ArrivalRadius
    ensures var d := DistanceFromOffice(location, p, distanceTo).value;
            var trace := OnLocationUpdated(p, location, distanceTo, nowMillis, offset);
            var post := PostStatus(Profile(CommutingText(d), ":walking:", MillisToSeconds(nowMillis) + 300));
            && (forall e | e in trace && e.PostStatus? :: e == post)
            && (exists i, j :: 1 < i < j < |trace| && trace[i] == post
                  && trace[j] == Notify(NotificationId, Notification(CommutingTitle, IntToString(d) + "m away")))
            && StopSelf !in trace
            && Broadcast(Destination) !in trace
  {
    var d := DistanceFromOffice(location, p, distanceTo).value;
    var trace := OnLocationUpdated(p, location, distanceTo, nowMillis, offset);
    assert trace[2] == PostStatus(Profile(CommutingText(d), ":walking:", MillisToSeconds(nowMillis) + 300));
  }

  /** The threshold is strict: exactly 100 m keeps commuting. */
  lemma HundredMetresIsNotArrival(p: Prefs, location: Location, distanceTo: Distance, nowMillis: int, offset: UtcOffset)
    requires DistanceFromOffice(location, p, distanceTo) == Ok(100)
    ensures StopSelf !in OnLocationUpdated(p, location, distanceTo, nowMillis, offset)
  {
  }

  /** With the office removed while routing, the next fix reads distance 0 and counts as arrival. */
  lemma RemovedOfficeCountsAsArrival(p: Prefs, location: Location, distanceTo: Distance, nowMillis: int, offset: UtcOffset)
    ensures var trace := OnLocationUpdated(ClearOfficeLocation(p), location, distanceTo, nowMillis, offset);
            && Broadcast(DistanceUpdated(0)) in trace
            && StopSelf in trace
            && PostStatus(ClearProfile) in trace
  {
    ClearThenGetOffice(p);
    var trace := OnLocationUpdated(ClearOfficeLocation(p), location, distanceTo, nowMillis, offset);
    assert trace[1] == Broadcast(DistanceUpdated(0));
  }

  /** After a fix, the broadcast cell holds `Destination` on arrival and the distance otherwise. */
  lemma FixLeavesLatestEvent(p: Prefs, location: Location, distanceTo: Distance, nowMillis: int, offset: UtcOffset, b: LocalBroadcast)
    requires DistanceFromOffice(location, p, distanceTo).Ok?
    ensures var d := DistanceFromOffice(location, p, distanceTo).value;
            var after := SendAll(b, Broadcasts(OnLocationUpdated(p, location, distanceTo, nowMillis, offset))).events;
            && (d < ArrivalRadius ==> after == Destination)
            && (d >= ArrivalRadius ==> after == DistanceUpdated(d))
  {
    var trace := OnLocationUpdated(p, location, distanceTo, nowMillis, offset);
    FixBroadcasts(p, location, distanceTo, nowMillis, offset);
    LatestWins(b, Broadcasts(trace));
  }

  /** Every status the service posts is a request `setStatus` would send without a dry run. */
  lemma PostsAreSetStatusRequests(p: Prefs, location: Location, distanceTo: Distance, nowMillis: int, offset: UtcOffset, reply: string)
    ensures forall e | e in OnLocationUpdated(p, location, distanceTo, nowMillis, offset) && e.PostStatus? ::
              SetStatus(e.profile.statusText, e.profile.statusEmoji, false, () => e.profile.statusExpiration, reply).sent
              == Some(Post(SetUrl, ProfileRequestBody(e.profile)))
  {
  }
}
