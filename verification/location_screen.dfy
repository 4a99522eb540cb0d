/**
 * `LocationScreen`: which of the three screens the location tab shows for the
 * permission state, and what the map screen draws from the view-model state.
 */
module LocationScreen {
  import opened Wrappers
  import opened Geo
  import opened Text
  import opened LocationViewModel

  /** `Build.VERSION_CODES.TIRAMISU`: from this SDK on, notifications need a runtime permission. */
  const Tiramisu: int := 33

  const StopColor: int := 0xFFB46605
  const StartColor: int := 0xFF026296

  /** What tapping the routing button does. */
  datatype ButtonAction = ToggleRoutingAction | RequestNotificationPermission

  datatype RoutingButton = RoutingButton(text: string, color: int, onClick: ButtonAction)

  /** What the map screen draws besides the map itself. */
  datatype MapView = MapView(
    officeMarker: Option<GeoPoint>,
    personMarker: Option<GeoPoint>,
    distanceLabel: Option<string>,
    routingButton: Option<RoutingButton>)

  /** The three screens; the two permission screens differ in their text and in what Allow does. */
  datatype Screen = MapScreen(view: MapView) | PermissionNeeded(shouldShowRationale: bool)

  /** The platform's permission state as the screen sees it. */
  datatype Permissions = Permissions(
    allLocationGranted: bool,
    shouldShowRationale: bool,
    sdkInt: int,
    notificationsGranted: bool)

  /** The distance label: "Unknown distance" for 0, otherwise "<d>m away". */
  function DistanceLabel(d: int): string {
    if d == 0 then "Unknown distance" else IntToString(d) + "m away"
  }

  /** The permission screen's explanation. */
  function PermissionText(shouldShowRationale: bool): string {
    if shouldShowRationale then "If you want this service, you must let the app use location services"
    else "Couldn't show the dialog. For location based status, app needs the permission"
  }

  /**
   * `RoutingButton`: on TIRAMISU and later without the notification
   * permission it asks for it; otherwise it toggles routing. The colour
   * follows the routing flag either way.
   */
  function RoutingButtonOf(routing: bool, perms: Permissions): RoutingButton {
    var color := if routing then StopColor else StartColor;
    if perms.sdkInt >= Tiramisu && !perms.notificationsGranted then
      RoutingButton("Routing: Allow permission", color, RequestNotificationPermission)
    else
      RoutingButton(if routing then "Stop routing" else "Start routing", color, ToggleRoutingAction)
  }

  /**
   * The map screen: the office marker when an office is set, the person
   * marker while routing with a known location, and the distance label and
   * routing button when an office is set. `distance` is what
   * `distanceInMeters()` returned.
   */
  function MapViewOf(s: LocationScreenState, perms: Permissions, distance: int): MapView {
    MapView(
      if s.officeLocation.Some? then Some(s.OfficeGeoPoint()) else None,
      if s.routingInProgress && s.updatedLocation.Some? then Some(s.UpdatedLocationGeoPoint()) else None,
      if s.officeLocation.Some? then Some(DistanceLabel(distance)) else None,
      if s.officeLocation.Some? then Some(RoutingButtonOf(s.routingInProgress, perms)) else None)
  }

  /** The `when` over the permission state, its three conditions as written; `None` when none holds. */
  function Select(s: LocationScreenState, perms: Permissions, distance: int): Option<Screen> {
    if perms.allLocationGranted then Some(MapScreen(MapViewOf(s, perms, distance)))
    else if perms.shouldShowRationale || !s.permissionIntroShown then Some(PermissionNeeded(true))
    else if !perms.allLocationGranted && !perms.shouldShowRationale then Some(PermissionNeeded(false))
    else None
  }

  /**
   * The three branches cover every input. With the location permissions the
   * map shows, whatever the other flags; without them the rationale screen
   * shows when the platform asks for a rationale or the intro was never shown,
   * and the settings screen otherwise.
   */
  lemma ScreenSelection(s: LocationScreenState, perms: Permissions, distance: int)
    ensures Select(s, perms, distance).Some?
    ensures Select(s, perms, distance).value.MapScreen? <==> perms.allLocationGranted
    ensures Select(s, perms, distance) == Some(PermissionNeeded(true))
            <==> !perms.allLocationGranted && (perms.shouldShowRationale || !s.permissionIntroShown)
    ensures Select(s, perms, distance) == Some(PermissionNeeded(false))
            <==> !perms.allLocationGranted && !perms.shouldShowRationale && s.permissionIntroShown
  {
  }

  /**
   * A first denial: once the permission dialog has answered (which marks the
   * intro as shown) and the platform asks for no rationale, the screen sends
   * the user to the settings.
   */
  lemma DeniedAfterIntroGoesToSettings(vm: Vm, perms: Permissions, distance: int)
    requires !perms.allLocationGranted && !perms.shouldShowRationale
    ensures Select(vm.state, perms, distance) == Some(PermissionNeeded(!vm.state.permissionIntroShown))
    ensures Select(UserNotifiedOfPermission(vm).state, perms, distance) == Some(PermissionNeeded(false))
  {
  }

  /** The routing button and the distance label appear exactly when an office is set, and so does the office marker. */
  lemma OfficeGatesControls(s: LocationScreenState, perms: Permissions, distance: int)
    ensures var v := MapViewOf(s, perms, distance);
            && (v.routingButton.Some? <==> s.officeLocation.Some?)
            && (v.distanceLabel.Some? <==> s.officeLocation.Some?)
            && (v.officeMarker.Some? <==> s.officeLocation.Some?)
            && (v.officeMarker.Some? ==> v.officeMarker.value == ToGeoPoint(s.officeLocation.value))
  {
  }

  /** The person marker is drawn exactly while routing with a known location, at that location. */
  lemma PersonMarkerWhileRouting(s: LocationScreenState, perms: Permissions, distance: int)
    ensures var v := MapViewOf(s, perms, distance);
            && (v.personMarker.Some? <==> s.routingInProgress && s.updatedLocation.Some?)
            && (v.personMarker.Some? ==> v.personMarker.value == ToGeoPoint(s.updatedLocation.value))
  {
  }

  /** The label says "Unknown distance" exactly for 0; otherwise it reads back as the distance followed by "m away". */
  lemma DistanceLabelReadsBack(d: int)
    ensures DistanceLabel(d) == "Unknown distance" <==> d == 0
    ensures d != 0 ==>
              var l := DistanceLabel(d);
              && |l| > 6 && l[|l| - 6..] == "m away"
              && var n := l[..|l| - 6];
                 (n[0] == '-' ==> AllDigits(n[1..])) && (n[0] != '-' ==> AllDigits(n)) && ParseInt(n) == d
  {
    if d != 0 {
      var l := DistanceLabel(d);
      assert l[..|l| - 6] == IntToString(d);
      assert l[|l| - 6..] == "m away";
      IntToStringRoundTrip(d);
    } else {
      assert DistanceLabel(d) == "Unknown distance";
    }
  }

  /**
   * The button says "Stop routing" while routing and "Start routing"
   * otherwise, and toggles routing; on TIRAMISU and later without the
   * notification permission it says "Routing: Allow permission" and asks
   * for that permission instead.
   */
  lemma RoutingButtonLabel(routing: bool, perms: Permissions)
    ensures var b := RoutingButtonOf(routing, perms);
            && (perms.sdkInt >= Tiramisu && !perms.notificationsGranted <==> b.onClick == RequestNotificationPermission)
            && (b.onClick == RequestNotificationPermission ==> b.text == "Routing: Allow permission")
            && (b.onClick == ToggleRoutingAction ==> (b.text == "Stop routing" <==> routing))
            && (b.onClick == ToggleRoutingAction ==> (b.text == "Start routing" <==> !routing))
            && (b.color == StopColor <==> routing)
  {
  }

  /** After the button toggles routing, the next frame's button says the opposite. */
  lemma ButtonFollowsToggle(vm: Vm, reply: string, perms: Permissions)
    requires RoutingButtonOf(vm.state.routingInProgress, perms).onClick == ToggleRoutingAction
    ensures var vm' := ToggleRouting(vm, reply).0;
            RoutingButtonOf(vm'.state.routingInProgress, perms).text
            == (if vm.state.routingInProgress then "Start routing" else "Stop routing")
  {
  }
}
