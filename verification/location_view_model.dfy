/**
 * `LocationViewModel`: the location screen's state, the office selection and
 * removal, the permission-intro flag, the routing toggle, and how the
 * service's broadcast events update the state.
 */
module LocationViewModel {
  import opened Wrappers
  import opened Geo
  import opened LocalStorage
  import opened DistanceController
  import opened LocalBroadcast
  import opened SlackStatus
  import opened CommuteLogUi
  import Home = HomeViewModel

  /** The preference key remembering that the permission intro was shown. */
  const PermissionIntroShown: string := "permission_intro_shown"

  /** The camera's zoom level on the map. */
  const MapZoom: real := 15.0

  /** Where the camera starts: central Copenhagen. */
  const StartPoint: GeoPoint := GeoPoint(55.676098, 12.568337)

  datatype CameraState = CameraState(zoom: real, geoPoint: GeoPoint)

  datatype LocationScreenState = LocationScreenState(
    permissionIntroShown: bool,
    officeLocation: Option<Location>,
    cameraState: CameraState,
    routingInProgress: bool,
    updatedLocation: Option<Location>,
    updatedDistance: int,
    commuteEntries: seq<CommuteEntry>)
  {
    /** The office as a map point, (0, 0) when none is set. */
    function OfficeGeoPoint(): GeoPoint {
      match officeLocation
      case None => GeoPoint(0.0, 0.0)
      case Some(l) => ToGeoPoint(l)
    }

    /** The latest device location as a map point, (0, 0) when none has arrived. */
    function UpdatedLocationGeoPoint(): GeoPoint {
      match updatedLocation
      case None => GeoPoint(0.0, 0.0)
      case Some(l) => ToGeoPoint(l)
    }
  }

  /** What the view model asks of the routing service. */
  datatype ServiceCall = StartRouting | StopRouting

  /** The view model's side of the world: its state and the preferences. */
  datatype Vm = Vm(state: LocationScreenState, prefs: Prefs)

  /**
   * The state on creation: the stored intro flag (false when absent) and the
   * stored office; the camera on the start point; no routing, no updates, no
   * commutes. Either read may throw.
   */
  function Create(p: Prefs): Result<Vm, StoreError> {
    match GetBoolean(p, PermissionIntroShown)
    case Err(e) => Err(e)
    case Ok(shown) =>
      match GetOfficeLocation(p)
      case Err(e) => Err(e)
      case Ok(office) =>
        Ok(Vm(LocationScreenState(shown, office, CameraState(MapZoom, StartPoint), false, None, 0, []), p))
  }

  /** `userNotifiedOfPermission()`: the flag is persisted and set. */
  function UserNotifiedOfPermission(vm: Vm): Vm {
    Vm(vm.state.(permissionIntroShown := true), SaveBoolean(vm.prefs, PermissionIntroShown, true))
  }

  /** `navigateToCurrentLocation()`: the camera moves to the device location when there is one. */
  function NavigateToCurrentLocation(vm: Vm, current: Option<Location>): Vm {
    match current
    case None => vm
    case Some(l) => vm.(state := vm.state.(cameraState := CameraState(MapZoom, GeoPoint(l.latitude, l.longitude))))
  }

  /** `onLocationSelected(lat, long)`: the office is persisted (as floats) and set in the state as given. */
  function OnLocationSelected(vm: Vm, lat: real, long: real, narrow: Narrowing): Vm {
    var loc := Location(lat, long);
    Vm(vm.state.(officeLocation := Some(loc)), SaveOfficeLocation(vm.prefs, loc, narrow))
  }

  /** `removeLocation()`: the office is cleared from the store and the state. */
  function RemoveLocation(vm: Vm): Vm {
    Vm(vm.state.(officeLocation := None), ClearOfficeLocation(vm.prefs))
  }

  /** The request `clearSlackStatus()` sends: empty text and emoji, expiration 0. */
  function ClearStatusCall(reply: string): StatusCall {
    SetStatus("", "", false, () => 0, reply)
  }

  /**
   * `toggleRouting()`: while routing, stops the service, clears the status
   * and turns routing off; otherwise starts the service and turns it on.
   */
  function ToggleRouting(vm: Vm, reply: string): (Vm, seq<ServiceCall>, Option<StatusCall>) {
    if vm.state.routingInProgress then
      (vm.(state := vm.state.(routingInProgress := false)), [StopRouting], Some(ClearStatusCall(reply)))
    else
      (vm.(state := vm.state.(routingInProgress := true)), [StartRouting], None)
  }

  /** `distanceInMeters()`. */
  function DistanceInMeters(vm: Vm, current: Option<Location>, distanceTo: Distance): Result<int, StoreError> {
    DistanceFarFromUser(current, vm.prefs, distanceTo)
  }

  /** `observeLocalEvents()`: the reducer of the service's events. */
  function OnEvent(s: LocationScreenState, action: BroadcastAction): LocationScreenState {
    match action
    case Destination => s.(routingInProgress := false)
    case ServiceStopped => s.(routingInProgress := false)
    case DistanceUpdated(d) => s.(updatedDistance := d)
    case Idle => s
    case LocationUpdated(l) => s.(updatedLocation := Some(l))
    case ServiceStarted => s.(routingInProgress := true)
  }

  /** `observeCommuteTimes()`: a new list of commutes replaces the old one. */
  function OnCommuteTimes(s: LocationScreenState, times: seq<CommuteEntry>): LocationScreenState {
    s.(commuteEntries := times)
  }

  /**
   * The routing flag after an event: off on arrival or when the service stops,
   * on when it starts, unchanged otherwise.
   */
  lemma EventRouting(s: LocationScreenState, a: BroadcastAction)
    ensures OnEvent(s, a).routingInProgress == (if a.Destination? || a.ServiceStopped? then false
                                                else if a.ServiceStarted? then true
                                                else s.routingInProgress)
  {
  }

  /**
   * Each event touches one field: the routing events only the routing flag,
   * a distance only the distance, a location only the updated location, and
   * `Idle` nothing.
   */
  lemma EventTouchesOneField(s: LocationScreenState, a: BroadcastAction)
    ensures a.Destination? || a.ServiceStopped? || a.ServiceStarted? ==>
              OnEvent(s, a).(routingInProgress := s.routingInProgress) == s
    ensures a.DistanceUpdated? ==>
              OnEvent(s, a).updatedDistance == a.distance && OnEvent(s, a).(updatedDistance := s.updatedDistance) == s
    ensures a.LocationUpdated? ==>
              OnEvent(s, a).updatedLocation == Some(a.location) && OnEvent(s, a).(updatedLocation := s.updatedLocation) == s
    ensures a.Idle? ==> OnEvent(s, a) == s
  {
  }

  /** On `Destination` this screen stops routing while the home screen's flag says routing. */
  lemma DestinationDisagreesWithHome(s: LocationScreenState, h: Home.HomeUiState)
    ensures !OnEvent(s, Destination).routingInProgress
    ensures Home.OnBroadcast(h, Destination).routingInProgress
  {
    Home.RoutingOffOnlyWhenIdleOrStopped(h, Destination);
  }

  /**
   * Toggling flips the routing flag and changes nothing else. Turning it on
   * starts the service; turning it off stops it and posts the empty status
   * with expiration 0.
   */
  lemma ToggleFlips(vm: Vm, reply: string)
    ensures var (vm', calls, status) := ToggleRouting(vm, reply);
            && vm'.state.routingInProgress == !vm.state.routingInProgress
            && vm'.state.(routingInProgress := vm.state.routingInProgress) == vm.state
            && vm'.prefs == vm.prefs
            && (vm.state.routingInProgress ==>
                  && calls == [StopRouting]
                  && status.Some?
                  && status.value.sent == Some(Post(SetUrl, ProfileRequestBody(Profile("", "", 0)))))
            && (!vm.state.routingInProgress ==> calls == [StartRouting] && status == None)
  {
  }

  /** Toggling twice restores the state and starts and stops the service once each. */
  lemma ToggleTwice(vm: Vm, reply1: string, reply2: string)
    ensures var (vm1, calls1, _) := ToggleRouting(vm, reply1);
            var (vm2, calls2, _) := ToggleRouting(vm1, reply2);
            && vm2 == vm
            && multiset(calls1 + calls2) == multiset{StartRouting, StopRouting}
  {
  }

  /** The intro flag is set now and is read back on the next creation. */
  lemma NotifiedSurvivesRestart(vm: Vm)
    requires Create(vm.prefs).Ok?
    ensures UserNotifiedOfPermission(vm).state.permissionIntroShown
    ensures Create(UserNotifiedOfPermission(vm).prefs).Ok?
    ensures Create(UserNotifiedOfPermission(vm).prefs).value.state.permissionIntroShown
  {
    var q := UserNotifiedOfPermission(vm).prefs;
    assert q == vm.prefs[PermissionIntroShown := BoolValue(true)];
    assert LatKey(OfficeKey) != PermissionIntroShown && LongKey(OfficeKey) != PermissionIntroShown;
    assert GetOfficeLocation(q) == GetOfficeLocation(vm.prefs);
  }

  /** A never-set intro flag reads as false. */
  lemma FreshInstallShowsIntro(p: Prefs)
    requires PermissionIntroShown !in p && LatKey(OfficeKey) !in p && LongKey(OfficeKey) !in p
    ensures Create(p).Ok?
    ensures !Create(p).value.state.permissionIntroShown && Create(p).value.state.officeLocation == None
  {
  }

  /**
   * Selecting an office sets it in the state as given; the next creation
   * reads back the stored (narrowed) coordinates, or no office when both
   * narrow to 0.
   */
  lemma SelectedOfficeSurvivesRestart(vm: Vm, lat: real, long: real, narrow: Narrowing)
    requires Create(vm.prefs).Ok?
    ensures OnLocationSelected(vm, lat, long, narrow).state.officeLocation == Some(Location(lat, long))
    ensures var q := OnLocationSelected(vm, lat, long, narrow).prefs;
            && Create(q).Ok?
            && Create(q).value.state.officeLocation
               == if narrow(lat) == 0.0 && narrow(long) == 0.0 then None else Some(Location(narrow(lat), narrow(long)))
  {
    var q := OnLocationSelected(vm, lat, long, narrow).prefs;
    SaveLocationWritesBothKeys(vm.prefs, OfficeKey, Location(lat, long), narrow);
    assert GetBoolean(q, PermissionIntroShown) == GetBoolean(vm.prefs, PermissionIntroShown) by {
      assert PermissionIntroShown != LatKey(OfficeKey) && PermissionIntroShown != LongKey(OfficeKey);
    }
    SaveThenGetOffice(vm.prefs, Location(lat, long), narrow);
  }

  /** Removing the office clears it from the state and from the next creation. */
  lemma RemovedOfficeSurvivesRestart(vm: Vm)
    requires Create(vm.prefs).Ok?
    ensures RemoveLocation(vm).state.officeLocation == None
    ensures Create(RemoveLocation(vm).prefs).Ok?
    ensures Create(RemoveLocation(vm).prefs).value.state.officeLocation == None
  {
    ClearThenGetOffice(vm.prefs);
    SaveNullLocationRemovesBothKeys(vm.prefs, OfficeKey, x => x);
    assert PermissionIntroShown != LatKey(OfficeKey) && PermissionIntroShown != LongKey(OfficeKey);
  }

  /** After selecting an office the distance shown is the distance to its stored coordinates, 0 without a device location. */
  lemma DistanceToSelectedOffice(vm: Vm, lat: real, long: real, narrow: Narrowing, here: Location, distanceTo: Distance)
    requires narrow(lat) != 0.0 || narrow(long) != 0.0
    ensures var vm' := OnLocationSelected(vm, lat, long, narrow);
            && DistanceInMeters(vm', Some(here), distanceTo) == Ok(distanceTo(here, Location(narrow(lat), narrow(long))))
            && DistanceInMeters(vm', None, distanceTo) == Ok(0)
  {
    SaveThenGetOffice(vm.prefs, Location(lat, long), narrow);
  }

  /** The camera moves, to the device location at zoom 15, exactly when one is known; nothing else changes. */
  lemma NavigateMovesCameraOnly(vm: Vm, current: Option<Location>)
    ensures NavigateToCurrentLocation(vm, current).state.(cameraState := vm.state.cameraState) == vm.state
    ensures NavigateToCurrentLocation(vm, current).prefs == vm.prefs
    ensures current == None ==> NavigateToCurrentLocation(vm, current) == vm
    ensures current.Some? ==> NavigateToCurrentLocation(vm, current).state.cameraState
                               == CameraState(MapZoom, ToGeoPoint(current.value))
  {
  }

  /** The map points are the locations' coordinates, or (0, 0) when absent. */
  lemma GeoPointFallbacks(s: LocationScreenState)
    ensures s.officeLocation == None ==> s.OfficeGeoPoint() == GeoPoint(0.0, 0.0)
    ensures s.officeLocation.Some? ==>
              s.OfficeGeoPoint().latitude == s.officeLocation.value.latitude
              && s.OfficeGeoPoint().longitude == s.officeLocation.value.longitude
    ensures s.updatedLocation == None ==> s.UpdatedLocationGeoPoint() == GeoPoint(0.0, 0.0)
    ensures s.updatedLocation.Some? ==>
              s.UpdatedLocationGeoPoint().latitude == s.updatedLocation.value.latitude
              && s.UpdatedLocationGeoPoint().longitude == s.updatedLocation.value.longitude
  {
  }

  /** A new commute list replaces the old one and nothing else. */
  lemma CommuteTimesReplaceList(s: LocationScreenState, times: seq<CommuteEntry>)
    ensures OnCommuteTimes(s, times).commuteEntries == times
    ensures OnCommuteTimes(s, times).(commuteEntries := s.commuteEntries) == s
  {
  }
}
