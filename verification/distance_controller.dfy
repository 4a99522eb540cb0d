/**
 * `DistanceController`: the office location kept in the preferences under the
 * base key "work_location", the device location lookup, and the two distance
 * queries, which answer 0 when a location is missing.
 */
module DistanceController {
  import opened Wrappers
  import opened Geo
  import opened LocalStorage

  /** `LOCATION_1`: the only base key the office is ever stored under. */
  const OfficeKey: string := "work_location"

  /** What the platform location lookup produced: a (possibly null) last known location, or an exception. */
  datatype LookupOutcome = Looked(last: Option<Location>) | Threw

  /**
   * `currentLocation()`: the last known GPS location when the location
   * permissions are granted; null without them or when the lookup throws.
   */
  function CurrentLocation(permissionsGranted: bool, lookup: LookupOutcome): (r: Option<Location>)
    ensures !permissionsGranted ==> r == None
    ensures lookup.Threw? ==> r == None
    ensures permissionsGranted && lookup.Looked? ==> r == lookup.last
  {
    if !permissionsGranted then None
    else match lookup
      case Threw => None
      case Looked(last) => last
  }

  function GetOfficeLocation(p: Prefs): Result<Option<Location>, StoreError> {
    GetLocation(p, OfficeKey)
  }

  function ClearOfficeLocation(p: Prefs): Prefs {
    // the narrowing is never applied when a null location is saved
    SaveLocation(p, OfficeKey, None, x => x)
  }

  function SaveOfficeLocation(p: Prefs, location: Location, narrow: Narrowing): Prefs {
    SaveLocation(p, OfficeKey, Some(location), narrow)
  }

  /**
   * `distanceFarFromUser()`: 0 when the device location is unknown (the
   * preferences are then not read at all) or no office is stored.
   */
  function DistanceFarFromUser(current: Option<Location>, p: Prefs, distanceTo: Distance): Result<int, StoreError> {
    match current
    case None => Ok(0)
    case Some(here) =>
      match GetOfficeLocation(p)
      case Err(e) => Err(e)
      case Ok(None) => Ok(0)
      case Ok(Some(office)) => Ok(distanceTo(here, office))
  }

  /** `distanceFromOffice(location)`: 0 when no office is stored. */
  function DistanceFromOffice(location: Location, p: Prefs, distanceTo: Distance): Result<int, StoreError> {
    match GetOfficeLocation(p)
    case Err(e) => Err(e)
    case Ok(None) => Ok(0)
    case Ok(Some(office)) => Ok(distanceTo(location, office))
  }

  /** The office is read and written under "work_location_lat" and "work_location_long" and nowhere else. */
  lemma OfficeUsesWorkLocationKeys(p: Prefs, l: Location, narrow: Narrowing)
    ensures LatKey(OfficeKey) == "work_location_lat" && LongKey(OfficeKey) == "work_location_long"
    ensures AgreeExcept(p, SaveOfficeLocation(p, l, narrow), {"work_location_lat", "work_location_long"})
    ensures AgreeExcept(p, ClearOfficeLocation(p), {"work_location_lat", "work_location_long"})
  {
    SaveLocationWritesBothKeys(p, OfficeKey, l, narrow);
  }

  /** After saving an office, reading it back yields its narrowed coordinates, unless both are 0. */
  lemma SaveThenGetOffice(p: Prefs, l: Location, narrow: Narrowing)
    ensures var lat, long := narrow(l.latitude), narrow(l.longitude);
            GetOfficeLocation(SaveOfficeLocation(p, l, narrow))
            == if lat == 0.0 && long == 0.0 then Ok(None) else Ok(Some(Location(lat, long)))
  {
    LocationRoundTrip(p, OfficeKey, l, narrow);
  }

  /** After clearing, no office is stored. */
  lemma ClearThenGetOffice(p: Prefs)
    ensures GetOfficeLocation(ClearOfficeLocation(p)) == Ok(None)
  {
    SaveNullLocationRemovesBothKeys(p, OfficeKey, x => x);
  }

  /** Without an office, both distance queries answer 0. */
  lemma NoOfficeMeansZeroDistance(p: Prefs, here: Option<Location>, location: Location, distanceTo: Distance)
    requires GetOfficeLocation(p) == Ok(None)
    ensures DistanceFromOffice(location, p, distanceTo) == Ok(0)
    ensures DistanceFarFromUser(here, p, distanceTo) == Ok(0)
  {
  }

  /** With an office stored, the queries answer the measured distance; an unknown device location answers 0. */
  lemma OfficeDistance(p: Prefs, office: Location, location: Location, distanceTo: Distance)
    requires GetOfficeLocation(p) == Ok(Some(office))
    ensures DistanceFromOffice(location, p, distanceTo) == Ok(distanceTo(location, office))
    ensures DistanceFarFromUser(Some(location), p, distanceTo) == Ok(distanceTo(location, office))
    ensures DistanceFarFromUser(None, p, distanceTo) == Ok(0)
  {
  }

  /** Only the office keys decide whether the office can be read: the app's own writes keep them readable. */
  lemma OfficeReadableAfterOwnWrites(p: Prefs, l: Location, narrow: Narrowing)
    ensures GetOfficeLocation(SaveOfficeLocation(p, l, narrow)).Ok?
    ensures GetOfficeLocation(ClearOfficeLocation(p)).Ok?
  {
    SaveThenGetOffice(p, l, narrow);
    ClearThenGetOffice(p);
  }
}
