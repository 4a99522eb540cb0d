/**
 * `LocalStorage`: typed save/get/remove over the app's shared preferences,
 * and the two extensions that store a location as a pair of floats under
 * `key + "_lat"` and `key + "_long"`.
 *
 * The preferences are one map from key to a typed value. Reading a key as a
 * type other than the one stored throws `ClassCastException` on the platform;
 * the getters return `Err(WrongType(key))` for it.
 */
module LocalStorage {
  import opened Wrappers
  import opened Geo

  /** Kotlin's `Int`. */
  type Int32 = x: int | -0x8000_0000 <= x < 0x8000_0000

  datatype Value =
    | IntValue(i: Int32)
    | StringValue(s: string)
    | BoolValue(b: bool)
    | FloatValue(f: real)

  datatype StoreError = WrongType(key: string)

  type Prefs = map<string, Value>

  // ------------------------------------------------------------------ writes

  function SaveInt(p: Prefs, key: string, value: Int32): Prefs {
    p[key := IntValue(value)]
  }

  function SaveString(p: Prefs, key: string, value: string): Prefs {
    p[key := StringValue(value)]
  }

  function SaveBoolean(p: Prefs, key: string, value: bool): Prefs {
    p[key := BoolValue(value)]
  }

  function SaveFloat(p: Prefs, key: string, value: real): Prefs {
    p[key := FloatValue(value)]
  }

  function Remove(p: Prefs, key: string): Prefs {
    p - {key}
  }

  // ------------------------------------------------------------------- reads

  function GetInt(p: Prefs, key: string, default: Int32 := 0): Result<Int32, StoreError> {
    if key !in p then Ok(default)
    else if p[key].IntValue? then Ok(p[key].i)
    else Err(WrongType(key))
  }

  function GetString(p: Prefs, key: string, default: string := ""): Result<string, StoreError> {
    if key !in p then Ok(default)
    else if p[key].StringValue? then Ok(p[key].s)
    else Err(WrongType(key))
  }

  function GetBoolean(p: Prefs, key: string, default: bool := false): Result<bool, StoreError> {
    if key !in p then Ok(default)
    else if p[key].BoolValue? then Ok(p[key].b)
    else Err(WrongType(key))
  }

  function GetFloat(p: Prefs, key: string, default: real := 0.0): Result<real, StoreError> {
    if key !in p then Ok(default)
    else if p[key].FloatValue? then Ok(p[key].f)
    else Err(WrongType(key))
  }

  /** `q` differs from `p` at most on `keys`: every other key is present in both or neither, with the same value. */
  ghost predicate AgreeExcept(p: Prefs, q: Prefs, keys: set<string>) {
    forall k :: k !in keys ==> (k in p <==> k in q) && (k in p ==> p[k] == q[k])
  }

  /** A get after a save of the same key and type returns the saved value, whatever the default. */
  lemma SaveThenGet(p: Prefs, key: string, i: Int32, s: string, b: bool, f: real, di: Int32, ds: string, db: bool, df: real)
    ensures GetInt(SaveInt(p, key, i), key, di) == Ok(i)
    ensures GetString(SaveString(p, key, s), key, ds) == Ok(s)
    ensures GetBoolean(SaveBoolean(p, key, b), key, db) == Ok(b)
    ensures GetFloat(SaveFloat(p, key, f), key, df) == Ok(f)
  {
  }

  /** A key that was never saved reads as the supplied default, for every type. */
  lemma AbsentKeyReadsDefault(p: Prefs, key: string, di: Int32, ds: string, db: bool, df: real)
    requires key !in p
    ensures GetInt(p, key, di) == Ok(di)
    ensures GetString(p, key, ds) == Ok(ds)
    ensures GetBoolean(p, key, db) == Ok(db)
    ensures GetFloat(p, key, df) == Ok(df)
  {
  }

  /** A save touches its own key only. */
  lemma SaveChangesOnlyItsKey(p: Prefs, key: string, i: Int32, s: string, b: bool, f: real)
    ensures AgreeExcept(p, SaveInt(p, key, i), {key})
    ensures AgreeExcept(p, SaveString(p, key, s), {key})
    ensures AgreeExcept(p, SaveBoolean(p, key, b), {key})
    ensures AgreeExcept(p, SaveFloat(p, key, f), {key})
  {
  }

  /** After `remove(k)` every typed get of `k` returns its default, and no other key changes. */
  lemma RemoveThenGet(p: Prefs, key: string, di: Int32, ds: string, db: bool, df: real)
    ensures key !in Remove(p, key)
    ensures GetInt(Remove(p, key), key, di) == Ok(di)
    ensures GetString(Remove(p, key), key, ds) == Ok(ds)
    ensures GetBoolean(Remove(p, key), key, db) == Ok(db)
    ensures GetFloat(Remove(p, key), key, df) == Ok(df)
    ensures AgreeExcept(p, Remove(p, key), {key})
  {
  }

  // --------------------------------------------------------------- locations

  function LatKey(key: string): string { key + "_lat" }
  function LongKey(key: string): string { key + "_long" }

  /** The two keys of one location never coincide. */
  lemma LocationKeysDistinct(key: string)
    ensures LatKey(key) != LongKey(key)
  {
    assert |LatKey(key)| != |LongKey(key)|;
  }

  /** `saveLocation(key, location)`: null removes both keys, otherwise both are written as floats. */
  function SaveLocation(p: Prefs, key: string, location: Option<Location>, narrow: Narrowing): Prefs {
    match location
    case None => Remove(Remove(p, LatKey(key)), LongKey(key))
    case Some(l) => SaveFloat(SaveFloat(p, LatKey(key), narrow(l.latitude)), LongKey(key), narrow(l.longitude))
  }

  /** `getLocation(key)`: both floats read with default 0; the pair (0, 0) means no location. */
  function GetLocation(p: Prefs, key: string): Result<Option<Location>, StoreError> {
    match GetFloat(p, LatKey(key))
    case Err(e) => Err(e)
    case Ok(lat) =>
      match GetFloat(p, LongKey(key))
      case Err(e) => Err(e)
      case Ok(long) =>
        if lat == 0.0 && long == 0.0 then Ok(None)
        else Ok(Some(Location(lat, long)))
  }

  /** The float stored under `k`, or 0 when absent: what `getFloat(k)` returns on a well-typed key. */
  function StoredFloat(p: Prefs, k: string): real
    requires k in p ==> p[k].FloatValue?
  {
    if k in p then p[k].f else 0.0
  }

  /** Both keys of a location hold floats, when present. */
  predicate LocationKeysWellTyped(p: Prefs, key: string) {
    && (LatKey(key) in p ==> p[LatKey(key)].FloatValue?)
    && (LongKey(key) in p ==> p[LongKey(key)].FloatValue?)
  }

  /**
   * On well-typed keys `getLocation` never throws, and it returns null exactly
   * when both stored floats are 0 (an absent key reads as 0). A location with
   * only one zero coordinate is returned.
   */
  lemma GetLocationNullIffOrigin(p: Prefs, key: string)
    requires LocationKeysWellTyped(p, key)
    ensures GetLocation(p, key).Ok?
    ensures var lat, long := StoredFloat(p, LatKey(key)), StoredFloat(p, LongKey(key));
            && (GetLocation(p, key) == Ok(None) <==> lat == 0.0 && long == 0.0)
            && (lat != 0.0 || long != 0.0 ==> GetLocation(p, key) == Ok(Some(Location(lat, long))))
  {
  }

  /** `getLocation` throws exactly when a location key holds a value of another type. */
  lemma GetLocationFailsIffIllTyped(p: Prefs, key: string)
    ensures GetLocation(p, key).Err? <==> !LocationKeysWellTyped(p, key)
  {
  }

  /** A never-saved key reads as null. */
  lemma NeverSavedLocationIsNull(p: Prefs, key: string)
    requires LatKey(key) !in p && LongKey(key) !in p
    ensures GetLocation(p, key) == Ok(None)
  {
  }

  /** `saveLocation(key, null)` removes exactly the two keys of `key`. */
  lemma SaveNullLocationRemovesBothKeys(p: Prefs, key: string, narrow: Narrowing)
    ensures SaveLocation(p, key, None, narrow) == p - {LatKey(key), LongKey(key)}
    ensures GetLocation(SaveLocation(p, key, None, narrow), key) == Ok(None)
  {
    LocationKeysDistinct(key);
  }

  /** `saveLocation(key, loc)` writes exactly the two keys of `key`, as the narrowed coordinates. */
  lemma SaveLocationWritesBothKeys(p: Prefs, key: string, l: Location, narrow: Narrowing)
    ensures var q := SaveLocation(p, key, Some(l), narrow);
            && AgreeExcept(p, q, {LatKey(key), LongKey(key)})
            && q[LatKey(key)] == FloatValue(narrow(l.latitude))
            && q[LongKey(key)] == FloatValue(narrow(l.longitude))
  {
    LocationKeysDistinct(key);
  }

  /**
   * Round trip: reading back a saved location yields its narrowed
   * coordinates, unless both narrow to 0, which reads as null.
   */
  lemma LocationRoundTrip(p: Prefs, key: string, l: Location, narrow: Narrowing)
    ensures var lat, long := narrow(l.latitude), narrow(l.longitude);
            GetLocation(SaveLocation(p, key, Some(l), narrow), key)
            == if lat == 0.0 && long == 0.0 then Ok(None) else Ok(Some(Location(lat, long)))
  {
    LocationKeysDistinct(key);
  }

  /** Saving or clearing a location leaves every other location's keys well-typed, and its own too. */
  lemma SaveLocationKeepsKeysWellTyped(p: Prefs, key: string, other: string, l: Option<Location>, narrow: Narrowing)
    requires LocationKeysWellTyped(p, other)
    ensures LocationKeysWellTyped(SaveLocation(p, key, l, narrow), other)
    ensures LocationKeysWellTyped(SaveLocation(p, key, l, narrow), key)
  {
  }
}
