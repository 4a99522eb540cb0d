/**
 * `CurrentStatus`, the status the home screen shows, and the card that shows
 * it: a spinner while updating, "No status set" when empty, otherwise the
 * emoji, text and end time.
 */
module CurrentStatusCard {
  import opened Wrappers
  import opened Text
  import opened CivilTime
  import opened SlackStatus
  import opened SlackEmoji

  /** Kotlin's `Long` range. */
  const LongModulus: int := 0x1_0000_0000_0000_0000
  const LongMin: int := -0x8000_0000_0000_0000

  /** Two's-complement wrap of an exact product back into the `Long` range. */
  function WrapLong(x: int): (r: int)
    ensures LongMin <= r < LongMin + LongModulus
    ensures (r - x) % LongModulus == 0
    ensures LongMin <= x < LongMin + LongModulus ==> r == x
  {
    (x - LongMin) % LongModulus + LongMin
  }

  datatype CurrentStatus = CurrentStatus(statusText: string, statusEmoji: string, statusExpiration: int, updating: bool)
  {
    /** `isEmpty`: no text and no emoji; the expiration plays no part. */
    predicate IsEmpty() {
      statusText == "" && statusEmoji == ""
    }
  }

  /** `CurrentStatus.empty()`. */
  function Empty(): (s: CurrentStatus)
    ensures s.IsEmpty() && !s.updating && s.statusExpiration == 0
  {
    CurrentStatus("", "", 0, false)
  }

  /** `UserProfile.asUiStatus()`: the profile's status fields, not updating. */
  function AsUiStatus(u: UserProfile): (s: CurrentStatus)
    ensures s.statusText == u.StatusText() && s.statusEmoji == u.StatusEmoji()
    ensures s.statusExpiration == u.StatusExpiration() && !s.updating
  {
    CurrentStatus(u.profile.statusText, u.profile.statusEmoji, u.profile.statusExpiration, false)
  }

  /** An emptiness test on a fetched profile reads only its text and emoji. */
  lemma AsUiStatusEmptiness(u: UserProfile)
    ensures AsUiStatus(u).IsEmpty() <==> u.StatusText() == "" && u.StatusEmoji() == ""
    ensures AsUiStatus(u) != Empty() ==> !AsUiStatus(u).IsEmpty() || u.StatusExpiration() != 0
  {
  }

  /**
   * The epoch second `endTime()` formats: the expiration is multiplied by 1000
   * in `Long` arithmetic (wrapping), then `Instant.ofEpochMilli` floors it back.
   */
  function EndSecond(s: CurrentStatus): int {
    WrapLong(s.statusExpiration * 1000) / 1000
  }

  /** Without overflow the end time is the expiration itself. */
  lemma EndSecondWithoutOverflow(s: CurrentStatus)
    requires LongMin <= s.statusExpiration * 1000 < LongMin + LongModulus
    ensures EndSecond(s) == s.statusExpiration
  {
  }

  /** The local date and time of the end instant. */
  function EndFields(s: CurrentStatus, offset: UtcOffset): (f: Fields)
    ensures ValidDate(f.date) && 0 <= f.hour < 24 && 0 <= f.minute < 60 && 0 <= f.second < 60
  {
    FieldsOf(ToLocal(EndSecond(s), offset))
  }

  /** `endTime()`: `yyyy-MM-dd HH:mm:ss` of the end instant at the device's offset. */
  function EndTime(s: CurrentStatus, offset: UtcOffset): string {
    PatternYmdHms(EndFields(s, offset))
  }

  /**
   * `endTime()` names the expiration: for years 1..9999, reading the text back
   * as a local date-time at the same offset gives the expiration epoch second.
   */
  lemma EndTimeReadsBack(s: CurrentStatus, offset: UtcOffset)
    requires LongMin <= s.statusExpiration * 1000 < LongMin + LongModulus
    requires 1 <= EndFields(s, offset).date.year <= 9999
    ensures YmdHmsShaped(EndTime(s, offset))
    ensures FromLocal(ParseYmdHms(EndTime(s, offset)), offset) == s.statusExpiration
  {
    var local := ToLocal(EndSecond(s), offset);
    FormatThenParseYmdHms(local);
    LocalRoundTrip(EndSecond(s), local, offset);
    EndSecondWithoutOverflow(s);
  }

  // ------------------------------------------------------------ emoji lookup

  /** The first entry of `entries` whose code is `code`. */
  function FindByCode(entries: seq<SlackEmoji>, code: string): (r: Option<SlackEmoji>)
    ensures r.Some? ==> r.value in entries && r.value.Code() == code
    ensures r.None? <==> forall e | e in entries :: e.Code() != code
  {
    if entries == [] then None
    else if entries[0].Code() == code then Some(entries[0])
    else FindByCode(entries[1..], code)
  }

  /** The emoji the card shows: the entry's emoji text when the code is known, else the raw code. */
  function DisplayedEmoji(code: string): string {
    match FindByCode(Entries, code)
    case Some(e) => EmojiText(e)
    case None => code
  }

  /** A known code shows its entry's emoji text; any other code is shown as it is. */
  lemma DisplayedEmojiLookup(e: SlackEmoji, code: string)
    ensures DisplayedEmoji(e.Code()) == EmojiText(e)
    ensures (forall f: SlackEmoji :: f.Code() != code) ==> DisplayedEmoji(code) == code
  {
    EntriesComplete(e);
    var found := FindByCode(Entries, e.Code());
    CodesDistinct(found.value, e);
  }

  // -------------------------------------------------------------------- card

  datatype Card =
    | Spinner
    | NoStatusSet
    | StatusCard(emoji: string, text: string, endTime: string)

  /** The card: updating wins over empty, and empty wins over the full card. */
  function CardOf(s: CurrentStatus, offset: UtcOffset): Card {
    if s.updating then Spinner
    else if s.IsEmpty() then NoStatusSet
    else StatusCard(DisplayedEmoji(s.statusEmoji), s.statusText, EndTime(s, offset))
  }

  /** The card's three variants are decided by `updating`, then `isEmpty`, in that order. */
  lemma CardPrecedence(s: CurrentStatus, offset: UtcOffset)
    ensures CardOf(s, offset).Spinner? <==> s.updating
    ensures CardOf(s, offset).NoStatusSet? <==> !s.updating && s.IsEmpty()
    ensures CardOf(s, offset).StatusCard? ==> CardOf(s, offset).text == s.statusText
    ensures CardOf(Empty(), offset) == NoStatusSet
  {
  }

  // ------------------------------------------------------------- test vector

  lemma YearField2023()
    ensures FourDigitYear(2023) == "2023"
  {
    assert YearOfEra(2023) == 2023;
    assert NatToString(20) == NatToString(2) + "0" == "20";
    assert NatToString(202) == NatToString(20) + "2" == "202";
    assert NatToString(2023) == NatToString(202) + "3" == "2023";
    assert ZeroPad(2023, 4) == NatToString(2023);
  }

  lemma TwoDigitPad(n: nat)
    requires 10 <= n < 100
    ensures ZeroPad(n, 2) == NatToString(n) && |NatToString(n)| == 2
  {
    NatToStringLength(n, 2);
  }

  lemma TestVectorFields(s: CurrentStatus)
    requires s.statusExpiration == 1702508380
    ensures EndFields(s, 3600) == Fields(Date(2023, 12, 13), 23, 59, 40)
  {
    EndSecondWithoutOverflow(s);
    assert ToLocal(1702508380, 3600) == LocalTimestamp(19704, 86380);
    assert DaysFromCivil(Date(2023, 12, 13)) == 19704;
    CivilRoundTrip(Date(2023, 12, 13));
  }

  /** A two-digit number pads to its two digits. */
  lemma TwoDigitText(n: nat)
    requires 10 <= n < 100
    ensures ZeroPad(n, 2) == [DigitChar(n / 10), DigitChar(n % 10)]
  {
    TwoDigitPad(n);
    assert NatToString(n / 10) == [DigitChar(n / 10)];
  }

  lemma TwoDigitPieces()
    ensures ZeroPad(12, 2) == "12" && ZeroPad(13, 2) == "13" && ZeroPad(23, 2) == "23"
    ensures ZeroPad(59, 2) == "59" && ZeroPad(40, 2) == "40"
  {
    TwoDigitText(12);
    TwoDigitText(13);
    TwoDigitText(23);
    TwoDigitText(59);
    TwoDigitText(40);
  }

  /** The end-time text is the concatenation of its six fields' texts. */
  lemma PatternFromPieces(f: Fields, y: string, mo: string, d: string, h: string, mi: string, sec: string)
    requires ValidDate(f.date)
    requires 0 <= f.hour < 24 && 0 <= f.minute < 60 && 0 <= f.second < 60
    requires FourDigitYear(f.date.year) == y && ZeroPad(f.date.month, 2) == mo && ZeroPad(f.date.day, 2) == d
    requires ZeroPad(f.hour, 2) == h && ZeroPad(f.minute, 2) == mi && ZeroPad(f.second, 2) == sec
    ensures PatternYmdHms(f) == y + "-" + mo + "-" + d + " " + h + ":" + mi + ":" + sec
  {
  }

  lemma TestVectorPieces()
    ensures "2023" + "-" + "12" + "-" + "13" + " " + "23" + ":" + "59" + ":" + "40" == "2023-12-13 23:59:40"
  {
  }

  lemma TestVectorText()
    ensures PatternYmdHms(Fields(Date(2023, 12, 13), 23, 59, 40)) == "2023-12-13 23:59:40"
  {
    YearField2023();
    TwoDigitPieces();
    PatternFromPieces(Fields(Date(2023, 12, 13), 23, 59, 40), "2023", "12", "13", "23", "59", "40");
    TestVectorPieces();
  }

  /**
   * The unit test's vector: expiration 1702508380 shown at UTC+1 reads
   * "2023-12-13 23:59:40".
   */
  lemma EndTimeTestVector()
    ensures EndTime(CurrentStatus("Working from home", "\U{1F3E0}", 1702508380, false), 3600) == "2023-12-13 23:59:40"
  {
    TestVectorFields(CurrentStatus("Working from home", "\U{1F3E0}", 1702508380, false));
    TestVectorText();
  }
}
