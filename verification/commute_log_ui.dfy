/**
 * `CommuteLogs`: the table of recorded commutes, one row per entry under a
 * header, with the start and arrival as "yy/MM/dd HH:mm" local times and the
 * duration in whole minutes.
 */
module CommuteLogUi {
  import opened Wrappers
  import opened Text
  import opened CivilTime
  import Card = CurrentStatusCard

  /** Kotlin's `Long`. */
  type Long = x: int | -0x8000_0000_0000_0000 <= x < 0x8000_0000_0000_0000

  /** A recorded commute: start and arrival in epoch milliseconds. */
  datatype CommuteEntry = CommuteEntry(start: Long, arrival: Long)

  /** Kotlin's `/` on integers: the quotient truncated toward zero. */
  function TruncDiv(a: int, b: int): (q: int)
    requires b > 0
    ensures 0 <= a ==> q * b <= a < (q + 1) * b
    ensures a < 0 ==> (q - 1) * b < a <= q * b
  {
    if a >= 0 then a / b else -((-a) / b)
  }

  /** `(arrival - start) / 60000`, the subtraction wrapping like `Long`. */
  function DurationMinutes(e: CommuteEntry): int {
    TruncDiv(Card.WrapLong(e.arrival - e.start), 60000)
  }

  /** The duration cell: the minutes followed by "m". */
  function DurationCell(e: CommuteEntry): string {
    IntToString(DurationMinutes(e)) + "m"
  }

  /** `SimpleDateFormat("yy/MM/dd HH:mm").format(Date(millis))` in a zone with a fixed offset. */
  function TimeCell(millis: int, offset: UtcOffset): string {
    PatternShort(FieldsOf(ToLocal(MillisToSeconds(millis), offset)))
  }

  datatype TableRow = TableRow(first: string, second: string, third: string)

  const Header: TableRow := TableRow("Start Time", "Arrival Time", "Duration")

  function RowOf(e: CommuteEntry, offset: UtcOffset): TableRow {
    TableRow(TimeCell(e.start, offset), TimeCell(e.arrival, offset), DurationCell(e))
  }

  /** One row per entry, in list order. */
  function Rows(entries: seq<CommuteEntry>, offset: UtcOffset): seq<TableRow> {
    seq(|entries|, i requires 0 <= i < |entries| => RowOf(entries[i], offset))
  }

  /** The rendered table, or `None` when nothing is drawn. */
  function CommuteLogs(entries: seq<CommuteEntry>, showIfEmpty: bool, offset: UtcOffset): Option<seq<TableRow>> {
    if |entries| == 0 && !showIfEmpty then None
    else Some([Header] + Rows(entries, offset))
  }

  /** Nothing is drawn exactly for an empty list without `showIfEmpty`. */
  lemma DrawnUnlessEmpty(entries: seq<CommuteEntry>, showIfEmpty: bool, offset: UtcOffset)
    ensures CommuteLogs(entries, showIfEmpty, offset).None? <==> entries == [] && !showIfEmpty
  {
  }

  /** When drawn, the header comes first and entry `i` is row `i + 1`. */
  lemma TableLayout(entries: seq<CommuteEntry>, showIfEmpty: bool, offset: UtcOffset, rows: seq<TableRow>)
    requires CommuteLogs(entries, showIfEmpty, offset) == Some(rows)
    ensures |rows| == |entries| + 1
    ensures rows[0] == Header
    ensures forall i :: 0 <= i < |entries| ==> rows[i + 1] == RowOf(entries[i], offset)
  {
    forall i | 0 <= i < |entries|
      ensures rows[i + 1] == RowOf(entries[i], offset)
    {
      RowAt(entries, showIfEmpty, offset, rows, i);
    }
  }

  lemma RowAt(entries: seq<CommuteEntry>, showIfEmpty: bool, offset: UtcOffset, rows: seq<TableRow>, i: nat)
    requires CommuteLogs(entries, showIfEmpty, offset) == Some(rows)
    requires i < |entries|
    ensures rows[i + 1] == RowOf(entries[i], offset)
  {
    assert rows == [Header] + Rows(entries, offset);
  }

  /**
   * Without overflow the duration is the elapsed time in whole minutes,
   * rounded toward zero: swapping start and arrival only flips its sign.
   */
  lemma DurationIsTruncatedMinutes(e: CommuteEntry)
    requires -0x8000_0000_0000_0000 <= e.arrival - e.start < 0x8000_0000_0000_0000
    requires -0x8000_0000_0000_0000 <= e.start - e.arrival < 0x8000_0000_0000_0000
    ensures e.start <= e.arrival ==>
              0 <= DurationMinutes(e) && DurationMinutes(e) * 60000 <= e.arrival - e.start < (DurationMinutes(e) + 1) * 60000
    ensures DurationMinutes(CommuteEntry(e.arrival, e.start)) == -DurationMinutes(e)
  {
    var d := e.arrival - e.start;
    assert Card.WrapLong(d) == d;
    assert Card.WrapLong(-d) == -d;
    assert e.start - e.arrival == -d;
  }

  /** The duration cell reads back as the number of minutes followed by "m". */
  lemma DurationCellReadsBack(e: CommuteEntry)
    ensures var c := DurationCell(e);
            && 2 <= |c| && c[|c| - 1] == 'm'
            && var n := c[..|c| - 1];
               (n[0] == '-' ==> AllDigits(n[1..])) && (n[0] != '-' ==> AllDigits(n)) && ParseInt(n) == DurationMinutes(e)
  {
    var c := DurationCell(e);
    assert c[..|c| - 1] == IntToString(DurationMinutes(e));
    IntToStringRoundTrip(DurationMinutes(e));
  }

  /**
   * A time cell has the "yy/MM/dd HH:mm" layout: its date digits are the
   * instant's local date (year of era modulo 100, month, day) and its time
   * digits the local hour and minute.
   */
  lemma TimeCellReadsBack(millis: int, offset: UtcOffset)
    ensures var c := TimeCell(millis, offset);
            var t := ToLocal(MillisToSeconds(millis), offset);
            var f := FieldsOf(t);
            && DaysFromCivil(f.date) == t.epochDay
            && |c| == 14
            && c[2] == '/' && c[5] == '/' && c[8] == ' ' && c[11] == ':'
            && AllDigits(c[0..2]) && DigitsValue(c[0..2]) == YearOfEra(f.date.year) % 100
            && AllDigits(c[3..5]) && DigitsValue(c[3..5]) == f.date.month
            && AllDigits(c[6..8]) && DigitsValue(c[6..8]) == f.date.day
            && AllDigits(c[9..11]) && DigitsValue(c[9..11]) == Hour(t)
            && AllDigits(c[12..14]) && DigitsValue(c[12..14]) == Minute(t)
  {
    PatternShortReadsBack(FieldsOf(ToLocal(MillisToSeconds(millis), offset)));
  }

  /** The two sample entries are an hour apart and show "60m". */
  lemma SampleEntriesShowSixtyMinutes()
    ensures DurationCell(CommuteEntry(1627588800000, 1627592400000)) == "60m"
    ensures DurationCell(CommuteEntry(1627688800000, 1627692400000)) == "60m"
  {
    assert Card.WrapLong(3600000) == 3600000;
    assert NatToString(60) == "60" by {
      assert NatToString(6) == "6";
    }
  }
}
