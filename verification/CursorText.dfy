/**
  The text of a page cursor. Times are whole seconds since 1 January of year 0 in one zone of fixed
  offset. JSON and base64url (section 5 of RFC 4648) are a codec that is only known to give back
  what was put in.
 */
module CursorText {
  import opened Order
  import opened Wrappers
  import Text
  import Y = YearInference

  const SECONDS_PER_DAY := 86400

  datatype Stamp = Stamp(year: int, month: int, day: int, second: int)

  predicate IsValid(s: Stamp) {
    1 <= s.month <= 12 && 1 <= s.day <= Y.DaysIn(s.month, s.year) && 0 <= s.second < SECONDS_PER_DAY
  }

  function DayOf(s: Stamp): int {
    Y.DaysBeforeYear(s.year) + Y.DaysBeforeMonth(s.month, s.year) + s.day - 1
  }

  /** The instant of a stamp. */
  function InstantOf(s: Stamp): int {
    DayOf(s) * SECONDS_PER_DAY + s.second
  }

  /** The year of a day, looked for from `year` on. */
  function YearFrom(day: int, year: int): (found: int)
    requires Y.DaysBeforeYear(year) <= day
    ensures Y.DaysBeforeYear(found) <= day < Y.DaysBeforeYear(found + 1) && year <= found
    decreases day - Y.DaysBeforeYear(year)
  {
    Y.YearLength(year);
    if day < Y.DaysBeforeYear(year + 1) then year else YearFrom(day, year + 1)
  }

  /** The month of the `day`-th day of a year, looked for from `month` on. */
  function MonthFrom(day: int, year: int, month: int): (found: int)
    requires 1 <= month <= 12 && Y.DaysBeforeMonth(month, year) <= day < Y.DaysBeforeMonth(13, year)
    ensures month <= found <= 12 && Y.DaysBeforeMonth(found, year) <= day < Y.DaysBeforeMonth(found + 1, year)
    decreases 12 - month
  {
    if day < Y.DaysBeforeMonth(month + 1, year) then month else MonthFrom(day, year, month + 1)
  }

  /** The stamp of an instant from year 0 on. */
  function StampOf(t: nat): (s: Stamp)
    ensures IsValid(s) && InstantOf(s) == t && s.year >= 0
  {
    var day := t / SECONDS_PER_DAY;
    var year := YearFrom(day, 0);
    Y.YearLength(year);
    Y.MonthStarts(13, year);
    var inYear := day - Y.DaysBeforeYear(year);
    var month := MonthFrom(inYear, year, 1);
    Stamp(year, month, inYear - Y.DaysBeforeMonth(month, year) + 1, t % SECONDS_PER_DAY)
  }

  lemma {:induction false} YearsAscend(a: int, b: int)
    requires a <= b
    ensures Y.DaysBeforeYear(a) + 365 * (b - a) <= Y.DaysBeforeYear(b)
    decreases b - a
  {
    if a < b {
      Y.YearLength(a);
      YearsAscend(a + 1, b);
    }
  }

  lemma {:induction false} MonthsAscend(a: int, b: int, year: int)
    requires 1 <= a <= b
    ensures Y.DaysBeforeMonth(a, year) + 28 * (b - a) <= Y.DaysBeforeMonth(b, year)
    decreases b - a
  {
    if a < b {
      MonthsAscend(a, b - 1, year);
    }
  }

  lemma SameYear(a: Stamp, b: Stamp)
    requires IsValid(a) && IsValid(b) && DayOf(a) == DayOf(b)
    ensures a.year == b.year
  {
    InYear(a);
    InYear(b);
    if a.year < b.year {
      YearsAscend(a.year + 1, b.year);
    } else if b.year < a.year {
      YearsAscend(b.year + 1, a.year);
    }
  }

  /** No two valid stamps stand for the same instant. */
  lemma StampsAreUnique(a: Stamp, b: Stamp)
    requires IsValid(a) && IsValid(b) && InstantOf(a) == InstantOf(b)
    ensures a == b
  {
    assert DayOf(a) == DayOf(b) && a.second == b.second;
    SameYear(a, b);
    if a.month < b.month {
      MonthsAscend(a.month + 1, b.month, a.year);
    } else if b.month < a.month {
      MonthsAscend(b.month + 1, a.month, a.year);
    }
  }

  lemma InYear(s: Stamp)
    requires IsValid(s)
    ensures Y.DaysBeforeYear(s.year) <= DayOf(s) < Y.DaysBeforeYear(s.year + 1)
  {
    Y.MonthStarts(s.month, s.year);
    Y.YearLength(s.year);
  }

  predicate IsDigit(c: char) {
    '0' <= c <= '9'
  }

  /** A number with leading zeros in a field of fixed width. */
  function Padded(n: nat, width: nat): (s: string)
    ensures |s| == width && forall k :: 0 <= k < |s| ==> IsDigit(s[k])
  {
    if width == 0 then "" else Padded(n / 10, width - 1) + [('0' as int + n % 10) as char]
  }

  function NumberOf(s: string): nat
    requires forall k :: 0 <= k < |s| ==> IsDigit(s[k])
  {
    if s == "" then 0
    else
      var last := s[|s| - 1];
      assert IsDigit(last);
      NumberOf(s[..|s| - 1]) * 10 + (last as int - '0' as int)
  }

  function Power(width: nat): nat {
    if width == 0 then 1 else 10 * Power(width - 1)
  }

  lemma {:induction false} PaddedReadsBack(n: nat, width: nat)
    requires n < Power(width)
    ensures NumberOf(Padded(n, width)) == n
  {
    if width > 0 {
      PaddedReadsBack(n / 10, width - 1);
      assert Padded(n, width)[..width - 1] == Padded(n / 10, width - 1);
    }
  }

  /** The text of a stamp, as in `2024-02-29 23:59:58`. */
  function Format(s: Stamp): string
    requires IsValid(s) && s.year >= 0
  {
    Padded(s.year, 4) + "-" + Padded(s.month, 2) + "-" + Padded(s.day, 2) + " "
    + Padded(s.second / 3600, 2) + ":" + Padded(s.second / 60 % 60, 2) + ":" + Padded(s.second % 60, 2)
  }

  predicate AreDigits(s: string, i: nat, n: nat) {
    i + n <= |s| && forall k :: i <= k < i + n ==> IsDigit(s[k])
  }

  predicate HasLayout(s: string) {
    && |s| == 19
    && AreDigits(s, 0, 4) && s[4] == '-' && AreDigits(s, 5, 2) && s[7] == '-' && AreDigits(s, 8, 2)
    && s[10] == ' ' && AreDigits(s, 11, 2) && s[13] == ':' && AreDigits(s, 14, 2) && s[16] == ':' && AreDigits(s, 17, 2)
  }

  function Parse(s: string): Option<Stamp> {
    if !HasLayout(s) then None
    else
      Assemble(NumberOf(s[0..4]), NumberOf(s[5..7]), NumberOf(s[8..10]), NumberOf(s[11..13]), NumberOf(s[14..16]), NumberOf(s[17..19]))
  }

  function Assemble(year: nat, month: nat, day: nat, hour: nat, minute: nat, second: nat): Option<Stamp> {
    var stamp := Stamp(year, month, day, hour * 3600 + minute * 60 + second);
    if hour < 24 && minute < 60 && second < 60 && IsValid(stamp) then Some(stamp) else None
  }

  lemma AssembleParts(s: Stamp)
    requires IsValid(s) && s.year >= 0
    ensures Assemble(s.year, s.month, s.day, s.second / 3600, s.second / 60 % 60, s.second % 60) == Some(s)
  {
  }

  lemma FormatShape(s: Stamp)
    requires IsValid(s) && s.year >= 0
    ensures var f := Format(s);
            && HasLayout(f)
            && f[0..4] == Padded(s.year, 4) && f[5..7] == Padded(s.month, 2) && f[8..10] == Padded(s.day, 2)
            && f[11..13] == Padded(s.second / 3600, 2) && f[14..16] == Padded(s.second / 60 % 60, 2) && f[17..19] == Padded(s.second % 60, 2)
  {
  }

  /** The text of a stamp reads back as that stamp. */
  lemma ParseFormat(s: Stamp)
    requires IsValid(s) && 0 <= s.year <= 9999
    ensures Parse(Format(s)) == Some(s)
  {
    FormatShape(s);
    PaddedReadsBack(s.year, 4);
    PaddedReadsBack(s.month, 2);
    PaddedReadsBack(s.day, 2);
    PaddedReadsBack(s.second / 3600, 2);
    PaddedReadsBack(s.second / 60 % 60, 2);
    PaddedReadsBack(s.second % 60, 2);
    AssembleParts(s);
  }

  lemma {:induction false} NumberIsPadded(s: string)
    requires forall k :: 0 <= k < |s| ==> IsDigit(s[k])
    ensures NumberOf(s) < Power(|s|) && Padded(NumberOf(s), |s|) == s
  {
    if s != "" {
      var front, last := s[..|s| - 1], s[|s| - 1];
      NumberIsPadded(front);
      assert IsDigit(last);
      assert s == front + [last];
    }
  }

  lemma AssembledParts(year: nat, month: nat, day: nat, hour: nat, minute: nat, second: nat)
    ensures var made := Assemble(year, month, day, hour, minute, second);
            made.Some? ==>
              && IsValid(made.value) && made.value.year == year && made.value.month == month && made.value.day == day
              && made.value.second / 3600 == hour && made.value.second / 60 % 60 == minute && made.value.second % 60 == second
  {
    if hour < 24 && minute < 60 && second < 60 {
      SecondsSplit(hour, minute, second);
    }
  }

  lemma SecondsSplit(hour: nat, minute: nat, second: nat)
    requires minute < 60 && second < 60
    ensures var s := hour * 3600 + minute * 60 + second;
            s / 3600 == hour && s / 60 % 60 == minute && s % 60 == second
  {
    var s := hour * 3600 + minute * 60 + second;
    assert s / 60 == hour * 60 + minute;
  }

  /** `s` is the text of a stamp of a year of at most four digits. */
  ghost predicate IsTextOf(s: string, stamp: Stamp) {
    IsValid(stamp) && 0 <= stamp.year <= 9999 && s == Format(stamp)
  }

  lemma SameParts(s: string, f: string)
    requires HasLayout(s) && HasLayout(f)
    requires s[0..4] == f[0..4] && s[5..7] == f[5..7] && s[8..10] == f[8..10]
    requires s[11..13] == f[11..13] && s[14..16] == f[14..16] && s[17..19] == f[17..19]
    ensures s == f
  {
    assert s == s[0..4] + [s[4]] + s[5..7] + [s[7]] + s[8..10] + [s[10]] + s[11..13] + [s[13]] + s[14..16] + [s[16]] + s[17..19];
    assert f == f[0..4] + [f[4]] + f[5..7] + [f[7]] + f[8..10] + [f[10]] + f[11..13] + [f[13]] + f[14..16] + [f[16]] + f[17..19];
  }

  lemma ParsedIsText(s: string, stamp: Stamp)
    requires Parse(s) == Some(stamp)
    ensures IsTextOf(s, stamp)
  {
    NumberIsPadded(s[0..4]);
    NumberIsPadded(s[5..7]);
    NumberIsPadded(s[8..10]);
    NumberIsPadded(s[11..13]);
    NumberIsPadded(s[14..16]);
    NumberIsPadded(s[17..19]);
    AssembledParts(NumberOf(s[0..4]), NumberOf(s[5..7]), NumberOf(s[8..10]), NumberOf(s[11..13]), NumberOf(s[14..16]), NumberOf(s[17..19]));
    FormatShape(stamp);
    SameParts(s, Format(stamp));
    assert Power(4) == 10000;
  }

  /** A text is read as a stamp exactly if it is the text of that stamp. */
  lemma ParseIsExact(s: string, stamp: Stamp)
    ensures Parse(s) == Some(stamp) <==> IsTextOf(s, stamp)
  {
    if Parse(s) == Some(stamp) {
      ParsedIsText(s, stamp);
    }
    if IsTextOf(s, stamp) {
      ParseFormat(stamp);
    }
  }

  /** A cursor as it is written: what the codec turns into text. */
  datatype Wire = Wire(timestamp: string, source: string, file: string, offset: nat)

  datatype Codec = Codec(encode: Wire -> string, decode: string -> Option<Wire>)

  ghost predicate IsFaithful(codec: Codec) {
    forall w :: codec.decode(codec.encode(w)) == Some(w) && codec.encode(w) != "" && Text.IsTrimmed(codec.encode(w))
  }

  /** The zero time, which has no text and at which a cursor is refused. */
  const ZERO_TIME := Y.DaysBeforeYear(1) * SECONDS_PER_DAY

  /** The instants that a query can meet: from year 2 to year 9999, so none of them is the zero time. */
  predicate IsOrdinary(t: int) {
    0 <= Y.DaysBeforeYear(2) * SECONDS_PER_DAY <= t < Y.DaysBeforeYear(10000) * SECONDS_PER_DAY
  }

  function FormatDateTime(t: nat): string {
    if t == ZERO_TIME then "" else Format(StampOf(t))
  }

  /** Reads a time; `other` stands for the layouts that are tried after the one that is written. */
  function ParseTimeQuery(s: string, other: string -> Option<int>): Option<int> {
    match Parse(s)
    case Some(stamp) => Some(InstantOf(stamp))
    case None => other(s)
  }

  lemma TimeReadsBack(t: int, other: string -> Option<int>)
    requires IsOrdinary(t)
    ensures ParseTimeQuery(FormatDateTime(t), other) == Some(t)
    ensures FormatDateTime(t) != "" && Text.IsTrimmed(FormatDateTime(t))
  {
    var s := StampOf(t);
    InYear(s);
    if s.year > 9999 {
      YearsAscend(10000, s.year);
    }
    FormatShape(s);
    ParseFormat(s);
  }

  function Encode(cursor: Position, codec: Codec): string
    requires cursor.timestamp >= 0
  {
    codec.encode(Wire(FormatDateTime(cursor.timestamp), cursor.source, cursor.file, cursor.offset))
  }

  datatype Decoded = NoCursor | Invalid | Cursor(position: Position)

  function Decode(text: string, codec: Codec, other: string -> Option<int>): Decoded {
    var value := Text.Trim(text);
    if value == "" then NoCursor
    else match codec.decode(value)
      case None => Invalid
      case Some(wire) =>
        var stamp := Text.Trim(wire.timestamp);
        if stamp == "" then Invalid
        else match ParseTimeQuery(stamp, other)
          case None => Invalid
          case Some(t) => if t == ZERO_TIME then Invalid else Cursor(Position(t, wire.source, wire.file, wire.offset))
  }

  /** The text without the white space around it is that of a stamp for the instant `t`, or of no stamp but read as `t` all the same. */
  ghost predicate TellsTime(text: string, t: int, other: string -> Option<int>) {
    exists s :: Text.IsTrimOf(s, text) && s != "" && TellsTimeAlone(s, t, other)
  }

  ghost predicate TellsTimeAlone(s: string, t: int, other: string -> Option<int>) {
    || (exists stamp :: IsTextOf(s, stamp) && t == InstantOf(stamp))
    || (other(s) == Some(t) && forall stamp :: !IsTextOf(s, stamp))
  }

  ghost predicate TellsPosition(wire: Option<Wire>, p: Position, other: string -> Option<int>) {
    && wire.Some?
    && p.source == wire.value.source && p.file == wire.value.file && p.offset == wire.value.offset
    && p.timestamp != ZERO_TIME && TellsTime(wire.value.timestamp, p.timestamp, other)
  }

  lemma TimeMeaning(s: string, t: int, other: string -> Option<int>)
    ensures ParseTimeQuery(s, other) == Some(t) <==> TellsTimeAlone(s, t, other)
  {
    if Parse(s).Some? {
      ParseIsExact(s, Parse(s).value);
    }
    forall stamp | IsTextOf(s, stamp)
      ensures Parse(s) == Some(stamp)
    {
      ParseIsExact(s, stamp);
    }
  }

  lemma TrimmedTimeMeaning(text: string, t: int, other: string -> Option<int>)
    ensures TellsTime(text, t, other) <==> Text.Trim(text) != "" && ParseTimeQuery(Text.Trim(text), other) == Some(t)
  {
    Text.TrimIs(text);
    TimeMeaning(Text.Trim(text), t, other);
    if s :| Text.IsTrimOf(s, text) && s != "" && TellsTimeAlone(s, t, other) {
      Text.TrimIsOnly(s, text);
    }
  }

  /** A blank text is no cursor; any other gives the position that it tells, or is refused if it tells none. */
  lemma DecodeMeaning(text: string, codec: Codec, other: string -> Option<int>, value: string, p: Position)
    requires Text.IsTrimOf(value, text)
    ensures Decode(text, codec, other) == NoCursor <==> Text.IsBlank(text)
    ensures Decode(text, codec, other) == Cursor(p) <==> value != "" && TellsPosition(codec.decode(value), p, other)
  {
    Text.TrimIsOnly(value, text);
    Text.BlankIsEmpty(text);
    var wire := codec.decode(value);
    if wire.Some? {
      TrimmedTimeMeaning(wire.value.timestamp, p.timestamp, other);
    }
  }

  /** A row of a response, as far as the next cursor is made from it. */
  datatype Row = Row(timestamp: string, source: string, file: string, offset: nat)

  function RowAt(p: Position): Row
    requires p.timestamp >= 0
  {
    Row(FormatDateTime(p.timestamp), p.source, p.file, p.offset)
  }

  /** The text handed out with a page: none for no rows, and an error for a row whose time cannot be read. */
  function NextCursorFromRecords(rows: seq<Row>, codec: Codec, other: string -> Option<int>): Option<string> {
    if rows == [] then Some("")
    else
      var last := rows[|rows| - 1];
      if Text.Trim(last.timestamp) == "" then None
      else match ParseTimeQuery(Text.Trim(last.timestamp), other)
        case Some(t) => if t >= 0 then Some(Encode(Position(t, last.source, last.file, last.offset), codec)) else None
        case None => None
  }

  /** A cursor can be made of a page exactly if its last row tells a time. */
  lemma NextCursorIsMade(rows: seq<Row>, last: Row, codec: Codec, other: string -> Option<int>)
    requires rows != [] && rows[|rows| - 1] == last
    ensures NextCursorFromRecords(rows, codec, other).Some? <==> exists t: nat :: TellsTime(last.timestamp, t, other)
  {
    var text := last.timestamp;
    if t: nat :| TellsTime(text, t, other) {
      TrimmedTimeMeaning(text, t, other);
    }
    if NextCursorFromRecords(rows, codec, other).Some? {
      TrimmedTimeMeaning(text, ParseTimeQuery(Text.Trim(text), other).value, other);
    }
  }

  /** The cursor handed out with a page reads back as the position of the page's last row. */
  lemma NextCursorReadsBack(rows: seq<Row>, p: Position, codec: Codec, other: string -> Option<int>)
    requires IsFaithful(codec) && IsOrdinary(p.timestamp)
    requires rows != [] && rows[|rows| - 1] == RowAt(p)
    ensures var text := NextCursorFromRecords(rows, codec, other);
            text.Some? && Decode(text.value, codec, other) == Cursor(p)
  {
    TimeReadsBack(p.timestamp, other);
    var wire := Wire(FormatDateTime(p.timestamp), p.source, p.file, p.offset);
    assert codec.decode(codec.encode(wire)) == Some(wire);
  }
}
