/** How far comparing canonical texts is comparing instants: for every accepted time, years before
    0000 and after 9999 included. */
module TimeOrder {
  import opened Wrappers
  import opened Calendar
  import opened Decimals
  import opened Timestamp
  import ByteOrder

  /** The years an accepted time can fall into in UTC. */
  predicate Reachable(t: int) { InYears(t, -1, 10000) }

  predicate InYear10000(t: int) { InYears(t, 10000, 10000) }

  predicate BeforeYear0(t: int) { InYears(t, -1, -1) }

  // ----- Accepted times

  lemma {:induction false} NumberBound(s: string)
    ensures Number(s) < Pow10(|s|)
  {
    if s != "" {
      NumberBound(s[..|s| - 1]);
    }
  }

  lemma AcceptedFields(raw: string)
    requires Read(raw).Some?
    ensures var f := Read(raw).value; 0 <= f.date.year <= 9999 && f.ms < 1000 && -1440 < f.zone < 1440
  {
    hide DateTimePart, FractionPart, Number, Valid;
    var n := FractionLength(raw);
    assert Pow10(1) == 10 && Pow10(2) == 100 && Pow10(3) == 1000 && Pow10(4) == 10000;
    NumberBound(raw[0..4]);
    if n > 0 {
      NumberBound(raw[20..20 + n]);
    }
  }

  lemma NearDay(f: Fields)
    requires InRange(f) && f.ms < 1000 && -1440 < f.zone < 1440
    ensures var n := DayNumber(f.date); n - 1 <= Instant(f) / DAY <= n + 1
  {
    hide DayNumber, Valid;
    var rest := f.hour * 3600000 + (f.minute - f.zone) * 60000 + f.second * 1000 + f.ms;
    assert -DAY <= rest < 2 * DAY;
  }

  lemma AcceptedYears(raw: string)
    requires Read(raw).Some?
    ensures Reachable(Instant(Read(raw).value))
  {
    hide Read, Instant, Civil, DayNumber;
    var f := Read(raw).value;
    AcceptedFields(raw);
    NearDay(f);
    CivilOfDate(f.date);
    NextDay(f.date);
    CivilOfDate(Next(f.date));
    PreviousDay(f.date);
    CivilOfDate(Previous(f.date));
    YearBounds(Instant(f), -1, 10000);
  }

  // ----- Texts of the same year

  lemma DateParts(t: int)
    ensures UtcDate(t).month > 0 && UtcDate(t).day > 0
  {
    hide Civil;
  }

  lemma SameYearOrders(a: int, b: int, y: int)
    requires InYears(a, y, y) && InYears(b, y, y)
    ensures ByteOrder.Less(Format(a), Format(b)) <==> a < b
  {
    hide Decimal, ByteOrder.Less, TimeText, YearText, EarlierInYear, Civil, InYears;
    YearBounds(a, y, y);
    YearBounds(b, y, y);
    TailOrders(a, b);
    YearThenTail(a, b);
    ByteOrder.CommonPrefix(YearText(y), Tail(a), Tail(b));
  }

  // ----- Texts of different years

  /** The year 10000 takes five characters. */
  lemma FiveDigits()
    ensures YearText(10000) == Decimal(1000, 4) + "0"
  {
    assert Padded(1, 0) == "1" && Decimal(1, 1) == "1";
    assert Padded(10, 1) == "10" && Decimal(10, 2) == "10";
    assert Padded(100, 2) == "100" && Decimal(100, 3) == "100";
    assert Padded(1000, 3) == "1000" && Decimal(1000, 4) == "1000";
  }

  /** It compares as the year 1000 followed by a digit does. */
  lemma FiveDigitsOrder(u: int, v: int)
    requires InYear10000(u) && FourDigitYear(v)
    ensures ByteOrder.Less(Format(u), Format(v)) <==> InYears(v, 1001, 9999)
  {
    hide Decimal, ByteOrder.Less, TimeText, YearText, DayNumber, Civil, InYears;
    YearBounds(u, 10000, 10000);
    YearBounds(v, 0, 9999);
    YearBounds(v, 1001, 9999);
    FiveDigits();
    var y := UtcDate(v).year;
    YearDecimal(y);
    assert Pow10(4) == 10000;
    assert Tail(v)[0] == '-';
    var rest := Tail(v)[1..];
    assert Tail(v) == "-" + rest;
    assert Format(u) == Decimal(1000, 4) + ("0" + Tail(u));
    assert Format(v) == Decimal(y, 4) + ("-" + rest);
    DecimalOrders(1000, y, 4, "0" + Tail(u), "-" + rest);
    FirstChar('0', Tail(u), '-', rest);
  }

  lemma MinusFirst(u: int, v: int)
    requires InYears(u, 0, 10000) && BeforeYear0(v)
    ensures !ByteOrder.Less(Format(u), Format(v))
  {
    hide Decimal, TimeText, DayNumber, Civil, Padded, InYears;
    YearBounds(u, 0, 10000);
    YearBounds(v, -1, -1);
    var d := UtcDate(u);
    assert Format(v)[0] == '-';
    assert Format(u)[0] == YearText(d.year)[0];
    assert IsDigit(YearText(d.year)[0]);
  }

  /** Of two accepted times, the text of the earlier one is the greater exactly when the later one
      falls into the year 10000 and the earlier one into the years 1001 to 9999. */
  lemma GreaterTextEarlierTime(u: int, v: int)
    requires Reachable(u) && Reachable(v)
    ensures ByteOrder.Less(Format(u), Format(v)) && v < u <==> InYear10000(u) && InYears(v, 1001, 9999)
  {
    hide Format, UtcDate, ByteOrder.Less;
    if InYear10000(u) {
      if InYear10000(v) {
        SameYearOrders(u, v, 10000);
      } else if FourDigitYear(v) {
        FiveDigitsOrder(u, v);
      } else {
        MinusFirst(u, v);
      }
    } else if FourDigitYear(u) {
      if FourDigitYear(v) {
        FormatOrders(u, v);
      } else if BeforeYear0(v) {
        MinusFirst(u, v);
      }
    } else if BeforeYear0(v) {
      SameYearOrders(u, v, -1);
    }
  }

  // ----- A pair of times that shows it

  const LastMinute := "9999-12-31T23:59:59.999-00:01"
  const SameDay := "9999-12-31T00:00:00Z"

  /** The last millisecond of the year 9999 in a zone one minute west of UTC, and the start of that day. */
  lemma PairRead()
    ensures Read(LastMinute) == Some(Fields(Date(9999, 12, 31), 23, 59, 59, 999, -1))
    ensures Read(SameDay) == Some(Fields(Date(9999, 12, 31), 0, 0, 0, 0, 0))
  {
    hide Shape, FractionLength, Number, Digits, DateTimePart, FractionPart;
    PairShape();
    PairNumbers();
    PairDates();
    DateNumbers(LastMinute);
    DateNumbers(SameDay);
  }

  lemma PairShape()
    ensures Shape(LastMinute) && FractionLength(LastMinute) == 3
    ensures Shape(SameDay) && FractionLength(SameDay) == 0
    ensures ZonePart(LastMinute[23..]) && ZoneMinutes(LastMinute[23..]) == Some(-1) && SameDay[19..] == "Z"
  {
    hide DateTimePart, FractionPart, ZonePart, ZoneMinutes, Digits;
    PairPieces();
    PairZones();
    PairScanned();
    assert ShapeWith(LastMinute, 3);
    assert ShapeWith(SameDay, 0);
    OnlyFraction(LastMinute, 3, FractionLength(LastMinute));
  }

  lemma PairPieces()
    ensures DateTimePart(LastMinute) && DateTimePart(SameDay)
    ensures LastMinute[19] == '.' && LastMinute[20..23] == "999"
  {
    hide DateTimePart;
    LiteralPart(LastMinute);
    LiteralPart(SameDay);
  }

  lemma LiteralPart(raw: string)
    requires raw == LastMinute || raw == SameDay
    ensures DateTimePart(raw)
  {
    assert IsDigit(raw[0]) && IsDigit(raw[1]) && IsDigit(raw[2]) && IsDigit(raw[3]) && raw[4] == '-';
    assert IsDigit(raw[5]) && IsDigit(raw[6]) && raw[7] == '-' && IsDigit(raw[8]) && IsDigit(raw[9]) && raw[10] == 'T';
    assert IsDigit(raw[11]) && IsDigit(raw[12]) && raw[13] == ':' && IsDigit(raw[14]) && IsDigit(raw[15]) && raw[16] == ':';
    assert IsDigit(raw[17]) && IsDigit(raw[18]);
  }

  lemma PairZones()
    ensures ZonePart(LastMinute[23..]) && ZoneMinutes(LastMinute[23..]) == Some(-1)
    ensures SameDay[19..] == "Z" && ZonePart(SameDay[19..]) && FractionPart(SameDay, 0)
  {
    assert LastMinute[23..] == "-00:01" && SameDay[19..] == "Z";
    WestRead("-00:01");
  }

  lemma PairScanned()
    ensures FractionPart(LastMinute, 3) && Scanned(LastMinute, 3) && !FractionPart(SameDay, 1) && !FractionPart(SameDay, 2)
  {
    hide DateTimePart;
    PairPieces();
  }

  lemma WestRead(zone: string)
    requires zone == "-00:01"
    ensures ZonePart(zone) && ZoneMinutes(zone) == Some(-1)
  {
    ZoneDigits(zone);
    TwoDigits(zone[1..3]);
    TwoDigits(zone[4..6]);
  }

  lemma PairNumbers()
    ensures Number(LastMinute[11..13]) == 23 && Number(LastMinute[14..16]) == 59 && Number(LastMinute[17..19]) == 59
    ensures Number(LastMinute[20..23]) == 999
    ensures Number(SameDay[11..13]) == 0 && Number(SameDay[14..16]) == 0 && Number(SameDay[17..19]) == 0
  {
    hide Number;
    TwoDigits(LastMinute[11..13]);
    TwoDigits(LastMinute[14..16]);
    TwoDigits(LastMinute[17..19]);
    MoreDigits(LastMinute[20..23]);
    TwoDigits(LastMinute[20..22]);
    assert LastMinute[20..23][..2] == LastMinute[20..22];
    TwoDigits(SameDay[11..13]);
    TwoDigits(SameDay[14..16]);
    TwoDigits(SameDay[17..19]);
  }

  lemma PairDates()
    ensures LastMinute[0..4] == SameDay[0..4] == "9999" && LastMinute[5..7] == SameDay[5..7] == "12"
    ensures LastMinute[8..10] == SameDay[8..10] == "31"
  {
  }

  lemma DateNumbers(raw: string)
    requires |raw| >= 10 && raw[0..4] == "9999" && raw[5..7] == "12" && raw[8..10] == "31"
    ensures Number(raw[0..4]) == 9999 && Number(raw[5..7]) == 12 && Number(raw[8..10]) == 31
  {
    hide Number;
    var year := "9999";
    MoreDigits(year);
    MoreDigits(year[..3]);
    TwoDigits(year[..2]);
    assert year[..3][..2] == year[..2];
    TwoDigits(raw[5..7]);
    TwoDigits(raw[8..10]);
  }

  lemma MoreDigits(s: string)
    requires s != ""
    ensures Number(s) == 10 * Number(s[..|s| - 1]) + DigitValue(s[|s| - 1])
  {
  }

  lemma PairYears()
    ensures Read(LastMinute).Some? && Read(SameDay).Some?
    ensures var u, v := Instant(Read(LastMinute).value), Instant(Read(SameDay).value);
      InYear10000(u) && InYears(v, 9999, 9999) && v < u
  {
    hide Civil, DayNumber, Read, InYears;
    PairRead();
    var d := Date(9999, 12, 31);
    CivilOfDate(d);
    NextDay(d);
    CivilOfDate(Next(d));
    var n := DayNumber(d);
    var u, v := Instant(Read(LastMinute).value), Instant(Read(SameDay).value);
    assert u == n * DAY + DAY + 59999 && v == n * DAY;
    assert u / DAY == n + 1 && v / DAY == n;
    YearBounds(u, 10000, 10000);
    YearBounds(v, 9999, 9999);
  }
}
