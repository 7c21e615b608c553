/** The ledger's timestamps: the accepted shape, the instant a text denotes, and its canonical
    UTC form. Canonical texts of the years 0000 to 9999 are ordered as strings exactly as they
    are in time, which is what the ledger's comparisons rely on. */
module Timestamp {
  import opened Wrappers
  import opened Calendar
  import opened Decimals
  import ByteOrder

  // ----- The shape

  function Separator(i: nat): char {
    if i == 4 || i == 7 then '-' else if i == 10 then 'T' else if i == 13 || i == 16 then ':' else '\0'
  }

  /** The nineteen characters `yyyy-mm-ddThh:mm:ss`. */
  predicate DateTimePart(raw: string) {
    && |raw| >= 19
    && forall i :: 0 <= i < 19 ==> if Separator(i) != '\0' then raw[i] == Separator(i) else IsDigit(raw[i])
  }

  /** A fraction of `n` digits after the seconds; `n == 0` is no fraction at all. */
  predicate FractionPart(raw: string, n: nat) {
    |raw| >= 19 && (n == 0 || (20 + n <= |raw| && raw[19] == '.' && Digits(raw[20..20 + n])))
  }

  function ZoneOffset(n: nat): nat { if n == 0 then 19 else 20 + n }

  /** `Z`, or a signed offset of hours and minutes, ending the text. */
  predicate ZonePart(zone: string) {
    || zone == "Z"
    || (|zone| == 6 && (zone[0] == '+' || zone[0] == '-') && zone[3] == ':' && Digits(zone[1..3]) && Digits(zone[4..6]))
  }

  predicate ShapeWith(raw: string, n: nat) {
    DateTimePart(raw) && n <= 3 && FractionPart(raw, n) && ZoneOffset(n) <= |raw| && ZonePart(raw[ZoneOffset(n)..])
  }

  predicate Shape(raw: string) {
    exists n :: 0 <= n <= 3 && ShapeWith(raw, n)
  }

  /** The number of fraction digits is determined by the text. */
  function FractionLength(raw: string): (n: nat)
    requires Shape(raw)
    ensures ShapeWith(raw, n)
  {
    if ShapeWith(raw, 0) then 0 else if ShapeWith(raw, 1) then 1 else if ShapeWith(raw, 2) then 2 else 3
  }

  lemma SliceDigits(raw: string, lo: nat, hi: nat)
    requires lo <= hi <= |raw|
    ensures Digits(raw[lo..hi]) <==> forall k :: lo <= k < hi ==> IsDigit(raw[k])
  {
    if Digits(raw[lo..hi]) {
      forall k | lo <= k < hi
        ensures IsDigit(raw[k])
      {
        assert raw[lo..hi][k - lo] == raw[k];
      }
    }
  }

  /** Where the scan stops decides which fraction there can be. */
  ghost predicate Scanned(raw: string, n: nat) {
    && DateTimePart(raw) && |raw| >= 20
    && (raw[19] != '.' ==> n == 0)
    && (raw[19] == '.' ==> 20 + n <= |raw| && Digits(raw[20..20 + n]) && (20 + n < |raw| ==> !IsDigit(raw[20 + n])))
  }

  lemma OnlyFraction(raw: string, n: nat, m: nat)
    requires Scanned(raw, n) && ShapeWith(raw, m)
    ensures m == n && (raw[19] == '.' ==> n > 0)
  {
    var zone := raw[ZoneOffset(m)..];
    assert zone[0] == raw[ZoneOffset(m)];
    if raw[19] == '.' {
      SliceDigits(raw, 20, 20 + n);
      SliceDigits(raw, 20, 20 + m);
    }
  }

  lemma ShapeLength(raw: string)
    requires Shape(raw)
    ensures 20 <= |raw| <= 29
  {
    var n := FractionLength(raw);
    assert |raw[ZoneOffset(n)..]| == |raw| - ZoneOffset(n);
  }

  lemma ZoneDigits(zone: string)
    requires |zone| == 6
    ensures Digits(zone[1..3]) <==> IsDigit(zone[1]) && IsDigit(zone[2])
    ensures Digits(zone[4..6]) <==> IsDigit(zone[4]) && IsDigit(zone[5])
  {
    assert zone[1..3] == [zone[1], zone[2]] && zone[4..6] == [zone[4], zone[5]];
  }

  /** `timestampShape`: one pass over the text. */
  method TimestampShape(raw: string) returns (ok: bool)
    ensures ok <==> Shape(raw)
  {
    if Shape(raw) {
      ShapeLength(raw);
    }
    if |raw| < 20 || |raw| > 29 {
      return false;
    }
    var i := 0;
    while i < 19
      invariant 0 <= i <= 19
      invariant forall j :: 0 <= j < i ==> if Separator(j) != '\0' then raw[j] == Separator(j) else IsDigit(raw[j])
    {
      var separator := Separator(i);
      if (if separator != '\0' then raw[i] != separator else !IsDigit(raw[i])) {
        return false;
      }
      i := i + 1;
    }
    var offset := 19;
    if raw[offset] == '.' {
      offset := offset + 1;
      while offset < |raw| && IsDigit(raw[offset])
        invariant 20 <= offset <= |raw| && Digits(raw[20..offset])
      {
        SliceDigits(raw, 20, offset);
        SliceDigits(raw, 20, offset + 1);
        offset := offset + 1;
      }
    }
    ghost var n := if raw[19] == '.' then offset - 20 else 0;
    assert Scanned(raw, n);
    forall m: nat | ShapeWith(raw, m)
      ensures m == n && (raw[19] == '.' ==> n > 0)
    {
      OnlyFraction(raw, n, m);
    }
    if raw[19] == '.' && (offset == 20 || offset - 20 > 3) {
      return false;
    }
    assert offset == ZoneOffset(n);
    if offset == |raw| {
      return false;
    }
    ok := ZoneShape(raw[offset..]);
    assert ShapeWith(raw, n) <==> ok;
  }

  method ZoneShape(zone: string) returns (ok: bool)
    requires zone != ""
    ensures ok <==> ZonePart(zone)
  {
    if zone[0] == 'Z' {
      return |zone| == 1;
    }
    if |zone| == 6 {
      ZoneDigits(zone);
    }
    ok := (zone[0] == '+' || zone[0] == '-') && |zone| == 6 && zone[3] == ':' && IsDigit(zone[1]) && IsDigit(zone[2])
      && IsDigit(zone[4]) && IsDigit(zone[5]);
  }

  // ----- The instant a text denotes, in milliseconds from 0000-01-01T00:00:00Z

  const DAY: int := 86400000

  datatype Fields = Fields(date: Date, hour: nat, minute: nat, second: nat, ms: nat, zone: int)

  predicate InRange(f: Fields) {
    Valid(f.date) && f.hour < 24 && f.minute < 60 && f.second < 60
  }

  /** A zone's offset in minutes, `None` where it is out of range. */
  function ZoneMinutes(zone: string): Option<int>
    requires ZonePart(zone)
  {
    if zone[0] == 'Z' then Some(0)
    else
      var hours, minutes := Number(zone[1..3]), Number(zone[4..6]);
      if hours > 23 || minutes >= 60 then None
      else Some((hours * 60 + minutes) * if zone[0] == '+' then 1 else -1)
  }

  function Scale(n: nat): nat { if n == 1 then 100 else if n == 2 then 10 else 1 }

  function Read(raw: string): (f: Option<Fields>)
    ensures f.Some? ==> InRange(f.value)
  {
    if !Shape(raw) then None
    else
      var n := FractionLength(raw);
      var ms := if n == 0 then 0 else Number(raw[20..20 + n]) * Scale(n);
      var zone := ZoneMinutes(raw[ZoneOffset(n)..]);
      var date := Date(Number(raw[0..4]), Number(raw[5..7]), Number(raw[8..10]));
      var hour, minute, second := Number(raw[11..13]), Number(raw[14..16]), Number(raw[17..19]);
      if zone == None || !Valid(date) || hour >= 24 || minute >= 60 || second >= 60 then None
      else Some(Fields(date, hour, minute, second, ms, zone.value))
  }

  function Instant(f: Fields): int
    requires InRange(f)
  {
    DayNumber(f.date) * DAY + f.hour * 3600000 + (f.minute - f.zone) * 60000 + f.second * 1000 + f.ms
  }

  /** One digit of a fraction counts tenths of a second, two count hundredths and three thousandths. */
  lemma FractionCounts(raw: string, n: nat)
    requires Read(raw).Some? && ShapeWith(raw, n)
    ensures Read(raw).value.ms ==
      if n == 0 then 0 else if n == 1 then 100 * Number(raw[20..21]) else if n == 2 then 10 * Number(raw[20..22]) else Number(raw[20..23])
  {
    hide ZonePart, ZoneMinutes, Number, Valid;
    SameFraction(raw, n, FractionLength(raw));
  }

  lemma SameFraction(raw: string, n: nat, m: nat)
    requires ShapeWith(raw, n) && ShapeWith(raw, m)
    ensures m == n
  {
    var zone := raw[ZoneOffset(n)..];
    assert zone[0] == raw[ZoneOffset(n)];
    assert Scanned(raw, n);
    OnlyFraction(raw, n, m);
  }

  // ----- The canonical text

  /** `%04d`. */
  function YearText(y: int): string {
    if y < 0 then "-" + Padded(-y, 3) else Padded(y, 4)
  }

  function UtcDate(t: int): Date { Civil(t / DAY) }

  function TimeText(r: nat): string {
    Decimal(r / 3600000, 2) + (":" + (Decimal(r / 60000 % 60, 2) + (":" + (Decimal(r / 1000 % 60, 2) + ("." + (Decimal(r % 1000, 3) + "Z"))))))
  }

  function Format(t: int): string {
    var d := UtcDate(t);
    YearText(d.year) + ("-" + (Decimal(d.month, 2) + ("-" + (Decimal(d.day, 2) + ("T" + TimeText(t % DAY))))))
  }

  /** `timestamp`. */
  function Canonical(raw: string): Option<string> {
    var f := Read(raw);
    if f == None then None else Some(Format(Instant(f.value)))
  }

  /** The instants of the years from the first to the last, by their days. */
  predicate InYears(t: int, first: int, last: int) { YearStart(first) <= t / DAY < YearStart(last + 1) }

  lemma YearBounds(t: int, first: int, last: int)
    ensures InYears(t, first, last) <==> first <= UtcDate(t).year <= last
  {
    hide YearStart, Civil, DayNumber;
    YearOfDay(UtcDate(t), first);
    YearOfDay(UtcDate(t), last + 1);
  }

  /** The instants whose UTC year takes four digits. */
  predicate FourDigitYear(t: int) { InYears(t, 0, 9999) }

  // ----- The canonical text read back

  /** Cutting a text at a separator. */
  lemma Cut(s: string, at: nat, a: string, c: char, rest: string)
    requires at <= |s| && s[at..] == a + ([c] + rest)
    ensures at + |a| < |s| && s[at..at + |a|] == a && s[at + |a|] == c && s[at + |a| + 1..] == rest
  {
    var tail := s[at..];
    assert tail[..|a|] == a && tail[|a|] == c && tail[|a| + 1..] == rest;
    assert s[at..at + |a|] == tail[..|a|];
    assert s[at + |a| + 1..] == tail[|a| + 1..];
  }

  /** The pieces of a canonical text, at their fixed places. */
  ghost predicate Laid(s: string, d: Date, r: nat) {
    && |s| >= 24 && 0 <= d.year && 0 <= d.month && 0 <= d.day
    && s[0..4] == Decimal(d.year, 4) && s[4] == '-'
    && s[5..7] == Decimal(d.month, 2) && s[7] == '-'
    && s[8..10] == Decimal(d.day, 2) && s[10] == 'T'
    && s[11..13] == Decimal(r / 3600000, 2) && s[13] == ':'
    && s[14..16] == Decimal(r / 60000 % 60, 2) && s[16] == ':'
    && s[17..19] == Decimal(r / 1000 % 60, 2) && s[19] == '.'
    && s[20..23] == Decimal(r % 1000, 3)
  }

  /** Fields and separators, as `snprintf` puts them together. */
  function Joined(year: string, month: string, day: string, hour: string, minute: string, second: string, ms: string): string {
    year + ("-" + (month + ("-" + (day + ("T" + (hour + (":" + (minute + (":" + (second + ("." + (ms + "Z"))))))))))))
  }

  lemma JoinedPieces(s: string, year: string, month: string, day: string, hour: string, minute: string, second: string, ms: string)
    requires s == Joined(year, month, day, hour, minute, second, ms)
    requires |year| == 4 && |month| == 2 && |day| == 2 && |hour| == 2 && |minute| == 2 && |second| == 2 && |ms| == 3
    ensures |s| == 24 && s[0..4] == year && s[4] == '-' && s[5..7] == month && s[7] == '-' && s[8..10] == day && s[10] == 'T'
    ensures s[11..13] == hour && s[13] == ':' && s[14..16] == minute && s[16] == ':' && s[17..19] == second && s[19] == '.'
    ensures s[20..23] == ms && s[23..] == "Z"
  {
    var seconds := second + ("." + (ms + "Z"));
    var minutes := minute + (":" + seconds);
    var time := hour + (":" + minutes);
    var days := day + ("T" + time);
    var months := month + ("-" + days);
    assert s[0..] == year + ("-" + months);
    Cut(s, 0, year, '-', months);
    Cut(s, 5, month, '-', days);
    Cut(s, 8, day, 'T', time);
    Cut(s, 11, hour, ':', minutes);
    Cut(s, 14, minute, ':', seconds);
    Cut(s, 17, second, '.', ms + "Z");
    assert s[20..] == ms + (['Z'] + "");
    Cut(s, 20, ms, 'Z', "");
    assert s[23..] == [s[23]] + s[24..];
  }

  lemma FormatLaid(t: int)
    requires FourDigitYear(t)
    ensures Laid(Format(t), UtcDate(t), t % DAY) && Format(t)[23..] == "Z"
  {
    hide Decimal, YearText, Civil;
    YearBounds(t, 0, 9999);
    var d, r := UtcDate(t), t % DAY;
    YearDecimal(d.year);
    JoinedPieces(Format(t), Decimal(d.year, 4), Decimal(d.month, 2), Decimal(d.day, 2), Decimal(r / 3600000, 2),
      Decimal(r / 60000 % 60, 2), Decimal(r / 1000 % 60, 2), Decimal(r % 1000, 3));
  }

  lemma YearDecimal(y: int)
    requires 0 <= y <= 9999
    ensures YearText(y) == Decimal(y, 4)
  {
    assert Pow10(2) == 100 && Pow10(4) == 10000;
    PaddedDecimal(y, 4);
  }

  lemma LaidShape(s: string, d: Date, r: nat)
    requires 0 <= d.year && 0 <= d.month && 0 <= d.day && Laid(s, d, r) && ZonePart(s[23..])
    ensures ShapeWith(s, 3) && Shape(s) && FractionLength(s) == 3
  {
    hide Decimal;
    SliceDigits(s, 0, 4);
    SliceDigits(s, 5, 7);
    SliceDigits(s, 8, 10);
    SliceDigits(s, 11, 13);
    SliceDigits(s, 14, 16);
    SliceDigits(s, 17, 19);
    assert s[23] == s[23..][0];
    assert ShapeWith(s, 3);
    OnlyFraction(s, 3, FractionLength(s));
  }

  lemma TimeSplit(r: nat)
    requires r < 86400000
    ensures r / 3600000 < 24
    ensures r == r / 3600000 * 3600000 + r / 60000 % 60 * 60000 + r / 1000 % 60 * 1000 + r % 1000
  {
    assert r / 60000 == r / 1000 / 60;
    assert r / 3600000 == r / 60000 / 60;
  }

  lemma ReadLaid(s: string, d: Date, r: nat)
    requires Valid(d) && 0 <= d.year <= 9999 && r < 86400000 && Laid(s, d, r)
    requires ZonePart(s[23..]) && ZoneMinutes(s[23..]).Some?
    ensures Read(s) == Some(Fields(d, r / 3600000, r / 60000 % 60, r / 1000 % 60, r % 1000, ZoneMinutes(s[23..]).value))
  {
    hide Decimal, Number, Shape, FractionLength, DateTimePart, FractionPart;
    LaidShape(s, d, r);
    TimeSplit(r);
    assert Pow10(2) == 100 && Pow10(3) == 1000 && Pow10(4) == 10000;
    NumberDecimal(d.year, 4);
    NumberDecimal(d.month, 2);
    NumberDecimal(d.day, 2);
    NumberDecimal(r / 3600000, 2);
    NumberDecimal(r / 60000 % 60, 2);
    NumberDecimal(r / 1000 % 60, 2);
    NumberDecimal(r % 1000, 3);
  }

  /** The canonical text passes the shape check and denotes the same instant. */
  lemma FormatReads(t: int)
    requires FourDigitYear(t)
    ensures Shape(Format(t)) && Read(Format(t)).Some? && Instant(Read(Format(t)).value) == t
  {
    hide Decimal, Number, Format, Laid, Read, Shape;
    YearBounds(t, 0, 9999);
    FormatLaid(t);
    LaidShape(Format(t), UtcDate(t), t % DAY);
    ReadLaid(Format(t), UtcDate(t), t % DAY);
    TimeSplit(t % DAY);
    assert t == t / DAY * DAY + t % DAY;
  }

  /** `timestamp` denotes the instant of its input and is idempotent, for every accepted input
      whose UTC year has four digits. */
  lemma CanonicalKeepsInstant(raw: string)
    requires Read(raw).Some? && FourDigitYear(Instant(Read(raw).value))
    ensures var t := Canonical(raw).value;
      && Shape(t) && Read(t).Some? && Instant(Read(t).value) == Instant(Read(raw).value)
      && Canonical(t) == Some(t)
  {
    FormatReads(Instant(Read(raw).value));
  }

  /** And for no other: with a UTC year before 0000 or after 9999 the result fails the shape
      check that every stored time must pass. */
  lemma ShapeIffFourDigitYear(t: int)
    ensures Shape(Format(t)) <==> FourDigitYear(t)
  {
    YearBounds(t, 0, 9999);
    if FourDigitYear(t) {
      FormatReads(t);
    } else {
      var y, s := UtcDate(t).year, Format(t);
      if y < 0 {
        assert s[0] == YearText(y)[0] == '-';
      } else {
        assert Pow10(2) == 100 && Pow10(4) == 10000;
        PaddedLonger(y, 4);
        assert s[4] == YearText(y)[4];
      }
    }
  }

  /** So an accepted time's canonical form passes the check exactly when its UTC year has four digits. */
  lemma CanonicalShape(raw: string)
    requires Read(raw).Some?
    ensures Shape(Canonical(raw).value) <==> FourDigitYear(Instant(Read(raw).value))
  {
    hide Shape, Read, Format;
    ShapeIffFourDigitYear(Instant(Read(raw).value));
  }

  /** A canonical text with its `Z` replaced by one minute east of UTC. */
  function OneMinuteEast(text: string): string
    requires |text| >= 23
  {
    text[..23] + "+00:01"
  }

  /** Accepted, and yet the canonical form fails the shape check. */
  predicate LeavesShape(raw: string) {
    Read(raw).Some? && !Shape(Canonical(raw).value)
  }

  /** An accepted time can leave the four-digit years: in the first minute of year 0000, east of UTC. */
  lemma YearBeforeZero(t: int)
    requires 0 <= t < 60000
    ensures |Format(t)| >= 23 && LeavesShape(OneMinuteEast(Format(t)))
  {
    hide Shape, Read, Format, Canonical, Decimal, Civil, Instant, ZoneMinutes, ZonePart, DayNumber, YearText, FourDigitYear;
    StartOfCalendar(t);
    FormatLaid(t);
    var raw := OneMinuteEast(Format(t));
    assert raw[23..] == "+00:01" && raw[..23] == Format(t)[..23];
    LaidPrefix(Format(t), raw, UtcDate(t), t);
    OffsetRead("+00:01");
    ReadLaid(raw, UtcDate(t), t);
    EarliestInstant(Read(raw).value, t);
    CanonicalShape(raw);
  }

  lemma StartOfCalendar(t: int)
    requires 0 <= t < 60000
    ensures UtcDate(t) == Date(0, 1, 1) && t % DAY == t && FourDigitYear(t)
  {
    hide Civil, DayNumber;
    YearBounds(t, 0, 9999);
    Epoch(Date(0, 1, 1));
    assert t / DAY == 0;
  }

  lemma LaidPrefix(s: string, raw: string, d: Date, r: nat)
    requires 0 <= d.year && 0 <= d.month && 0 <= d.day && Laid(s, d, r)
    requires |raw| >= 24 && raw[..23] == s[..23]
    ensures Laid(raw, d, r)
  {
    hide Decimal;
    SamePiece(s, raw, 0, 4);
    SamePiece(s, raw, 4, 7);
    SamePiece(s, raw, 5, 7);
    SamePiece(s, raw, 7, 10);
    SamePiece(s, raw, 8, 10);
    SamePiece(s, raw, 10, 13);
    SamePiece(s, raw, 11, 13);
    SamePiece(s, raw, 13, 16);
    SamePiece(s, raw, 14, 16);
    SamePiece(s, raw, 16, 19);
    SamePiece(s, raw, 17, 19);
    SamePiece(s, raw, 19, 23);
    SamePiece(s, raw, 20, 23);
  }

  lemma SamePiece(s: string, raw: string, lo: nat, hi: nat)
    requires lo < hi <= 23 && |s| >= 23 && |raw| >= 23 && raw[..23] == s[..23]
    ensures raw[lo..hi] == s[lo..hi] && raw[lo] == s[lo]
  {
    forall k | lo <= k < hi
      ensures raw[k] == s[k]
    {
      assert raw[..23][k] == s[..23][k];
    }
  }

  lemma OffsetRead(zone: string)
    requires zone == "+00:01"
    ensures ZonePart(zone) && ZoneMinutes(zone) == Some(1)
  {
    ZoneDigits(zone);
    TwoDigits(zone[1..3]);
    TwoDigits(zone[4..6]);
  }

  lemma EarliestInstant(f: Fields, t: nat)
    requires t < 60000 && f == Fields(Date(0, 1, 1), t / 3600000, t / 60000 % 60, t / 1000 % 60, t % 1000, 1)
    ensures !FourDigitYear(Instant(f))
  {
    hide DayNumber, Civil, Previous;
    YearBounds(Instant(f), 0, 9999);
    Epoch(f.date);
    TimeSplit(t);
    DayBefore(Instant(f));
  }

  lemma DayBefore(t: int)
    requires -60000 <= t < 0
    ensures t / DAY == -1
  {
  }

  lemma TwoDigits(s: string)
    requires |s| == 2
    ensures Number(s) == 10 * DigitValue(s[0]) + DigitValue(s[1])
  {
    var head := s[..1];
    assert head[..0] == "" && Number("") == 0;
    assert Number(head) == DigitValue(s[0]);
  }

  // ----- String order is time order

  lemma {:induction false} DecimalOrders(a: nat, b: nat, w: nat, x: string, y: string)
    requires a < Pow10(w) && b < Pow10(w)
    ensures ByteOrder.Less(Decimal(a, w) + x, Decimal(b, w) + y) <==> a < b || (a == b && ByteOrder.Less(x, y))
    decreases w
  {
    if w == 0 {
      assert Decimal(a, 0) + x == x && Decimal(b, 0) + y == y;
    } else {
      var c, e := [DigitChar(a % 10)], [DigitChar(b % 10)];
      assert Decimal(a, w) + x == Decimal(a / 10, w - 1) + (c + x);
      assert Decimal(b, w) + y == Decimal(b / 10, w - 1) + (e + y);
      DecimalOrders(a / 10, b / 10, w - 1, c + x, e + y);
      FirstChar(DigitChar(a % 10), x, DigitChar(b % 10), y);
      TensSplit(a, b);
    }
  }

  lemma FirstChar(c: char, x: string, e: char, y: string)
    ensures ByteOrder.Less([c] + x, [e] + y) <==> c < e || (c == e && ByteOrder.Less(x, y))
  {
    assert ([c] + x)[1..] == x && ([e] + y)[1..] == y;
  }

  /** One field and the separator behind it. */
  lemma FieldOrders(a: nat, b: nat, w: nat, c: char, x: string, y: string)
    requires a < Pow10(w) && b < Pow10(w)
    ensures ByteOrder.Less(Decimal(a, w) + ([c] + x), Decimal(b, w) + ([c] + y)) <==> a < b || (a == b && ByteOrder.Less(x, y))
  {
    DecimalOrders(a, b, w, [c] + x, [c] + y);
    FirstChar(c, x, c, y);
  }

  lemma TimeTextOrders(q: nat, r: nat)
    requires q < 86400000 && r < 86400000
    ensures ByteOrder.Less(TimeText(q), TimeText(r)) <==> q < r
  {
    hide Decimal, ByteOrder.Less;
    assert Pow10(2) == 100 && Pow10(3) == 1000;
    TimeSplit(q);
    TimeSplit(r);
    var s0, s1 := Decimal(q % 1000, 3) + "Z", Decimal(r % 1000, 3) + "Z";
    DecimalOrders(q % 1000, r % 1000, 3, "Z", "Z");
    ByteOrder.Irreflexive("Z");
    var m0, m1 := Decimal(q / 1000 % 60, 2) + ("." + s0), Decimal(r / 1000 % 60, 2) + ("." + s1);
    FieldOrders(q / 1000 % 60, r / 1000 % 60, 2, '.', s0, s1);
    var h0, h1 := Decimal(q / 60000 % 60, 2) + (":" + m0), Decimal(r / 60000 % 60, 2) + (":" + m1);
    FieldOrders(q / 60000 % 60, r / 60000 % 60, 2, ':', m0, m1);
    FieldOrders(q / 3600000, r / 3600000, 2, ':', h0, h1);
  }

  /** The canonical text after its year. */
  function Tail(t: int): string {
    "-" + (Decimal(UtcDate(t).month, 2) + ("-" + (Decimal(UtcDate(t).day, 2) + ("T" + TimeText(t % DAY)))))
  }

  /** Earlier in the year, whatever the years are. */
  predicate EarlierInYear(a: int, b: int) {
    var d, e := UtcDate(a), UtcDate(b);
    d.month < e.month || (d.month == e.month && (d.day < e.day || (d.day == e.day && a % DAY < b % DAY)))
  }

  lemma TailOrders(a: int, b: int)
    ensures ByteOrder.Less(Tail(a), Tail(b)) <==> EarlierInYear(a, b)
  {
    hide Decimal, ByteOrder.Less, TimeText, DayNumber, Civil;
    var d, e, q, r := UtcDate(a), UtcDate(b), a % DAY, b % DAY;
    TimeTextOrders(q, r);
    assert Pow10(2) == 100;
    var d0, d1 := Decimal(d.day, 2) + ("T" + TimeText(q)), Decimal(e.day, 2) + ("T" + TimeText(r));
    FieldOrders(d.day, e.day, 2, 'T', TimeText(q), TimeText(r));
    var m0, m1 := Decimal(d.month, 2) + ("-" + d0), Decimal(e.month, 2) + ("-" + d1);
    FieldOrders(d.month, e.month, 2, '-', d0, d1);
    FirstChar('-', m0, '-', m1);
  }

  lemma YearThenTail(a: int, b: int)
    ensures a < b <==> UtcDate(a).year < UtcDate(b).year || (UtcDate(a).year == UtcDate(b).year && EarlierInYear(a, b))
  {
    hide DayNumber, Civil;
    DayNumberOrders(UtcDate(a), UtcDate(b));
    assert a == a / DAY * DAY + a % DAY && b == b / DAY * DAY + b % DAY;
  }

  /** Comparing canonical texts is comparing instants. */
  lemma FormatOrders(a: int, b: int)
    requires FourDigitYear(a) && FourDigitYear(b)
    ensures ByteOrder.Less(Format(a), Format(b)) <==> a < b
  {
    hide Decimal, ByteOrder.Less, TimeText, YearText, EarlierInYear, Civil;
    YearBounds(a, 0, 9999);
    YearBounds(b, 0, 9999);
    var y, z := UtcDate(a).year, UtcDate(b).year;
    YearDecimal(y);
    YearDecimal(z);
    assert Pow10(4) == 10000;
    TailOrders(a, b);
    YearThenTail(a, b);
    assert Format(a) == Decimal(y, 4) + Tail(a) && Format(b) == Decimal(z, 4) + Tail(b);
    DecimalOrders(y, z, 4, Tail(a), Tail(b));
  }
}
