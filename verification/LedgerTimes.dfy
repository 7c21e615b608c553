/** Stored times as instants: timely changes never take one back, and which others do. */
module LedgerTimes {
  import opened Wrappers
  import opened Decimals
  import opened JsonText
  import opened LedgerModel
  import opened LedgerReader
  import opened LedgerRuns
  import opened LedgerWriter
  import opened TimeOrder
  import ByteOrder
  import Timestamp

  function InstantOf(t: string): int
    requires Timestamp.Read(t).Some?
  {
    Timestamp.Instant(Timestamp.Read(t).value)
  }

  // ----- Timely changes

  /** Both are times, and the second is no earlier. */
  ghost predicate NotBefore(a: string, b: string) {
    Timestamp.Read(a).Some? && Timestamp.Read(b).Some? && InstantOf(a) <= InstantOf(b)
  }

  lemma StoredOrder(a: string, b: string)
    requires IsTime(a) && IsTime(b) && Timestamp.Shape(a) && Timestamp.Shape(b) && !ByteOrder.Less(b, a)
    ensures NotBefore(a, b)
  {
    hide Timestamp.Shape, Timestamp.Format, Timestamp.Read, Timestamp.FourDigitYear, Timestamp.Instant;
    TimeBack(a);
    TimeBack(b);
    Timestamp.ShapeIffFourDigitYear(InstantOf(a));
    Timestamp.ShapeIffFourDigitYear(InstantOf(b));
    Timestamp.FormatOrders(InstantOf(b), InstantOf(a));
  }

  /** As instants, the time of the last change and every author's own never go back. */
  ghost predicate InstantsKept(s: State, s': State) {
    && (s.modifiedAt != "" ==> NotBefore(s.modifiedAt, s'.modifiedAt))
    && |s.authors| <= |s'.authors|
    && forall i :: 0 <= i < |s.authors| ==>
      NotBefore(s.authors[i].first, s'.authors[i].first) && NotBefore(s.authors[i].last, s'.authors[i].last)
  }

  lemma ExtendsInstants(env: Env, s: State, s': State)
    requires WellFormed(env, s) && WellFormed(env, s') && Dated(s) && Dated(s') && Extends(s, s')
    ensures InstantsKept(s, s')
  {
    hide IsTime, NotBefore, Timestamp.Shape, Print, Tree, LinksOk, HasKey;
    if s.modifiedAt != "" {
      assert s'.modifiedAt != "";
      StoredOrder(s.modifiedAt, s'.modifiedAt);
    }
    forall i | 0 <= i < |s.authors|
      ensures NotBefore(s.authors[i].first, s'.authors[i].first) && NotBefore(s.authors[i].last, s'.authors[i].last)
    {
      assert RecordOk(env, s.authors[i], s.modifiedAt) && RecordOk(env, s'.authors[i], s'.modifiedAt);
      ByteOrder.Irreflexive(s.authors[i].first);
      StoredOrder(s.authors[i].first, s'.authors[i].first);
      StoredOrder(s.authors[i].last, s'.authors[i].last);
    }
  }

  /** Along a run of timely changes no stored time ever goes back as an instant. */
  lemma TimelyRunKeepsInstants(env: Env, events: seq<Event>, n: nat)
    requires Lawful(env) && n <= |events| && forall e :: e in events ==> Timely(e)
    ensures InstantsKept(Run(env, events[..n]), Run(env, events))
  {
    hide Lawful, WellFormed, Dated, Extends, InstantsKept, Timely, Run;
    RunState(env, events);
    RunState(env, events[..n]);
    RunExtends(env, events, n);
    ExtendsInstants(env, Run(env, events[..n]), Run(env, events));
  }

  // ----- Other changes

  /** Recording a change takes the ledger's time back exactly when the stored one has left the
      four-digit years for the year 10000 and the new one lies in the years 1001 to 9999. */
  lemma GoesBackExactly(s: State, stored: string, at: string)
    requires Timestamp.Canonical(stored) == Some(s.modifiedAt) && Timestamp.Canonical(at).Some? && s.modifiedAt != ""
    ensures var s' := Recorded(s, Timestamp.Canonical(at).value);
      s'.modifiedAt != s.modifiedAt && InstantOf(at) < InstantOf(stored)
      <==> InYear10000(InstantOf(stored)) && Timestamp.InYears(InstantOf(at), 1001, 9999)
  {
    hide Timestamp.Read, Timestamp.Format, Timestamp.Instant, Timestamp.InYears, Stamped;
    AcceptedYears(stored);
    AcceptedYears(at);
    GreaterTextEarlierTime(InstantOf(stored), InstantOf(at));
    ByteOrder.Irreflexive(s.modifiedAt);
  }

  lemma PlainJoin(a: string, b: string)
    requires Plain(a) && Plain(b)
    ensures Plain(a + b)
  {
  }

  /** One field with the separator behind it. */
  lemma PlainField(n: nat, w: nat, sign: string, rest: string)
    requires Plain(sign) && Plain(rest)
    ensures Plain(Decimal(n, w) + (sign + rest)) && |Decimal(n, w) + (sign + rest)| == w + |sign| + |rest|
  {
    hide Plain;
    PlainDigits();
    PlainJoin(sign, rest);
    PlainJoin(Decimal(n, w), sign + rest);
  }

  lemma PlainTime(r: nat)
    ensures Plain(Timestamp.TimeText(r)) && |Timestamp.TimeText(r)| == 13
  {
    hide Plain, Decimal;
    PlainSigns();
    var millis := Decimal(r % 1000, 3) + "Z";
    PlainDigits();
    PlainJoin(Decimal(r % 1000, 3), "Z");
    var seconds := Decimal(r / 1000 % 60, 2) + ("." + millis);
    PlainField(r / 1000 % 60, 2, ".", millis);
    var minutes := Decimal(r / 60000 % 60, 2) + (":" + seconds);
    PlainField(r / 60000 % 60, 2, ":", seconds);
    PlainField(r / 3600000, 2, ":", minutes);
  }

  lemma PlainTail(t: int)
    ensures Plain(Timestamp.Tail(t)) && |Timestamp.Tail(t)| == 20
  {
    hide Plain, Decimal, Timestamp.TimeText, Timestamp.UtcDate;
    DateParts(t);
    var d, time := Timestamp.UtcDate(t), Timestamp.TimeText(t % Timestamp.DAY);
    PlainSigns();
    PlainTime(t % Timestamp.DAY);
    var day := Decimal(d.day, 2) + ("T" + time);
    PlainField(d.day, 2, "T", time);
    PlainField(d.month, 2, "-", day);
    PlainJoin("-", Decimal(d.month, 2) + ("-" + day));
  }

  lemma PlainDigits()
    ensures forall n: nat, w: nat :: Plain(Decimal(n, w))
  {
    forall n: nat, w: nat
      ensures Plain(Decimal(n, w))
    {
      assert Digits(Decimal(n, w));
    }
  }

  lemma PlainSigns()
    ensures Plain("Z") && Plain(".") && Plain(":") && Plain("T") && Plain("-") && Plain("0")
  {
  }

  /** The canonical text of a year from 0000 to 10000 is short and needs no escapes. */
  lemma FormatBare(t: int)
    requires Timestamp.InYears(t, 0, 10000)
    ensures Plain(Timestamp.Format(t)) && 24 <= |Timestamp.Format(t)| <= 25
  {
    hide Plain, Decimal, Timestamp.UtcDate, Timestamp.TimeText, Timestamp.YearText;
    Timestamp.YearBounds(t, 0, 10000);
    PlainTail(t);
    PlainDigits();
    PlainSigns();
    var y := Timestamp.UtcDate(t).year;
    var year := Timestamp.YearText(y);
    if y == 10000 {
      FiveDigits();
      PlainJoin(Decimal(1000, 4), "0");
    } else {
      Timestamp.YearDecimal(y);
    }
    PlainJoin(year, Timestamp.Tail(t));
    assert Timestamp.Format(t) == year + Timestamp.Tail(t);
  }

  /** Recording on a ledger that nobody has signed goes through. */
  lemma BareAccepts(s: State, at: string)
    requires Timestamp.Read(at).Some? && Timestamp.InYears(InstantOf(at), 0, 10000)
    requires s.authors == [] && s.links == [] && s.active == "" && s.revision < 9 && Plain(s.modifiedAt) && |s.modifiedAt| <= 40
    ensures Accepted(s, at)
  {
    hide Timestamp.Read, Timestamp.Format, Timestamp.Instant, Timestamp.InYears, Print, Tree, Plain;
    FormatBare(InstantOf(at));
    BareFits(Recorded(s, Timestamp.Canonical(at).value));
  }

  /** Two changes: one in the last millisecond of the year 9999 west of UTC, then one on that day. */
  const BackChanges := [RecordChange(LastMinute), RecordChange(SameDay)]

  /** It happens: the second change goes through and takes the ledger's time back. */
  lemma PairGoesBack(env: Env)
    requires Lawful(env)
    ensures Timestamp.Read(LastMinute).Some? && Timestamp.Read(SameDay).Some? && InstantOf(SameDay) < InstantOf(LastMinute)
    ensures Timestamp.Canonical(LastMinute) == Some(Run(env, BackChanges[..1]).modifiedAt)
    ensures Timestamp.Canonical(SameDay) == Some(Run(env, BackChanges).modifiedAt)
  {
    hide Timestamp.Read, Timestamp.Format, Timestamp.Instant, Accepted, Lawful, Plain, Timestamp.InYears;
    PairYears();
    var u, v := InstantOf(LastMinute), InstantOf(SameDay);
    YearsWithin(u, v);
    FormatBare(u);
    assert Plain(Empty.modifiedAt) by { PlainNothing(); }
    BareAccepts(Empty, LastMinute);
    var s := Recorded(Empty, Timestamp.Format(u));
    BareAccepts(s, SameDay);
    GreaterTextEarlierTime(u, v);
    OneChange(env, LastMinute, Empty, []);
    assert BackChanges[..1] == [] + [RecordChange(LastMinute)];
    OneChange(env, SameDay, s, BackChanges[..1]);
    assert BackChanges == BackChanges[..1] + [RecordChange(SameDay)];
  }

  lemma PlainNothing()
    ensures Plain("")
  {
  }

  lemma YearsWithin(u: int, v: int)
    requires InYear10000(u) && Timestamp.InYears(v, 9999, 9999)
    ensures Reachable(u) && Reachable(v) && Timestamp.InYears(u, 0, 10000) && Timestamp.InYears(v, 0, 10000)
    ensures Timestamp.InYears(v, 1001, 9999)
  {
  }

  lemma OneChange(env: Env, at: string, s: State, before: seq<Event>)
    requires Accepted(s, at) && Run(env, before) == s
    ensures Timestamp.Canonical(at).Some?
    ensures Run(env, before + [RecordChange(at)]) == Recorded(s, Timestamp.Canonical(at).value)
  {
    hide Timestamp.Canonical, Recorded;
    var all := before + [RecordChange(at)];
    assert all[..|all| - 1] == before;
  }
}
