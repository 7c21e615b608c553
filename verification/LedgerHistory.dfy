/** What a change keeps: every ledger the mutators reach is well formed, and one step only grows it. */
module LedgerHistory {
  import opened Wrappers
  import opened LedgerModel
  import opened JsonTree
  import opened JsonText
  import ByteOrder
  import Timestamp

  // ----- Byte order on times

  lemma NotLessTransitive(a: string, b: string, c: string)
    requires !ByteOrder.Less(b, a) && !ByteOrder.Less(c, b)
    ensures !ByteOrder.Less(c, a)
  {
    if ByteOrder.Less(c, a) {
      ByteOrder.Total(a, b);
      if a != b {
        ByteOrder.Transitive(c, a, b);
      }
    }
  }

  lemma LaterBounds(a: string, b: string)
    ensures !ByteOrder.Less(Later(a, b), a) && (a != "" ==> !ByteOrder.Less(Later(a, b), b))
    ensures a == "" ==> Later(a, b) == b
  {
    if ByteOrder.Less(a, b) {
      if ByteOrder.Less(b, a) {
        ByteOrder.Transitive(a, b, a);
        ByteOrder.Irreflexive(a);
      }
      ByteOrder.Irreflexive(b);
    } else {
      ByteOrder.Irreflexive(a);
    }
  }

  // ----- The roster, record by record

  ghost predicate KeysDistinct(authors: seq<Record>) {
    forall i, j :: 0 <= i < j < |authors| ==> authors[i].key != authors[j].key
  }

  lemma {:induction false} StampedAt(authors: seq<Record>, active: string, at: string, i: nat)
    requires KeysDistinct(authors) && i < |authors|
    ensures Stamped(authors, active, at)[i] ==
      if authors[i].key == active then authors[i].(first := if authors[i].first == "" then at else authors[i].first, last := at)
      else authors[i]
  {
    if authors[0].key != active && i > 0 {
      StampedAt(authors[1..], active, at, i - 1);
    }
  }

  lemma {:induction false} RegisteredAt(authors: seq<Record>, key: string, profile: Json, i: nat)
    requires KeysDistinct(authors)
    requires i < |authors|
    ensures |Registered(authors, key, profile)| == |authors| + if HasKey(authors, key) then 0 else 1
    ensures Registered(authors, key, profile)[i] ==
      if authors[i].key == key then authors[i].(profile := profile) else authors[i]
    ensures !HasKey(authors, key) ==> Registered(authors, key, profile)[|authors|] == Record(key, profile, "", "")
  {
    if authors[0].key != key {
      TailKeys(authors, key);
      if |authors| > 1 {
        RegisteredAt(authors[1..], key, profile, if i == 0 then 0 else i - 1);
      }
    }
  }

  lemma TailKeys(authors: seq<Record>, key: string)
    requires authors != [] && authors[0].key != key
    ensures HasKey(authors, key) <==> HasKey(authors[1..], key)
  {
    if HasKey(authors, key) {
      var i :| 0 <= i < |authors| && authors[i].key == key;
      assert authors[1..][i - 1].key == key;
    }
    if HasKey(authors[1..], key) {
      var i :| 0 <= i < |authors[1..]| && authors[1..][i].key == key;
      assert authors[i + 1].key == key;
    }
  }

  lemma RegisteredKeysDistinct(authors: seq<Record>, key: string, profile: Json)
    requires KeysDistinct(authors)
    ensures KeysDistinct(Registered(authors, key, profile)) && HasKey(Registered(authors, key, profile), key)
  {
    var r := Registered(authors, key, profile);
    if authors == [] {
      assert r[0].key == key;
    } else {
      forall i | 0 <= i < |authors|
        ensures |r| == |authors| + (if HasKey(authors, key) then 0 else 1) && r[i].key == authors[i].key
      {
        RegisteredAt(authors, key, profile, i);
      }
      RegisteredAt(authors, key, profile, 0);
      if HasKey(authors, key) {
        var i :| 0 <= i < |authors| && authors[i].key == key;
        assert r[i].key == key;
      } else {
        assert r[|authors|].key == key;
      }
    }
  }

  // ----- One step

  /** A roster on its way to `recordChange`: only the active author may still lack its times. */
  ghost predicate Pending(env: Env, r: Record, active: string, modifiedAt: string) {
    && r.key == env.key(r.profile) && env.canonical(r.profile) == Some(r.profile)
    && (RecordOk(env, r, modifiedAt) || (r.first == "" && r.last == "" && r.key == active))
  }

  /** The copy a mutator prepares from a well-formed ledger before it records the change. */
  ghost predicate Prepared(env: Env, before: State, next: State) {
    && WellFormed(env, before)
    && next.revision == before.revision && next.modifiedAt == before.modifiedAt
    && KeysDistinct(next.authors) && |next.authors| <= MAXIMUM_AUTHORS
    && |before.authors| <= |next.authors| <= |before.authors| + 1
    && (forall i :: 0 <= i < |next.authors| ==> Pending(env, next.authors[i], next.active, next.modifiedAt))
    && (forall i :: 0 <= i < |before.authors| ==>
      KeepsTimes(before.authors[i], next.authors[i]))
    && (forall i :: |before.authors| <= i < |next.authors| ==>
      next.authors[i].first == "" && next.authors[i].last == "" && next.authors[i].key == next.active)
    && (next.active == "" || HasKey(next.authors, next.active))
    && LinksOk(env, next.links)
  }

  lemma StampedRecordOk(env: Env, r: Record, active: string, old_: string, at: string)
    requires Pending(env, r, active, old_) && IsTime(at) && (old_ == "" || IsTime(old_))
    ensures var m := Later(old_, at);
      IsTime(m)
      && RecordOk(env, if r.key == active then r.(first := if r.first == "" then m else r.first, last := m) else r, m)
  {
    var m := Later(old_, at);
    LaterBounds(old_, at);
    ByteOrder.Irreflexive(m);
    if RecordOk(env, r, old_) {
      NotLessTransitive(r.last, old_, m);
      NotLessTransitive(r.first, r.last, m);
      TimesAreTexts(r.first);
    }
  }

  lemma TimesAreTexts(t: string)
    requires IsTime(t)
    ensures t != ""
  {
    var raw :| Timestamp.Canonical(raw) == Some(t);
    var f := Timestamp.Read(raw).value;
    assert t == Timestamp.Format(Timestamp.Instant(f));
  }

  lemma StampedHasKey(authors: seq<Record>, active: string, at: string, key: string)
    requires KeysDistinct(authors) && HasKey(authors, key)
    ensures HasKey(Stamped(authors, active, at), key)
  {
    var i :| 0 <= i < |authors| && authors[i].key == key;
    StampedAt(authors, active, at, i);
    assert Stamped(authors, active, at)[i].key == key;
  }

  /** Recording a prepared change gives a well-formed ledger, as far as its text is within bounds. */
  lemma RecordedWellFormed(env: Env, before: State, next: State, at: string)
    requires Prepared(env, before, next) && IsTime(at) && next.revision < MAXIMUM_REVISION
    requires |Print(Tree(Recorded(next, at)))| <= MAXIMUM_BYTES
    ensures WellFormed(env, Recorded(next, at)) && Grows(before, Recorded(next, at))
  {
    hide Print, Tree, Stamped, RecordOk, IsTime, Later;
    var after := Recorded(next, at);
    var m := Later(next.modifiedAt, at);
    LaterBounds(next.modifiedAt, at);
    assert IsTime(m) by {
      LaterIsOneOf(next.modifiedAt, at);
    }
    forall i | 0 <= i < |next.authors|
      ensures RecordOk(env, after.authors[i], m) && after.authors[i].key == next.authors[i].key
    {
      StampedAt(next.authors, next.active, m, i);
      StampedRecordOk(env, next.authors[i], next.active, next.modifiedAt, at);
    }
    if next.active != "" {
      StampedHasKey(next.authors, next.active, m, next.active);
    }
    forall i | 0 <= i < |before.authors|
      ensures after.authors[i].first == before.authors[i].first && !ByteOrder.Less(after.authors[i].last, before.authors[i].last)
    {
      StampedAt(next.authors, next.active, m, i);
      RecordTimes(env, before.authors[i], before.modifiedAt);
      ByteOrder.Irreflexive(before.authors[i].last);
      NotLessTransitive(before.authors[i].last, before.modifiedAt, m);
    }
  }

  lemma LaterIsOneOf(a: string, b: string)
    ensures Later(a, b) == b || (a != "" && Later(a, b) == a)
  {
  }

  lemma RecordTimes(env: Env, r: Record, modifiedAt: string)
    requires RecordOk(env, r, modifiedAt)
    ensures r.first != "" && !ByteOrder.Less(modifiedAt, r.last)
  {
    TimesAreTexts(r.first);
  }

  /** Four-digit years in, four-digit years kept. */
  lemma RecordedDated(env: Env, before: State, next: State, at: string)
    requires Prepared(env, before, next) && Dated(before) && Timestamp.Shape(at)
    ensures Dated(Recorded(next, at))
  {
    hide Stamped, RecordOk, Timestamp.Shape;
    var m := Later(next.modifiedAt, at);
    forall i | 0 <= i < |next.authors|
      ensures Timestamp.Shape(Recorded(next, at).authors[i].first) && Timestamp.Shape(Recorded(next, at).authors[i].last)
    {
      StampedAt(next.authors, next.active, m, i);
    }
  }

  // ----- The copies the mutators prepare

  lemma PreparedUnchanged(env: Env, before: State, links: seq<Link>)
    requires WellFormed(env, before) && LinksOk(env, links)
    ensures Prepared(env, before, before.(links := links))
  {
    hide Print, Tree, LinksOk, IsTime, HasKey;
    var next := before.(links := links);
    assert forall i :: 0 <= i < |next.authors| ==> Pending(env, next.authors[i], next.active, next.modifiedAt);
    assert KeysDistinct(next.authors);
  }

  lemma PreparedByAuthor(env: Env, before: State, profile: Json, links: seq<Link>)
    requires WellFormed(env, before) && LinksOk(env, links) && env.canonical(profile) == Some(profile)
    requires HasKey(before.authors, env.key(profile)) || |before.authors| < MAXIMUM_AUTHORS
    ensures var key := env.key(profile);
      Prepared(env, before, before.(active := key, authors := Registered(before.authors, key, profile), links := links))
  {
    hide Print, Tree, Registered, RecordOk, IsTime, LinksOk, HasKey, Pending;
    var key := env.key(profile);
    var authors := Registered(before.authors, key, profile);
    RegisteredKeysDistinct(before.authors, key, profile);
    RegisteredSize(before.authors, key, profile);
    forall i | 0 <= i < |authors|
      ensures Pending(env, authors[i], key, before.modifiedAt)
      ensures i < |before.authors| ==> KeepsTimes(before.authors[i], authors[i])
    {
      RegisteredPending(env, before.authors, key, profile, before.modifiedAt, i);
    }
  }

  predicate KeepsTimes(r: Record, r': Record) {
    r'.key == r.key && r'.first == r.first && r'.last == r.last
  }

  lemma RegisteredPending(env: Env, authors: seq<Record>, key: string, profile: Json, modifiedAt: string, i: nat)
    requires KeysDistinct(authors) && (forall i :: 0 <= i < |authors| ==> RecordOk(env, authors[i], modifiedAt))
    requires env.canonical(profile) == Some(profile) && key == env.key(profile) && i < |Registered(authors, key, profile)|
    ensures Pending(env, Registered(authors, key, profile)[i], key, modifiedAt)
    ensures i < |authors| ==> KeepsTimes(authors[i], Registered(authors, key, profile)[i])
  {
    hide IsTime;
    RegisteredSize(authors, key, profile);
    if i < |authors| {
      RegisteredAt(authors, key, profile, i);
    }
  }

  lemma {:induction false} RegisteredSize(authors: seq<Record>, key: string, profile: Json)
    ensures |authors| <= |Registered(authors, key, profile)| <= |authors| + 1
    ensures |Registered(authors, key, profile)| == |authors| + if HasKey(authors, key) then 0 else 1
    ensures |Registered(authors, key, profile)| > |authors| ==>
      !HasKey(authors, key) && Registered(authors, key, profile)[|authors|] == Record(key, profile, "", "")
  {
    if authors != [] && authors[0].key != key {
      TailKeys(authors, key);
      RegisteredSize(authors[1..], key, profile);
    }
  }
}
