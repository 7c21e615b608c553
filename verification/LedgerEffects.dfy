/** What a change leaves in the ledger, field by field. */
module LedgerEffects {
  import opened Wrappers
  import opened JsonTree
  import opened LedgerModel
  import opened LedgerHistory
  import opened LedgerReader
  import opened LedgerRuns
  import ByteOrder
  import Timestamp

  /** The stored links are the given ones, each as its validation returns it, in order and without repetition. */
  ghost predicate LinksAre(env: Env, given: seq<Link>, stored: seq<Link>) {
    && |stored| == |given| <= MAXIMUM_LINKS
    && (forall i :: 0 <= i < |given| ==> env.create(given[i].name, given[i].url) == Some(stored[i]))
    && (forall i, j :: 0 <= i < j < |stored| ==> stored[i] != stored[j])
  }

  lemma {:induction false} ValidatedAre(env: Env, links: seq<Link>, n: nat)
    requires n <= |links| && Validated(env, links, n).Some?
    ensures var stored := Validated(env, links, n).value;
      && |stored| == n && (forall i :: 0 <= i < n ==> env.create(links[i].name, links[i].url) == Some(stored[i]))
      && (forall i, j :: 0 <= i < j < n ==> stored[i] != stored[j])
  {
    if n > 0 {
      ValidatedAre(env, links, n - 1);
      var earlier := Validated(env, links, n - 1).value;
      assert forall i :: 0 <= i < n - 1 ==> earlier[i] in earlier;
    }
  }

  /** A recorded change: one revision on, the later of the two times, and the active author stamped
      as the last one; links, keys and profiles are the prepared ones. */
  ghost predicate Records(next: State, at: string, s: State) {
    && s.revision == next.revision + 1 && s.links == next.links && s.active == next.active && s.lastAuthor == next.active
    && s.modifiedAt == (if next.modifiedAt == "" || ByteOrder.Less(next.modifiedAt, at) then at else next.modifiedAt)
    && |s.authors| == |next.authors|
    && forall i :: 0 <= i < |next.authors| ==> StampedRecord(next.authors[i], s.authors[i], next.active, s.modifiedAt)
  }

  predicate StampedRecord(r: Record, r': Record, active: string, at: string) {
    && r'.key == r.key && r'.profile == r.profile
    && if r.key == active then r'.last == at && r'.first == (if r.first == "" then at else r.first)
       else r'.first == r.first && r'.last == r.last
  }

  lemma RecordedRecords(next: State, at: string)
    requires KeysDistinct(next.authors)
    ensures Records(next, at, Recorded(next, at))
  {
    var m := Later(next.modifiedAt, at);
    forall i | 0 <= i < |next.authors|
      ensures StampedRecord(next.authors[i], Recorded(next, at).authors[i], next.active, m)
    {
      StampedAt(next.authors, next.active, m, i);
    }
  }

  lemma StoredKeys(env: Env, s: State)
    requires WellFormed(env, s)
    ensures KeysDistinct(s.authors)
  {
    hide LinksOk, IsTime, HasKey, RecordOk;
  }

  /** A recorded change keeps everything else. */
  lemma RecordChangeStores(env: Env, s: State, at: string)
    requires WellFormed(env, s) && Accepted(s, at)
    ensures Records(s, Timestamp.Canonical(at).value, Step(env, s, RecordChange(at)))
  {
    hide WellFormed, Accepted, Recorded, Records, Timestamp.Canonical;
    StoredKeys(env, s);
    AcceptedTime(s, at);
    RecordedRecords(s, Timestamp.Canonical(at).value);
  }

  lemma AcceptedTime(s: State, at: string)
    requires Accepted(s, at)
    ensures Timestamp.Canonical(at).Some?
  {
    hide Timestamp.Canonical;
  }

  /** Setting other links stores them and records a change of the same author. */
  lemma SetLinksStores(env: Env, s: State, links: seq<Link>, at: string)
    requires WellFormed(env, s) && Step(env, s, SetLinks(links, at)) != s
    ensures Timestamp.Canonical(at).Some?
    ensures var s' := Step(env, s, SetLinks(links, at));
      LinksAre(env, links, s'.links) && s'.links != s.links && Records(s.(links := s'.links), Timestamp.Canonical(at).value, s')
  {
    hide WellFormed, Accepted, Recorded, Records, Timestamp.Canonical;
    StoredKeys(env, s);
    var parsed := ValidatedLinks(env, links).value;
    ValidatedAre(env, links, |links|);
    AcceptedTime(s.(links := parsed), at);
    RecordedRecords(s.(links := parsed), Timestamp.Canonical(at).value);
    RecordsLinks(s.(links := parsed), Timestamp.Canonical(at).value, Step(env, s, SetLinks(links, at)));
  }

  lemma RecordsLinks(next: State, at: string, s: State)
    requires Records(next, at, s)
    ensures s.links == next.links && s.active == next.active && s.lastAuthor == next.active && s.revision == next.revision + 1
    ensures |s.authors| == |next.authors|
  {
  }

  /** The author of a change is active and last, has the given profile, and is stamped with the
      ledger's time: in its old place if it was known, else at the end. Nobody else changes. */
  ghost predicate AuthorSigns(s: State, s': State, key: string, profile: Json) {
    && s'.active == key && s'.lastAuthor == key && s'.revision == s.revision + 1
    && |s'.authors| == |s.authors| + (if HasKey(s.authors, key) then 0 else 1)
    && (forall i :: 0 <= i < |s.authors| ==>
          if s.authors[i].key == key then
            && s'.authors[i].key == key && s'.authors[i].profile == profile && s'.authors[i].last == s'.modifiedAt
            && s'.authors[i].first == (if s.authors[i].first == "" then s'.modifiedAt else s.authors[i].first)
          else s'.authors[i] == s.authors[i])
    && (!HasKey(s.authors, key) ==> s'.authors[|s.authors|] == Record(key, profile, s'.modifiedAt, s'.modifiedAt))
  }

  /** Setting an author, where it changes the ledger, stores the links and the profile and signs. */
  lemma SetAuthorStores(env: Env, s: State, profile: Json, links: seq<Link>, at: string)
    requires WellFormed(env, s) && Step(env, s, SetAuthor(profile, links, at)).revision != s.revision
    ensures Timestamp.Canonical(at).Some?
    ensures var s' := Step(env, s, SetAuthor(profile, links, at));
      && LinksAre(env, links, s'.links) && AuthorSigns(s, s', env.key(profile), profile)
      && s'.modifiedAt == (if s.modifiedAt == "" || ByteOrder.Less(s.modifiedAt, Timestamp.Canonical(at).value)
                           then Timestamp.Canonical(at).value else s.modifiedAt)
  {
    hide WellFormed, Accepted, Recorded, Records, Timestamp.Canonical, AuthorSigns, Registered, LinksAre, Validated;
    StoredKeys(env, s);
    var parsed := ValidatedLinks(env, links).value;
    var next := WithAuthor(env, s, profile, parsed);
    var t := Timestamp.Canonical(at);
    assert LinksAre(env, links, parsed) by { LinksStored(env, links, parsed); }
    AcceptedTime(next, at);
    RegisteredKeysDistinct(s.authors, env.key(profile), profile);
    RecordedRecords(next, t.value);
    RecordsLinks(next, t.value, Recorded(next, t.value));
    RecordsTime(next, t.value, Recorded(next, t.value));
    Signs(env, s, profile, parsed, t.value, Recorded(next, t.value));
  }

  lemma LinksStored(env: Env, links: seq<Link>, parsed: seq<Link>)
    requires ValidatedLinks(env, links) == Some(parsed)
    ensures LinksAre(env, links, parsed)
  {
    ValidatedAre(env, links, |links|);
  }

  lemma RecordsTime(next: State, at: string, s: State)
    requires Records(next, at, s)
    ensures s.modifiedAt == (if next.modifiedAt == "" || ByteOrder.Less(next.modifiedAt, at) then at else next.modifiedAt)
  {
  }

  lemma Signs(env: Env, s: State, profile: Json, parsed: seq<Link>, at: string, s': State)
    requires KeysDistinct(s.authors) && Records(WithAuthor(env, s, profile, parsed), at, s')
    ensures AuthorSigns(s, s', env.key(profile), profile)
  {
    hide Registered, HasKey, Later;
    var key := env.key(profile);
    var registered := Registered(s.authors, key, profile);
    RegisteredSize(s.authors, key, profile);
    forall i | 0 <= i < |s.authors|
      ensures registered[i] == (if s.authors[i].key == key then s.authors[i].(profile := profile) else s.authors[i])
      ensures StampedRecord(registered[i], s'.authors[i], key, s'.modifiedAt)
    {
      RegisteredAt(s.authors, key, profile, i);
    }
    if !HasKey(s.authors, key) {
      assert StampedRecord(registered[|s.authors|], s'.authors[|s.authors|], key, s'.modifiedAt);
    }
  }
}
