/** The authorship ledger as the object its callers hold: every mutator works on a copy and
    assigns it only when the new text has been built and fits. */
module Ledger {
  import opened Wrappers
  import opened JsonTree
  import opened JsonText
  import opened LedgerModel
  import opened LedgerHistory
  import opened LedgerReader
  import opened LedgerRuns
  import opened LedgerWriter
  import Timestamp

  datatype Outcome = Rejected | Unchanged | Changed

  class Authorship {
    const env: Env
    var revision: nat
    var modifiedAt: string
    var authors: seq<Record>
    var links: seq<Link>
    var activeAuthor: string
    var lastAuthor: string
    var dump: string

    function View(): State
      reads this
    {
      State(revision, modifiedAt, authors, links, activeAuthor, lastAuthor)
    }

    ghost predicate Valid()
      reads this
    {
      Lawful(env) && WellFormed(env, View()) && dump == Print(Tree(View()))
    }

    constructor (env: Env)
      requires Lawful(env)
      ensures Valid() && View() == Empty && this.env == env
    {
      this.env := env;
      revision, modifiedAt, authors, links, activeAuthor, lastAuthor := 0, "", [], [], "", "";
      dump := "";
      new;
      EmptyFits();
      var text := BuildText(View());
      dump := text;
    }

    /** The reader's result as an object. */
    constructor FromState(env: Env, s: State)
      requires Lawful(env) && WellFormed(env, s)
      ensures Valid() && View() == s && this.env == env
    {
      this.env := env;
      revision, modifiedAt, authors, links, activeAuthor, lastAuthor :=
        s.revision, s.modifiedAt, s.authors, s.links, s.active, s.lastAuthor;
      dump := "";
      new;
      hide Lawful, WellFormed, Print, Tree;
      var text := BuildText(s);
      dump := text;
    }

    method ClearActiveAuthor()
      requires Valid()
      modifies this
      ensures Valid() && View() == Step(env, old(View()), Event.ClearActiveAuthor)
    {
      hide Print, Tree, WellFormed, Lawful;
      ActiveOnly(env, View(), "");
      activeAuthor := "";
    }

    // ----- Changes

    /** `recordChange` on a prepared copy, then its assignment. */
    method Commit(next: State, at: string) returns (ok: bool)
      requires Valid() && Prepared(env, View(), next)
      modifies this
      ensures Valid()
      ensures ok <==> Accepted(next, at)
      ensures !ok ==> View() == old(View())
      ensures ok ==> Became(old(View()), next, at, View())
      ensures View() == Attempt(old(View()), next, at)
    {
      hide Print, Tree, Grows, Dated, Prepared, Lawful, Recorded, Timestamp.Canonical, Timestamp.Shape;
      PreparedRevision(env, View(), next);
      var canonical := Timestamp.Canonical(at);
      if canonical == None || next.revision == MAXIMUM_REVISION {
        return false;
      }
      var time := Later(next.modifiedAt, canonical.value);
      var stamped := Stamp(next.authors, next.active, time);
      var changed := State(next.revision + 1, time, stamped, next.links, next.active, next.active);
      RecordedIs(next, canonical.value, changed);
      var text := BuildText(changed);
      if |text| > MAXIMUM_BYTES {
        return false;
      }
      CommitFacts(env, View(), next, at);
      revision, modifiedAt, authors := changed.revision, changed.modifiedAt, changed.authors;
      links, activeAuthor, lastAuthor, dump := changed.links, changed.active, changed.lastAuthor, text;
      return true;
    }

    method RecordChange(at: string) returns (ok: bool)
      requires Valid()
      modifies this
      ensures Valid()
      ensures ok <==> Accepted(old(View()), at)
      ensures !ok ==> View() == old(View())
      ensures ok ==> Became(old(View()), old(View()), at, View())
      ensures View() == Step(env, old(View()), Event.RecordChange(at))
    {
      hide Print, Tree, Prepared, Became, Accepted, Attempt, WellFormed, Lawful;
      StoredLinks(env, View());
      PreparedUnchanged(env, View(), links);
      ok := Commit(View(), at);
    }

    method SetLinks(newLinks: seq<Link>, at: string) returns (outcome: Outcome)
      requires Valid()
      modifies this
      ensures Valid()
      ensures outcome == Rejected <==> LinksRejected(env, old(View()), newLinks, at)
      ensures outcome == Unchanged <==> ValidatedLinks(env, newLinks) == Some(old(links))
      ensures outcome != Changed ==> View() == old(View())
      ensures View() == Step(env, old(View()), Event.SetLinks(newLinks, at))
      ensures outcome == Changed ==> LinksChanged(env, old(View()), newLinks, at, View())
    {
      hide Print, Tree, Prepared, Became, ValidatedLinks, LinksOk, Accepted, Attempt, WellFormed, Lawful;
      var parsed := ValidateLinks(env, newLinks);
      if parsed == None {
        return Rejected;
      }
      if parsed.value == links {
        return Unchanged;
      }
      AcceptedNewLinks(env, newLinks);
      PreparedUnchanged(env, View(), parsed.value);
      var ok := Commit(View().(links := parsed.value), at);
      outcome := if ok then Changed else Rejected;
    }

    /** An author is a profile that is already canonical. */
    method SetAuthor(profile: Json, newLinks: seq<Link>, at: string) returns (outcome: Outcome)
      requires Valid() && env.canonical(profile) == Some(profile)
      modifies this
      ensures Valid()
      ensures outcome == Rejected ==> View() == old(View())
      ensures outcome == Unchanged <==> Known(env, old(View()), profile) && ValidatedLinks(env, newLinks) == Some(old(links))
      ensures outcome == Unchanged ==> View() == old(View()).(active := env.key(profile))
      ensures View() == Step(env, old(View()), Event.SetAuthor(profile, newLinks, at))
      ensures outcome == Changed ==> AuthorChanged(env, old(View()), profile, newLinks, at, View())
    {
      hide Print, Tree, Prepared, Became, ValidatedLinks, LinksOk, Registered, Accepted, Attempt, Known, HasKey, WellFormed, Lawful;
      var parsed := ValidateLinks(env, newLinks);
      if parsed == None {
        return Rejected;
      }
      AcceptedNewLinks(env, newLinks);
      var key := env.key(profile);
      var i := Find(authors, key);
      KnownAt(env, View(), profile, i);
      if i < |authors| && authors[i].profile == profile && parsed.value == links {
        Activate(i);
        return Unchanged;
      }
      RegisteredAtFound(authors, key, profile, i);
      if i == |authors| && |authors| >= MAXIMUM_AUTHORS {
        return Rejected;
      }
      PreparedByAuthor(env, View(), profile, parsed.value);
      var roster := if i < |authors| then authors[i := authors[i].(profile := profile)] else authors + [Record(key, profile, "", "")];
      var ok := Commit(View().(active := key, authors := roster, links := parsed.value), at);
      outcome := if ok then Changed else Rejected;
    }

    method Activate(i: nat)
      requires Valid() && i < |authors|
      modifies this
      ensures Valid() && View() == old(View()).(active := old(authors)[i].key)
    {
      hide Print, Tree, WellFormed, Lawful, HasKey;
      KeyAt(authors, i);
      ActiveOnly(env, View(), authors[i].key);
      activeAuthor := authors[i].key;
    }

    // ----- Reading

    static method FromDump(env: Env, bytes: string) returns (ledger: Authorship?)
      requires Lawful(env)
      ensures ledger == null <==> ReadState(env, bytes) == None
      ensures ledger != null ==> fresh(ledger) && ledger.Valid() && ledger.env == env && ledger.View() == ReadState(env, bytes).value
    {
      if |bytes| > MAXIMUM_BYTES {
        return null;
      }
      var value := Parse(bytes);
      if value == None {
        return null;
      }
      var s := ReadDocument(env, value.value);
      if s == None {
        return null;
      }
      AcceptedIsWellFormed(env, value.value);
      ledger := new Authorship.FromState(env, s.value);
    }
  }

  // ----- Loops over the roster and the links

  method Find(authors: seq<Record>, key: string) returns (i: nat)
    ensures i <= |authors| && (forall j :: 0 <= j < i ==> authors[j].key != key)
    ensures i < |authors| ==> authors[i].key == key
  {
    i := 0;
    while i < |authors| && authors[i].key != key
      invariant i <= |authors| && forall j :: 0 <= j < i ==> authors[j].key != key
    {
      i := i + 1;
    }
  }

  method Stamp(authors: seq<Record>, active: string, at: string) returns (stamped: seq<Record>)
    ensures stamped == Stamped(authors, active, at)
  {
    var i := Find(authors, active);
    StampedAtFound(authors, active, at, i);
    if i == |authors| {
      return authors;
    }
    var r := authors[i];
    if r.first == "" {
      r := r.(first := at);
    }
    return authors[i := r.(last := at)];
  }

  lemma {:induction false} StampedAtFound(authors: seq<Record>, active: string, at: string, i: nat)
    requires i <= |authors| && (forall j :: 0 <= j < i ==> authors[j].key != active) && (i < |authors| ==> authors[i].key == active)
    ensures Stamped(authors, active, at) == if i == |authors| then authors
      else authors[i := authors[i].(first := if authors[i].first == "" then at else authors[i].first, last := at)]
  {
    if authors != [] && i > 0 {
      StampedAtFound(authors[1..], active, at, i - 1);
      assert authors == [authors[0]] + authors[1..];
    }
  }

  lemma {:induction false} RegisteredAtFound(authors: seq<Record>, key: string, profile: Json, i: nat)
    requires i <= |authors| && (forall j :: 0 <= j < i ==> authors[j].key != key) && (i < |authors| ==> authors[i].key == key)
    ensures Registered(authors, key, profile) ==
      if i == |authors| then authors + [Record(key, profile, "", "")] else authors[i := authors[i].(profile := profile)]
    ensures HasKey(authors, key) <==> i < |authors|
  {
    if authors != [] && i > 0 {
      TailKeys(authors, key);
      RegisteredAtFound(authors[1..], key, profile, i - 1);
      assert authors == [authors[0]] + authors[1..];
    }
  }

  lemma KnownAt(env: Env, s: State, profile: Json, i: nat)
    requires WellFormed(env, s) && i <= |s.authors|
    requires (forall j :: 0 <= j < i ==> s.authors[j].key != env.key(profile)) && (i < |s.authors| ==> s.authors[i].key == env.key(profile))
    ensures Known(env, s, profile) <==> i < |s.authors| && s.authors[i].profile == profile
  {
    hide Print, Tree, RecordOk;
    if Known(env, s, profile) {
      var j :| 0 <= j < |s.authors| && s.authors[j].key == env.key(profile) && s.authors[j].profile == profile;
      assert j == i;
    }
  }

  method ValidateLinks(env: Env, links: seq<Link>) returns (result: Option<seq<Link>>)
    ensures result == ValidatedLinks(env, links)
  {
    if |links| > MAXIMUM_LINKS {
      return None;
    }
    var checked: seq<Link> := [];
    var n := 0;
    while n < |links|
      invariant 0 <= n <= |links| && Validated(env, links, n) == Some(checked)
    {
      var parsed := env.create(links[n].name, links[n].url);
      if parsed == None || parsed.value in checked {
        ValidatedStops(env, links, n + 1, |links|);
        return None;
      }
      checked, n := checked + [parsed.value], n + 1;
    }
    return Some(checked);
  }

  lemma {:induction false} ValidatedStops(env: Env, links: seq<Link>, n: nat, m: nat)
    requires n <= m <= |links| && Validated(env, links, n) == None
    ensures Validated(env, links, m) == None
    decreases m
  {
    if n < m {
      ValidatedStops(env, links, n, m - 1);
    }
  }

  method ReadDocument(env: Env, v: Json) returns (s: Option<State>)
    ensures s == ReadTree(env, v)
  {
    hide Print, ReadAuthors, ReadLinks, Validated;
    var schema := ReadSchema(v);
    if schema == None {
      return None;
    }
    var revision := ReadRevision(env, v);
    if revision == None {
      return None;
    }
    var modifiedAt := ReadDate(v, "modifiedAt", revision.value != 0);
    if modifiedAt == None {
      return None;
    }
    var authors := AuthorsOf(env, v, modifiedAt.value);
    if authors == None {
      return None;
    }
    var lastAuthor := ReadLastAuthor(v, authors.value);
    if lastAuthor == None {
      return None;
    }
    var links: Option<seq<Link>> := Some([]);
    if schema.value == 3 {
      links := LinksOf(env, v);
    }
    if links == None {
      return None;
    }
    var result := State(revision.value, modifiedAt.value, authors.value, links.value, "", lastAuthor.value);
    if !Consistent(v, schema.value, result) {
      return None;
    }
    return Some(result);
  }

  method AuthorsOf(env: Env, v: Json, modifiedAt: string) returns (authors: Option<seq<Record>>)
    requires v.Object?
    ensures authors == ReadAllAuthors(env, v, modifiedAt)
  {
    hide ReadAuthor;
    var items := Child(v, "authors");
    if items == None || !items.value.Array? || |items.value.items| > MAXIMUM_AUTHORS {
      return None;
    }
    var list, read, n := items.value.items, [], 0;
    while n < |list|
      invariant 0 <= n <= |list| && ReadAuthors(env, list, n, modifiedAt) == Some(read)
    {
      var r := ReadAuthor(env, list[n], read, modifiedAt);
      if r == None {
        AuthorsStop(env, list, n + 1, |list|, modifiedAt);
        return None;
      }
      read, n := read + [r.value], n + 1;
    }
    return Some(read);
  }

  lemma {:induction false} AuthorsStop(env: Env, items: seq<Json>, n: nat, m: nat, modifiedAt: string)
    requires n <= m <= |items| && ReadAuthors(env, items, n, modifiedAt) == None
    ensures ReadAuthors(env, items, m, modifiedAt) == None
    decreases m
  {
    hide ReadAuthor;
    if n < m {
      AuthorsStop(env, items, n, m - 1, modifiedAt);
    }
  }

  method LinksOf(env: Env, v: Json) returns (links: Option<seq<Link>>)
    requires v.Object?
    ensures links == ReadAllLinks(env, v)
  {
    hide ReadLink, ValidatedLinks;
    var items := Child(v, "links");
    if items == None || !items.value.Array? || |items.value.items| > MAXIMUM_LINKS {
      return None;
    }
    var list, n := items.value.items, 0;
    var read: seq<Link> := [];
    while n < |list|
      invariant 0 <= n <= |list| && ReadLinks(env, list, n) == Some(read)
    {
      var link := ReadLink(env, list[n]);
      if link == None {
        LinksStop(env, list, n + 1, |list|);
        return None;
      }
      read, n := read + [link.value], n + 1;
    }
    links := ValidateLinks(env, read);
  }

  lemma {:induction false} LinksStop(env: Env, items: seq<Json>, n: nat, m: nat)
    requires n <= m <= |items| && ReadLinks(env, items, n) == None
    ensures ReadLinks(env, items, m) == None
    decreases m
  {
    if n < m {
      LinksStop(env, items, n, m - 1);
    }
  }

  // ----- Facts the mutators use

  lemma KeyAt(authors: seq<Record>, i: nat)
    requires i < |authors|
    ensures HasKey(authors, authors[i].key)
  {
  }

  lemma RecordedIs(next: State, at: string, changed: State)
    requires var time := Later(next.modifiedAt, at);
      changed == State(next.revision + 1, time, Stamped(next.authors, next.active, time), next.links, next.active, next.active)
    ensures changed == Recorded(next, at)
  {
  }
}
