/** The validating reader, and its round trip with the writer. */
module LedgerReader {
  import opened Wrappers
  import opened Decimals
  import opened LedgerModel
  import opened LedgerHistory
  import opened JsonTree
  import opened JsonText
  import ByteOrder
  import Timestamp

  // ----- Fields

  predicate OnlyKeys(v: Json, allowed: set<string>) {
    v.Object? && v.members.Keys <= allowed
  }

  function ReadDate(v: Json, name: string, required: bool): Option<string>
    requires v.Object?
  {
    match Child(v, name)
    case None => if required then None else Some("")
    case Some(Null) => if required then None else Some("")
    case Some(Text(s)) => Timestamp.Canonical(s)
    case Some(_) => None
  }

  /** A required text of bounded length, cleaned. */
  function ReadText(env: Env, v: Json, name: string, maximum: nat): Option<string>
    requires v.Object?
  {
    match Child(v, name)
    case Some(Text(s)) =>
      var c := env.clean(s);
      if c == None || c.value == "" || |c.value| > maximum then None else c
    case _ => None
  }

  /** `0|[1-9][0-9]*` within 64 bits. */
  function ReadRevision(env: Env, v: Json): Option<nat>
    requires v.Object?
  {
    var c := ReadText(env, v, "revision", 20);
    if c == None || !Digits(c.value) || (c.value != "0" && c.value[0] == '0') || Decimals.Number(c.value) > MAXIMUM_REVISION then None
    else Some(Decimals.Number(c.value))
  }

  const AuthorKeys: set<string> := {"key", "author", "firstChangedAt", "lastChangedAt"}
  const LinkKeys: set<string> := {"name", "url"}
  const Keys1: set<string> := {"schemaVersion", "revision", "modifiedAt", "authors", "lastAuthor"}
  const Keys2: set<string> := Keys1 + {"firstEditor", "participants"}
  const Keys3: set<string> := Keys2 + {"links"}

  function ReadAuthor(env: Env, item: Json, seen: seq<Record>, modifiedAt: string): Option<Record> {
    if !OnlyKeys(item, AuthorKeys) then None
    else
      var profile := Child(item, "author");
      var canonical := if profile == None then None else env.canonical(profile.value);
      var key := ReadText(env, item, "key", 64);
      var first, last := ReadDate(item, "firstChangedAt", true), ReadDate(item, "lastChangedAt", true);
      if canonical == None || key == None || key.value != env.key(canonical.value) || HasKey(seen, key.value) then None
      else if first == None || last == None then None
      else if ByteOrder.Less(last.value, first.value) || ByteOrder.Less(modifiedAt, last.value) then None
      else Some(Record(key.value, canonical.value, first.value, last.value))
  }

  /** The first `n` authors. */
  function ReadAuthors(env: Env, items: seq<Json>, n: nat, modifiedAt: string): Option<seq<Record>>
    requires n <= |items|
  {
    if n == 0 then Some([])
    else
      var seen := ReadAuthors(env, items, n - 1, modifiedAt);
      if seen == None then None
      else
        var r := ReadAuthor(env, items[n - 1], seen.value, modifiedAt);
        if r == None then None else Some(seen.value + [r.value])
  }

  function ReadLink(env: Env, item: Json): Option<Link> {
    if !OnlyKeys(item, LinkKeys) then None
    else
      match (Child(item, "name"), Child(item, "url"))
      case (Some(Text(n)), Some(Text(u))) => env.create(n, u)
      case _ => None
  }

  function ReadLinks(env: Env, items: seq<Json>, n: nat): Option<seq<Link>>
    requires n <= |items|
  {
    if n == 0 then Some([])
    else
      var links := ReadLinks(env, items, n - 1);
      var link := ReadLink(env, items[n - 1]);
      if links == None || link == None then None else Some(links.value + [link.value])
  }

  /** `validatedLinks`: each link validated again, none repeated. */
  function Validated(env: Env, links: seq<Link>, n: nat): Option<seq<Link>>
    requires n <= |links|
  {
    if n == 0 then Some([])
    else
      var earlier := Validated(env, links, n - 1);
      var link := env.create(links[n - 1].name, links[n - 1].url);
      if earlier == None || link == None || link.value in earlier.value then None else Some(earlier.value + [link.value])
  }

  function ValidatedLinks(env: Env, links: seq<Link>): Option<seq<Link>> {
    if |links| > MAXIMUM_LINKS then None else Validated(env, links, |links|)
  }

  function ReadLastAuthor(v: Json, authors: seq<Record>): Option<string>
    requires v.Object?
  {
    match Child(v, "lastAuthor")
    case Some(Null) => Some("")
    case Some(Text(s)) => if HasKey(authors, s) then Some(s) else None
    case _ => None
  }

  function ReadAllAuthors(env: Env, v: Json, modifiedAt: string): Option<seq<Record>>
    requires v.Object?
  {
    match Child(v, "authors")
    case Some(Array(items)) => if |items| > MAXIMUM_AUTHORS then None else ReadAuthors(env, items, |items|, modifiedAt)
    case _ => None
  }

  function ReadAllLinks(env: Env, v: Json): Option<seq<Link>>
    requires v.Object?
  {
    match Child(v, "links")
    case Some(Array(items)) =>
      if |items| > MAXIMUM_LINKS then None
      else
        var links := ReadLinks(env, items, |items|);
        if links == None then None else ValidatedLinks(env, links.value)
    case _ => None
  }

  /** The schema version, its size limit and its keys. */
  function ReadSchema(v: Json): Option<nat> {
    if !v.Object? then None
    else
      match Child(v, "schemaVersion")
      case Some(Number(n)) =>
        if n == 1 && |Print(v)| <= 1024 * 1024 && OnlyKeys(v, Keys1) then Some(1)
        else if n == 2 && |Print(v)| <= 1024 * 1024 + 32 * 1024 && OnlyKeys(v, Keys2) then Some(2)
        else if n == 3 && OnlyKeys(v, Keys3) then Some(3)
        else None
      case _ => None
  }

  /** The fields of the result, read in order. */
  function ReadFields(env: Env, v: Json, schema: nat): Option<State>
    requires v.Object?
  {
    var revision :- ReadRevision(env, v);
    var modifiedAt :- ReadDate(v, "modifiedAt", revision != 0);
    var authors :- ReadAllAuthors(env, v, modifiedAt);
    var lastAuthor :- ReadLastAuthor(v, authors);
    var links :- if schema == 3 then ReadAllLinks(env, v) else Some([]);
    Some(State(revision, modifiedAt, authors, links, "", lastAuthor))
  }

  /** The checks on the whole: an unused ledger is empty, the text fits, and the derived roles agree. */
  predicate Consistent(v: Json, schema: nat, s: State)
    requires v.Object?
  {
    && (s.revision != 0 || (s.authors == [] && s.links == [] && s.modifiedAt == ""))
    && |Print(Tree(s))| <= MAXIMUM_BYTES
    && (schema >= 2 ==>
      Child(v, "firstEditor") == Some(FirstEditor(s.authors)) && Child(v, "participants") == Some(Array(ParticipantTrees(s.authors))))
  }

  function ReadTree(env: Env, v: Json): Option<State> {
    var schema :- ReadSchema(v);
    var s :- ReadFields(env, v, schema);
    if Consistent(v, schema, s) then Some(s) else None
  }

  function ReadState(env: Env, text: string): Option<State> {
    if |text| > MAXIMUM_BYTES then None
    else
      var v :- Parse(text);
      ReadTree(env, v)
  }

  // ----- Whatever is accepted is well formed

  lemma {:induction false} ReadAuthorsOk(env: Env, items: seq<Json>, n: nat, modifiedAt: string)
    requires Lawful(env) && n <= |items| && ReadAuthors(env, items, n, modifiedAt).Some?
    ensures var authors := ReadAuthors(env, items, n, modifiedAt).value;
      |authors| == n && KeysDistinct(authors) && forall i :: 0 <= i < n ==> RecordOk(env, authors[i], modifiedAt)
  {
    hide Lawful, RecordOk, ReadAuthor;
    if n > 0 {
      ReadAuthorsOk(env, items, n - 1, modifiedAt);
      ReadAuthorOk(env, items[n - 1], ReadAuthors(env, items, n - 1, modifiedAt).value, modifiedAt);
    }
  }

  lemma ReadAuthorOk(env: Env, item: Json, seen: seq<Record>, modifiedAt: string)
    requires Lawful(env) && ReadAuthor(env, item, seen, modifiedAt).Some?
    ensures var r := ReadAuthor(env, item, seen, modifiedAt).value;
      RecordOk(env, r, modifiedAt) && forall i :: 0 <= i < |seen| ==> seen[i].key != r.key
  {
    var first, last := Child(item, "firstChangedAt").value, Child(item, "lastChangedAt").value;
    assert Timestamp.Canonical(first.s).Some? && Timestamp.Canonical(last.s).Some?;
  }

  lemma {:induction false} ValidatedOk(env: Env, links: seq<Link>, n: nat)
    requires Lawful(env) && n <= |links| && Validated(env, links, n).Some?
    ensures var v := Validated(env, links, n).value;
      && |v| == n && (forall i :: 0 <= i < n ==> env.create(v[i].name, v[i].url) == Some(v[i]))
      && forall i, j :: 0 <= i < j < n ==> v[i] != v[j]
  {
    if n > 0 {
      ValidatedOk(env, links, n - 1);
    }
  }

  lemma AcceptedIsWellFormed(env: Env, v: Json)
    requires Lawful(env) && ReadTree(env, v).Some?
    ensures WellFormed(env, ReadTree(env, v).value) && ReadTree(env, v).value.active == ""
  {
    hide Lawful, Print, Tree, ReadFields, ReadSchema, LinksOk, AuthorsOk, IsTime;
    SchemaIsObject(v);
    FieldsOk(env, v, ReadSchema(v).value);
  }

  lemma SchemaIsObject(v: Json)
    requires ReadSchema(v).Some?
    ensures v.Object?
  {
  }

  lemma FieldsOk(env: Env, v: Json, schema: nat)
    requires Lawful(env) && v.Object? && ReadFields(env, v, schema).Some?
    ensures var s := ReadFields(env, v, schema).value;
      && s.active == "" && s.revision <= MAXIMUM_REVISION && (s.revision != 0 ==> IsTime(s.modifiedAt))
      && AuthorsOk(env, s.authors, s.modifiedAt) && LinksOk(env, s.links)
      && (s.lastAuthor == "" || HasKey(s.authors, s.lastAuthor))
  {
    hide Lawful, ReadAllAuthors, ReadAllLinks, ReadRevision, ReadDate, ReadLastAuthor, AuthorsOk, LinksOk, HasKey;
    hide ReadFields, IsTime;
    var s := ReadFields(env, v, schema).value;
    FieldParts(env, v, schema, s);
    RevisionBound(env, v);
    AcceptedAuthors(env, v, s.modifiedAt);
    if schema == 3 {
      AcceptedLinks(env, v);
    } else {
      NoLinks(env);
    }
    DateIsTime(v, "modifiedAt", s.revision != 0);
    LastAuthorKnown(v, s.authors);
  }

  lemma FieldParts(env: Env, v: Json, schema: nat, s: State)
    requires v.Object? && ReadFields(env, v, schema) == Some(s)
    ensures s.active == "" && ReadRevision(env, v) == Some(s.revision)
    ensures ReadDate(v, "modifiedAt", s.revision != 0) == Some(s.modifiedAt)
    ensures ReadAllAuthors(env, v, s.modifiedAt) == Some(s.authors) && ReadLastAuthor(v, s.authors) == Some(s.lastAuthor)
    ensures if schema == 3 then ReadAllLinks(env, v) == Some(s.links) else s.links == []
  {
    hide ReadAllAuthors, ReadAllLinks, ReadRevision, ReadDate, ReadLastAuthor;
  }

  lemma RevisionBound(env: Env, v: Json)
    requires v.Object? && ReadRevision(env, v).Some?
    ensures ReadRevision(env, v).value <= MAXIMUM_REVISION
  {
  }

  lemma DateIsTime(v: Json, name: string, required: bool)
    requires v.Object? && ReadDate(v, name, required).Some?
    ensures required ==> IsTime(ReadDate(v, name, required).value)
  {
    if required {
      assert Timestamp.Canonical(Child(v, name).value.s) == ReadDate(v, name, required);
    }
  }

  lemma LastAuthorKnown(v: Json, authors: seq<Record>)
    requires v.Object? && ReadLastAuthor(v, authors).Some?
    ensures ReadLastAuthor(v, authors).value == "" || HasKey(authors, ReadLastAuthor(v, authors).value)
  {
  }

  lemma NoLinks(env: Env)
    ensures LinksOk(env, [])
  {
  }

  lemma AcceptedAuthors(env: Env, v: Json, modifiedAt: string)
    requires Lawful(env) && v.Object? && ReadAllAuthors(env, v, modifiedAt).Some?
    ensures AuthorsOk(env, ReadAllAuthors(env, v, modifiedAt).value, modifiedAt)
  {
    hide Lawful, RecordOk, ReadAuthors;
    var items := Child(v, "authors").value.items;
    ReadAuthorsOk(env, items, |items|, modifiedAt);
  }

  lemma AcceptedLinks(env: Env, v: Json)
    requires Lawful(env) && v.Object? && ReadAllLinks(env, v).Some?
    ensures LinksOk(env, ReadAllLinks(env, v).value)
  {
    hide Lawful, ReadLinks, Validated;
    var items := Child(v, "links").value.items;
    var links := ReadLinks(env, items, |items|).value;
    ValidatedOk(env, links, |links|);
  }

  // ----- The round trip

  lemma TreeChildren(s: State)
    ensures Tree(s).Object?
    ensures var v := Tree(s);
      && Child(v, "authors") == Some(Array(AuthorTrees(s.authors))) && Child(v, "firstEditor") == Some(FirstEditor(s.authors))
      && Child(v, "lastAuthor") == Some(Nullable(s.lastAuthor)) && Child(v, "links") == Some(Array(LinkTrees(s.links)))
      && Child(v, "modifiedAt") == Some(Nullable(s.modifiedAt))
      && Child(v, "participants") == Some(Array(ParticipantTrees(s.authors)))
      && Child(v, "revision") == Some(Text(Shortest(s.revision))) && Child(v, "schemaVersion") == Some(Json.Number(3))
      && OnlyKeys(v, Keys3)
  {
    hide AuthorTrees, LinkTrees, ParticipantTrees, FirstEditor, Nullable, Shortest;
  }

  /** A stored time is read back exactly when it passes the shape check. */
  lemma TimeBack(t: string)
    requires IsTime(t)
    ensures Timestamp.Canonical(t) == if Timestamp.Shape(t) then Some(t) else None
  {
    hide Timestamp.Shape, Timestamp.Format, Timestamp.Instant, Timestamp.FourDigitYear;
    var raw :| Timestamp.Canonical(raw) == Some(t);
    Timestamp.CanonicalShape(raw);
    if Timestamp.Shape(t) {
      Timestamp.CanonicalKeepsInstant(raw);
    } else {
      ReadNeedsShape(t);
    }
  }

  lemma ReadNeedsShape(t: string)
    requires !Timestamp.Shape(t)
    ensures Timestamp.Read(t) == None
  {
    hide Timestamp.Shape;
  }

  lemma RevisionBack(env: Env, v: Json, n: nat)
    requires Lawful(env) && v.Object? && Child(v, "revision") == Some(Text(Shortest(n))) && n <= MAXIMUM_REVISION
    ensures ReadRevision(env, v) == Some(n)
  {
    assert Pow10(10) == 1_0000000000;
    assert Pow10(20) == 10 * Pow10(19) == 100 * Pow10(18) == 1000 * Pow10(17) == 10000 * Pow10(16) == 100000 * Pow10(15);
    assert Pow10(15) == 10 * Pow10(14) == 100 * Pow10(13) == 1000 * Pow10(12) == 10000 * Pow10(11) == 100000 * Pow10(10);
    ShortestLength(n, 20);
    NumberPadded(n, 1);
    if n > 0 {
      NoLeadingZero(n);
    }
  }

  /** An author's times pass the shape check. */
  predicate TimesShaped(r: Record) {
    Timestamp.Shape(r.first) && Timestamp.Shape(r.last)
  }

  lemma AuthorBack(env: Env, r: Record, seen: seq<Record>, modifiedAt: string)
    requires Lawful(env) && RecordOk(env, r, modifiedAt) && !HasKey(seen, r.key)
    ensures ReadAuthor(env, AuthorTree(r), seen, modifiedAt) == if TimesShaped(r) then Some(r) else None
  {
    hide Timestamp.Shape, Timestamp.Canonical, HasKey;
    var item := AuthorTree(r);
    assert Child(item, "author") == Some(r.profile) && Child(item, "key") == Some(Text(r.key));
    assert Child(item, "firstChangedAt") == Some(Text(r.first)) && Child(item, "lastChangedAt") == Some(Text(r.last));
    assert ReadText(env, item, "key", 64) == Some(r.key);
    TimeBack(r.first);
    TimeBack(r.last);
  }

  lemma {:induction false} AuthorsBack(env: Env, authors: seq<Record>, n: nat, modifiedAt: string)
    requires Lawful(env) && AuthorsOk(env, authors, modifiedAt) && n <= |authors|
    ensures ReadAuthors(env, AuthorTrees(authors), n, modifiedAt) ==
      if (forall i :: 0 <= i < n ==> TimesShaped(authors[i])) then Some(authors[..n]) else None
  {
    hide Lawful, RecordOk, ReadAuthor, AuthorTree, TimesShaped;
    if n > 0 {
      AuthorsBack(env, authors, n - 1, modifiedAt);
      AuthorBack(env, authors[n - 1], authors[..n - 1], modifiedAt);
      assert authors[..n] == authors[..n - 1] + [authors[n - 1]];
    }
  }

  lemma LinkBack(env: Env, l: Link)
    requires env.create(l.name, l.url) == Some(l)
    ensures ReadLink(env, LinkTree(l)) == Some(l)
  {
    var item := LinkTree(l);
    assert Child(item, "name") == Some(Text(l.name)) && Child(item, "url") == Some(Text(l.url));
  }

  lemma {:induction false} LinksBack(env: Env, links: seq<Link>, n: nat)
    requires LinksOk(env, links) && n <= |links|
    ensures ReadLinks(env, LinkTrees(links), n) == Some(links[..n]) && Validated(env, links, n) == Some(links[..n])
  {
    if n > 0 {
      LinksBack(env, links, n - 1);
      LinkBack(env, links[n - 1]);
      assert links[..n] == links[..n - 1] + [links[n - 1]];
    }
  }

  /** Reading a well-formed ledger's document: itself without its active author, exactly when
      every stored time passes the shape check. */
  lemma TreeBack(env: Env, s: State)
    requires Lawful(env) && WellFormed(env, s)
    ensures ReadTree(env, Tree(s)) == if Dated(s) then Some(s.(active := "")) else None
  {
    hide Lawful, Tree, Print, ReadFields, AuthorTrees, LinkTrees, AuthorsOk, LinksOk, IsTime, HasKey, Timestamp.Shape, OnlyKeys;
    TreeChildren(s);
    FieldsBack(env, s);
    SameTree(s);
  }

  lemma SameTree(s: State)
    ensures Tree(s.(active := "")) == Tree(s)
  {
  }

  lemma FieldsBack(env: Env, s: State)
    requires Lawful(env) && WellFormed(env, s)
    ensures ReadFields(env, Tree(s), 3) == if Dated(s) then Some(s.(active := "")) else None
  {
    hide Lawful, Tree, Print, AuthorTrees, LinkTrees, RecordOk, IsTime, ReadRevision, ReadDate, ReadAuthors, ReadLinks, Validated, Timestamp.Shape;
    var v := Tree(s);
    TreeChildren(s);
    RevisionBack(env, v, s.revision);
    ModifiedBack(s);
    AuthorsBack(env, s.authors, |s.authors|, s.modifiedAt);
    LinksBack(env, s.links, |s.links|);
    assert s.authors[..|s.authors|] == s.authors && s.links[..|s.links|] == s.links;
    assert ReadAllLinks(env, v) == Some(s.links);
    assert ReadLastAuthor(v, s.authors) == Some(s.lastAuthor);
  }

  lemma ModifiedBack(s: State)
    requires if s.revision == 0 then s.modifiedAt == "" else IsTime(s.modifiedAt)
    ensures ReadDate(Tree(s), "modifiedAt", s.revision != 0) ==
      if s.modifiedAt == "" || Timestamp.Shape(s.modifiedAt) then Some(s.modifiedAt) else None
  {
    hide Tree, Timestamp.Shape, Timestamp.Canonical;
    TreeChildren(s);
    if s.revision != 0 {
      TimeBack(s.modifiedAt);
      TimesAreTexts(s.modifiedAt);
    }
  }

  /** Printer and reader undo each other on every reachable ledger whose times kept four-digit years. */
  lemma RoundTrip(env: Env, s: State)
    requires Lawful(env) && WellFormed(env, s)
    ensures ReadState(env, Print(Tree(s))) == if Dated(s) then Some(s.(active := "")) else None
  {
    hide Lawful, Tree, Print, ReadTree, Dated, Parse;
    ParsePrint(Tree(s));
    TreeBack(env, s);
  }
}
