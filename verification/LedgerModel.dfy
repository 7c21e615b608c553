/** The authorship ledger as a value: its document, what every change keeps, and what the
    validating reader accepts. Profile canonicalisation, the author key, link validation and text
    cleaning belong to the libraries: they are parameters of which only idempotence is used. */
module LedgerModel {
  import opened Wrappers
  import opened Decimals
  import opened JsonTree
  import opened JsonText
  import ByteOrder
  import Timestamp

  const MAXIMUM_BYTES: nat := 2 * 1024 * 1024
  const MAXIMUM_LINKS: nat := 64
  const MAXIMUM_AUTHORS: nat := 256
  const MAXIMUM_REVISION: nat := 0xffff_ffff_ffff_ffff

  datatype Link = Link(name: string, url: string)

  datatype Record = Record(key: string, profile: Json, first: string, last: string)

  /** The fields of a ledger apart from its cached text. */
  datatype State = State(revision: nat, modifiedAt: string, authors: seq<Record>, links: seq<Link>, active: string, lastAuthor: string)

  datatype Env = Env(
    canonical: Json -> Option<Json>,
    key: Json -> string,
    create: (string, string) -> Option<Link>,
    clean: string -> Option<string>)

  ghost predicate Lawful(env: Env) {
    && (forall p, q :: env.canonical(p) == Some(q) ==> env.canonical(q) == Some(q))
    && (forall p :: 0 < |env.key(p)| <= 64 && env.clean(env.key(p)) == Some(env.key(p)))
    && (forall n, u, l: Link :: env.create(n, u) == Some(l) ==> env.create(l.name, l.url) == Some(l))
    && (forall s :: s != "" && Digits(s) ==> env.clean(s) == Some(s))
  }

  const Empty: State := State(0, "", [], [], "", "")

  // ----- The document

  function Nullable(s: string): Json { if s == "" then Null else Text(s) }

  function AuthorTree(r: Record): Json {
    Object(map["author" := r.profile, "firstChangedAt" := Text(r.first), "key" := Text(r.key), "lastChangedAt" := Text(r.last)])
  }

  function LinkTree(l: Link): Json { Object(map["name" := Text(l.name), "url" := Text(l.url)]) }

  function AuthorTrees(authors: seq<Record>): (items: seq<Json>)
    ensures |items| == |authors|
  {
    seq(|authors|, i requires 0 <= i < |authors| => AuthorTree(authors[i]))
  }

  function LinkTrees(links: seq<Link>): (items: seq<Json>)
    ensures |items| == |links|
  {
    seq(|links|, i requires 0 <= i < |links| => LinkTree(links[i]))
  }

  /** Everyone after the first editor. */
  function ParticipantTrees(authors: seq<Record>): (items: seq<Json>)
    ensures |items| == if authors == [] then 0 else |authors| - 1
  {
    if authors == [] then [] else seq(|authors| - 1, i requires 0 <= i < |authors| - 1 => Text(authors[i + 1].key))
  }

  function FirstEditor(authors: seq<Record>): Json {
    Nullable(if authors == [] then "" else authors[0].key)
  }

  function Tree(s: State): Json {
    Object(map[
      "authors" := Array(AuthorTrees(s.authors)),
      "firstEditor" := FirstEditor(s.authors),
      "lastAuthor" := Nullable(s.lastAuthor),
      "links" := Array(LinkTrees(s.links)),
      "modifiedAt" := Nullable(s.modifiedAt),
      "participants" := Array(ParticipantTrees(s.authors)),
      "revision" := Text(Shortest(s.revision)),
      "schemaVersion" := Json.Number(3)])
  }

  // ----- What every ledger keeps

  ghost predicate IsTime(t: string) {
    exists raw :: Timestamp.Canonical(raw) == Some(t)
  }

  ghost predicate RecordOk(env: Env, r: Record, modifiedAt: string) {
    && r.key == env.key(r.profile) && env.canonical(r.profile) == Some(r.profile)
    && IsTime(r.first) && IsTime(r.last) && !ByteOrder.Less(r.last, r.first) && !ByteOrder.Less(modifiedAt, r.last)
  }

  ghost predicate AuthorsOk(env: Env, authors: seq<Record>, modifiedAt: string) {
    && |authors| <= MAXIMUM_AUTHORS
    && (forall i :: 0 <= i < |authors| ==> RecordOk(env, authors[i], modifiedAt))
    && forall i, j :: 0 <= i < j < |authors| ==> authors[i].key != authors[j].key
  }

  predicate HasKey(authors: seq<Record>, key: string) {
    exists i :: 0 <= i < |authors| && authors[i].key == key
  }

  ghost predicate LinksOk(env: Env, links: seq<Link>) {
    && |links| <= MAXIMUM_LINKS
    && (forall i :: 0 <= i < |links| ==> env.create(links[i].name, links[i].url) == Some(links[i]))
    && forall i, j :: 0 <= i < j < |links| ==> links[i] != links[j]
  }

  ghost predicate WellFormed(env: Env, s: State) {
    && s.revision <= MAXIMUM_REVISION
    && (if s.revision == 0 then s == Empty else IsTime(s.modifiedAt))
    && AuthorsOk(env, s.authors, s.modifiedAt)
    && (s.lastAuthor == "" || HasKey(s.authors, s.lastAuthor))
    && (s.active == "" || HasKey(s.authors, s.active))
    && LinksOk(env, s.links)
    && |Print(Tree(s))| <= MAXIMUM_BYTES
  }

  /** Every stored time still passes the shape check. */
  ghost predicate Dated(s: State) {
    && (s.modifiedAt == "" || Timestamp.Shape(s.modifiedAt))
    && forall i :: 0 <= i < |s.authors| ==> Timestamp.Shape(s.authors[i].first) && Timestamp.Shape(s.authors[i].last)
  }

  // ----- Changes

  function Later(a: string, b: string): string {
    if a == "" || ByteOrder.Less(a, b) then b else a
  }

  function Stamped(authors: seq<Record>, active: string, at: string): (stamped: seq<Record>)
    ensures |stamped| == |authors|
  {
    if authors == [] then []
    else if authors[0].key == active then
      [authors[0].(first := if authors[0].first == "" then at else authors[0].first, last := at)] + authors[1..]
    else [authors[0]] + Stamped(authors[1..], active, at)
  }

  /** `recordChange` once its time is canonical. */
  function Recorded(s: State, at: string): State {
    var modified := Later(s.modifiedAt, at);
    State(s.revision + 1, modified, Stamped(s.authors, s.active, modified), s.links, s.active, s.active)
  }

  /** The roster with an author's profile replaced, or the author appended. */
  function Registered(authors: seq<Record>, key: string, profile: Json): seq<Record> {
    if authors == [] then [Record(key, profile, "", "")]
    else if authors[0].key == key then [authors[0].(profile := profile)] + authors[1..]
    else [authors[0]] + Registered(authors[1..], key, profile)
  }

  /** What one revision may change: the roster is append-only and its first times are fixed, times
      never go back, and the revision counts up by one. */
  ghost predicate Grows(s: State, s': State) {
    && s'.revision == s.revision + 1
    && !ByteOrder.Less(s'.modifiedAt, s.modifiedAt)
    && |s.authors| <= |s'.authors| <= |s.authors| + 1
    && forall i :: 0 <= i < |s.authors| ==>
      && s'.authors[i].key == s.authors[i].key && s'.authors[i].first == s.authors[i].first
      && !ByteOrder.Less(s'.authors[i].last, s.authors[i].last)
  }
}
