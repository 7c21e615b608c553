/** The object package as tables: sessions, objects with their revision chains,
    content-addressed chunks, RAW documents, the journal and the current index. */
module ObjectModel {
  import opened Wrappers

  const CHUNK_BYTES: nat := 1024 * 1024
  const MAXIMUM_INTEGER: nat := 0x7fff_ffff_ffff_ffff

  type Bytes = seq<bv8>

  datatype Author = Author(origin: string, subject: string, name: string, profile: string)

  datatype Session = Session(author: Author, device: string, description: string, started: int, ended: int, context: string)

  datatype Operation = Import | WrapRaw | Revise | Metadata | Move | Erase

  /** A RAW envelope document. */
  datatype Raw = Raw(originalName: string, mediaType: string, annotations: string)

  /** The columns of a revision that its operation decides. */
  datatype Draft = Draft(
    version: nat, path: string, sha: string, size: nat, operation: Operation, deleted: bool,
    parent: string, authorship: string, stamp: string)

  datatype Revision = Revision(draft: Draft, author: Author, session: string, at: int, validation: string)

  datatype Id = Id(key: string, version: nat)

  datatype ObjectRow = ObjectRow(indexKey: nat, head: nat, path: string, deleted: bool)

  datatype Chunk = Chunk(hash: string, size: nat)

  datatype JournalRow = JournalRow(id: Id, session: string)

  datatype IndexRow = IndexRow(
    objectKey: string, head: nat, path: string, sha: string, size: nat,
    validation: string, session: string, deleted: bool, origin: string, subject: string)

  datatype Store = Store(
    sessions: map<string, Session>,
    objects: map<string, ObjectRow>,
    revisions: map<Id, Revision>,
    raws: map<Id, Raw>,
    chunks: map<string, Bytes>,
    parts: map<Id, seq<Chunk>>,
    journal: seq<JournalRow>,
    index: map<nat, IndexRow>,
    nextIndex: nat)

  const EMPTY := Store(map[], map[], map[], map[], map[], map[], [], map[], 1)

  /** What a validation key seals. */
  datatype Material = Material(
    container: string, key: string, indexKey: nat, draft: Draft, author: Author, session: string, at: int,
    device: string, description: string, started: int, context: string, raw: Option<Raw>)

  /** The package's fixed parameters: its container key, the content digest and the seal
      over a record. Nothing is assumed of either hash. */
  datatype Container = Container(key: string, digest: Bytes -> string, seal: Material -> string)

  // ----- Content

  function Content(chunks: map<string, Bytes>, parts: seq<Chunk>): Bytes
    requires forall p :: p in parts ==> p.hash in chunks
  {
    if parts == [] then []
    else Content(chunks, parts[..|parts| - 1]) + chunks[parts[|parts| - 1].hash]
  }

  /** Every part is stored at its stated size, and only the last may be short. */
  predicate PartsOk(chunks: map<string, Bytes>, parts: seq<Chunk>) {
    forall i :: 0 <= i < |parts| ==>
      && parts[i].hash in chunks
      && |chunks[parts[i].hash]| == parts[i].size
      && 0 < parts[i].size <= CHUNK_BYTES
      && (i + 1 < |parts| ==> parts[i].size == CHUNK_BYTES)
  }

  predicate Holds(c: Container, chunks: map<string, Bytes>, parts: seq<Chunk>, sha: string, size: nat) {
    PartsOk(chunks, parts) && |Content(chunks, parts)| == size && c.digest(Content(chunks, parts)) == sha
  }

  // ----- Rows derived from a revision

  function MaterialOf(c: Container, db: Store, id: Id, r: Revision): Material
    requires id.key in db.objects && r.session in db.sessions
  {
    var s := db.sessions[r.session];
    Material(c.key, id.key, db.objects[id.key].indexKey, r.draft, r.author, r.session, r.at,
             s.device, s.description, s.started, s.context, RawOf(db, id))
  }

  function RawOf(db: Store, id: Id): Option<Raw> {
    if id in db.raws then Some(db.raws[id]) else None
  }

  function Projection(key: string, head: nat, path: string, deleted: bool, r: Revision): IndexRow {
    IndexRow(key, head, path, r.draft.sha, r.draft.size, r.validation, r.session, deleted, r.author.origin, r.author.subject)
  }

  // ----- The invariant

  predicate LinkOk(c: Container, db: Store, id: Id)
    requires id in db.revisions
  {
    var r := db.revisions[id];
    && id.key in db.objects
    && r.draft.version == id.version
    && r.session in db.sessions
    && r.author == db.sessions[r.session].author
    && r.draft.parent == (if id.version > 1 && Id(id.key, id.version - 1) in db.revisions
                          then db.revisions[Id(id.key, id.version - 1)].validation else "")
    && r.validation == c.seal(MaterialOf(c, db, id, r))
  }

  predicate PayloadOk(c: Container, db: Store, id: Id)
    requires id in db.revisions
  {
    && id in db.parts
    && var d := db.revisions[id].draft;
    if d.deleted then db.parts[id] == [] else Holds(c, db.chunks, db.parts[id], d.sha, d.size)
  }

  /** A revision exists exactly for each version from one to the head. */
  ghost predicate Complete(db: Store) {
    && (forall id :: id in db.revisions <==> id.key in db.objects && 1 <= id.version <= db.objects[id.key].head)
    && (forall id :: id in db.raws || id in db.parts ==> id in db.revisions)
    && (forall key :: key in db.objects ==> db.objects[key].head <= MAXIMUM_INTEGER)
  }

  ghost predicate Sealed(c: Container, db: Store) {
    forall id :: id in db.revisions ==> LinkOk(c, db, id)
  }

  ghost predicate Stored(c: Container, db: Store) {
    && (forall id :: id in db.revisions ==> PayloadOk(c, db, id))
    && (forall h :: h in db.chunks ==> c.digest(db.chunks[h]) == h)
  }

  /** The objects row repeats its head revision, and only a head can be deleted. */
  ghost predicate Headed(db: Store) {
    && (forall key :: key in db.objects && Id(key, db.objects[key].head) in db.revisions ==>
          var d := db.revisions[Id(key, db.objects[key].head)].draft;
          d.path == db.objects[key].path && d.deleted == db.objects[key].deleted)
    && (forall id :: id in db.revisions && db.revisions[id].draft.deleted ==>
          id.key in db.objects && id.version == db.objects[id.key].head)
  }

  ghost predicate Indexed(db: Store) {
    && (forall key :: key in db.objects ==> 1 <= db.objects[key].indexKey < db.nextIndex)
    && (forall a, b :: a in db.objects && b in db.objects && db.objects[a].indexKey == db.objects[b].indexKey ==> a == b)
    && db.nextIndex >= 1
    && (forall k :: k in db.index ==> IndexedBy(db, k))
    && (forall key :: key in db.objects && db.objects[key].head > 0 ==> ProjectionOk(db, key))
  }

  /** Some published object owns the index row. */
  predicate IndexedBy(db: Store, k: nat) {
    exists key :: key in db.objects && db.objects[key].indexKey == k && db.objects[key].head > 0
  }

  predicate ProjectionOk(db: Store, key: string)
    requires key in db.objects
  {
    var o := db.objects[key];
    && o.indexKey in db.index && Id(key, o.head) in db.revisions
    && db.index[o.indexKey] == Projection(key, o.head, o.path, o.deleted, db.revisions[Id(key, o.head)])
  }

  /** The journal lists every revision once; the versions of an object appear in order. */
  ghost predicate Journaled(db: Store) {
    && (forall i :: 0 <= i < |db.journal| ==> (
          && db.journal[i].id in db.revisions
          && db.journal[i].session == db.revisions[db.journal[i].id].session))
    && (forall id :: id in db.revisions ==> InJournal(db.journal, id))
    && (forall i, j :: 0 <= i < j < |db.journal| && db.journal[i].id.key == db.journal[j].id.key ==>
          db.journal[i].id.version < db.journal[j].id.version)
  }

  predicate InJournal(journal: seq<JournalRow>, id: Id) {
    exists i :: 0 <= i < |journal| && journal[i].id == id
  }

  predicate LiveAt(db: Store, key: string, path: string) {
    key in db.objects && !db.objects[key].deleted && db.objects[key].path == path
  }

  ghost predicate LivePathsUnique(db: Store) {
    forall a, b, path :: LiveAt(db, a, path) && LiveAt(db, b, path) ==> a == b
  }

  /** A RAW object is RAW in every revision, and its live revisions share one payload. */
  ghost predicate RawShared(db: Store) {
    forall id :: id in db.revisions ==> RawSharedAt(db, id)
  }

  predicate RawSharedAt(db: Store, id: Id)
    requires id in db.revisions
  {
    && Id(id.key, 1) in db.revisions
    && (id in db.raws <==> Id(id.key, 1) in db.raws)
    && (id in db.raws && !db.revisions[id].draft.deleted ==> SamePayload(db, id, Id(id.key, 1)))
  }

  predicate SamePayload(db: Store, a: Id, b: Id)
    requires a in db.revisions && b in db.revisions
  {
    && a in db.parts && b in db.parts && db.parts[a] == db.parts[b]
    && db.revisions[a].draft.sha == db.revisions[b].draft.sha
    && db.revisions[a].draft.size == db.revisions[b].draft.size
  }

  ghost predicate Sound(c: Container, db: Store) {
    && Complete(db) && Sealed(c, db) && Stored(c, db) && Headed(db) && Indexed(db)
    && Journaled(db) && LivePathsUnique(db) && RawShared(db)
  }

  /** Between transactions every object has a first revision. */
  ghost predicate Settled(db: Store) {
    forall key :: key in db.objects ==> db.objects[key].head >= 1
  }

  lemma EmptySound(c: Container)
    ensures Sound(c, EMPTY) && Settled(EMPTY)
  {
  }
}
