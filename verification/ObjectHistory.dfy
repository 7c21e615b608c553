/** What publishing one revision does to the package, and why every reachable package
    is sound. */
module ObjectHistory {
  import opened Wrappers
  import opened ObjectModel

  // ----- Publication

  function Create(db: Store, key: string, path: string): Store {
    db.(objects := db.objects[key := ObjectRow(db.nextIndex, 0, path, false)], nextIndex := db.nextIndex + 1)
  }

  /** The rows after `publish`, its journal trigger and its index trigger. */
  function Published(db: Store, key: string, r: Revision, parts: seq<Chunk>, raw: Option<Raw>): Store
    requires key in db.objects
  {
    var id, o := Id(key, r.draft.version), db.objects[key];
    db.(
      revisions := db.revisions[id := r],
      raws := if raw.Some? then db.raws[id := raw.value] else db.raws,
      parts := db.parts[id := parts],
      journal := db.journal + [JournalRow(id, r.session)],
      objects := db.objects[key := ObjectRow(o.indexKey, r.draft.version, r.draft.path, r.draft.deleted)],
      index := db.index[o.indexKey := Projection(key, r.draft.version, r.draft.path, r.draft.deleted, r)])
  }

  /** The revision `publish` makes of a draft. */
  function Sign(c: Container, db: Store, key: string, d: Draft, session: string, at: int, raw: Option<Raw>): Revision
    requires key in db.objects && session in db.sessions
  {
    var s := db.sessions[session];
    Revision(d, s.author, session, at,
      c.seal(Material(c.key, key, db.objects[key].indexKey, d, s.author, session, at,
                      s.device, s.description, s.started, s.context, raw)))
  }

  /** `publish` keeps the RAW document of the previous revision unless it is given one. */
  function DocumentOf(db: Store, key: string, version: nat, raw: Option<Option<Raw>>): Option<Raw> {
    if raw.Some? then raw.value else if version > 1 then RawOf(db, Id(key, version - 1)) else None
  }

  /** The parent key a revision has to carry. */
  function ParentOf(db: Store, key: string): string {
    if key in db.objects && Id(key, db.objects[key].head) in db.revisions
    then db.revisions[Id(key, db.objects[key].head)].validation else ""
  }

  /** What the store's operations see to before they publish. */
  ghost predicate Publishable(c: Container, db: Store, key: string, d: Draft, session: string, parts: seq<Chunk>, raw: Option<Option<Raw>>) {
    && key in db.objects && session in db.sessions
    && d.version == db.objects[key].head + 1 && d.version <= MAXIMUM_INTEGER
    && d.parent == ParentOf(db, key)
    && !db.objects[key].deleted
    && (if d.deleted then parts == [] else Holds(c, db.chunks, parts, d.sha, d.size))
    && (!d.deleted ==> forall other :: other != key ==> !LiveAt(db, other, d.path))
    && RawKept(db, key, d, parts, raw)
  }

  /** A first revision is live; a later one stays RAW if the object is, and then keeps
      the payload unless it erases. */
  ghost predicate RawKept(db: Store, key: string, d: Draft, parts: seq<Chunk>, raw: Option<Option<Raw>>) {
    var first := Id(key, 1);
    if d.version == 1 then !d.deleted
    else
      && (raw.Some? ==> raw.value.Some? && first in db.raws)
      && (first in db.raws && !d.deleted ==> (
            && first in db.parts && first in db.revisions && parts == db.parts[first]
            && d.sha == db.revisions[first].draft.sha && d.size == db.revisions[first].draft.size))
  }

  /** The package after publishing a draft. */
  function After(c: Container, db: Store, key: string, d: Draft, session: string, at: int, parts: seq<Chunk>, raw: Option<Option<Raw>>): Store
    requires key in db.objects && session in db.sessions
  {
    var document := DocumentOf(db, key, d.version, raw);
    Published(db, key, Sign(c, db, key, d, session, at, document), parts, document)
  }

  // ----- Soundness of publication, part by part

  predicate Appends(db: Store, key: string, r: Revision) {
    key in db.objects && r.draft.version == db.objects[key].head + 1 && r.draft.version <= MAXIMUM_INTEGER
  }

  lemma PublishComplete(db: Store, key: string, r: Revision, parts: seq<Chunk>, raw: Option<Raw>)
    requires Complete(db) && Appends(db, key, r)
    ensures Complete(Published(db, key, r, parts, raw))
  {
  }

  /** A link survives every change that leaves its own rows alone. */
  lemma LinkKept(c: Container, db: Store, db': Store, id: Id)
    requires id in db.revisions && LinkOk(c, db, id)
    requires id in db'.revisions && db'.revisions[id] == db.revisions[id]
    requires id.key in db'.objects && db'.objects[id.key].indexKey == db.objects[id.key].indexKey
    requires SessionsExtended(db.sessions, db'.sessions)
    requires RawOf(db', id) == RawOf(db, id)
    requires id.version > 1 ==>
      var previous := Id(id.key, id.version - 1);
      && (previous in db'.revisions <==> previous in db.revisions)
      && (previous in db.revisions ==> db'.revisions[previous] == db.revisions[previous])
    ensures LinkOk(c, db', id)
  {
    var r := db.revisions[id];
    assert db'.sessions[r.session] == db.sessions[r.session].(ended := db'.sessions[r.session].ended);
    assert MaterialOf(c, db', id, r) == MaterialOf(c, db, id, r);
  }

  lemma PublishSealed(c: Container, db: Store, key: string, d: Draft, session: string, at: int, parts: seq<Chunk>, raw: Option<Raw>)
    requires key in db.objects && session in db.sessions
    requires var r := Sign(c, db, key, d, session, at, raw); Appends(db, key, r)
    requires Complete(db) && Sealed(c, db) && d.parent == ParentOf(db, key)
    ensures Sealed(c, Published(db, key, Sign(c, db, key, d, session, at, raw), parts, raw))
  {
    var r := Sign(c, db, key, d, session, at, raw);
    var db' := Published(db, key, r, parts, raw);
    forall id | id in db'.revisions ensures LinkOk(c, db', id) {
      if id in db.revisions {
        PublishKeepsLink(c, db, key, r, parts, raw, id);
      } else {
        PublishLinks(c, db, key, d, session, at, parts, raw);
      }
    }
  }

  lemma PublishKeepsLink(c: Container, db: Store, key: string, r: Revision, parts: seq<Chunk>, raw: Option<Raw>, id: Id)
    requires Complete(db) && Appends(db, key, r)
    requires id in db.revisions && LinkOk(c, db, id)
    ensures LinkOk(c, Published(db, key, r, parts, raw), id)
  {
    var db' := Published(db, key, r, parts, raw);
    assert id != Id(key, r.draft.version);
    assert RawOf(db', id) == RawOf(db, id);
    LinkKept(c, db, db', id);
  }

  lemma PublishLinks(c: Container, db: Store, key: string, d: Draft, session: string, at: int, parts: seq<Chunk>, raw: Option<Raw>)
    requires key in db.objects && session in db.sessions
    requires Complete(db) && Appends(db, key, Sign(c, db, key, d, session, at, raw)) && d.parent == ParentOf(db, key)
    ensures LinkOk(c, Published(db, key, Sign(c, db, key, d, session, at, raw), parts, raw), Id(key, d.version))
  {
    var r := Sign(c, db, key, d, session, at, raw);
    var db' := Published(db, key, r, parts, raw);
    var added := Id(key, d.version);
    assert added !in db.raws;
    assert RawOf(db', added) == raw;
    assert d.version > 1 ==> Id(key, d.version - 1) in db.revisions && db'.revisions[Id(key, d.version - 1)] == db.revisions[Id(key, d.version - 1)];
  }

  lemma PublishStored(c: Container, db: Store, key: string, r: Revision, parts: seq<Chunk>, raw: Option<Raw>)
    requires key in db.objects && Stored(c, db)
    requires if r.draft.deleted then parts == [] else Holds(c, db.chunks, parts, r.draft.sha, r.draft.size)
    ensures Stored(c, Published(db, key, r, parts, raw))
  {
    var db' := Published(db, key, r, parts, raw);
    forall id | id in db'.revisions ensures PayloadOk(c, db', id) {
      assert id != Id(key, r.draft.version) ==> PayloadOk(c, db, id);
    }
  }

  lemma PublishHeaded(db: Store, key: string, r: Revision, parts: seq<Chunk>, raw: Option<Raw>)
    requires Complete(db) && Headed(db) && Appends(db, key, r) && !db.objects[key].deleted
    ensures Headed(Published(db, key, r, parts, raw))
  {
    hide Published, Complete;
    HeadKept(db, key, r, parts, raw);
    HeadIsLive(db, key);
    var db' := Published(db, key, r, parts, raw);
    forall k | k in db'.objects && Id(k, db'.objects[k].head) in db'.revisions
      ensures var d := db'.revisions[Id(k, db'.objects[k].head)].draft; d.path == db'.objects[k].path && d.deleted == db'.objects[k].deleted
    {
      if k != key {
        assert Id(k, db.objects[k].head) in db.revisions;
      }
    }
    forall id | id in db'.revisions && db'.revisions[id].draft.deleted
      ensures id.key in db'.objects && id.version == db'.objects[id.key].head
    {
      if id != Id(key, r.draft.version) {
        assert id.key in db.objects && id.version == db.objects[id.key].head;
        assert id == Id(id.key, db.objects[id.key].head);
      }
    }
  }

  lemma HeadIsLive(db: Store, key: string)
    requires Headed(db) && key in db.objects && !db.objects[key].deleted
    ensures Id(key, db.objects[key].head) in db.revisions ==> !db.revisions[Id(key, db.objects[key].head)].draft.deleted
  {
  }

  /** The two tables that heads are about. */
  lemma HeadKept(db: Store, key: string, r: Revision, parts: seq<Chunk>, raw: Option<Raw>)
    requires key in db.objects
    ensures var db' := Published(db, key, r, parts, raw);
      && db'.objects == db.objects[key := ObjectRow(db.objects[key].indexKey, r.draft.version, r.draft.path, r.draft.deleted)]
      && db'.revisions == db.revisions[Id(key, r.draft.version) := r]
  {
  }

  lemma PublishProjections(db: Store, key: string, r: Revision, parts: seq<Chunk>, raw: Option<Raw>)
    requires Complete(db) && Indexed(db) && Appends(db, key, r)
    ensures var db' := Published(db, key, r, parts, raw);
      forall a :: a in db'.objects && db'.objects[a].head > 0 ==> ProjectionOk(db', a)
  {
    var db' := Published(db, key, r, parts, raw);
    forall a | a in db'.objects && db'.objects[a].head > 0 ensures ProjectionOk(db', a) {
      if a != key {
        assert ProjectionOk(db, a);
      }
    }
  }

  lemma PublishIndexed(db: Store, key: string, r: Revision, parts: seq<Chunk>, raw: Option<Raw>)
    requires Complete(db) && Indexed(db) && Appends(db, key, r)
    ensures Indexed(Published(db, key, r, parts, raw))
  {
    hide ProjectionOk, IndexedBy, Complete;
    PublishProjections(db, key, r, parts, raw);
    PublishOwners(db, key, r, parts, raw);
  }

  /** Every index row still belongs to a published object. */
  lemma PublishOwners(db: Store, key: string, r: Revision, parts: seq<Chunk>, raw: Option<Raw>)
    requires Complete(db) && Indexed(db) && Appends(db, key, r)
    ensures var db' := Published(db, key, r, parts, raw); forall k :: k in db'.index ==> IndexedBy(db', k)
  {
    hide ProjectionOk;
    var db' := Published(db, key, r, parts, raw);
    forall k | k in db'.index ensures IndexedBy(db', k) {
      if k == db.objects[key].indexKey {
        assert db'.objects[key].indexKey == k;
      } else {
        assert IndexedBy(db, k);
        var a :| a in db.objects && db.objects[a].indexKey == k && db.objects[a].head > 0;
        assert db'.objects[a].indexKey == k;
      }
    }
  }

  lemma PublishJournaled(db: Store, key: string, r: Revision, parts: seq<Chunk>, raw: Option<Raw>)
    requires Complete(db) && Journaled(db) && Appends(db, key, r)
    ensures Journaled(Published(db, key, r, parts, raw))
  {
    hide InJournal;
    var added := JournalRow(Id(key, r.draft.version), r.session);
    var db' := Published(db, key, r, parts, raw);
    assert forall i :: 0 <= i < |db.journal| ==> db.journal[i].id in db.revisions;
    forall id | id in db'.revisions ensures InJournal(db'.journal, id) {
      AppendedInJournal(db.journal, added, id);
    }
  }

  lemma AppendedInJournal(journal: seq<JournalRow>, added: JournalRow, id: Id)
    ensures InJournal(journal + [added], id) <==> InJournal(journal, id) || id == added.id
  {
    var longer := journal + [added];
    if InJournal(journal, id) {
      var i :| 0 <= i < |journal| && journal[i].id == id;
      assert longer[i].id == id;
    }
    if id == added.id {
      assert longer[|journal|].id == id;
    }
  }

  lemma PublishLivePaths(db: Store, key: string, r: Revision, parts: seq<Chunk>, raw: Option<Raw>)
    requires key in db.objects && LivePathsUnique(db)
    requires !r.draft.deleted ==> forall other :: other != key ==> !LiveAt(db, other, r.draft.path)
    ensures LivePathsUnique(Published(db, key, r, parts, raw))
  {
    var db' := Published(db, key, r, parts, raw);
    forall a, b, path | LiveAt(db', a, path) && LiveAt(db', b, path) ensures a == b {
      assert a != key ==> LiveAt(db, a, path);
      assert b != key ==> LiveAt(db, b, path);
    }
  }

  lemma PublishRawShared(db: Store, key: string, r: Revision, parts: seq<Chunk>, raw: Option<Option<Raw>>)
    requires Complete(db) && RawShared(db) && Appends(db, key, r) && RawKept(db, key, r.draft, parts, raw)
    ensures RawShared(Published(db, key, r, parts, DocumentOf(db, key, r.draft.version, raw)))
  {
    var document := DocumentOf(db, key, r.draft.version, raw);
    var db' := Published(db, key, r, parts, document);
    var added, first := Id(key, r.draft.version), Id(key, 1);
    assert added !in db.revisions && added !in db.raws;
    if r.draft.version > 1 {
      assert Id(key, r.draft.version - 1) in db.revisions;
      assert added in db'.raws <==> first in db.raws;
    }
    forall id | id in db'.revisions ensures RawSharedAt(db', id) {
      if id != added {
        assert RawSharedAt(db, id);
      }
    }
  }

  /** Publication keeps the whole invariant. */
  lemma PublishSound(c: Container, db: Store, key: string, d: Draft, session: string, at: int, parts: seq<Chunk>, raw: Option<Option<Raw>>)
    requires Sound(c, db) && Publishable(c, db, key, d, session, parts, raw)
    ensures Sound(c, After(c, db, key, d, session, at, parts, raw))
  {
    var document := DocumentOf(db, key, d.version, raw);
    var r := Sign(c, db, key, d, session, at, document);
    PublishComplete(db, key, r, parts, document);
    PublishSealed(c, db, key, d, session, at, parts, document);
    PublishStored(c, db, key, r, parts, document);
    PublishHeaded(db, key, r, parts, document);
    PublishIndexed(db, key, r, parts, document);
    PublishJournaled(db, key, r, parts, document);
    PublishLivePaths(db, key, r, parts, document);
    PublishRawShared(db, key, r, parts, raw);
  }

  // ----- The other row changes

  /** Rows other than chunks, sessions and not yet published objects. */
  lemma RevisionsFrame(c: Container, db: Store, db': Store)
    requires Sound(c, db)
    requires db' == db.(chunks := db'.chunks, sessions := db'.sessions)
    requires SessionsExtended(db.sessions, db'.sessions)
    requires forall h :: h in db.chunks ==> h in db'.chunks && db'.chunks[h] == db.chunks[h]
    requires forall h :: h in db'.chunks ==> c.digest(db'.chunks[h]) == h
    ensures Sound(c, db')
  {
    SealedFrame(c, db, db');
    StoredFrame(c, db, db');
    CompleteFrame(db, db');
    IndexFrame(db, db');
    RawFrame(db, db');
  }

  lemma SealedFrame(c: Container, db: Store, db': Store)
    requires Sealed(c, db)
    requires db' == db.(chunks := db'.chunks, sessions := db'.sessions)
    requires SessionsExtended(db.sessions, db'.sessions)
    ensures Sealed(c, db')
  {
    forall id | id in db'.revisions ensures LinkOk(c, db', id) {
      LinkKept(c, db, db', id);
    }
  }

  lemma StoredFrame(c: Container, db: Store, db': Store)
    requires Stored(c, db)
    requires db' == db.(chunks := db'.chunks, sessions := db'.sessions)
    requires forall h :: h in db.chunks ==> h in db'.chunks && db'.chunks[h] == db.chunks[h]
    requires forall h :: h in db'.chunks ==> c.digest(db'.chunks[h]) == h
    ensures Stored(c, db')
  {
    forall id | id in db'.revisions ensures PayloadOk(c, db', id) {
      assert PayloadOk(c, db, id);
      if !db.revisions[id].draft.deleted {
        ContentKept(db.chunks, db'.chunks, db.parts[id]);
      }
    }
  }

  lemma CompleteFrame(db: Store, db': Store)
    requires Complete(db) && Headed(db) && Journaled(db)
    requires db' == db.(chunks := db'.chunks, sessions := db'.sessions)
    ensures Complete(db') && Headed(db') && Journaled(db')
  {
  }

  lemma IndexFrame(db: Store, db': Store)
    requires Indexed(db)
    requires db' == db.(chunks := db'.chunks, sessions := db'.sessions)
    ensures Indexed(db')
  {
    forall a | a in db'.objects && db'.objects[a].head > 0 ensures ProjectionOk(db', a) {
      assert ProjectionOk(db, a);
    }
    forall k | k in db'.index ensures IndexedBy(db', k) {
      assert IndexedBy(db, k);
    }
  }

  lemma RawFrame(db: Store, db': Store)
    requires RawShared(db) && LivePathsUnique(db)
    requires db' == db.(chunks := db'.chunks, sessions := db'.sessions)
    ensures RawShared(db') && LivePathsUnique(db')
  {
    forall id | id in db'.revisions ensures RawSharedAt(db', id) {
      assert RawSharedAt(db, id);
    }
    forall a, b, p | LiveAt(db', a, p) && LiveAt(db', b, p) ensures a == b {
      assert LiveAt(db, a, p) && LiveAt(db, b, p);
    }
  }

  /** Chunks are only added, under their digest. */
  lemma {:induction false} ContentKept(chunks: map<string, Bytes>, more: map<string, Bytes>, parts: seq<Chunk>)
    requires forall h :: h in chunks ==> h in more && more[h] == chunks[h]
    requires forall p :: p in parts ==> p.hash in chunks
    ensures Content(more, parts) == Content(chunks, parts)
  {
    if parts != [] {
      ContentKept(chunks, more, parts[..|parts| - 1]);
    }
  }

  lemma AddChunkSound(c: Container, db: Store, data: Bytes)
    requires Sound(c, db) && c.digest(data) !in db.chunks
    ensures Sound(c, db.(chunks := db.chunks[c.digest(data) := data]))
  {
    RevisionsFrame(c, db, db.(chunks := db.chunks[c.digest(data) := data]));
  }

  /** Opening a session, or ending one: validation keys do not seal the end time. */
  predicate SessionsExtended(old_: map<string, Session>, sessions: map<string, Session>) {
    forall k :: k in old_ ==> k in sessions && sessions[k] == old_[k].(ended := sessions[k].ended)
  }

  lemma SessionsSound(c: Container, db: Store, sessions: map<string, Session>)
    requires Sound(c, db) && SessionsExtended(db.sessions, sessions)
    ensures Sound(c, db.(sessions := sessions))
  {
    RevisionsFrame(c, db, db.(sessions := sessions));
  }

  lemma CreateSound(c: Container, db: Store, key: string, path: string)
    requires Sound(c, db) && key !in db.objects
    requires forall other :: !LiveAt(db, other, path)
    ensures Sound(c, Create(db, key, path))
  {
    CreateRevisions(c, db, key, path);
    CreateIndexed(db, key, path);
    CreateRows(db, key, path);
  }

  lemma CreateRevisions(c: Container, db: Store, key: string, path: string)
    requires Sealed(c, db) && Stored(c, db) && RawShared(db) && key !in db.objects
    ensures var db' := Create(db, key, path); Sealed(c, db') && Stored(c, db') && RawShared(db')
  {
    var db' := Create(db, key, path);
    forall id | id in db'.revisions ensures LinkOk(c, db', id) {
      LinkKept(c, db, db', id);
    }
    forall id | id in db'.revisions ensures PayloadOk(c, db', id) && RawSharedAt(db', id) {
      assert PayloadOk(c, db, id) && RawSharedAt(db, id);
    }
  }

  lemma CreateRows(db: Store, key: string, path: string)
    requires Complete(db) && Headed(db) && Journaled(db) && LivePathsUnique(db) && key !in db.objects
    requires forall other :: !LiveAt(db, other, path)
    ensures var db' := Create(db, key, path); Complete(db') && Headed(db') && Journaled(db') && LivePathsUnique(db')
  {
    CreatePaths(db, key, path);
  }

  lemma CreatePaths(db: Store, key: string, path: string)
    requires LivePathsUnique(db) && key !in db.objects && forall other :: !LiveAt(db, other, path)
    ensures LivePathsUnique(Create(db, key, path))
  {
    var db' := Create(db, key, path);
    forall a, b, p | LiveAt(db', a, p) && LiveAt(db', b, p) ensures a == b {
      assert a != key ==> LiveAt(db, a, p);
      assert b != key ==> LiveAt(db, b, p);
    }
  }

  lemma CreateIndexed(db: Store, key: string, path: string)
    requires Indexed(db) && key !in db.objects && db.nextIndex >= 1
    ensures Indexed(Create(db, key, path))
  {
    var db' := Create(db, key, path);
    forall a | a in db'.objects && db'.objects[a].head > 0 ensures ProjectionOk(db', a) {
      assert ProjectionOk(db, a);
    }
    forall k | k in db'.index ensures IndexedBy(db', k) {
      assert IndexedBy(db, k);
      var a :| a in db.objects && db.objects[a].indexKey == k && db.objects[a].head > 0;
      assert db'.objects[a] == db.objects[a];
    }
  }
}
