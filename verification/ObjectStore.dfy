/** The object store's operations. Each runs in a transaction on the tables, publishes at
    most one revision of each object it names, and leaves everything unchanged when it fails. */
module ObjectStore {
  import opened Wrappers
  import opened ObjectModel
  import opened ObjectHistory
  import LogicalPath

  /** Two different chunks with one digest: the only reason a new chunk is refused. */
  ghost predicate Collision(c: Container) {
    exists a: Bytes, b: Bytes :: a != b && c.digest(a) == c.digest(b)
  }

  predicate ChunksKept(old_: map<string, Bytes>, chunks: map<string, Bytes>) {
    forall h :: h in old_ ==> h in chunks && chunks[h] == old_[h]
  }

  predicate ActiveSession(db: Store, session: string) {
    session in db.sessions && db.sessions[session].ended == 0
  }

  predicate PathFree(db: Store, path: string, key: string) {
    forall other :: other in db.objects && other != key ==> !LiveAt(db, other, path)
  }

  // ----- Validation

  /** The revisions 1..version exist, are linked and carry the right seals. */
  predicate ChainValid(c: Container, db: Store, key: string, version: nat) {
    forall v :: 1 <= v <= version ==> Id(key, v) in db.revisions && LinkOk(c, db, Id(key, v))
  }

  function PartsOf(db: Store, id: Id): seq<Chunk> {
    if id in db.parts then db.parts[id] else []
  }

  predicate PayloadValid(c: Container, db: Store, id: Id)
    requires id in db.revisions
  {
    var d, parts := db.revisions[id].draft, PartsOf(db, id);
    if d.deleted then parts == []
    else Holds(c, db.chunks, parts, d.sha, d.size) && forall p :: p in parts ==> c.digest(db.chunks[p.hash]) == p.hash
  }

  lemma {:induction false} FullParts(chunks: map<string, Bytes>, parts: seq<Chunk>)
    requires forall p :: p in parts ==> p.hash in chunks && |chunks[p.hash]| == CHUNK_BYTES
    ensures |Content(chunks, parts)| == |parts| * CHUNK_BYTES
  {
    if parts != [] {
      var front, last := parts[..|parts| - 1], parts[|parts| - 1];
      assert last in parts;
      FullParts(chunks, front);
      assert Content(chunks, parts) == Content(chunks, front) + chunks[last.hash];
    }
  }

  lemma Ceiling(full: nat, rest: nat)
    requires 0 < rest <= CHUNK_BYTES
    ensures var size := full * CHUNK_BYTES + rest;
      full + 1 == size / CHUNK_BYTES + (if size % CHUNK_BYTES != 0 then 1 else 0)
  {
  }

  /** Content of a given size is cut into exactly as many parts as its size calls for. */
  lemma PartCount(chunks: map<string, Bytes>, parts: seq<Chunk>)
    requires PartsOk(chunks, parts)
    ensures var size := |Content(chunks, parts)|;
      |parts| == size / CHUNK_BYTES + (if size % CHUNK_BYTES != 0 then 1 else 0)
  {
    if parts != [] {
      var last := |parts| - 1;
      var front := parts[..last];
      FullParts(chunks, front);
      Ceiling(last, parts[last].size);
    }
  }

  class Package {
    const c: Container
    var db: Store

    ghost predicate Valid()
      reads this
    {
      Sound(c, db) && Settled(db)
    }

    constructor (c: Container)
      ensures this.c == c && db == EMPTY && Valid()
    {
      this.c := c;
      db := EMPTY;
    }

    /** The links of a chain, one revision at a time. */
    method ValidateChain(key: string, version: nat) returns (ok: bool)
      ensures ok == ChainValid(c, db, key, version)
    {
      var v, previous := 1, "";
      while v <= version
        invariant 1 <= v <= version + 1
        invariant ChainValid(c, db, key, v - 1)
        invariant previous == if v > 1 then db.revisions[Id(key, v - 1)].validation else ""
      {
        var id := Id(key, v);
        if id !in db.revisions || key !in db.objects || db.revisions[id].session !in db.sessions {
          return false;
        }
        var r := db.revisions[id];
        if r.draft.version != v || r.draft.parent != previous || r.author != db.sessions[r.session].author
          || c.seal(MaterialOf(c, db, id, r)) != r.validation {
          return false;
        }
        previous := r.validation;
        v := v + 1;
      }
      ok := true;
    }

    method ValidatePayload(id: Id) returns (ok: bool)
      requires id in db.revisions
      ensures ok == PayloadValid(c, db, id)
    {
      var d, parts := db.revisions[id].draft, PartsOf(db, id);
      if d.deleted {
        return parts == [];
      }
      if |parts| != d.size / CHUNK_BYTES + (if d.size % CHUNK_BYTES != 0 then 1 else 0) {
        if PartsOk(db.chunks, parts) {
          PartCount(db.chunks, parts);
        }
        return false;
      }
      var i, hashed: Bytes, total := 0, [], 0;
      while i < |parts|
        invariant 0 <= i <= |parts|
        invariant forall j :: 0 <= j < i ==> (
          && parts[j].hash in db.chunks && |db.chunks[parts[j].hash]| == parts[j].size
          && 0 < parts[j].size <= CHUNK_BYTES && (j + 1 < |parts| ==> parts[j].size == CHUNK_BYTES)
          && c.digest(db.chunks[parts[j].hash]) == parts[j].hash)
        invariant forall p :: p in parts[..i] ==> p.hash in db.chunks
        invariant hashed == Content(db.chunks, parts[..i]) && total == |hashed|
      {
        var part := parts[i];
        assert part in parts;
        if i + 1 < |parts| && part.size != CHUNK_BYTES {
          return false;
        }
        if part.hash !in db.chunks {
          return false;
        }
        var bytes := db.chunks[part.hash];
        if |bytes| != part.size || bytes == [] || |bytes| > CHUNK_BYTES || c.digest(bytes) != part.hash {
          return false;
        }
        assert parts[..i + 1][..i] == parts[..i];
        hashed, total := hashed + bytes, total + |bytes|;
        i := i + 1;
      }
      assert parts[..i] == parts;
      ok := total == d.size && c.digest(hashed) == d.sha;
    }

    method Validate(key: string, version: nat, payload: bool) returns (ok: bool)
      ensures ok <==> (
        && 1 <= version <= MAXIMUM_INTEGER && ChainValid(c, db, key, version)
        && (payload ==> PayloadValid(c, db, Id(key, version))))
    {
      if version == 0 || version > MAXIMUM_INTEGER {
        return false;
      }
      ok := ValidateChain(key, version);
      if ok && payload {
        ok := ValidatePayload(Id(key, version));
      }
    }

    /** `require`: the live head at the expected version, with a valid chain. */
    method Require(key: string, expected: nat) returns (r: Option<Revision>)
      requires Valid()
      ensures r.Some? <==> Current(db, key, expected)
      ensures r.Some? ==> r.value == db.revisions[Id(key, expected)]
    {
      hide Sound, Settled, ChainValid, PayloadValid;
      HeadRow(c, db, key);
      if key !in db.objects || Id(key, db.objects[key].head) !in db.revisions {
        return None;
      }
      var head := db.revisions[Id(key, db.objects[key].head)];
      if head.draft.deleted || expected == 0 || head.draft.version != expected || expected >= MAXIMUM_INTEGER {
        return None;
      }
      ReachableRevisionsValidate(c, db, key, expected);
      var ok := Validate(key, expected, false);
      return if ok then Some(head) else None;
    }

    // ----- Content

    method StoreChunk(data: Bytes) returns (ok: bool, part: Chunk)
      requires Sound(c, db)
      modifies `db
      ensures Sound(c, db) && ChunksKept(old(db).chunks, db.chunks)
      ensures db == old(db).(chunks := db.chunks)
      ensures ok ==> part == Chunk(c.digest(data), |data|) && part.hash in db.chunks && db.chunks[part.hash] == data
      ensures !ok ==> Collision(c)
    {
      part := Chunk(c.digest(data), |data|);
      if part.hash in db.chunks {
        ok := db.chunks[part.hash] == data;
        assert c.digest(db.chunks[part.hash]) == part.hash;
      } else {
        AddChunkSound(c, db, data);
        db := db.(chunks := db.chunks[part.hash := data]);
        ok := true;
      }
    }

    /** Cut the content into chunks and store them. */
    method Ingest(content: Bytes) returns (ok: bool, parts: seq<Chunk>)
      requires Sound(c, db)
      modifies `db
      ensures Sound(c, db) && ChunksKept(old(db).chunks, db.chunks)
      ensures db == old(db).(chunks := db.chunks)
      ensures ok ==> PartsOk(db.chunks, parts) && Content(db.chunks, parts) == content
      ensures !ok ==> Collision(c)
    {
      hide Sound;
      var offset := 0;
      parts := [];
      while offset < |content|
        invariant 0 <= offset <= |content|
        invariant Sound(c, db) && ChunksKept(old(db).chunks, db.chunks)
        invariant db == old(db).(chunks := db.chunks)
        invariant PartsOk(db.chunks, parts) && Content(db.chunks, parts) == content[..offset]
        invariant offset < |content| ==> forall p :: p in parts ==> p.size == CHUNK_BYTES
      {
        var n := if |content| - offset < CHUNK_BYTES then |content| - offset else CHUNK_BYTES;
        ghost var before := db.chunks;
        var part;
        ok, part := StoreChunk(content[offset..offset + n]);
        if !ok {
          return;
        }
        AppendPart(before, db.chunks, parts, part);
        assert content[..offset + n] == content[..offset] + content[offset..offset + n];
        parts, offset := parts + [part], offset + n;
      }
      assert content[..offset] == content;
      ok := true;
    }

    // ----- Rows

    /** The INSERT into objects, with its unique key and the unique index on live paths. */
    method CreateObject(key: string, path: string) returns (ok: bool)
      requires Sound(c, db)
      modifies `db
      ensures ok == (key !in old(db).objects && PathFree(old(db), path, key))
      ensures db == if ok then Create(old(db), key, path) else old(db)
      ensures Sound(c, db)
    {
      if key in db.objects || exists other :: other in db.objects && LiveAt(db, other, path) {
        return false;
      }
      CreateSound(c, db, key, path);
      db := Create(db, key, path);
      ok := true;
    }

    /** The revision, its journal row, its raw document and its part rows in order. */
    method InsertRows(id: Id, r: Revision, session: string, document: Option<Raw>, parts: seq<Chunk>)
      modifies `db
      ensures db == old(db).(
        revisions := old(db).revisions[id := r], journal := old(db).journal + [JournalRow(id, session)],
        raws := (if document.Some? then old(db).raws[id := document.value] else old(db).raws),
        parts := old(db).parts[id := parts])
    {
      db := db.(revisions := db.revisions[id := r], journal := db.journal + [JournalRow(id, session)]);
      if document.Some? {
        db := db.(raws := db.raws[id := document.value]);
      }
      db := db.(parts := db.parts[id := []]);
      var ordinal := 0;
      while ordinal < |parts|
        invariant 0 <= ordinal <= |parts|
        invariant db == old(db).(
          revisions := old(db).revisions[id := r], journal := old(db).journal + [JournalRow(id, session)],
          raws := (if document.Some? then old(db).raws[id := document.value] else old(db).raws),
          parts := old(db).parts[id := parts[..ordinal]])
      {
        assert parts[..ordinal + 1] == parts[..ordinal] + [parts[ordinal]];
        db := db.(parts := db.parts[id := db.parts[id] + [parts[ordinal]]]);
        ordinal := ordinal + 1;
      }
      assert parts[..ordinal] == parts;
    }

    /** `publish`: insert the revision (and its journal row), its RAW document and its chunk
        rows, then move the head, which refreshes the index row. */
    method Publish(key: string, d: Draft, session: string, at: int, parts: seq<Chunk>, raw: Option<Option<Raw>>)
      returns (ok: bool, r: Revision)
      requires key in db.objects && session in db.sessions
      modifies `db
      ensures ok == (d.deleted || PathFree(old(db), d.path, key))
      ensures ok ==> db == After(c, old(db), key, d, session, at, parts, raw)
      ensures r == Sign(c, old(db), key, d, session, at, DocumentOf(old(db), key, d.version, raw))
    {
      var id := Id(key, d.version);
      var document := DocumentOf(db, key, d.version, raw);
      r := Sign(c, db, key, d, session, at, document);
      InsertRows(id, r, session, document, parts);
      if !d.deleted && exists other :: other in db.objects && other != key && LiveAt(db, other, d.path) {
        return false, r;
      }
      var o := db.objects[key];
      db := db.(
        objects := db.objects[key := ObjectRow(o.indexKey, d.version, d.path, d.deleted)],
        index := db.index[o.indexKey := Projection(key, d.version, d.path, d.deleted, r)]);
      ok := true;
    }

    /** Publish and commit, or roll the rows back when the live path is taken. */
    method PublishRevision(key: string, d: Draft, session: string, at: int, parts: seq<Chunk>, raw: Option<Option<Raw>>)
      returns (ok: bool)
      requires Sound(c, db) && key in db.objects && session in db.sessions
      requires d.deleted || PathFree(db, d.path, key) ==> Publishable(c, db, key, d, session, parts, raw)
      modifies `db
      ensures ok == (d.deleted || PathFree(old(db), d.path, key))
      ensures db == if ok then After(c, old(db), key, d, session, at, parts, raw) else old(db)
      ensures Sound(c, db)
      ensures ok && old(SettledBut(db, key)) ==> Settled(db)
      ensures !ok && old(Settled(db)) ==> Settled(db)
    {
      var saved := db;
      var r;
      ok, r := Publish(key, d, session, at, parts, raw);
      if ok {
        PublishSound(c, saved, key, d, session, at, parts, raw);
        PublishSettled(c, saved, key, d, session, at, parts, raw);
      } else {
        db := saved;
      }
    }

    // ----- Sessions

    method BeginSession(key: string, author: Author, device: string, description: string, context: string, at: int)
      returns (ok: bool)
      requires Valid()
      modifies `db
      ensures Valid()
      ensures ok == (key !in old(db).sessions)
      ensures db == if ok
        then old(db).(sessions := old(db).sessions[key := Session(author, device, description, at, 0, context)])
        else old(db)
    {
      if key in db.sessions {
        return false;
      }
      var sessions := db.sessions[key := Session(author, device, description, at, 0, context)];
      SessionsSound(c, db, sessions);
      db := db.(sessions := sessions);
      ok := true;
    }

    method EndSession(key: string, at: int) returns (ok: bool)
      requires Valid()
      modifies `db
      ensures Valid()
      ensures ok == ActiveSession(old(db), key)
      ensures db == if ok
        then old(db).(sessions := old(db).sessions[key := old(db).sessions[key].(ended := at)])
        else old(db)
    {
      if !ActiveSession(db, key) {
        return false;
      }
      var sessions := db.sessions[key := db.sessions[key].(ended := at)];
      SessionsSound(c, db, sessions);
      db := db.(sessions := sessions);
      ok := true;
    }

    // ----- Imports

    /** Create one object from content inside the running transaction. */
    method ImportRows(content: Bytes, path: string, session: string, authorship: string, stamp: string, raw: Option<Raw>, key: string, at: int)
      returns (ok: bool)
      requires Sound(c, db) && ActiveSession(db, session)
      modifies `db
      ensures ok ==> Sound(c, db) && Imported(c, old(db), db, key, path, content, session, at, authorship, stamp, raw)
      ensures !ok ==> !MayImport(old(db), content, path, key) || Collision(c)
      ensures ok ==> MayImport(old(db), content, path, key)
    {
      if !LogicalPath.Valid(path, 32768) || |content| > MAXIMUM_INTEGER {
        return false;
      }
      ok := CreateObject(key, path);
      if !ok {
        return;
      }
      var parts;
      ok, parts := Ingest(content);
      if !ok {
        return;
      }
      var d := FirstDraft(c, content, path, authorship, stamp, raw);
      assert Create(old(db), key, path).(chunks := db.chunks) == Create(old(db).(chunks := db.chunks), key, path);
      PublishSound(c, db, key, d, session, at, parts, Some(raw));
      var r;
      ok, r := Publish(key, d, session, at, parts, Some(raw));
    }

    method ImportFile(content: Bytes, path: string, session: string, authorship: string, stamp: string, raw: Option<Raw>, key: string, at: int)
      returns (ok: bool)
      requires Valid()
      modifies `db
      ensures Valid()
      ensures !ok ==> db == old(db)
      ensures ok ==> Imported(c, old(db), db, key, path, content, session, at, authorship, stamp, raw)
      ensures ok ==> ActiveSession(old(db), session) && MayImport(old(db), content, path, key)
      ensures !ok ==> !ActiveSession(old(db), session) || !MayImport(old(db), content, path, key) || Collision(c)
    {
      if !ActiveSession(db, session) {
        return false;
      }
      var saved := db;
      ok := ImportRows(content, path, session, authorship, stamp, raw, key, at);
      if ok {
        ImportSettled(c, saved, db, key, path, content, session, at, authorship, stamp, raw);
      } else {
        db := saved;
      }
    }

    method WrapRaw(content: Bytes, path: string, raw: Raw, session: string, authorship: string, stamp: string, key: string, at: int)
      returns (ok: bool)
      requires Valid()
      modifies `db
      ensures Valid()
      ensures !ok ==> db == old(db)
      ensures ok ==> Imported(c, old(db), db, key, path, content, session, at, authorship, stamp, Some(raw))
      ensures ok ==> RawDocumentOk(raw) && ActiveSession(old(db), session) && MayImport(old(db), content, path, key)
      ensures !ok ==>
        !RawDocumentOk(raw) || !ActiveSession(old(db), session) || !MayImport(old(db), content, path, key) || Collision(c)
    {
      if !RawDocumentOk(raw) {
        return false;
      }
      ok := ImportFile(content, path, session, authorship, stamp, Some(raw), key, at);
    }

    /** Capture a document: an immutable RAW original under `.originals/`, and a working
        object that starts with the original's chunks. */
    method ImportDocument(content: Bytes, path: string, raw: Raw, session: string, authorship: string, stamp: string,
                          workingKey: string, rawKey: string, at: int)
      returns (ok: bool)
      requires Valid()
      modifies `db
      ensures Valid()
      ensures !ok ==> db == old(db)
      ensures ok ==> MayCapture(old(db), content, path, raw, session, workingKey, rawKey)
      ensures !ok ==> !MayCapture(old(db), content, path, raw, session, workingKey, rawKey) || Collision(c)
      ensures ok ==> Captured(c, db, workingKey, rawKey, raw, content)
      ensures ok ==> WorkingCopy(db, workingKey, rawKey, path)
      ensures ok ==> exists mid: Store ::
        && Imported(c, old(db), mid, rawKey, OriginalPath(workingKey), content, session, at, authorship, stamp, Some(raw))
        && Imported(c, mid, db, workingKey, path, content, session, at, authorship, stamp, None)
    {
      if !RawDocumentOk(raw) || !LogicalPath.Valid(path, 32768) || ORIGINALS <= path || !ActiveSession(db, session) {
        return false;
      }
      var saved := db;
      ok := ImportRows(content, OriginalPath(workingKey), session, authorship, stamp, Some(raw), rawKey, at);
      if ok {
        ImportSettled(c, saved, db, rawKey, OriginalPath(workingKey), content, session, at, authorship, stamp, Some(raw));
        ImportCaptured(c, saved, db, workingKey, rawKey, content, session, at, authorship, stamp, raw);
        ImportLeavesPath(c, saved, db, workingKey, rawKey, content, path, session, at, authorship, stamp, raw);
        ok := ImportWorking(content, path, session, authorship, stamp, workingKey, rawKey, at, raw);
      }
      if !ok {
        db := saved;
      }
    }

    /** The working half of a capture: a new object over the original's chunks. */
    method ImportWorking(ghost content: Bytes, path: string, session: string, authorship: string, stamp: string,
                         workingKey: string, rawKey: string, at: int, ghost raw: Raw)
      returns (ok: bool)
      requires Sound(c, db) && Settled(db) && session in db.sessions
      requires Captured(c, db, workingKey, rawKey, raw, content) && |content| <= MAXIMUM_INTEGER
      requires db.revisions[Id(rawKey, 1)].draft.sha == c.digest(content) && db.revisions[Id(rawKey, 1)].draft.size == |content|
      modifies `db
      ensures ok <==> workingKey !in old(db).objects && PathFree(old(db), path, workingKey)
      ensures ok ==> Sound(c, db) && Settled(db) && Captured(c, db, workingKey, rawKey, raw, content)
      ensures ok ==> WorkingCopy(db, workingKey, rawKey, path)
      ensures ok ==> Imported(c, old(db), db, workingKey, path, content, session, at, authorship, stamp, None)
    {
      hide Sound, Settled, SettledBut, Publishable, WorkingCopy, Imported;
      assert CapturedAt(db, Id(rawKey, 1), raw, content);
      var original, parts := db.revisions[Id(rawKey, 1)].draft, db.parts[Id(rawKey, 1)];
      ok := CreateObject(workingKey, path);
      if !ok {
        return;
      }
      var d := Draft(1, path, original.sha, original.size, Import, false, "", authorship, stamp);
      ghost var created := db;
      CreateKeepsCapture(c, old(db), workingKey, path, rawKey, raw, content);
      FirstPublishable(c, created, workingKey, d, session, parts, None);
      ok := PublishRevision(workingKey, d, session, at, parts, None);
      if ok {
        CaptureKept(c, created, workingKey, d, session, at, parts, None, workingKey, rawKey, raw, content);
        WorkingPublished(c, created, workingKey, d, session, at, parts, rawKey);
        WorkingImported(c, old(db), workingKey, content, path, authorship, stamp, session, at, parts);
      }
    }

    // ----- Later revisions

    method ReviseFile(key: string, content: Bytes, expected: nat, session: string, authorship: Option<string>, stamp: string, at: int)
      returns (ok: bool)
      requires Valid()
      modifies `db
      ensures Valid()
      ensures !ok ==> db == old(db)
      ensures ok ==> MayRevise(old(db), key, expected, session, content)
      ensures ok ==> Revised(c, old(db), db, key, content, expected, session, at, authorship, stamp)
      ensures !ok ==> !MayRevise(old(db), key, expected, session, content) || Collision(c)
    {
      var head := Require(key, expected);
      if head.None? || !ActiveSession(db, session) || Id(key, expected) in db.raws || |content| > MAXIMUM_INTEGER {
        return false;
      }
      var saved := db;
      var parts;
      ok, parts := Ingest(content);
      if ok {
        HeadFacts(c, db, key, expected);
        var d := RevisedDraft(c, head.value, content, authorship, stamp);
        RevisionPublishable(c, db, key, d, session, parts, None, expected);
        RevisionPublished(c, saved, db.chunks, key, content, expected, session, at, authorship, stamp, parts);
        ok := PublishRevision(key, d, session, at, parts, None);
      } else {
        db := saved;
      }
    }

    method Move(key: string, path: string, expected: nat, session: string, stamp: string, at: int) returns (ok: bool)
      requires Valid()
      modifies `db
      ensures Valid()
      ensures !ok ==> db == old(db)
      ensures ok <==> (
        && Current(old(db), key, expected) && ActiveSession(old(db), session)
        && LogicalPath.Valid(path, 32768) && PathFree(old(db), path, key))
      ensures ok ==> Moved(c, old(db), db, key, path, expected, session, stamp, at)
    {
      if !LogicalPath.Valid(path, 32768) {
        return false;
      }
      var head := Require(key, expected);
      if head.None? || !ActiveSession(db, session) {
        return false;
      }
      var parts, d := PartsOf(db, Id(key, expected)), MovedDraft(head.value, path, stamp);
      MovePublishable(c, db, key, path, stamp, session, expected);
      ok := PublishRevision(key, d, session, at, parts, None);
    }

    method Erase(key: string, expected: nat, session: string, at: int) returns (ok: bool)
      requires Valid()
      modifies `db
      ensures Valid()
      ensures !ok ==> db == old(db)
      ensures ok <==> Current(old(db), key, expected) && ActiveSession(old(db), session)
      ensures ok ==> Erased(c, old(db), db, key, expected, session, at)
    {
      var head := Require(key, expected);
      if head.None? || !ActiveSession(db, session) {
        return false;
      }
      var d := ErasedDraft(head.value);
      ErasePublishable(c, db, key, session, expected);
      ok := PublishRevision(key, d, session, at, [], None);
    }

    method ReviseMetadata(key: string, annotations: string, expected: nat, session: string, at: int) returns (ok: bool)
      requires Valid()
      modifies `db
      ensures Valid()
      ensures !ok ==> db == old(db)
      ensures ok <==> Current(old(db), key, expected) && ActiveSession(old(db), session) && Id(key, expected) in old(db).raws
      ensures ok ==> Annotated(c, old(db), db, key, annotations, expected, session, at)
    {
      var head := Require(key, expected);
      var id := Id(key, expected);
      if head.None? || !ActiveSession(db, session) || id !in db.raws {
        return false;
      }
      var document := db.raws[id].(annotations := annotations);
      if document == db.raws[id] {
        return true;
      }
      var parts, d := PartsOf(db, id), MetadataDraft(head.value);
      MetadataPublishable(c, db, key, document, session, expected);
      ok := PublishRevision(key, d, session, at, parts, Some(Some(document)));
    }

    // ----- Reading

    /** `original`: the live RAW envelope captured for a working key. */
    method Original(workingKey: string) returns (rawKey: Option<string>)
      requires Valid()
      ensures rawKey.Some? ==> OriginalNameOk(workingKey) && IsOriginal(db, rawKey.value, workingKey)
      ensures rawKey.None? && OriginalNameOk(workingKey) ==> forall k :: !IsOriginal(db, k, workingKey)
    {
      if !OriginalNameOk(workingKey) {
        return None;
      }
      var found := set k | k in db.objects && LiveAt(db, k, OriginalPath(workingKey));
      if found == {} {
        assert forall k :: LiveAt(db, k, OriginalPath(workingKey)) ==> k in found;
        return None;
      }
      var k :| k in found;
      assert forall other :: LiveAt(db, other, OriginalPath(workingKey)) ==> other == k;
      var head := db.objects[k].head;
      ReachableRevisionsValidate(c, db, k, head);
      HeadInRange(db, k);
      var ok := Validate(k, head, false);
      if !ok || Id(k, head) !in db.raws {
        return None;
      }
      return Some(k);
    }

    /** `extract`: validate everything, then write the chunks in order. */
    method Extract(key: string, version: nat) returns (content: Option<Bytes>)
      requires Valid()
      ensures content.Some? <==> (
        && key in db.objects && 1 <= version <= db.objects[key].head && !db.revisions[Id(key, version)].draft.deleted)
      ensures content.Some? ==> var id := Id(key, version);
        && PartsOk(db.chunks, db.parts[id]) && content.value == Content(db.chunks, db.parts[id])
        && c.digest(content.value) == db.revisions[id].draft.sha
    {
      if key in db.objects && 1 <= version <= db.objects[key].head {
        HeadInRange(db, key);
        ReachableRevisionsValidate(c, db, key, version);
      }
      var ok := Validate(key, version, true);
      if !ok {
        return None;
      }
      var id := Id(key, version);
      assert id in db.revisions && PayloadOk(c, db, id);
      if db.revisions[id].draft.deleted {
        return None;
      }
      var output := Concatenate(db.parts[id]);
      return Some(output);
    }

    method Concatenate(parts: seq<Chunk>) returns (output: Bytes)
      requires forall p :: p in parts ==> p.hash in db.chunks
      ensures output == Content(db.chunks, parts)
    {
      var i := 0;
      output := [];
      while i < |parts|
        invariant 0 <= i <= |parts|
        invariant output == Content(db.chunks, parts[..i])
      {
        assert parts[..i + 1][..i] == parts[..i];
        output := output + db.chunks[parts[i].hash];
        i := i + 1;
      }
      assert parts[..i] == parts;
    }
  }

  /** The object is live and its head is the version the caller expects. */
  predicate Current(db: Store, key: string, expected: nat) {
    key in db.objects && !db.objects[key].deleted && expected == db.objects[key].head && 1 <= expected < MAXIMUM_INTEGER
  }

  lemma HeadRow(c: Container, db: Store, key: string)
    requires Sound(c, db) && Settled(db)
    ensures key in db.objects ==>
      var o := db.objects[key];
      && Id(key, o.head) in db.revisions
      && db.revisions[Id(key, o.head)].draft.version == o.head
      && db.revisions[Id(key, o.head)].draft.deleted == o.deleted
  {
    hide Stored, Indexed, Journaled, LivePathsUnique, RawShared;
    if key in db.objects {
      assert Id(key, db.objects[key].head) in db.revisions;
      assert LinkOk(c, db, Id(key, db.objects[key].head));
    }
  }

  /** The integrity checker accepts every revision of a sound package. */
  lemma ReachableRevisionsValidate(c: Container, db: Store, key: string, version: nat)
    requires Sound(c, db) && key in db.objects && 1 <= version <= db.objects[key].head
    ensures ChainValid(c, db, key, version) && PayloadValid(c, db, Id(key, version))
  {
    hide Headed, Indexed, Journaled, LivePathsUnique, RawShared;
    forall v | 1 <= v <= version ensures Id(key, v) in db.revisions && LinkOk(c, db, Id(key, v)) {
      assert Id(key, v) in db.revisions;
    }
    assert PayloadOk(c, db, Id(key, version));
  }

  lemma AppendPart(before: map<string, Bytes>, after: map<string, Bytes>, parts: seq<Chunk>, part: Chunk)
    requires ChunksKept(before, after) && PartsOk(before, parts)
    requires forall p :: p in parts ==> p.size == CHUNK_BYTES
    requires part.hash in after && |after[part.hash]| == part.size && 0 < part.size <= CHUNK_BYTES
    ensures PartsOk(after, parts + [part])
    ensures Content(after, parts + [part]) == Content(before, parts) + after[part.hash]
  {
    ContentKept(before, after, parts);
    var longer := parts + [part];
    assert longer[..|longer| - 1] == parts;
    forall i | 0 <= i < |longer|
      ensures longer[i].hash in after && |after[longer[i].hash]| == longer[i].size
      ensures 0 < longer[i].size <= CHUNK_BYTES && (i + 1 < |longer| ==> longer[i].size == CHUNK_BYTES)
    {
      if i < |parts| {
        assert longer[i] == parts[i] && parts[i] in parts;
      }
    }
  }

  predicate MayImport(db: Store, content: Bytes, path: string, key: string) {
    && LogicalPath.Valid(path, 32768) && |content| <= MAXIMUM_INTEGER
    && key !in db.objects && PathFree(db, path, key)
  }

  function FirstDraft(c: Container, content: Bytes, path: string, authorship: string, stamp: string, raw: Option<Raw>): Draft {
    Draft(1, path, c.digest(content), |content|, if raw.Some? then WrapRaw else Import, false, "", authorship, stamp)
  }

  /** The package gained one object whose first revision holds the content; apart from that
      only chunks were added. */
  ghost predicate Imported(c: Container, old_: Store, db: Store, key: string, path: string, content: Bytes,
                           session: string, at: int, authorship: string, stamp: string, raw: Option<Raw>) {
    && ChunksKept(old_.chunks, db.chunks)
    && session in old_.sessions
    && Id(key, 1) in db.parts
    && PartsOk(db.chunks, db.parts[Id(key, 1)]) && Content(db.chunks, db.parts[Id(key, 1)]) == content
    && db == After(c, Create(old_.(chunks := db.chunks), key, path), key,
                   FirstDraft(c, content, path, authorship, stamp, raw), session, at, db.parts[Id(key, 1)], Some(raw))
  }

  lemma ImportSettled(c: Container, old_: Store, db: Store, key: string, path: string, content: Bytes,
                      session: string, at: int, authorship: string, stamp: string, raw: Option<Raw>)
    requires Settled(old_) && Imported(c, old_, db, key, path, content, session, at, authorship, stamp, raw)
    ensures Settled(db)
  {
  }

  const ORIGINALS := ".originals/"

  function OriginalPath(workingKey: string): string {
    ORIGINALS + workingKey
  }

  predicate OriginalNameOk(workingKey: string) {
    && 0 < |workingKey| <= 1024 && '\0' !in workingKey && '/' !in workingKey && '\\' !in workingKey
    && LogicalPath.Valid(OriginalPath(workingKey), 32768)
  }

  predicate RawDocumentOk(raw: Raw) {
    && 0 < |raw.originalName| <= 4096 && '\0' !in raw.originalName
    && 0 < |raw.mediaType| <= 256 && '\0' !in raw.mediaType
    && raw.originalName != "." && raw.originalName != ".." && '/' !in raw.originalName && '\\' !in raw.originalName
  }

  // ----- The drafts of later revisions

  function RevisedDraft(c: Container, head: Revision, content: Bytes, authorship: Option<string>, stamp: string): Draft {
    head.draft.(version := head.draft.version + 1, parent := head.validation, operation := Revise,
                sha := c.digest(content), size := |content|, stamp := stamp,
                authorship := if authorship.Some? then authorship.value else head.draft.authorship)
  }

  function MovedDraft(head: Revision, path: string, stamp: string): Draft {
    head.draft.(version := head.draft.version + 1, parent := head.validation, operation := Operation.Move,
                path := path, stamp := if stamp != "" then stamp else head.draft.stamp)
  }

  function ErasedDraft(head: Revision): Draft {
    head.draft.(version := head.draft.version + 1, parent := head.validation, operation := Operation.Erase, deleted := true)
  }

  function MetadataDraft(head: Revision): Draft {
    head.draft.(version := head.draft.version + 1, parent := head.validation, operation := Metadata)
  }

  predicate MayRevise(db: Store, key: string, expected: nat, session: string, content: Bytes) {
    Current(db, key, expected) && ActiveSession(db, session) && Id(key, expected) !in db.raws && |content| <= MAXIMUM_INTEGER
  }

  ghost predicate Revised(c: Container, old_: Store, db: Store, key: string, content: Bytes, expected: nat, session: string, at: int,
                          authorship: Option<string>, stamp: string) {
    var id := Id(key, expected + 1);
    && ChunksKept(old_.chunks, db.chunks)
    && key in old_.objects && session in old_.sessions && Id(key, expected) in old_.revisions
    && id in db.parts && PartsOk(db.chunks, db.parts[id]) && Content(db.chunks, db.parts[id]) == content
    && db == After(c, old_.(chunks := db.chunks), key, RevisedDraft(c, old_.revisions[Id(key, expected)], content, authorship, stamp),
                   session, at, db.parts[id], None)
  }

  predicate Moved(c: Container, old_: Store, db: Store, key: string, path: string, expected: nat, session: string, stamp: string, at: int) {
    var id := Id(key, expected);
    && key in old_.objects && session in old_.sessions && id in old_.revisions
    && db == After(c, old_, key, MovedDraft(old_.revisions[id], path, stamp), session, at, PartsOf(old_, id), None)
  }

  predicate Erased(c: Container, old_: Store, db: Store, key: string, expected: nat, session: string, at: int) {
    var id := Id(key, expected);
    && key in old_.objects && session in old_.sessions && id in old_.revisions
    && db == After(c, old_, key, ErasedDraft(old_.revisions[id]), session, at, [], None)
  }

  /** The same annotations again change nothing. */
  predicate Annotated(c: Container, old_: Store, db: Store, key: string, annotations: string, expected: nat, session: string, at: int) {
    var id := Id(key, expected);
    && key in old_.objects && session in old_.sessions && id in old_.revisions && id in old_.raws
    && db == if old_.raws[id].annotations == annotations then old_
             else After(c, old_, key, MetadataDraft(old_.revisions[id]), session, at, PartsOf(old_, id),
                        Some(Some(old_.raws[id].(annotations := annotations))))
  }

  lemma RevisionPublished(c: Container, old_: Store, chunks: map<string, Bytes>, key: string, content: Bytes, expected: nat,
                          session: string, at: int, authorship: Option<string>, stamp: string, parts: seq<Chunk>)
    requires key in old_.objects && session in old_.sessions && Id(key, expected) in old_.revisions
    requires ChunksKept(old_.chunks, chunks) && PartsOk(chunks, parts) && Content(chunks, parts) == content
    requires old_.revisions[Id(key, expected)].draft.version == expected
    ensures var d := RevisedDraft(c, old_.revisions[Id(key, expected)], content, authorship, stamp);
      Revised(c, old_, After(c, old_.(chunks := chunks), key, d, session, at, parts, None), key, content, expected, session, at, authorship, stamp)
  {
  }

  // ----- What holds of a current head

  lemma HeadFacts(c: Container, db: Store, key: string, expected: nat)
    requires Sound(c, db) && Current(db, key, expected)
    ensures var id := Id(key, expected);
      && id in db.revisions && id in db.parts && Id(key, 1) in db.revisions
      && ParentOf(db, key) == db.revisions[id].validation
      && db.revisions[id].draft.version == expected && !db.revisions[id].draft.deleted
      && db.revisions[id].draft.path == db.objects[key].path
      && Holds(c, db.chunks, db.parts[id], db.revisions[id].draft.sha, db.revisions[id].draft.size)
      && RawSharedAt(db, id)
  {
    hide Indexed, Journaled, LivePathsUnique;
    var id := Id(key, expected);
    assert id in db.revisions;
    assert LinkOk(c, db, id) && PayloadOk(c, db, id) && RawSharedAt(db, id);
  }

  lemma OwnPathFree(c: Container, db: Store, key: string)
    requires Sound(c, db) && key in db.objects && !db.objects[key].deleted
    ensures PathFree(db, db.objects[key].path, key)
  {
    hide Complete, Sealed, Stored, Headed, Indexed, Journaled, RawShared;
    forall other | other in db.objects && other != key ensures !LiveAt(db, other, db.objects[key].path) {
      assert LiveAt(db, key, db.objects[key].path);
    }
  }

  lemma HeadInRange(db: Store, key: string)
    requires Complete(db) && key in db.objects
    ensures db.objects[key].head <= MAXIMUM_INTEGER
  {
  }

  // ----- Captured originals

  /** The RAW original of a working key: live at its reserved path, RAW in every revision,
      and every revision's chunks give the captured bytes. */
  ghost predicate Captured(c: Container, db: Store, workingKey: string, rawKey: string, raw: Raw, content: Bytes) {
    && LiveAt(db, rawKey, OriginalPath(workingKey)) && db.objects[rawKey].head >= 1
    && forall v :: 1 <= v <= db.objects[rawKey].head ==> CapturedAt(db, Id(rawKey, v), raw, content)
  }

  predicate CapturedAt(db: Store, id: Id, raw: Raw, content: Bytes) {
    && id in db.revisions && !db.revisions[id].draft.deleted
    && id in db.raws && db.raws[id].originalName == raw.originalName && db.raws[id].mediaType == raw.mediaType
    && id in db.parts && PartsOk(db.chunks, db.parts[id]) && Content(db.chunks, db.parts[id]) == content
  }

  lemma ImportCaptured(c: Container, old_: Store, db: Store, workingKey: string, rawKey: string, content: Bytes,
                       session: string, at: int, authorship: string, stamp: string, raw: Raw)
    requires Imported(c, old_, db, rawKey, OriginalPath(workingKey), content, session, at, authorship, stamp, Some(raw))
    ensures Captured(c, db, workingKey, rawKey, raw, content)
  {
    assert CapturedAt(db, Id(rawKey, 1), raw, content);
  }

  /** What a capture needs: both keys new, and both paths usable and free. */
  predicate MayCapture(db: Store, content: Bytes, path: string, raw: Raw, session: string, workingKey: string, rawKey: string) {
    && RawDocumentOk(raw) && LogicalPath.Valid(path, 32768) && !(ORIGINALS <= path) && ActiveSession(db, session)
    && MayImport(db, content, OriginalPath(workingKey), rawKey)
    && workingKey !in db.objects && workingKey != rawKey && PathFree(db, path, workingKey)
  }

  /** The original takes a path under its own prefix, which no working object may use. */
  lemma ImportLeavesPath(c: Container, old_: Store, db: Store, workingKey: string, rawKey: string, content: Bytes, path: string,
                         session: string, at: int, authorship: string, stamp: string, raw: Raw)
    requires Imported(c, old_, db, rawKey, OriginalPath(workingKey), content, session, at, authorship, stamp, Some(raw))
    requires !(ORIGINALS <= path) && rawKey !in old_.objects
    ensures workingKey in db.objects <==> workingKey in old_.objects || workingKey == rawKey
    ensures PathFree(db, path, workingKey) <==> PathFree(old_, path, workingKey)
  {
    assert db.objects == old_.objects[rawKey := db.objects[rawKey]];
    assert db.objects[rawKey].path == OriginalPath(workingKey) && ORIGINALS <= OriginalPath(workingKey);
    forall k | k in old_.objects
      ensures LiveAt(db, k, path) <==> LiveAt(old_, k, path)
    {
    }
  }

  /** Publishing a revision of any other object, or an annotation revision of the RAW
      object itself, keeps a captured original. */
  lemma CaptureKept(c: Container, db: Store, key: string, d: Draft, session: string, at: int, parts: seq<Chunk>, raw: Option<Option<Raw>>,
                    workingKey: string, rawKey: string, captured: Raw, content: Bytes)
    requires Captured(c, db, workingKey, rawKey, captured, content)
    requires key in db.objects && session in db.sessions
    requires key == rawKey ==>
      && d.version == db.objects[key].head + 1 && !d.deleted && d.path == db.objects[key].path
      && Id(key, db.objects[key].head) in db.parts && parts == db.parts[Id(key, db.objects[key].head)]
      && raw.Some? && raw.value.Some?
      && raw.value.value.originalName == captured.originalName && raw.value.value.mediaType == captured.mediaType
    ensures Captured(c, After(c, db, key, d, session, at, parts, raw), workingKey, rawKey, captured, content)
  {
    var db' := After(c, db, key, d, session, at, parts, raw);
    forall v | 1 <= v <= db'.objects[rawKey].head ensures CapturedAt(db', Id(rawKey, v), captured, content) {
      if v <= db.objects[rawKey].head {
        assert CapturedAt(db, Id(rawKey, v), captured, content);
      } else {
        assert CapturedAt(db, Id(rawKey, v - 1), captured, content);
      }
    }
  }

  predicate IsOriginal(db: Store, key: string, workingKey: string) {
    LiveAt(db, key, OriginalPath(workingKey)) && Id(key, db.objects[key].head) in db.raws
  }

  predicate WorkingCopy(db: Store, workingKey: string, rawKey: string, path: string) {
    && workingKey != rawKey && LiveAt(db, workingKey, path) && db.objects[workingKey].head == 1
    && Id(workingKey, 1) in db.parts && Id(rawKey, 1) in db.parts && Id(workingKey, 1) !in db.raws
    && db.parts[Id(workingKey, 1)] == db.parts[Id(rawKey, 1)]
  }

  ghost predicate SettledBut(db: Store, key: string) {
    forall k :: k in db.objects && k != key ==> db.objects[k].head >= 1
  }

  lemma PublishSettled(c: Container, db: Store, key: string, d: Draft, session: string, at: int, parts: seq<Chunk>, raw: Option<Option<Raw>>)
    requires Publishable(c, db, key, d, session, parts, raw)
    ensures SettledBut(db, key) ==> Settled(After(c, db, key, d, session, at, parts, raw))
  {
  }

  lemma WorkingPublished(c: Container, db: Store, workingKey: string, d: Draft, session: string, at: int, parts: seq<Chunk>, rawKey: string)
    requires workingKey in db.objects && session in db.sessions && workingKey != rawKey
    requires d.version == 1 && !d.deleted && Id(rawKey, 1) in db.parts && parts == db.parts[Id(rawKey, 1)]
    requires Id(workingKey, 1) !in db.raws
    ensures WorkingCopy(After(c, db, workingKey, d, session, at, parts, None), workingKey, rawKey, d.path)
  {
  }

  lemma WorkingImported(c: Container, old_: Store, key: string, content: Bytes, path: string, authorship: string, stamp: string,
                        session: string, at: int, parts: seq<Chunk>)
    requires key !in old_.objects && session in old_.sessions
    requires PartsOk(old_.chunks, parts) && Content(old_.chunks, parts) == content
    ensures var d := FirstDraft(c, content, path, authorship, stamp, None);
      Imported(c, old_, After(c, Create(old_, key, path), key, d, session, at, parts, None), key, path, content, session, at, authorship, stamp, None)
  {
    assert old_.(chunks := old_.chunks) == old_;
  }

  lemma CreateKeepsCapture(c: Container, db: Store, key: string, path: string, rawKey: string, raw: Raw, content: Bytes)
    requires Captured(c, db, key, rawKey, raw, content) && key !in db.objects && Sound(c, db)
    ensures Captured(c, Create(db, key, path), key, rawKey, raw, content)
    ensures Id(key, 1) !in db.raws && key != rawKey
    ensures Settled(db) ==> SettledBut(Create(db, key, path), key)
  {
    hide Sealed, Stored, Headed, Indexed, Journaled, RawShared, LivePathsUnique;
    var db' := Create(db, key, path);
    forall v | 1 <= v <= db'.objects[rawKey].head ensures CapturedAt(db', Id(rawKey, v), raw, content) {
      assert CapturedAt(db, Id(rawKey, v), raw, content);
    }
  }

  // ----- Each operation's draft may be published

  lemma FirstPublishable(c: Container, db: Store, key: string, d: Draft, session: string, parts: seq<Chunk>, raw: Option<Option<Raw>>)
    requires Sound(c, db) && key in db.objects && db.objects[key].head == 0 && !db.objects[key].deleted
    requires session in db.sessions && d.version == 1 && d.parent == "" && !d.deleted && d.path == db.objects[key].path
    requires Holds(c, db.chunks, parts, d.sha, d.size)
    ensures Publishable(c, db, key, d, session, parts, raw)
  {
    hide Sealed, Stored, Headed, Indexed, Journaled, RawShared, LivePathsUnique;
    OwnPathFree(c, db, key);
  }

  lemma RevisionPublishable(c: Container, db: Store, key: string, d: Draft, session: string, parts: seq<Chunk>, raw: Option<Option<Raw>>, expected: nat)
    requires Sound(c, db) && Current(db, key, expected) && session in db.sessions
    requires var head := db.revisions[Id(key, expected)];
      d.version == expected + 1 && d.parent == head.validation && !d.deleted && d.path == head.draft.path
    requires Id(key, expected) !in db.raws && raw.None?
    requires Holds(c, db.chunks, parts, d.sha, d.size)
    ensures Publishable(c, db, key, d, session, parts, raw) && PathFree(db, d.path, key)
  {
    hide Sound;
    HeadFacts(c, db, key, expected);
    OwnPathFree(c, db, key);
  }

  lemma MovePublishable(c: Container, db: Store, key: string, path: string, stamp: string, session: string, expected: nat)
    requires Sound(c, db) && Current(db, key, expected) && session in db.sessions
    ensures PathFree(db, path, key) ==>
      Publishable(c, db, key, MovedDraft(db.revisions[Id(key, expected)], path, stamp), session, PartsOf(db, Id(key, expected)), None)
  {
    hide Sound;
    HeadFacts(c, db, key, expected);
  }

  lemma ErasePublishable(c: Container, db: Store, key: string, session: string, expected: nat)
    requires Sound(c, db) && Current(db, key, expected) && session in db.sessions
    ensures Publishable(c, db, key, ErasedDraft(db.revisions[Id(key, expected)]), session, [], None)
  {
    hide Sound;
    HeadFacts(c, db, key, expected);
  }

  lemma MetadataPublishable(c: Container, db: Store, key: string, document: Raw, session: string, expected: nat)
    requires Sound(c, db) && Current(db, key, expected) && session in db.sessions && Id(key, expected) in db.raws
    ensures Publishable(c, db, key, MetadataDraft(db.revisions[Id(key, expected)]), session, PartsOf(db, Id(key, expected)), Some(Some(document)))
  {
    hide Sound;
    HeadFacts(c, db, key, expected);
    OwnPathFree(c, db, key);
  }
}
