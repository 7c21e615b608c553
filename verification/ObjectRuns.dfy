/** Whole runs of the object store: every state is sound, the journal only grows and
    tells whether the index changed, and a captured original outlives its working copy. */
module ObjectRuns {
  import opened Wrappers
  import opened ObjectModel
  import opened ObjectHistory
  import opened ObjectStore

  /** What one committed operation did. */
  datatype Event =
    | SessionsEvent
    | ImportEvent(key: string, path: string, content: Bytes, session: string, at: int, authorship: string, stamp: string, raw: Option<Raw>)
    | RevisionEvent(key: string, draft: Draft, session: string, at: int, parts: seq<Chunk>, document: Option<Option<Raw>>)

  ghost predicate Step(c: Container, db: Store, e: Event, db': Store) {
    match e
    case SessionsEvent =>
      SessionsExtended(db.sessions, db'.sessions) && db' == db.(sessions := db'.sessions)
    case ImportEvent(key, path, content, session, at, authorship, stamp, raw) =>
      && MayImport(db, content, path, key) && ChunksSealed(c, db'.chunks)
      && Imported(c, db, db', key, path, content, session, at, authorship, stamp, raw)
    case RevisionEvent(key, d, session, at, parts, document) =>
      && ChunksKept(db.chunks, db'.chunks) && ChunksSealed(c, db'.chunks) && d.version > 1
      && Publishable(c, db.(chunks := db'.chunks), key, d, session, parts, document)
      && db' == After(c, db.(chunks := db'.chunks), key, d, session, at, parts, document)
  }

  predicate ChunksSealed(c: Container, chunks: map<string, Bytes>) {
    forall h :: h in chunks ==> c.digest(chunks[h]) == h
  }

  lemma ChunksSound(c: Container, db: Store, chunks: map<string, Bytes>)
    requires Sound(c, db) && ChunksKept(db.chunks, chunks) && ChunksSealed(c, chunks)
    ensures Sound(c, db.(chunks := chunks))
  {
    hide Sound;
    RevisionsFrame(c, db, db.(chunks := chunks));
  }

  lemma StepSound(c: Container, db: Store, e: Event, db': Store)
    requires Sound(c, db) && Settled(db) && Step(c, db, e, db')
    ensures Sound(c, db') && Settled(db')
  {
    match e
    case SessionsEvent =>
      SessionsSound(c, db, db'.sessions);
    case ImportEvent(key, path, content, session, at, authorship, stamp, raw) =>
      ImportSound(c, db, db', key, path, content, session, at, authorship, stamp, raw);
      ImportSettled(c, db, db', key, path, content, session, at, authorship, stamp, raw);
    case RevisionEvent(key, d, session, at, parts, document) =>
      ChunksSound(c, db, db'.chunks);
      PublishSound(c, db.(chunks := db'.chunks), key, d, session, at, parts, document);
      PublishSettled(c, db.(chunks := db'.chunks), key, d, session, at, parts, document);
  }

  lemma ImportSound(c: Container, db: Store, db': Store, key: string, path: string, content: Bytes,
                    session: string, at: int, authorship: string, stamp: string, raw: Option<Raw>)
    requires MayImport(db, content, path, key) && Sound(c, db) && ChunksSealed(c, db'.chunks)
    requires Imported(c, db, db', key, path, content, session, at, authorship, stamp, raw)
    ensures Sound(c, db')
  {
    hide Sound, Publishable;
    var mid := db.(chunks := db'.chunks);
    ChunksSound(c, db, db'.chunks);
    forall other ensures !LiveAt(mid, other, path) {
      assert LiveAt(mid, other, path) ==> LiveAt(db, other, path);
    }
    CreateSound(c, mid, key, path);
    var d, parts := FirstDraft(c, content, path, authorship, stamp, raw), db'.parts[Id(key, 1)];
    FirstPublishable(c, Create(mid, key, path), key, d, session, parts, Some(raw));
    PublishSound(c, Create(mid, key, path), key, d, session, at, parts, Some(raw));
  }

  // ----- The operations are steps

  lemma ImportIsStep(c: Container, db: Store, db': Store, key: string, path: string, content: Bytes,
                     session: string, at: int, authorship: string, stamp: string, raw: Option<Raw>)
    requires MayImport(db, content, path, key) && Sound(c, db')
    requires Imported(c, db, db', key, path, content, session, at, authorship, stamp, raw)
    ensures Step(c, db, ImportEvent(key, path, content, session, at, authorship, stamp, raw), db')
  {
  }

  lemma RevisionIsStep(c: Container, db: Store, db': Store, key: string, content: Bytes, expected: nat, session: string, at: int,
                       authorship: Option<string>, stamp: string)
    requires Sound(c, db) && Sound(c, db') && MayRevise(db, key, expected, session, content)
    requires Revised(c, db, db', key, content, expected, session, at, authorship, stamp)
    ensures var d := RevisedDraft(c, db.revisions[Id(key, expected)], content, authorship, stamp);
      Step(c, db, RevisionEvent(key, d, session, at, db'.parts[Id(key, expected + 1)], None), db')
  {
    hide Sound, Publishable, Current;
    assert ChunksSealed(c, db'.chunks) by { StoredChunks(c, db'); }
    ChunksSound(c, db, db'.chunks);
    CurrentVersion(db, key, expected);
    var mid := db.(chunks := db'.chunks);
    CurrentVersion(mid, key, expected);
    HeadFacts(c, db, key, expected);
    RevisionPublishable(c, mid, key, RevisedDraft(c, db.revisions[Id(key, expected)], content, authorship, stamp), session,
                        db'.parts[Id(key, expected + 1)], None, expected);
  }

  lemma StoredChunks(c: Container, db: Store)
    requires Sound(c, db)
    ensures ChunksSealed(c, db.chunks)
  {
  }

  lemma CurrentVersion(db: Store, key: string, expected: nat)
    ensures Current(db, key, expected) <==>
      key in db.objects && !db.objects[key].deleted && expected == db.objects[key].head && 1 <= expected < MAXIMUM_INTEGER
  {
  }

  /** Moves, erasures and annotation revisions publish without new chunks. */
  lemma PublicationIsStep(c: Container, db: Store, key: string, d: Draft, session: string, at: int, parts: seq<Chunk>, document: Option<Option<Raw>>)
    requires Sound(c, db) && d.version > 1 && Publishable(c, db, key, d, session, parts, document)
    ensures Step(c, db, RevisionEvent(key, d, session, at, parts, document), After(c, db, key, d, session, at, parts, document))
  {
    hide Sound, Publishable;
    StoredChunks(c, db);
    assert db.(chunks := db.chunks) == db;
    PublishableRows(c, db, key, d, session, parts, document);
  }

  lemma MoveIsStep(c: Container, db: Store, db': Store, key: string, path: string, expected: nat, session: string, stamp: string, at: int)
    requires Sound(c, db) && Current(db, key, expected) && ActiveSession(db, session) && PathFree(db, path, key)
    requires Moved(c, db, db', key, path, expected, session, stamp, at)
    ensures var id := Id(key, expected);
      Step(c, db, RevisionEvent(key, MovedDraft(db.revisions[id], path, stamp), session, at, PartsOf(db, id), None), db')
  {
    hide Sound, Publishable, Step;
    HeadFacts(c, db, key, expected);
    MovePublishable(c, db, key, path, stamp, session, expected);
    PublicationIsStep(c, db, key, MovedDraft(db.revisions[Id(key, expected)], path, stamp), session, at, PartsOf(db, Id(key, expected)), None);
  }

  lemma EraseIsStep(c: Container, db: Store, db': Store, key: string, expected: nat, session: string, at: int)
    requires Sound(c, db) && Current(db, key, expected) && ActiveSession(db, session)
    requires Erased(c, db, db', key, expected, session, at)
    ensures Step(c, db, RevisionEvent(key, ErasedDraft(db.revisions[Id(key, expected)]), session, at, [], None), db')
  {
    hide Sound, Publishable, Step;
    HeadFacts(c, db, key, expected);
    ErasePublishable(c, db, key, session, expected);
    PublicationIsStep(c, db, key, ErasedDraft(db.revisions[Id(key, expected)]), session, at, [], None);
  }

  /** Annotating again with the same annotations is no step at all. */
  lemma AnnotateIsStep(c: Container, db: Store, db': Store, key: string, annotations: string, expected: nat, session: string, at: int)
    requires Sound(c, db) && Current(db, key, expected) && ActiveSession(db, session) && Id(key, expected) in db.raws
    requires Annotated(c, db, db', key, annotations, expected, session, at)
    ensures var id := Id(key, expected);
      if db.raws[id].annotations == annotations then db' == db
      else Step(c, db, RevisionEvent(key, MetadataDraft(db.revisions[id]), session, at, PartsOf(db, id),
                                     Some(Some(db.raws[id].(annotations := annotations)))), db')
  {
    hide Sound, Publishable, Step;
    var id := Id(key, expected);
    HeadFacts(c, db, key, expected);
    var document := db.raws[id].(annotations := annotations);
    MetadataPublishable(c, db, key, document, session, expected);
    PublicationIsStep(c, db, key, MetadataDraft(db.revisions[id]), session, at, PartsOf(db, id), Some(Some(document)));
  }

  lemma PublishableRows(c: Container, db: Store, key: string, d: Draft, session: string, parts: seq<Chunk>, document: Option<Option<Raw>>)
    requires Publishable(c, db, key, d, session, parts, document)
    ensures key in db.objects && session in db.sessions
  {
  }

  // ----- Runs

  ghost predicate Run(c: Container, states: seq<Store>, events: seq<Event>) {
    && |states| == |events| + 1
    && states[0] == EMPTY
    && forall i :: 0 <= i < |events| ==> Step(c, states[i], events[i], states[i + 1])
  }

  /** Every reachable package is sound, so the checker accepts every one of its revisions. */
  lemma {:induction false} RunSound(c: Container, states: seq<Store>, events: seq<Event>, i: nat)
    requires Run(c, states, events) && i < |states|
    ensures Sound(c, states[i]) && Settled(states[i])
  {
    hide Sound, Settled, Step;
    if i == 0 {
      EmptySound(c);
    } else {
      RunSound(c, states, events, i - 1);
      StepSound(c, states[i - 1], events[i - 1], states[i]);
    }
  }

  lemma StepJournal(c: Container, db: Store, e: Event, db': Store)
    requires Step(c, db, e, db')
    ensures db.journal <= db'.journal
    ensures |db'.journal| == |db.journal| ==> db'.objects == db.objects && db'.index == db.index
    ensures db.objects.Keys <= db'.objects.Keys
  {
  }

  /** The journal of an earlier state is a prefix of a later one's, and equal lengths mean
      an unchanged index: the sequence number is a version of the file list. */
  lemma {:induction false} JournalIsVersion(c: Container, states: seq<Store>, events: seq<Event>, i: nat, j: nat)
    requires Run(c, states, events) && i <= j < |states|
    ensures states[i].journal <= states[j].journal
    ensures |states[i].journal| == |states[j].journal| ==>
      states[i].objects == states[j].objects && states[i].index == states[j].index
    decreases j - i
  {
    hide Step;
    if i < j {
      JournalIsVersion(c, states, events, i, j - 1);
      StepJournal(c, states[j - 1], events[j - 1], states[j]);
    }
  }

  // ----- Captured originals

  /** The event leaves the RAW object alone or only revises its annotations. */
  predicate SparesOriginal(db: Store, e: Event, rawKey: string, raw: Raw) {
    match e
    case SessionsEvent => true
    case ImportEvent(key, _, _, _, _, _, _, _) => key != rawKey
    case RevisionEvent(key, d, _, _, parts, document) =>
      key != rawKey || (
        && key in db.objects && d.operation == Metadata && !d.deleted && d.path == db.objects[key].path
        && PartsOf(db, Id(key, db.objects[key].head)) == parts
        && document.Some? && document.value.Some?
        && document.value.value.originalName == raw.originalName && document.value.value.mediaType == raw.mediaType)
  }

  lemma ChunksKeepCapture(c: Container, db: Store, chunks: map<string, Bytes>, workingKey: string, rawKey: string, raw: Raw, content: Bytes)
    requires Captured(c, db, workingKey, rawKey, raw, content) && ChunksKept(db.chunks, chunks)
    ensures Captured(c, db.(chunks := chunks), workingKey, rawKey, raw, content)
  {
    var db' := db.(chunks := chunks);
    forall v | 1 <= v <= db'.objects[rawKey].head ensures CapturedAt(db', Id(rawKey, v), raw, content) {
      assert CapturedAt(db, Id(rawKey, v), raw, content);
      ContentKept(db.chunks, chunks, db.parts[Id(rawKey, v)]);
    }
  }

  lemma CreateKeepsOther(c: Container, db: Store, key: string, path: string, workingKey: string, rawKey: string, raw: Raw, content: Bytes)
    requires Captured(c, db, workingKey, rawKey, raw, content) && key !in db.objects
    ensures Captured(c, Create(db, key, path), workingKey, rawKey, raw, content)
  {
    var db' := Create(db, key, path);
    forall v | 1 <= v <= db'.objects[rawKey].head ensures CapturedAt(db', Id(rawKey, v), raw, content) {
      assert CapturedAt(db, Id(rawKey, v), raw, content);
    }
  }

  lemma StepKeepsCapture(c: Container, db: Store, e: Event, db': Store, workingKey: string, rawKey: string, raw: Raw, content: Bytes)
    requires Sound(c, db) && Step(c, db, e, db')
    requires Captured(c, db, workingKey, rawKey, raw, content) && SparesOriginal(db, e, rawKey, raw)
    ensures Captured(c, db', workingKey, rawKey, raw, content)
  {
    hide Sound, ChunksSealed;
    var mid := db.(chunks := db'.chunks);
    match e
    case SessionsEvent =>
      forall v | 1 <= v <= db'.objects[rawKey].head ensures CapturedAt(db', Id(rawKey, v), raw, content) {
        assert CapturedAt(db, Id(rawKey, v), raw, content);
      }
    case ImportEvent(key, path, bytes, session, at, authorship, stamp, document) =>
      ChunksKeepCapture(c, db, db'.chunks, workingKey, rawKey, raw, content);
      CreateKeepsOther(c, mid, key, path, workingKey, rawKey, raw, content);
      CaptureKept(c, Create(mid, key, path), key, FirstDraft(c, bytes, path, authorship, stamp, document), session, at,
                  db'.parts[Id(key, 1)], Some(document), workingKey, rawKey, raw, content);
    case RevisionEvent(key, d, session, at, parts, document) =>
      ChunksKeepCapture(c, db, db'.chunks, workingKey, rawKey, raw, content);
      assert CapturedAt(mid, Id(rawKey, mid.objects[rawKey].head), raw, content);
      CaptureKept(c, mid, key, d, session, at, parts, document, workingKey, rawKey, raw, content);
  }

  /** Once captured, the original stays retrievable with the captured bytes through every
      run that does not move, erase or otherwise publish the RAW object itself. */
  lemma {:induction false} OriginalSurvives(c: Container, states: seq<Store>, events: seq<Event>, i: nat, j: nat,
                                            workingKey: string, rawKey: string, raw: Raw, content: Bytes)
    requires Run(c, states, events) && i <= j < |states|
    requires Captured(c, states[i], workingKey, rawKey, raw, content)
    requires forall k :: i <= k < j ==> SparesOriginal(states[k], events[k], rawKey, raw)
    ensures Captured(c, states[j], workingKey, rawKey, raw, content)
    ensures IsOriginal(states[j], rawKey, workingKey)
    decreases j - i
  {
    hide Sound, Settled, Step, SparesOriginal;
    if i < j {
      OriginalSurvives(c, states, events, i, j - 1, workingKey, rawKey, raw, content);
      RunSound(c, states, events, j - 1);
      StepKeepsCapture(c, states[j - 1], events[j - 1], states[j], workingKey, rawKey, raw, content);
    }
    assert CapturedAt(states[j], Id(rawKey, states[j].objects[rawKey].head), raw, content);
  }

  // ----- The chunk diff

  const ABSENT := Chunk("", 0)

  datatype ChunkChange = ChunkChange(offset: nat, before: Chunk, after: Chunk)

  function PartAt(parts: seq<Chunk>, i: nat): Chunk {
    if i < |parts| then parts[i] else ABSENT
  }

  /** `diff`: compare two chunk lists position by position. */
  method Diff(before: seq<Chunk>, after: seq<Chunk>) returns (changes: seq<ChunkChange>)
    ensures IsDiff(changes, before, after)
  {
    var n := if |before| > |after| then |before| else |after|;
    var i := 0;
    changes := [];
    while i < n
      invariant 0 <= i <= n
      invariant DiffUpTo(changes, before, after, i)
    {
      var a, b := PartAt(before, i), PartAt(after, i);
      DiffStep(changes, before, after, i);
      if a.hash != b.hash || a.size != b.size {
        changes := changes + [ChunkChange(i * CHUNK_BYTES, a, b)];
      }
      i := i + 1;
    }
  }

  lemma DiffStep(changes: seq<ChunkChange>, before: seq<Chunk>, after: seq<Chunk>, i: nat)
    requires DiffUpTo(changes, before, after, i)
    ensures PartAt(before, i) == PartAt(after, i) ==> DiffUpTo(changes, before, after, i + 1)
    ensures PartAt(before, i) != PartAt(after, i) ==>
      DiffUpTo(changes + [ChunkChange(i * CHUNK_BYTES, PartAt(before, i), PartAt(after, i))], before, after, i + 1)
  {
    forall k | 0 <= k < |changes| ensures ChangeOk(changes[k], before, after, i + 1) && changes[k].offset < i * CHUNK_BYTES {
      assert ChangeOk(changes[k], before, after, i);
    }
    var added := ChunkChange(i * CHUNK_BYTES, PartAt(before, i), PartAt(after, i));
    var longer := changes + [added];
    assert added.offset / CHUNK_BYTES == i;
    assert longer[|changes|] == added;
    assert ChangesAt(longer, i);
    forall j | 0 <= j < i && PartAt(before, j) != PartAt(after, j) ensures ChangesAt(longer, j) {
      assert ChangesAt(changes, j);
      var k :| 0 <= k < |changes| && changes[k].offset == j * CHUNK_BYTES;
      assert longer[k].offset == j * CHUNK_BYTES;
    }
  }

  predicate DiffUpTo(changes: seq<ChunkChange>, before: seq<Chunk>, after: seq<Chunk>, n: nat) {
    && (forall k :: 0 <= k < |changes| ==> ChangeOk(changes[k], before, after, n))
    && (forall k, l :: 0 <= k < l < |changes| ==> changes[k].offset < changes[l].offset)
    && (forall i :: 0 <= i < n && PartAt(before, i) != PartAt(after, i) ==> ChangesAt(changes, i))
  }

  predicate ChangeOk(change: ChunkChange, before: seq<Chunk>, after: seq<Chunk>, n: nat) {
    var i := change.offset / CHUNK_BYTES;
    && change.offset == i * CHUNK_BYTES && i < n
    && change.before == PartAt(before, i) && change.after == PartAt(after, i) && change.before != change.after
  }

  predicate ChangesAt(changes: seq<ChunkChange>, i: nat) {
    exists k :: 0 <= k < |changes| && changes[k].offset == i * CHUNK_BYTES
  }

  predicate IsDiff(changes: seq<ChunkChange>, before: seq<Chunk>, after: seq<Chunk>) {
    DiffUpTo(changes, before, after, if |before| > |after| then |before| else |after|)
  }

  /** The chunk changes a version made; a first version changed the empty list. */
  method DiffVersion(db: Store, key: string, version: nat) returns (changes: Option<seq<ChunkChange>>)
    ensures changes.Some? <==> 1 <= version <= MAXIMUM_INTEGER && Id(key, version) in db.revisions
    ensures changes.Some? ==>
      IsDiff(changes.value, if version > 1 then PartsOf(db, Id(key, version - 1)) else [], PartsOf(db, Id(key, version)))
  {
    if version == 0 || version > MAXIMUM_INTEGER || Id(key, version) !in db.revisions {
      return None;
    }
    var before := if version > 1 then PartsOf(db, Id(key, version - 1)) else [];
    var found := Diff(before, PartsOf(db, Id(key, version)));
    return Some(found);
  }

  function Invert(changes: seq<ChunkChange>): (inverse: seq<ChunkChange>)
    ensures |inverse| == |changes|
    ensures forall k :: 0 <= k < |changes| ==> inverse[k] == ChunkChange(changes[k].offset, changes[k].after, changes[k].before)
  {
    seq(|changes|, k requires 0 <= k < |changes| => ChunkChange(changes[k].offset, changes[k].after, changes[k].before))
  }

  /** The chunk a diff prescribes at a position, given what is there now. */
  function Patched(changes: seq<ChunkChange>, now: Chunk, i: nat): Chunk {
    if changes == [] then now
    else if changes[0].offset == i * CHUNK_BYTES then changes[0].after
    else Patched(changes[1..], now, i)
  }

  lemma {:induction false} PatchedIs(changes: seq<ChunkChange>, now: Chunk, i: nat, then_: Chunk)
    requires forall k :: 0 <= k < |changes| && changes[k].offset == i * CHUNK_BYTES ==> changes[k].after == then_
    requires now != then_ ==> ChangesAt(changes, i)
    ensures Patched(changes, now, i) == then_
  {
    if changes != [] && changes[0].offset != i * CHUNK_BYTES {
      if ChangesAt(changes, i) {
        var k :| 0 <= k < |changes| && changes[k].offset == i * CHUNK_BYTES;
        assert changes[1..][k - 1] == changes[k];
      }
      PatchedIs(changes[1..], now, i, then_);
    }
  }

  /** The diff rewrites either chunk list into the other, position by position, and it is
      empty only when they are equal. */
  lemma DiffIsExact(changes: seq<ChunkChange>, before: seq<Chunk>, after: seq<Chunk>, i: nat)
    requires IsDiff(changes, before, after)
    requires (forall p :: p in before ==> p.size > 0) && (forall p :: p in after ==> p.size > 0)
    ensures Patched(changes, PartAt(before, i), i) == PartAt(after, i)
    ensures Patched(Invert(changes), PartAt(after, i), i) == PartAt(before, i)
    ensures changes == [] ==> before == after
  {
    var inverse := Invert(changes);
    if PartAt(before, i) != PartAt(after, i) {
      assert ChangesAt(changes, i);
      var k :| 0 <= k < |changes| && changes[k].offset == i * CHUNK_BYTES;
      assert inverse[k].offset == i * CHUNK_BYTES;
    }
    PatchedIs(changes, PartAt(before, i), i, PartAt(after, i));
    PatchedIs(inverse, PartAt(after, i), i, PartAt(before, i));
    if changes == [] {
      EqualParts(before, after);
    }
  }

  lemma EqualParts(before: seq<Chunk>, after: seq<Chunk>)
    requires (forall p :: p in before ==> p.size > 0) && (forall p :: p in after ==> p.size > 0)
    requires IsDiff([], before, after)
    ensures before == after
  {
    forall i: nat ensures PartAt(before, i) == PartAt(after, i) {
      assert !ChangesAt([], i);
    }
    assert PartAt(before, |after|).size == 0 && PartAt(after, |before|).size == 0;
    assert |before| == |after|;
    assert forall i :: 0 <= i < |before| ==> before[i] == PartAt(before, i) == PartAt(after, i) == after[i];
  }
}
