/** What the store's operations leave in its rows, column by column, and what the index and the
    validation keys therefore tell. */
module ObjectFacts {
  import opened Wrappers
  import opened ObjectModel
  import opened ObjectHistory
  import opened ObjectStore

  // ----- The index

  /** In a sound package between transactions, every object has its index row: the columns of its
      row, of its head revision and of that revision's author. */
  lemma IndexRowOf(c: Container, db: Store, key: string)
    requires Sound(c, db) && Settled(db) && key in db.objects
    ensures var o := db.objects[key];
      && Id(key, o.head) in db.revisions && o.indexKey in db.index
      && var x, r := db.index[o.indexKey], db.revisions[Id(key, o.head)];
         && x.objectKey == key && x.head == o.head && x.path == o.path && x.deleted == o.deleted
         && x.sha == r.draft.sha && x.size == r.draft.size && x.validation == r.validation && x.session == r.session
         && x.origin == r.author.origin && x.subject == r.author.subject
  {
    hide Complete, Sealed, Stored, Headed, Journaled, LivePathsUnique, RawShared;
    assert db.objects[key].head > 0;
    assert ProjectionOk(db, key);
  }

  /** And every index row is that of exactly one object. */
  lemma ObjectOfIndexRow(c: Container, db: Store, k: nat)
    requires Sound(c, db) && Settled(db) && k in db.index
    ensures db.index[k].objectKey in db.objects && db.objects[db.index[k].objectKey].indexKey == k
    ensures forall key :: key in db.objects && db.objects[key].indexKey == k ==> key == db.index[k].objectKey
  {
    hide Complete, Sealed, Stored, Headed, Journaled, LivePathsUnique, RawShared;
    assert IndexedBy(db, k);
    var key :| key in db.objects && db.objects[key].indexKey == k && db.objects[key].head > 0;
    IndexRowOf(c, db, key);
  }

  // ----- One more revision

  /** Only one revision was added, with its journal row; other objects and older revisions are kept. */
  ghost predicate OthersKept(old_: Store, db: Store, id: Id, session: string) {
    && db.sessions == old_.sessions && ChunksKept(old_.chunks, db.chunks)
    && id !in old_.revisions && db.journal == old_.journal + [JournalRow(id, session)]
    && (forall k :: k != id.key ==> (k in db.objects <==> k in old_.objects) && (k in old_.objects ==> db.objects[k] == old_.objects[k]))
    && (forall i :: i != id ==> (i in db.revisions <==> i in old_.revisions) && (i in old_.revisions ==> db.revisions[i] == old_.revisions[i]))
    && (forall i :: i != id ==> (i in db.parts <==> i in old_.parts) && (i in old_.parts ==> db.parts[i] == old_.parts[i]))
    && (forall i :: i != id ==> (i in db.raws <==> i in old_.raws) && (i in old_.raws ==> db.raws[i] == old_.raws[i]))
  }

  /** The new revision's own columns, apart from its draft: who wrote it, when, and what it follows. */
  predicate Follows(old_: Store, db: Store, key: string, expected: nat, session: string, at: int) {
    var id, next := Id(key, expected), Id(key, expected + 1);
    && id in old_.revisions && next in db.revisions && session in old_.sessions && key in old_.objects && key in db.objects
    && var r := db.revisions[next];
       && r.author == old_.sessions[session].author && r.session == session && r.at == at
       && r.draft.version == expected + 1 && r.draft.parent == old_.revisions[id].validation
       && db.objects[key].head == expected + 1 && db.objects[key].indexKey == old_.objects[key].indexKey
  }

  lemma HeadIsLast(c: Container, db: Store, key: string, expected: nat)
    requires Sound(c, db) && Current(db, key, expected)
    ensures Id(key, expected + 1) !in db.revisions && db.objects[key].head == expected
  {
    hide Sealed, Stored, Headed, Indexed, Journaled, LivePathsUnique, RawShared;
  }

  /** A moved object is at the new path and no longer at the old one, with the same content. */
  lemma MoveFacts(c: Container, old_: Store, db: Store, key: string, path: string, expected: nat, session: string, stamp: string, at: int)
    requires Sound(c, old_) && Current(old_, key, expected) && Moved(c, old_, db, key, path, expected, session, stamp, at)
    ensures var id, next := Id(key, expected), Id(key, expected + 1);
      && OthersKept(old_, db, next, session) && Follows(old_, db, key, expected, session, at)
      && LiveAt(db, key, path) && (old_.objects[key].path != path ==> !LiveAt(db, key, old_.objects[key].path))
      && var d, d' := old_.revisions[id].draft, db.revisions[next].draft;
         && d'.path == path && d'.operation == Operation.Move && !d'.deleted
         && d'.sha == d.sha && d'.size == d.size && d'.authorship == d.authorship
         && d'.stamp == (if stamp == "" then d.stamp else stamp)
         && id in old_.parts && next in db.parts && db.parts[next] == old_.parts[id] && db.chunks == old_.chunks
         && (next in db.raws <==> id in old_.raws) && (id in old_.raws ==> db.raws[next] == old_.raws[id])
  {
    hide Sound, Current;
    HeadFacts(c, old_, key, expected);
    HeadIsLast(c, old_, key, expected);
    CurrentIsLive(old_, key, expected);
    NoRowsBeyond(c, old_, Id(key, expected + 1));
  }

  lemma CurrentIsLive(db: Store, key: string, expected: nat)
    requires Current(db, key, expected)
    ensures key in db.objects && !db.objects[key].deleted && expected >= 1
  {
  }

  lemma NoRowsBeyond(c: Container, db: Store, id: Id)
    requires Sound(c, db) && id !in db.revisions
    ensures id !in db.raws && id !in db.parts
  {
    hide Sealed, Stored, Headed, Indexed, Journaled, LivePathsUnique, RawShared;
  }

  /** The new version of a moved object gives the bytes of the old one. */
  lemma MoveKeepsContent(c: Container, old_: Store, db: Store, key: string, path: string, expected: nat, session: string, stamp: string, at: int)
    requires Sound(c, old_) && Current(old_, key, expected) && Moved(c, old_, db, key, path, expected, session, stamp, at)
    ensures var id, next := Id(key, expected), Id(key, expected + 1);
      && id in old_.parts && PartsOk(old_.chunks, old_.parts[id]) && next in db.parts && PartsOk(db.chunks, db.parts[next])
      && Content(db.chunks, db.parts[next]) == Content(old_.chunks, old_.parts[id])
  {
    hide Sound, Current, Moved;
    MoveFacts(c, old_, db, key, path, expected, session, stamp, at);
    HeadFacts(c, old_, key, expected);
  }

  /** A revised object stays where it is and holds the new content. */
  lemma ReviseFacts(c: Container, old_: Store, db: Store, key: string, content: Bytes, expected: nat, session: string, at: int,
                    authorship: Option<string>, stamp: string)
    requires Sound(c, old_) && MayRevise(old_, key, expected, session, content)
    requires Revised(c, old_, db, key, content, expected, session, at, authorship, stamp)
    ensures var id, next := Id(key, expected), Id(key, expected + 1);
      && OthersKept(old_, db, next, session) && Follows(old_, db, key, expected, session, at)
      && LiveAt(db, key, old_.objects[key].path)
      && var d, d' := old_.revisions[id].draft, db.revisions[next].draft;
         && d'.path == d.path && d'.operation == Revise && !d'.deleted
         && d'.sha == c.digest(content) && d'.size == |content| && d'.stamp == stamp
         && d'.authorship == (match authorship case None => d.authorship case Some(a) => a)
         && next in db.parts && PartsOk(db.chunks, db.parts[next]) && Content(db.chunks, db.parts[next]) == content
         && next !in db.raws
  {
    hide Sound, Current;
    HeadFacts(c, old_, key, expected);
    HeadIsLast(c, old_, key, expected);
    CurrentIsLive(old_, key, expected);
    NoRowsBeyond(c, old_, Id(key, expected + 1));
  }

  /** An erased object is live nowhere, keeps its path and hash columns, and has no parts. */
  lemma EraseFacts(c: Container, old_: Store, db: Store, key: string, expected: nat, session: string, at: int)
    requires Sound(c, old_) && Current(old_, key, expected) && Erased(c, old_, db, key, expected, session, at)
    ensures var id, next := Id(key, expected), Id(key, expected + 1);
      && OthersKept(old_, db, next, session) && Follows(old_, db, key, expected, session, at)
      && db.objects[key].deleted && db.objects[key].path == old_.objects[key].path && (forall path :: !LiveAt(db, key, path))
      && var d, d' := old_.revisions[id].draft, db.revisions[next].draft;
         && d'.path == d.path && d'.operation == Operation.Erase && d'.deleted
         && d'.sha == d.sha && d'.size == d.size && d'.authorship == d.authorship && d'.stamp == d.stamp
         && next in db.parts && db.parts[next] == [] && db.chunks == old_.chunks
         && (next in db.raws <==> id in old_.raws) && (id in old_.raws ==> db.raws[next] == old_.raws[id])
  {
    hide Sound, Current;
    HeadFacts(c, old_, key, expected);
    HeadIsLast(c, old_, key, expected);
    CurrentIsLive(old_, key, expected);
    NoRowsBeyond(c, old_, Id(key, expected + 1));
  }

  /** An annotated RAW object keeps everything but its annotations; the same annotations change nothing. */
  lemma AnnotateFacts(c: Container, old_: Store, db: Store, key: string, annotations: string, expected: nat, session: string, at: int)
    requires Sound(c, old_) && Current(old_, key, expected) && Annotated(c, old_, db, key, annotations, expected, session, at)
    ensures var id, next := Id(key, expected), Id(key, expected + 1);
      && id in old_.raws
      && (old_.raws[id].annotations == annotations ==> db == old_)
      && (old_.raws[id].annotations != annotations ==>
            && OthersKept(old_, db, next, session) && Follows(old_, db, key, expected, session, at)
            && LiveAt(db, key, old_.objects[key].path)
            && var d, d' := old_.revisions[id].draft, db.revisions[next].draft;
               && d'.path == d.path && d'.operation == Metadata && !d'.deleted
               && d'.sha == d.sha && d'.size == d.size && d'.authorship == d.authorship && d'.stamp == d.stamp
               && id in old_.parts && next in db.parts && db.parts[next] == old_.parts[id] && db.chunks == old_.chunks
               && next in db.raws && db.raws[next].annotations == annotations
               && db.raws[next].originalName == old_.raws[id].originalName && db.raws[next].mediaType == old_.raws[id].mediaType)
  {
    hide Sound, Current;
    HeadFacts(c, old_, key, expected);
    HeadIsLast(c, old_, key, expected);
    CurrentIsLive(old_, key, expected);
    NoRowsBeyond(c, old_, Id(key, expected + 1));
  }

  /** An imported object is live at its path under a new index key, with one revision that holds the content. */
  lemma ImportFacts(c: Container, old_: Store, db: Store, key: string, path: string, content: Bytes,
                    session: string, at: int, authorship: string, stamp: string, raw: Option<Raw>)
    requires Sound(c, old_) && MayImport(old_, content, path, key)
    requires Imported(c, old_, db, key, path, content, session, at, authorship, stamp, raw)
    ensures var id := Id(key, 1);
      && OthersKept(old_, db, id, session) && LiveAt(db, key, path)
      && db.objects[key].head == 1 && (forall k :: k in old_.objects ==> old_.objects[k].indexKey != db.objects[key].indexKey)
      && id in db.revisions && var r := db.revisions[id];
         && r.author == old_.sessions[session].author && r.session == session && r.at == at
         && r.draft.version == 1 && r.draft.parent == "" && r.draft.path == path && !r.draft.deleted
         && r.draft.sha == c.digest(content) && r.draft.size == |content|
         && r.draft.authorship == authorship && r.draft.stamp == stamp
         && r.draft.operation == (match raw case None => Import case Some(_) => Operation.WrapRaw)
         && id in db.parts && PartsOk(db.chunks, db.parts[id]) && Content(db.chunks, db.parts[id]) == content
         && (id in db.raws <==> raw.Some?) && (raw.Some? ==> db.raws[id] == raw.value)
  {
    hide Sound, PartsOk, Content;
    NewKeyIsUnused(c, old_, key);
    NoRowsBeyond(c, old_, Id(key, 1));
  }

  lemma NewKeyIsUnused(c: Container, db: Store, key: string)
    requires Sound(c, db) && key !in db.objects
    ensures Id(key, 1) !in db.revisions && forall k :: k in db.objects ==> db.objects[k].indexKey != db.nextIndex
  {
    hide Sealed, Stored, Headed, Journaled, LivePathsUnique, RawShared;
  }

  // ----- Validation keys

  ghost predicate Injective(c: Container) {
    forall a: Material, b: Material :: c.seal(a) == c.seal(b) ==> a == b
  }

  /** With a seal that never collides, the key of a valid chain's last revision determines the
      whole chain: object, versions and every sealed column, in whatever stores they lie. */
  lemma {:induction false} HeadKeySealsChain(c: Container, a: Store, b: Store, key: string, other: string, m: nat, n: nat, v: nat)
    requires Injective(c) && ChainValid(c, a, key, m) && ChainValid(c, b, other, n) && 1 <= v <= m && n >= 1
    requires a.revisions[Id(key, m)].validation == b.revisions[Id(other, n)].validation
    ensures other == key && n == m
    ensures a.revisions[Id(key, v)] == b.revisions[Id(key, v)] && RawOf(a, Id(key, v)) == RawOf(b, Id(key, v))
    decreases m
  {
    SealedRevision(c, a, b, Id(key, m), Id(other, n));
    if v < m {
      assert LinkOk(c, a, Id(key, m)) && LinkOk(c, b, Id(key, m));
      HeadKeySealsChain(c, a, b, key, key, m - 1, m - 1, v);
    }
  }

  lemma SealedRevision(c: Container, a: Store, b: Store, id: Id, other: Id)
    requires Injective(c) && id in a.revisions && other in b.revisions && LinkOk(c, a, id) && LinkOk(c, b, other)
    requires a.revisions[id].validation == b.revisions[other].validation
    ensures other == id && a.revisions[id] == b.revisions[other] && RawOf(a, id) == RawOf(b, other)
  {
    var r, s := a.revisions[id], b.revisions[other];
    assert c.seal(MaterialOf(c, a, id, r)) == c.seal(MaterialOf(c, b, other, s));
    assert MaterialOf(c, a, id, r) == MaterialOf(c, b, other, s);
  }
}
