/** Semantic file queries: which files match, how a page and its cursor relate to all
    matches, and why the version in a cursor is enough. */
module OntologyQueries {
  import opened Wrappers
  import opened Graph
  import opened Keyset
  import opened OntologyModel
  import opened OntologyBatch
  import opened OntologyConsistency
  import opened OntologyJournal
  import Objects = ObjectModel
  import Runs = ObjectRuns
  import Facts = ObjectFacts

  /** One package: the object store's tables and the ontology's. */
  datatype World = World(store: Objects.Store, tables: Tables)

  function FilesOf(store: Objects.Store): Files {
    Files(
      map k | k in store.objects :: store.objects[k].deleted,
      map k | k in store.sessions :: store.sessions[k].ended != 0)
  }

  function PackageOf(w: World): Package {
    Package(FilesOf(w.store), w.tables)
  }

  // ----- What a query means

  ghost predicate Classified(t: Tables, node: string, q: Query) {
    q.classKey == "" || (if q.subclasses then HasType(t, node, q.classKey) else (node, q.classKey) in t.types)
  }

  predicate Meets(t: Tables, node: string, c: Condition) {
    exists s :: s in t.statements && s.subject == node && s.property == c.property && (c.equals.Some? ==> s.value == c.equals.value)
  }

  /** The file of an index row matches, judged from the file up its class lineage. */
  ghost predicate Matches(t: Tables, row: Objects.IndexRow, q: Query) {
    && (row.deleted ==> q.deleted)
    && Classified(t, NodeKey(File(row.objectKey)), q)
    && forall c :: c in q.conditions ==> Meets(t, NodeKey(File(row.objectKey)), c)
  }

  ghost function MatchingKeys(w: World, q: Query): (keys: set<nat>) {
    set k | k in w.store.index && Matches(w.tables, w.store.index[k], q)
  }

  // ----- Pages and cursors

  datatype Cursor = Cursor(revision: nat, sequence: int, after: int, fingerprint: Option<(string, Query)>)

  datatype Page = Page(revision: nat, sequence: nat, files: seq<nat>, next: Option<Cursor>)

  const INITIAL := Cursor(0, 0, 0, None)

  predicate CursorAccepted(w: World, container: string, q: Query, cursor: Cursor) {
    && cursor.after >= 0 && cursor.sequence >= 0
    && (cursor == INITIAL || (
          cursor.revision == w.tables.revision && cursor.sequence == |w.store.journal| && cursor.fingerprint == Some((container, q))))
  }

  predicate QueryAccepted(w: World, q: Query, size: Document -> nat) {
    QueryTextOk(q, size) && QueryOk(PackageOf(w), q)
  }

  // ----- Downward selection agrees with the upward lineage

  ghost predicate SelectedClass(t: Tables, q: Query, c: string) {
    if q.subclasses then Reaches(t.parents, c, q.classKey) else c == q.classKey
  }

  /** The classes a query selects: the class itself, or everything below it. */
  method SelectClasses(t: Tables, q: Query) returns (classes: set<string>)
    ensures forall c :: c in classes <==> SelectedClass(t, q, c)
  {
    if q.subclasses {
      classes := Closure(Reverse(t.parents), {q.classKey});
      forall c ensures c in classes <==> SelectedClass(t, q, c) {
        ReverseReaches(t.parents, c, q.classKey);
      }
    } else {
      classes := {q.classKey};
    }
  }

  /** A node has a selected class exactly when its own lineage contains the query's class. */
  lemma SelectionIsLineage(t: Tables, q: Query, node: string)
    requires q.classKey != ""
    ensures (exists c :: (node, c) in t.types && SelectedClass(t, q, c)) <==> Classified(t, node, q)
  {
  }

  lemma FileNodeOf(p: Package, node: string, objectKey: string)
    requires NodesStructured(p) && node in p.tables.nodes
    ensures p.tables.nodes[node] == FileNode(objectKey) <==> node == NodeKey(File(objectKey))
  {
    assert NodeStructured(p.files, node, p.tables.nodes[node]);
    if node == NodeKey(File(objectKey)) {
      match p.tables.nodes[node]
      case FileNode(o) => NodeKeyInjective(File(o), File(objectKey));
      case EntityNode(_, _) =>
        var e :| node == NodeKey(Entity(e));
        NodeKeyInjective(Entity(e), File(objectKey));
    }
  }

  /** The object keys of the file nodes among some nodes: the join with ontology_nodes. */
  function FileObjects(t: Tables, nodes: set<string>): (objects: set<string>) {
    set n | n in nodes && n in t.nodes && t.nodes[n].FileNode? :: t.nodes[n].objectKey
  }

  lemma JoinIsNode(p: Package, nodes: set<string>, objectKey: string)
    requires NodesStructured(p) && nodes <= p.tables.nodes.Keys
    ensures objectKey in FileObjects(p.tables, nodes) <==> NodeKey(File(objectKey)) in nodes
  {
    var node := NodeKey(File(objectKey));
    if node in nodes {
      FileNodeOf(p, node, objectKey);
    }
    if objectKey in FileObjects(p.tables, nodes) {
      var n :| n in nodes && n in p.tables.nodes && p.tables.nodes[n].FileNode? && p.tables.nodes[n].objectKey == objectKey;
      FileNodeOf(p, n, objectKey);
    }
  }

  method ClassCandidates(w: World, q: Query) returns (objects: set<string>)
    requires Structured(PackageOf(w)) && q.classKey != ""
    ensures forall o :: o in objects <==> Classified(w.tables, NodeKey(File(o)), q)
  {
    var t := w.tables;
    var classes := SelectClasses(t, q);
    var nodes := set e | e in t.types && e.1 in classes :: e.0;
    objects := FileObjects(t, nodes);
    forall o ensures o in objects <==> Classified(t, NodeKey(File(o)), q) {
      JoinIsNode(PackageOf(w), nodes, o);
      SelectionIsLineage(t, q, NodeKey(File(o)));
      var node := NodeKey(File(o));
      if c :| (node, c) in t.types && SelectedClass(t, q, c) {
        assert (node, c).0 in nodes;
      }
    }
  }

  method ConditionCandidates(w: World, c: Condition) returns (objects: set<string>)
    requires Structured(PackageOf(w))
    ensures forall o :: o in objects <==> Meets(w.tables, NodeKey(File(o)), c)
  {
    var t := w.tables;
    var nodes := set s | s in t.statements && s.property == c.property && (c.equals.Some? ==> s.value == c.equals.value) :: s.subject;
    assert nodes <= t.nodes.Keys by {
      assert forall s :: s in t.statements ==> StatementStructured(t, s);
    }
    objects := FileObjects(t, nodes);
    forall o ensures o in objects <==> Meets(t, NodeKey(File(o)), c) {
      JoinIsNode(PackageOf(w), nodes, o);
    }
  }

  /** A file meets the first `n` conditions. */
  ghost predicate MeetsFirst(t: Tables, q: Query, n: nat, objectKey: string)
    requires n <= |q.conditions|
  {
    forall c :: c in q.conditions[..n] ==> Meets(t, NodeKey(File(objectKey)), c)
  }

  lemma MeetsNext(t: Tables, q: Query, n: nat)
    requires n < |q.conditions|
    ensures forall o :: MeetsFirst(t, q, n + 1, o) <==> MeetsFirst(t, q, n, o) && Meets(t, NodeKey(File(o)), q.conditions[n])
  {
    hide Meets, NodeKey;
    assert q.conditions[..n + 1] == q.conditions[..n] + [q.conditions[n]];
  }

  lemma MeetsNone(t: Tables, q: Query)
    ensures forall o :: MeetsFirst(t, q, 0, o)
  {
  }

  /** The WHERE clause, one restriction after another. */
  method Select(w: World, q: Query) returns (keys: set<nat>)
    requires Structured(PackageOf(w))
    ensures keys == MatchingKeys(w, q)
  {
    hide Meets, MeetsFirst, Structured, NodeKey;
    var index := w.store.index;
    keys := set k | k in index && (index[k].deleted ==> q.deleted);
    if q.classKey != "" {
      var objects := ClassCandidates(w, q);
      keys := set k | k in keys && index[k].objectKey in objects;
    }
    ghost var classified := keys;
    var i := 0;
    MeetsNone(w.tables, q);
    while i < |q.conditions|
      invariant 0 <= i <= |q.conditions|
      invariant keys <= classified
      invariant forall k :: k in classified ==> (k in keys <==> MeetsFirst(w.tables, q, i, index[k].objectKey))
    {
      var objects := ConditionCandidates(w, q.conditions[i]);
      MeetsNext(w.tables, q, i);
      keys := set k | k in keys && index[k].objectKey in objects;
      i := i + 1;
    }
    MeetsAll(w.tables, q);
  }

  lemma MeetsAll(t: Tables, q: Query)
    ensures forall o :: MeetsFirst(t, q, |q.conditions|, o) <==> forall c :: c in q.conditions ==> Meets(t, NodeKey(File(o)), c)
  {
    hide Meets, NodeKey;
    assert q.conditions[..|q.conditions|] == q.conditions;
  }

  /** `files`: one page of matches after the cursor. */
  method QueryFiles(w: World, container: string, q: Query, cursor: Cursor, limit: nat, size: Document -> nat)
    returns (page: Option<Page>)
    requires Structured(PackageOf(w))
    ensures page.Some? <==> 1 <= limit <= 1024 && QueryAccepted(w, q, size) && CursorAccepted(w, container, q, cursor)
    ensures page.Some? ==> IsPage(w, container, q, cursor.after, limit, page.value)
  {
    if limit == 0 || limit > 1024 || !QueryAccepted(w, q, size) || !CursorAccepted(w, container, q, cursor) {
      return None;
    }
    var keys := Select(w, q);
    var found := FirstKeys(Later(keys, cursor.after), limit + 1);
    var next := None;
    if |found| > limit {
      FirstOfPrefix(Later(keys, cursor.after), limit, found);
      found := found[..limit];
      next := Some(Cursor(w.tables.revision, |w.store.journal|, found[limit - 1], Some((container, q))));
    }
    return Some(Page(w.tables.revision, |w.store.journal|, found, next));
  }

  /** The page holds the first matches after a key, and a cursor exactly when more follow. */
  ghost predicate IsPage(w: World, container: string, q: Query, after: int, limit: nat, page: Page) {
    var later := Later(MatchingKeys(w, q), after);
    && page.revision == w.tables.revision && page.sequence == |w.store.journal|
    && FirstOf(later, limit, page.files)
    && (page.next.None? ==> forall k :: k in later ==> k in page.files)
    && (page.next.Some? ==> (
          && page.files != []
          && page.next.value == Cursor(page.revision, page.sequence, page.files[|page.files| - 1], Some((container, q)))
          && exists k :: k in later && k !in page.files))
  }

  /** Following the cursors from the first page to the last on an unchanged package gives
      every match once, in ascending order. */
  method ListAll(ghost c: Objects.Container, w: World, container: string, q: Query, limit: nat, size: Document -> nat)
    returns (all: seq<nat>)
    requires Healthy(c, w) && QueryAccepted(w, q, size) && 1 <= limit <= 1024
    ensures Ascending(all)
    ensures forall k :: k in all <==> k in MatchingKeys(w, q)
  {
    hide FirstOf, Later, Ascending, Matches, Healthy, Structured;
    HealthyTables(c, w);
    ghost var matching := MatchingKeys(w, q);
    var cursor := INITIAL;
    all := [];
    NothingListed(matching);
    while true
      invariant CursorAccepted(w, container, q, cursor) && Listed(matching, all, cursor.after)
      decreases |Later(matching, cursor.after)|
    {
      var page := QueryFiles(w, container, q, cursor, limit, size);
      ghost var files := page.value.files;
      if page.value.next.None? {
        ListedAll(matching, all, cursor.after, limit, files);
        all := all + page.value.files;
        return;
      }
      ListedNext(matching, all, cursor.after, limit, files);
      all := all + page.value.files;
      cursor := page.value.next.value;
    }
  }

  // ----- Runs of the whole package

  datatype Event = StoreEvent(e: Runs.Event) | BatchEvent(changes: seq<Change>, expected: nat, session: string)

  ghost predicate Step(c: Objects.Container, size: Document -> nat, w: World, e: Event, w': World) {
    match e
    case StoreEvent(s) => Runs.Step(c, w.store, s, w'.store) && w'.tables == w.tables
    case BatchEvent(changes, expected, session) =>
      w'.store == w.store && Apply(PackageOf(w), changes, expected, session, size) == Some(PackageOf(w'))
  }

  ghost predicate Run(c: Objects.Container, size: Document -> nat, states: seq<World>, events: seq<Event>) {
    && |states| == |events| + 1
    && states[0] == World(Objects.EMPTY, EMPTY)
    && forall i :: 0 <= i < |events| ==> Step(c, size, states[i], events[i], states[i + 1])
  }

  lemma FilesGrow(p: Package, files: Files)
    requires Consistent(p) && p.files.objects.Keys <= files.objects.Keys
    ensures Consistent(p.(files := files))
  {
    var p' := p.(files := files);
    forall k | k in p'.tables.nodes ensures NodeStructured(p'.files, k, p'.tables.nodes[k]) {
      assert NodeStructured(p.files, k, p.tables.nodes[k]);
    }
    forall path | path in p'.tables.directories ensures QueryOk(p', p'.tables.directories[path].query) {
      assert QueryOk(p, p.tables.directories[path].query);
      assert forall c :: c in p.tables.directories[path].query.conditions ==> ConditionOk(p, c);
    }
  }

  /** Everything the object store and the ontology promise, in one state of the package. */
  ghost predicate Healthy(c: Objects.Container, w: World) {
    && Objects.Sound(c, w.store) && Objects.Settled(w.store)
    && Consistent(PackageOf(w)) && Replayable(w.tables) && Numbered(w.tables)
  }

  lemma HealthyTables(c: Objects.Container, w: World)
    requires Healthy(c, w)
    ensures Structured(PackageOf(w)) && forall k :: k in w.store.index ==> k > 0
  {
    hide Structured, Objects.Complete, Objects.Sealed, Objects.Stored, Objects.Headed, Objects.Journaled;
    forall k | k in w.store.index
      ensures k > 0
    {
      assert Objects.IndexedBy(w.store, k);
    }
  }

  /** A query over the objects' own rows: the index keys of the files that are live, or of any, and
      that have the class and a statement for each condition. */
  lemma QueryOverObjects(c: Objects.Container, w: World, q: Query, k: nat)
    requires Healthy(c, w)
    ensures k in MatchingKeys(w, q) <==>
      exists key :: key in w.store.objects && w.store.objects[key].indexKey == k && ListsObject(w, q, key)
  {
    hide Consistent, Replayable, Numbered, Objects.Sound, Objects.Settled;
    if k in w.store.index {
      Facts.ObjectOfIndexRow(c, w.store, k);
      Facts.IndexRowOf(c, w.store, w.store.index[k].objectKey);
      MatchesIsListed(w, q, k, w.store.index[k].objectKey);
    }
    if key :| key in w.store.objects && w.store.objects[key].indexKey == k && ListsObject(w, q, key) {
      Facts.IndexRowOf(c, w.store, key);
      MatchesIsListed(w, q, k, key);
    }
  }

  /** What the query asks of an object, on its row and the ontology's. */
  ghost predicate ListsObject(w: World, q: Query, key: string)
    requires key in w.store.objects
  {
    var node := "file:" + key;
    && (q.deleted || !w.store.objects[key].deleted)
    && (q.classKey == ""
        || (!q.subclasses && (node, q.classKey) in w.tables.types)
        || (q.subclasses && exists t :: (node, t) in w.tables.types && Reaches(w.tables.parents, t, q.classKey)))
    && (forall c :: c in q.conditions ==> exists s ::
          s in w.tables.statements && s.subject == node && s.property == c.property && (c.equals == None || c.equals == Some(s.value)))
  }

  lemma MatchesIsListed(w: World, q: Query, k: nat, key: string)
    requires k in w.store.index && key in w.store.objects
    requires w.store.index[k].objectKey == key && w.store.index[k].deleted == w.store.objects[key].deleted
    ensures Matches(w.tables, w.store.index[k], q) <==> ListsObject(w, q, key)
  {
    var node := NodeKey(File(key));
    forall c | c in q.conditions
      ensures Meets(w.tables, node, c) <==> exists s ::
        s in w.tables.statements && s.subject == node && s.property == c.property && (c.equals == None || c.equals == Some(s.value))
    {
    }
  }

  /** Without a class and conditions, exactly the live files are listed, or all of them. */
  lemma PlainQueryLists(c: Objects.Container, w: World, deleted: bool, k: nat)
    requires Healthy(c, w)
    ensures k in MatchingKeys(w, Query("", false, [], deleted)) <==>
      exists key :: key in w.store.objects && w.store.objects[key].indexKey == k && (deleted || !w.store.objects[key].deleted)
  {
    hide Healthy, MatchingKeys;
    QueryOverObjects(c, w, Query("", false, [], deleted), k);
  }

  lemma StepHealthy(c: Objects.Container, size: Document -> nat, w: World, e: Event, w': World)
    requires Healthy(c, w) && Step(c, size, w, e, w')
    ensures Healthy(c, w')
  {
    hide Consistent, Replayable, Numbered, Apply, Runs.Step, Objects.Sound, Objects.Settled;
    match e
    case StoreEvent(s) =>
      Runs.StepSound(c, w.store, s, w'.store);
      Runs.StepJournal(c, w.store, s, w'.store);
      assert PackageOf(w') == PackageOf(w).(files := FilesOf(w'.store));
      FilesGrow(PackageOf(w), FilesOf(w'.store));
    case BatchEvent(changes, expected, session) =>
      ApplyKeepsConsistency(PackageOf(w), changes, expected, session, size);
      ApplyKeepsJournal(PackageOf(w), changes, expected, session, size);
  }

  /** Over every run, whatever batches are accepted and however files come and go, the store is
      sound, the ontology is consistent and its journal rebuilds it. */
  lemma {:induction false} RunHealthy(c: Objects.Container, size: Document -> nat, states: seq<World>, events: seq<Event>, i: nat)
    requires Run(c, size, states, events) && i < |states|
    ensures Healthy(c, states[i])
  {
    hide Step, Healthy;
    if i == 0 {
      StartHealthy(c);
    } else {
      RunHealthy(c, size, states, events, i - 1);
      StepHealthy(c, size, states[i - 1], events[i - 1], states[i]);
    }
  }

  lemma StartHealthy(c: Objects.Container)
    ensures Healthy(c, World(Objects.EMPTY, EMPTY))
  {
    EmptyConsistent(FilesOf(Objects.EMPTY));
    EmptyReplayable();
    Objects.EmptySound(c);
  }

  predicate SameAnswers(a: World, b: World) {
    a.tables == b.tables && a.store.index == b.store.index && a.store.objects == b.store.objects
  }

  lemma StepVersion(c: Objects.Container, size: Document -> nat, w: World, e: Event, w': World)
    requires Healthy(c, w) && Step(c, size, w, e, w')
    ensures w.tables.revision <= w'.tables.revision && |w.store.journal| <= |w'.store.journal|
    ensures w.tables.revision == w'.tables.revision && |w.store.journal| == |w'.store.journal| ==> SameAnswers(w, w')
  {
    hide Consistent, Replayable, Numbered, Apply, Runs.Step, Objects.Sound, Objects.Settled;
    match e
    case StoreEvent(s) =>
      Runs.StepJournal(c, w.store, s, w'.store);
    case BatchEvent(changes, expected, session) =>
      ApplyKeepsJournal(PackageOf(w), changes, expected, session, size);
  }

  /** A cursor's version is honest: two states of a run with the same ontology revision and
      file sequence hold the same tables and index, so every query has the same answer. */
  lemma {:induction false} VersionDeterminesAnswers(c: Objects.Container, size: Document -> nat, states: seq<World>, events: seq<Event>, i: nat, j: nat)
    requires Run(c, size, states, events) && i <= j < |states|
    ensures states[i].tables.revision <= states[j].tables.revision
    ensures |states[i].store.journal| <= |states[j].store.journal|
    ensures states[i].tables.revision == states[j].tables.revision && |states[i].store.journal| == |states[j].store.journal| ==>
      SameAnswers(states[i], states[j]) && forall q :: MatchingKeys(states[i], q) == MatchingKeys(states[j], q)
    decreases j - i
  {
    hide Step, Healthy, Matches;
    if i < j {
      VersionDeterminesAnswers(c, size, states, events, i, j - 1);
      RunHealthy(c, size, states, events, j - 1);
      StepVersion(c, size, states[j - 1], events[j - 1], states[j]);
    }
  }
}
