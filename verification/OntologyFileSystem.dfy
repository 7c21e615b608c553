/** The editor itself: `apply` works on the tables row by row inside a transaction and
    refines the batch functions the other ontology modules reason about. */
module OntologyFileSystem {
  import opened Orders
  import opened Wrappers
  import opened Graph
  import opened OntologyModel
  import opened OntologyBatch
  import opened OntologyConsistency
  import opened OntologyJournal

  class FileSystem {
    const readOnly: bool
    /** Byte length of a document's JSON text. */
    const size: Document -> nat
    /** The database as this connection sees it. */
    var db: Package
    /** The two temporary tables of a batch, and its running totals. */
    var changedNodes: set<string>
    var changedProperties: set<string>
    var hierarchyChanged: bool
    var journalBytes: nat
    var events: nat

    constructor (db: Package, size: Document -> nat, readOnly: bool)
      ensures this.db == db && this.size == size && this.readOnly == readOnly
    {
      this.db, this.size, this.readOnly := db, size, readOnly;
      changedNodes, changedProperties, hierarchyChanged, journalBytes, events := {}, {}, false, 0, 0;
    }

    function Current(): Batch
      reads this
    {
      Batch(db, hierarchyChanged, changedNodes, changedProperties, journalBytes, events)
    }

    // ----- Queries

    /** `hasType`: the classes of a node and all their ancestors. */
    method HasTypeRow(node: string, classKey: string) returns (found: bool)
      ensures found == HasType(db.tables, node, classKey)
    {
      if classKey == "" {
        return true;
      }
      var direct := set e | e in db.tables.types && e.0 == node :: e.1;
      var lineage := Closure(db.tables.parents, direct);
      found := classKey in lineage;
      assert forall c :: c in direct <==> (node, c) in db.tables.types by {
        assert forall c :: (node, c) in db.tables.types ==> (node, c).1 in direct;
      }
    }

    /** The recursive query that looks for a cycle through a statement. */
    method ClosesCycle(s: Statement) returns (cyclic: bool)
      requires s.value.ResourceValue?
      ensures cyclic == Reaches(Relation(db.tables.statements, s.property), NodeKey(s.value.target), s.subject)
    {
      var reach := Closure(Relation(db.tables.statements, s.property), {NodeKey(s.value.target)});
      cyclic := s.subject in reach;
    }

    /** `SELECT count(*)` of the rows that share a statement's subject and property. */
    method CountValues(s: Statement) returns (count: nat)
      requires Distinct(db.tables.statements) && s in db.tables.statements
      ensures count > 1 <==> !OnlyValue(db.tables.statements, s)
    {
      var rows := db.tables.statements;
      count := 0;
      var i := 0;
      ghost var others := 0;
      while i < |rows|
        invariant 0 <= i <= |rows|
        invariant count == others + if s in rows[..i] then 1 else 0
        invariant others == 0 <==> OnlyValue(rows[..i], s)
      {
        assert rows[..i + 1] == rows[..i] + [rows[i]];
        assert rows[i] !in rows[..i];
        if rows[i].subject == s.subject && rows[i].property == s.property {
          count := count + 1;
          if rows[i] != s {
            others := others + 1;
            assert !OnlyValue(rows[..i + 1], s);
          }
        }
        i := i + 1;
      }
      assert rows[..i] == rows;
    }

    // ----- The local check, with its three caches

    ghost predicate PropertiesCached(cache: map<string, Option<Property>>)
      reads this
    {
      forall k :: k in cache ==>
        cache[k] == if k in db.tables.properties then Some(db.tables.properties[k]) else None
    }

    ghost predicate TypesCached(cache: map<(string, string), bool>)
      reads this
    {
      forall k :: k in cache ==> cache[k] == HasType(db.tables, k.0, k.1)
    }

    /** Each remembered pair was counted once and found to have a single value. */
    ghost predicate SinglesCounted(singles: set<(string, string)>)
      reads this
    {
      forall k :: k in singles ==>
        exists s :: s in db.tables.statements && (s.subject, s.property) == k && OnlyValue(db.tables.statements, s)
    }

    method Typed(node: string, classKey: string, cache: map<(string, string), bool>)
      returns (found: bool, cache': map<(string, string), bool>)
      requires TypesCached(cache)
      ensures found == HasType(db.tables, node, classKey)
      ensures TypesCached(cache')
    {
      cache' := cache;
      if classKey == "" {
        return true, cache';
      }
      if (node, classKey) !in cache {
        var b := HasTypeRow(node, classKey);
        cache' := cache[(node, classKey) := b];
      }
      found := cache'[(node, classKey)];
    }

    /** A property's single-value rule, counted once for each subject and property. */
    method CheckSingle(s: Statement, singles: set<(string, string)>) returns (ok: bool, singles': set<(string, string)>)
      requires Distinct(db.tables.statements) && s in db.tables.statements
      requires SinglesCounted(singles)
      ensures ok == OnlyValue(db.tables.statements, s)
      ensures ok ==> SinglesCounted(singles')
    {
      singles' := singles;
      ok := true;
      if (s.subject, s.property) in singles {
        ghost var u :| u in db.tables.statements && (u.subject, u.property) == (s.subject, s.property)
          && OnlyValue(db.tables.statements, u);
        assert s == u;
      } else {
        singles' := singles + {(s.subject, s.property)};
        var count := CountValues(s);
        ok := count <= 1;
      }
    }

    /** Re-check the statements near the batch's edits, or all of them after a hierarchy edit. */
    method ValidateStatements() returns (ok: bool)
      requires Structured(db)
      ensures ok == SelectedStatementsOk(Current())
    {
      var rows := db.tables.statements;
      var properties: map<string, Option<Property>> := map[];
      var typeChecks: map<(string, string), bool> := map[];
      var singles: set<(string, string)> := {};
      var i := 0;
      while i < |rows|
        invariant 0 <= i <= |rows|
        invariant PropertiesCached(properties) && TypesCached(typeChecks) && SinglesCounted(singles)
        invariant forall j :: 0 <= j < i && Selected(Current(), rows[j]) ==> StatementOk(db.tables, rows[j])
      {
        var s := rows[i];
        if Selected(Current(), s) {
          var found;
          if s.property !in properties {
            properties := properties[s.property :=
              if s.property in db.tables.properties then Some(db.tables.properties[s.property]) else None];
          }
          found, typeChecks, singles := CheckStatement(s, properties[s.property], typeChecks, singles);
          if !found {
            assert s in rows;
            return false;
          }
        }
        i := i + 1;
      }
      ok := true;
    }

    method CheckStatement(s: Statement, definition: Option<Property>, typeChecks: map<(string, string), bool>, singles: set<(string, string)>)
      returns (ok: bool, typeChecks': map<(string, string), bool>, singles': set<(string, string)>)
      requires Structured(db) && s in db.tables.statements
      requires definition == if s.property in db.tables.properties then Some(db.tables.properties[s.property]) else None
      requires TypesCached(typeChecks) && SinglesCounted(singles)
      ensures ok == StatementOk(db.tables, s)
      ensures ok ==> TypesCached(typeChecks') && SinglesCounted(singles')
    {
      typeChecks', singles' := typeChecks, singles;
      if definition.None? || definition.value.kind != KindOf(s.value) {
        return false, typeChecks', singles';
      }
      var p := definition.value;
      assert PropertyStructured(db.tables, p);
      ok, typeChecks' := Typed(s.subject, p.domain, typeChecks');
      if ok && s.value.ResourceValue? {
        ok, typeChecks' := Typed(NodeKey(s.value.target), p.range, typeChecks');
      }
      if ok && p.single {
        ok, singles' := CheckSingle(s, singles');
      }
      if ok && p.acyclic {
        var cyclic := ClosesCycle(s);
        ok := !cyclic;
      }
    }

    // ----- Edits, row by row

    /** `event`: append to the journal and enforce the batch's byte budget. */
    method Record(operation: Operation, subject: string, before: Document, after: Document, revision: nat)
      returns (ok: bool)
      modifies `db, `journalBytes, `events
      ensures before == after ==> ok && Current() == old(Current())
      ensures before != after ==>
        && journalBytes == old(journalBytes) + Size(before, size) + Size(after, size)
        && ok == (journalBytes <= MAXIMUM_JOURNAL_BYTES)
      ensures before != after && ok ==>
        && events == old(events) + 1
        && db == old(db).(tables := old(db).tables.(
             journal := old(db).tables.journal + [Event(revision, operation, subject, before, after)]))
    {
      if before == after {
        return true;
      }
      journalBytes := journalBytes + Size(before, size) + Size(after, size);
      if journalBytes > MAXIMUM_JOURNAL_BYTES {
        return false;
      }
      db := db.(tables := db.tables.(journal := db.tables.journal + [Event(revision, operation, subject, before, after)]));
      events := events + 1;
      ok := true;
    }

    /** Replace the parent rows of a class one by one. */
    method ReplaceParents(key: string, parents: seq<string>)
      modifies `db
      ensures db == old(db).(tables := WithParents(old(db).tables, key, parents))
    {
      db := db.(tables := db.tables.(parents := set e | e in db.tables.parents && e.0 != key));
      ghost var kept := db.tables.parents;
      var i := 0;
      while i < |parents|
        invariant 0 <= i <= |parents|
        invariant db == old(db).(tables := old(db).tables.(parents := kept + set p | p in parents[..i] :: (key, p)))
      {
        assert parents[..i + 1] == parents[..i] + [parents[i]];
        db := db.(tables := db.tables.(parents := db.tables.parents + {(key, parents[i])}));
        i := i + 1;
      }
      assert parents[..i] == parents;
    }

    /** The ancestor query that rejects a class which would be its own ancestor. */
    method OwnAncestor(key: string) returns (found: bool)
      ensures found == OnCycle(db.tables.parents, key)
    {
      var ancestors := Closure(db.tables.parents, ParentsOf(db.tables, key));
      found := key in ancestors;
      assert forall c :: c in ParentsOf(db.tables, key) <==> (key, c) in db.tables.parents by {
        assert forall c :: (key, c) in db.tables.parents ==> (key, c).1 in ParentsOf(db.tables, key);
      }
    }

    method ApplyClass(c: Change, revision: nat) returns (ok: bool)
      requires c.DefineClass?
      modifies this
      ensures ok == Accepts(old(Current()), c, size)
      ensures ok ==> Current() == Step(old(Current()), c, revision, size)
    {
      hide ClassTextOk, Reaches, OnCycle;
      if !ClassTextOk(c.key, c.title, c.description, c.parents) {
        return false;
      }
      var t := db.tables;
      var before, after := Before(t, c), After(c);
      if before == after {
        return true;
      }
      if exists p :: p in c.parents && p !in t.classes {
        return false;
      }
      db := db.(tables := t.(classes := t.classes[c.key := ClassRow(c.title, c.description)]));
      if before.Absent? || before.parents != after.parents {
        ReplaceParents(c.key, c.parents);
        var cyclic := OwnAncestor(c.key);
        if cyclic {
          return false;
        }
        hierarchyChanged := hierarchyChanged || before.ClassDocument?;
      }
      ok := Record(ClassEdit, c.key, before, after, revision);
    }

    method ApplyProperty(c: Change, revision: nat) returns (ok: bool)
      requires c.DefineProperty?
      modifies this
      ensures ok == Accepts(old(Current()), c, size)
      ensures ok ==> Current() == Step(old(Current()), c, revision, size)
    {
      var t := db.tables;
      if !PropertyTextOk(c.key, c.property) || !ClassExists(t, c.property.domain) || !ClassExists(t, c.property.range) {
        return false;
      }
      var before, after := Before(t, c), After(c);
      if before == after {
        IneffectiveUpsert(t.properties, c.key, c.property);
        return true;
      }
      db := db.(tables := t.(properties := t.properties[c.key := c.property]));
      changedProperties := changedProperties + {c.key};
      ok := Record(PropertyEdit, c.key, before, after, revision);
    }

    lemma IneffectiveUpsert<V>(m: map<string, V>, key: string, v: V)
      requires key in m && m[key] == v
      ensures m[key := v] == m
    {
    }

    method ApplyEntity(c: Change, revision: nat) returns (ok: bool)
      requires c.DefineEntity?
      modifies this
      ensures ok == Accepts(old(Current()), c, size)
      ensures ok ==> Current() == Step(old(Current()), c, revision, size)
    {
      if !EntityTextOk(c.key, c.title, c.description) {
        return false;
      }
      var t := db.tables;
      var node := NodeKey(Entity(c.key));
      var before, after := Before(t, c), After(c);
      if before == after {
        IneffectiveUpsert(t.nodes, node, EntityNode(c.title, c.description));
        return true;
      }
      db := db.(tables := t.(nodes := t.nodes[node := EntityNode(c.title, c.description)]));
      ok := Record(EntityEdit, node, before, after, revision);
    }

    /** `ensureResource` when the edit adds a fact, `resourceExists` when it removes one. */
    method UseResource(r: Resource, present: bool) returns (ok: bool)
      modifies `db
      ensures ok == (ResourceTextOk(r) && ResourceExists(old(db), r, present))
      ensures db == if ok && present then old(db).(tables := WithNode(old(db).tables, r)) else old(db)
    {
      if !ResourceTextOk(r) || !ResourceExists(db, r, present) {
        return false;
      }
      if present && r.File? && NodeKey(r) !in db.tables.nodes {
        db := db.(tables := db.tables.(nodes := db.tables.nodes[NodeKey(r) := FileNode(r.key)]));
      }
      ok := true;
    }

    method ApplyType(c: Change, revision: nat) returns (ok: bool)
      requires c.Classify?
      modifies this
      ensures ok == Accepts(old(Current()), c, size)
      ensures ok ==> Current() == Step(old(Current()), c, revision, size)
    {
      hide TextOk, ResourceTextOk, ResourceExists;
      if !TextOk(c.classKey, 1024, true) || c.classKey !in db.tables.classes {
        return false;
      }
      var before, after := Before(db.tables, c), After(c);
      ok := UseResource(c.resource, c.present);
      if !ok {
        return;
      }
      var row := (NodeKey(c.resource), c.classKey);
      var rows := if c.present then db.tables.types + {row} else db.tables.types - {row};
      var changed := rows != db.tables.types;
      db := db.(tables := db.tables.(types := rows));
      if changed {
        changedNodes := changedNodes + {NodeKey(c.resource)};
        ok := Record(TypeEdit, NodeKey(c.resource), before, after, revision);
      }
    }

    method ApplyStatement(c: Change, revision: nat) returns (ok: bool)
      requires c.Assert? && Structured(db)
      modifies this
      ensures ok == Accepts(old(Current()), c, size)
      ensures ok ==> Current() == Step(old(Current()), c, revision, size)
    {
      hide Structured, Without, TextOk, ResourceTextOk, ResourceExists;
      var t := db.tables;
      if !TextOk(c.propertyKey, 1024, true) || c.propertyKey !in t.properties
        || (c.present && t.properties[c.propertyKey].kind != KindOf(c.value)) || !ValueOk(c.value) {
        return false;
      }
      var before, after := Before(t, c), After(c);
      var s := Statement(NodeKey(c.subject), c.propertyKey, c.value);
      ok := UseBoth(c.subject, c.value, c.present);
      if !ok {
        return;
      }
      if !c.present && s !in t.statements {
        WithoutAbsent(t.statements, s);
      }
      ok := WriteStatement(s, c.present, before, after, revision);
    }

    function WithNodes(t: Tables, subject: Resource, value: Value): Tables {
      if value.ResourceValue? then WithNode(WithNode(t, subject), value.target) else WithNode(t, subject)
    }

    method UseBoth(subject: Resource, value: Value, present: bool) returns (ok: bool)
      modifies `db
      ensures ok == (
        && ResourceTextOk(subject) && ResourceExists(old(db), subject, present)
        && (value.ResourceValue? ==> ResourceTextOk(value.target) && ResourceExists(old(db), value.target, present)))
      ensures ok ==> db == if present then old(db).(tables := WithNodes(old(db).tables, subject, value)) else old(db)
    {
      // A target file is looked up in the object store, and a target entity is never
      // the file row the subject may just have received.
      if value.ResourceValue? {
        TargetUnaffected(db.tables, subject, value.target, db.files);
      }
      ok := UseResource(subject, present);
      if ok && value.ResourceValue? {
        ok := UseResource(value.target, present);
      }
    }

    /** `INSERT OR IGNORE` or `DELETE` of one statement, recorded when a row changed. */
    method WriteStatement(s: Statement, present: bool, before: Document, after: Document, revision: nat) returns (ok: bool)
      modifies this
      requires (before != after) == (present != (s in db.tables.statements))
      ensures before == after ==> ok && Current() == old(Current())
      ensures before != after ==> ok == (old(journalBytes) + Size(before, size) + Size(after, size) <= MAXIMUM_JOURNAL_BYTES)
      ensures before != after && ok ==>
        && journalBytes == old(journalBytes) + Size(before, size) + Size(after, size)
        && events == old(events) + 1
        && hierarchyChanged == old(hierarchyChanged) && changedProperties == old(changedProperties)
        && changedNodes == old(changedNodes) + {s.subject} + (if s.value.ResourceValue? then {NodeKey(s.value.target)} else {})
        && db == old(db).(tables := old(db).tables.(
             statements := if present then old(db).tables.statements + [s] else Without(old(db).tables.statements, s),
             journal := old(db).tables.journal + [Event(revision, StatementEdit, s.subject, before, after)]))
    {
      var rows := db.tables.statements;
      ok := true;
      if present != (s in rows) {
        db := db.(tables := db.tables.(statements := if present then rows + [s] else Without(rows, s)));
        changedNodes := changedNodes + {s.subject};
        if s.value.ResourceValue? {
          changedNodes := changedNodes + {NodeKey(s.value.target)};
        }
        ok := Record(StatementEdit, s.subject, before, after, revision);
      }
    }

    lemma TargetUnaffected(t: Tables, subject: Resource, target: Resource, files: Files)
      ensures ResourceExists(Package(files, WithNode(t, subject)), target, true) <==> ResourceExists(Package(files, t), target, true)
    {
      if target.Entity? && NodeKey(target) == NodeKey(subject) {
        NodeKeyInjective(target, subject);
      }
    }

    method ApplyDirectory(c: Change, revision: nat) returns (ok: bool)
      requires c.DefineDirectory? && Structured(db)
      modifies this
      ensures ok == Accepts(old(Current()), c, size)
      ensures ok ==> Current() == Step(old(Current()), c, revision, size)
    {
      hide Structured, QueryTextOk, QueryOk, DirectoryPathOk, TextOk, QueryProperties;
      var t, d := db.tables, c.directory;
      if !DirectoryPathOk(c.path) || !TextOk(d.title, 4096, false) || !QueryTextOk(d.query, size) || !QueryOk(db, d.query) {
        return false;
      }
      var before, after := Before(t, c), After(c);
      if before == after {
        return true;
      }
      db := db.(tables := t.(directories := t.directories[c.path := d]));
      ok := Record(DirectoryEdit, c.path, before, after, revision);
      if !ok {
        return;
      }
      ReplaceQueryRows(c.path, d.query);
      assert (t.directories - {c.path})[c.path := d] == t.directories[c.path := d];
    }

    /** Replace the property rows of a saved query one condition at a time. */
    method ReplaceQueryRows(path: string, q: Query)
      modifies `db
      ensures db == old(db).(tables := old(db).tables.(directoryProperties :=
        (set e | e in old(db).tables.directoryProperties && e.0 != path) + set k | k in QueryProperties(q) :: (path, k)))
    {
      db := db.(tables := db.tables.(directoryProperties := set e | e in db.tables.directoryProperties && e.0 != path));
      ghost var kept := db.tables.directoryProperties;
      var i := 0;
      while i < |q.conditions|
        invariant 0 <= i <= |q.conditions|
        invariant db == old(db).(tables := old(db).tables.(directoryProperties :=
          kept + set a | a in q.conditions[..i] :: (path, a.property)))
      {
        assert q.conditions[..i + 1] == q.conditions[..i] + [q.conditions[i]];
        db := db.(tables := db.tables.(directoryProperties := db.tables.directoryProperties + {(path, q.conditions[i].property)}));
        i := i + 1;
      }
      assert q.conditions[..i] == q.conditions;
      ConditionRows(path, q);
    }

    lemma ConditionRows(path: string, q: Query)
      ensures (set a | a in q.conditions :: (path, a.property)) == set k | k in QueryProperties(q) :: (path, k)
    {
      forall a | a in q.conditions ensures a.property in QueryProperties(q) {
      }
    }

    method ApplyRemoval(c: Change, revision: nat) returns (ok: bool)
      requires c.RemoveDirectory? && Structured(db)
      modifies this
      ensures ok == Accepts(old(Current()), c, size)
      ensures ok ==> Current() == Step(old(Current()), c, revision, size)
    {
      if !DirectoryPathOk(c.path) {
        return false;
      }
      if c.path !in db.tables.directories {
        IneffectiveEffect(db, c);
        return true;
      }
      var before := Before(db.tables, c);
      db := db.(tables := WithoutDirectory(db.tables, c.path));
      ok := Record(DirectoryEdit, c.path, before, Absent, revision);
    }

    method ApplyChange(c: Change, revision: nat) returns (ok: bool)
      requires Structured(db)
      modifies this
      ensures ok == Accepts(old(Current()), c, size)
      ensures ok ==> Current() == Step(old(Current()), c, revision, size)
    {
      match c
      case DefineClass(_, _, _, _) => ok := ApplyClass(c, revision);
      case DefineProperty(_, _) => ok := ApplyProperty(c, revision);
      case DefineEntity(_, _, _) => ok := ApplyEntity(c, revision);
      case Classify(_, _, _) => ok := ApplyType(c, revision);
      case Assert(_, _, _, _) => ok := ApplyStatement(c, revision);
      case DefineDirectory(_, _) => ok := ApplyDirectory(c, revision);
      case RemoveDirectory(_) => ok := ApplyRemoval(c, revision);
    }

    // ----- The transaction

    /** Saved queries that use a redefined property are validated again. */
    method ValidateDirectories() returns (ok: bool)
      ensures ok == AffectedDirectoriesOk(Current())
    {
      var affected := set path | path in db.tables.directories && AffectedDirectory(Current(), path);
      while affected != {}
        invariant forall path :: path in affected ==> path in db.tables.directories
        invariant forall path :: path in db.tables.directories && AffectedDirectory(Current(), path) && path !in affected ==>
          QueryOk(db, db.tables.directories[path].query)
        invariant forall path :: path in affected ==> AffectedDirectory(Current(), path)
      {
        var path :| path in affected;
        if !QueryOk(db, db.tables.directories[path].query) {
          return false;
        }
        affected := affected - {path};
      }
      ok := true;
    }

    /** Apply the edits in order; `stopped` is what each poll of the stop token answers. */
    method RunChanges(changes: seq<Change>, revision: nat, stopped: nat -> bool) returns (ok: bool)
      requires Consistent(db) && Current() == Start(db)
      modifies this
      ensures ok ==> Run(old(db), changes, revision, size) == Some(Current())
      ensures !ok && (forall n :: !stopped(n)) ==> Run(old(db), changes, revision, size).None?
    {
      var i := 0;
      while i < |changes|
        invariant 0 <= i <= |changes|
        invariant Run(old(db), changes[..i], revision, size) == Some(Current())
      {
        if stopped(i + 1) {
          return false;
        }
        RunTracks(old(db), changes[..i], revision, size);
        assert changes[..i + 1][..i] == changes[..i];
        ok := ApplyChange(changes[i], revision);
        if !ok {
          RunPrefixFails(old(db), changes, i + 1, revision, size);
          return;
        }
        i := i + 1;
      }
      assert changes[..i] == changes;
      ok := true;
    }

    lemma {:induction false} RunPrefixFails(p: Package, changes: seq<Change>, n: nat, revision: nat, size: Document -> nat)
      requires n <= |changes| && Run(p, changes[..n], revision, size).None?
      ensures Run(p, changes, revision, size).None?
      decreases |changes|
    {
      if n == |changes| {
        assert changes[..n] == changes;
      } else {
        var shorter := changes[..|changes| - 1];
        assert shorter[..n] == changes[..n];
        RunPrefixFails(p, shorter, n, revision, size);
      }
    }

    method Apply(changes: seq<Change>, expected: nat, session: string, stopped: nat -> bool)
      returns (ok: bool, revision: nat)
      requires Consistent(db)
      modifies this
      ensures Consistent(db)
      ensures !ok ==> db == old(db)
      ensures ok ==> OntologyBatch.Apply(old(db), changes, expected, session, size) == Some(db)
      ensures ok ==> revision == db.tables.revision
      ensures !readOnly && (forall n :: !stopped(n)) ==>
        ok == OntologyBatch.Apply(old(db), changes, expected, session, size).Some?
    {
      hide Structured, StatementsOk, DirectoriesOk, SelectedStatementsOk, AffectedDirectoriesOk, Run, MayBegin, Grown, TypesTracked, PropertiesTracked, HierarchyTracked, StatementsTracked, DirectoriesTracked;
      revision := 0;
      if stopped(0) || readOnly || !MayBegin(db, changes, expected, session) {
        return false, revision;
      }
      var saved := db;
      changedNodes, changedProperties, hierarchyChanged, journalBytes, events := {}, {}, false, 0, 0;
      ok := RunChanges(changes, expected + 1, stopped);
      if ok && events > 0 {
        RunTracks(saved, changes, expected + 1, size);
        ok := ValidateStatements();
        if ok {
          ok := ValidateDirectories();
        }
        if ok {
          db := db.(tables := db.tables.(
            revision := expected + 1, commits := db.tables.commits + [Commit(expected + 1, session)]));
        }
      }
      if stopped(|changes| + 1) {
        ok := false;
      }
      if ok {
        ApplyKeepsConsistency(saved, changes, expected, session, size);
        if events == 0 {
          NoEventsNoChange(saved, changes, expected + 1, size);
        }
      } else {
        db := saved;
      }
      revision := db.tables.revision;
    }
  }
}
