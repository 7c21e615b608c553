/** What an edit leaves in the ontology's rows, and that ordinary edits commit. */
module OntologyEffects {
  import opened Wrappers
  import opened Graph
  import opened OntologyModel
  import opened OntologyBatch
  import opened OntologyConsistency

  // ----- The rows after an edit

  /** The rows say what the edit asked for. */
  ghost predicate EditDone(t: Tables, c: Change) {
    match c
    case DefineClass(key, title, description, parents) =>
      && key in t.classes && t.classes[key].title == title && t.classes[key].description == description
      && (forall q :: (key, q) in t.parents <==> q in parents)
    case DefineProperty(key, p) => key in t.properties && t.properties[key] == p
    case DefineEntity(key, title, description) =>
      "entity:" + key in t.nodes && t.nodes["entity:" + key] == EntityNode(title, description)
    case Classify(r, classKey, present) => (NodeKey(r), classKey) in t.types <==> present
    case Assert(r, property, value, present) => Statement(NodeKey(r), property, value) in t.statements <==> present
    case DefineDirectory(path, d) => path in t.directories && t.directories[path] == d
    case RemoveDirectory(path) => path !in t.directories
  }

  /** And every other row stays; only files that the edit names may get a node row. */
  ghost predicate RowsKept(t: Tables, t': Tables, c: Change) {
    && ClassesKept(t, t', c) && PropertiesKept(t, t', c) && NodesKept(t, t', c)
    && TypesKept(t, t', c) && StatementsKept(t, t', c) && DirectoriesKept(t, t', c)
  }

  ghost predicate EditKeeps(t: Tables, t': Tables, c: Change) {
    SameBookkeeping(t, t') && RowsKept(t, t', c)
  }

  ghost predicate ClassesKept(t: Tables, t': Tables, c: Change) {
    && (forall k :: !(c.DefineClass? && k == c.key) ==> (k in t'.classes <==> k in t.classes) && (k in t.classes ==> t'.classes[k] == t.classes[k]))
    && (forall e: (string, string) :: !(c.DefineClass? && e.0 == c.key) ==> (e in t'.parents <==> e in t.parents))
  }

  ghost predicate PropertiesKept(t: Tables, t': Tables, c: Change) {
    forall k :: !(c.DefineProperty? && k == c.key) ==>
      (k in t'.properties <==> k in t.properties) && (k in t.properties ==> t'.properties[k] == t.properties[k])
  }

  ghost predicate NodesKept(t: Tables, t': Tables, c: Change) {
    && (forall k :: k in t.nodes && !(c.DefineEntity? && k == "entity:" + c.key) ==> k in t'.nodes && t'.nodes[k] == t.nodes[k])
    && (forall k :: k in t'.nodes && k !in t.nodes ==> (c.DefineEntity? && k == "entity:" + c.key) || NewFileNode(t', c, k))
  }

  ghost predicate TypesKept(t: Tables, t': Tables, c: Change) {
    forall e :: !(c.Classify? && e == (NodeKey(c.resource), c.classKey)) ==> (e in t'.types <==> e in t.types)
  }

  ghost predicate StatementsKept(t: Tables, t': Tables, c: Change) {
    forall s :: !(c.Assert? && s == Statement(NodeKey(c.subject), c.propertyKey, c.value)) ==> (s in t'.statements <==> s in t.statements)
  }

  ghost predicate DirectoriesKept(t: Tables, t': Tables, c: Change) {
    forall path :: !((c.DefineDirectory? || c.RemoveDirectory?) && path == c.path) ==>
      (path in t'.directories <==> path in t.directories) && (path in t.directories ==> t'.directories[path] == t.directories[path])
  }

  predicate NewFileNode(t: Tables, c: Change, k: string)
    requires k in t.nodes
  {
    exists r :: r in Named(c) && r.File? && k == "file:" + r.key && t.nodes[k] == FileNode(r.key)
  }

  /** The resources an edit names. */
  function Named(c: Change): set<Resource> {
    match c
    case Classify(r, _, _) => {r}
    case Assert(r, _, value, _) => {r} + if value.ResourceValue? then {value.target} else {}
    case _ => {}
  }

  lemma EffectDone(p: Package, c: Change)
    requires Structured(p)
    ensures EditDone(Effect(p.tables, c), c)
  {
    hide HierarchyStructured, PropertiesStructured, NodesStructured, DirectoryRowsStructured;
    var t := p.tables;
    match c
    case DefineClass(key, title, description, parents) =>
      ClassDone(t, c);
    case Assert(r, property, value, present) =>
      if !present {
        WithoutElements(t.statements, Statement(NodeKey(r), property, value));
      }
    case _ =>
  }

  lemma ClassDone(t: Tables, c: Change)
    requires c.DefineClass?
    ensures EditDone(Effect(t, c), c)
  {
    var asked := set q | q in c.parents;
    assert forall q :: q in ParentsOf(t, c.key) <==> (c.key, q) in t.parents by { ParentEdges(t, c.key); }
    assert forall q :: q in asked <==> q in c.parents;
  }

  lemma ParentEdges(t: Tables, key: string)
    ensures forall q :: q in ParentsOf(t, key) <==> (key, q) in t.parents
  {
    forall q | (key, q) in t.parents
      ensures q in ParentsOf(t, key)
    {
      assert (key, q).1 == q;
    }
  }

  lemma EffectKeeps(p: Package, c: Change)
    requires Structured(p)
    ensures EditKeeps(p.tables, Effect(p.tables, c), c)
  {
    hide Effect, Structured, ClassesKept, PropertiesKept, NodesKept, TypesKept, StatementsKept, DirectoriesKept;
    BookkeepingKept(p.tables, c);
    EffectKeepsClasses(p.tables, c);
    EffectKeepsProperties(p.tables, c);
    EffectKeepsTypes(p.tables, c);
    EffectKeepsNodes(p.tables, c);
    EffectKeepsStatements(p, c);
    EffectKeepsDirectories(p.tables, c);
  }

  lemma BookkeepingKept(t: Tables, c: Change)
    ensures SameBookkeeping(t, Effect(t, c))
  {
  }

  lemma EffectKeepsClasses(t: Tables, c: Change)
    ensures ClassesKept(t, Effect(t, c), c)
  {
    hide Effect;
    if c.DefineClass? {
      ClassEditKeeps(t, c);
    } else {
      OtherEditsKeepClasses(t, c);
    }
  }

  lemma ClassEditKeeps(t: Tables, c: Change)
    requires c.DefineClass?
    ensures ClassesKept(t, Effect(t, c), c)
  {
    hide Effective, ParentsOf, QueryProperties, Without, NodeKey;
  }

  lemma OtherEditsKeepClasses(t: Tables, c: Change)
    requires !c.DefineClass?
    ensures Effect(t, c).classes == t.classes && Effect(t, c).parents == t.parents
  {
    hide Effective, ParentsOf, QueryProperties, Without, NodeKey;
  }

  lemma EffectKeepsProperties(t: Tables, c: Change)
    ensures PropertiesKept(t, Effect(t, c), c)
  {
    hide Effective, ParentsOf, QueryProperties, Without, NodeKey;
  }

  lemma EffectKeepsTypes(t: Tables, c: Change)
    ensures TypesKept(t, Effect(t, c), c)
  {
    hide Effective, ParentsOf, QueryProperties, Without, NodeKey;
  }

  lemma EffectKeepsNodes(t: Tables, c: Change)
    ensures NodesKept(t, Effect(t, c), c)
  {
    hide Effect, NodesKept;
    match c
    case Classify(_, _, _) => TypeEditKeepsNodes(t, c);
    case Assert(_, _, _, _) => AssertKeepsNodes(t, c);
    case _ => OtherEditsKeepNodes(t, c);
  }

  lemma TypeEditKeepsNodes(t: Tables, c: Change)
    requires c.Classify?
    ensures NodesKept(t, Effect(t, c), c)
  {
    hide WithNode;
    NodeAdded(t, c, c.resource);
  }

  lemma AssertKeepsNodes(t: Tables, c: Change)
    requires c.Assert?
    ensures NodesKept(t, Effect(t, c), c)
  {
    hide WithNode, Without;
    NodeAdded(t, c, c.subject);
    if c.value.ResourceValue? {
      NodeAdded(WithNode(t, c.subject), c, c.value.target);
    }
  }

  lemma OtherEditsKeepNodes(t: Tables, c: Change)
    requires !c.Classify? && !c.Assert?
    ensures NodesKept(t, Effect(t, c), c)
  {
    hide Effective, ParentsOf, QueryProperties, Without;
  }

  lemma NodeAdded(t: Tables, c: Change, r: Resource)
    requires r in Named(c)
    ensures var t' := WithNode(t, r);
      && (forall k :: k in t.nodes ==> k in t'.nodes && t'.nodes[k] == t.nodes[k])
      && (forall k :: k in t'.nodes && k !in t.nodes ==> k == NodeKey(r) && r.File? && k == "file:" + r.key && t'.nodes[k] == FileNode(r.key))
  {
  }

  lemma EffectKeepsStatements(p: Package, c: Change)
    requires Structured(p)
    ensures StatementsKept(p.tables, Effect(p.tables, c), c)
  {
    hide Effective, ParentsOf, QueryProperties, HierarchyStructured, PropertiesStructured, NodesStructured, DirectoryRowsStructured;
    if c.Assert? && !c.present {
      WithoutElements(p.tables.statements, Statement(NodeKey(c.subject), c.propertyKey, c.value));
    }
  }

  lemma EffectKeepsDirectories(t: Tables, c: Change)
    ensures DirectoriesKept(t, Effect(t, c), c)
  {
    hide Effective, ParentsOf, QueryProperties, Without;
  }

  // ----- Ordinary edits commit

  /** A session that may edit, at the ontology's revision. */
  predicate MayEdit(p: Package, session: string) {
    && session != "" && |session| <= 1024 && '\0' !in session
    && session in p.files.sessions && !p.files.sessions[session] && p.tables.revision < 0x7fff_ffff_ffff_ffff
  }

  /** The edit alone commits, does what it asks and keeps the rest of the rows. */
  ghost predicate Commits(p: Package, c: Change, session: string, size: Document -> nat) {
    var r := Apply(p, [c], p.tables.revision, session, size);
    && r.Some? && Consistent(r.value) && r.value.files == p.files && EditDone(r.value.tables, c) && RowsKept(p.tables, r.value.tables, c)
    && (r.value != p ==> r.value.tables.revision == p.tables.revision + 1)
  }

  lemma OneEdit(p: Package, c: Change, session: string, size: Document -> nat)
    requires Consistent(p) && MayEdit(p, session) && Admits(p, c, size)
    requires Size(Before(p.tables, c), size) + Size(After(c), size) <= MAXIMUM_JOURNAL_BYTES
    requires Consistent(Step(Start(p), c, p.tables.revision + 1, size).p)
    ensures Commits(p, c, session, size)
  {
    hide Consistent, Admits, Effect, EditDone, RowsKept;
    var next := p.tables.revision + 1;
    assert [c][..0] == [];
    assert Run(p, [], next, size) == Some(Start(p));
    assert Run(p, [c], next, size) == Some(Step(Start(p), c, next, size));
    ApplyRefusesExactlyTheInconsistent(p, [c], p.tables.revision, session, size);
    ApplyKeepsConsistency(p, [c], p.tables.revision, session, size);
    DoneAfterStep(p, c, next, size);
    if Step(Start(p), c, next, size).events == 0 {
      NoEventsNoChange(p, [c], next, size);
    }
    InTables(p.tables, Step(Start(p), c, next, size).p.tables, Apply(p, [c], p.tables.revision, session, size).value.tables, c);
  }

  lemma DoneAfterStep(p: Package, c: Change, revision: nat, size: Document -> nat)
    requires Consistent(p)
    ensures EditDone(Step(Start(p), c, revision, size).p.tables, c) && RowsKept(p.tables, Step(Start(p), c, revision, size).p.tables, c)
  {
    hide Structured, StatementsOk, DirectoriesOk, Effect, EditDone, RowsKept;
    EffectDone(p, c);
    EffectKeeps(p, c);
    InTables(p.tables, Effect(p.tables, c), Step(Start(p), c, revision, size).p.tables, c);
  }

  lemma InTables(was: Tables, t: Tables, t': Tables, c: Change)
    requires EditDone(t, c) && RowsKept(was, t, c) && t' == t.(journal := t'.journal, revision := t'.revision, commits := t'.commits)
    ensures EditDone(t', c) && RowsKept(was, t', c)
  {
  }

  /** The package a batch of one edit checks is consistent when only the rows decide it. */
  lemma ConsistentAfter(p: Package, c: Change, size: Document -> nat)
    requires Consistent(p.(tables := Effect(p.tables, c)))
    ensures Consistent(Step(Start(p), c, p.tables.revision + 1, size).p)
  {
    hide Effect;
    JournalIgnored(p.(tables := Effect(p.tables, c)), Step(Start(p), c, p.tables.revision + 1, size).p.tables.journal);
    assert Step(Start(p), c, p.tables.revision + 1, size).p ==
      p.(tables := Effect(p.tables, c).(journal := Step(Start(p), c, p.tables.revision + 1, size).p.tables.journal));
  }

  lemma JournalIgnored(p: Package, journal: seq<Event>)
    requires Consistent(p)
    ensures Consistent(p.(tables := p.tables.(journal := journal)))
  {
    var p' := p.(tables := p.tables.(journal := journal));
    forall s | s in p'.tables.statements
      ensures StatementOk(p'.tables, s)
    {
      assert StatementOk(p.tables, s);
    }
    forall path | path in p'.tables.directories
      ensures QueryOk(p', p'.tables.directories[path].query)
    {
      assert QueryOk(p, p.tables.directories[path].query);
      assert forall c :: c in p.tables.directories[path].query.conditions ==> ConditionOk(p, c);
    }
  }

  predicate Fits(p: Package, c: Change, size: Document -> nat) {
    Size(Before(p.tables, c), size) + Size(After(c), size) <= 4 * 1024 * 1024
  }

  /** A statement stays valid where classes, parents and types are only added. */
  lemma StatementGrows(t: Tables, t': Tables, s: Statement)
    requires StatementOk(t, s) && t'.statements == t.statements && t.parents <= t'.parents && t.types <= t'.types
    requires s.property in t'.properties && t'.properties[s.property] == t.properties[s.property]
    ensures StatementOk(t', s)
  {
    var p := t.properties[s.property];
    TypeGrows(t, t', s.subject, p.domain);
    if s.value.ResourceValue? {
      TypeGrows(t, t', NodeKey(s.value.target), p.range);
    }
  }

  lemma TypeGrows(t: Tables, t': Tables, node: string, classKey: string)
    requires HasType(t, node, classKey) && t.parents <= t'.parents && t.types <= t'.types
    ensures HasType(t', node, classKey)
  {
    if classKey != "" {
      var c: string :| (node, c) in t.types && Reaches(t.parents, c, classKey);
      ReachesMonotone(t.parents, t'.parents, c, classKey);
    }
  }

  /** Edits that only add, and assert nothing, keep the ontology consistent. */
  lemma AddingKeepsConsistency(p: Package, t': Tables)
    requires Consistent(p) && Structured(p.(tables := t'))
    requires t'.statements == p.tables.statements && p.tables.parents <= t'.parents && p.tables.types <= t'.types
    requires forall k :: k in p.tables.classes ==> k in t'.classes
    requires forall k :: k in p.tables.properties ==> k in t'.properties && t'.properties[k] == p.tables.properties[k]
    requires forall k :: k in p.tables.nodes ==> k in t'.nodes
    requires forall path :: path in t'.directories ==>
      (path in p.tables.directories && t'.directories[path] == p.tables.directories[path]) || QueryOk(p, t'.directories[path].query)
    ensures Consistent(p.(tables := t'))
  {
    hide Structured;
    forall s | s in t'.statements
      ensures StatementOk(t', s)
    {
      assert StatementOk(p.tables, s);
      StatementGrows(p.tables, t', s);
    }
    forall path | path in t'.directories
      ensures QueryOk(p.(tables := t'), t'.directories[path].query)
    {
      assert QueryOk(p, t'.directories[path].query);
      assert forall c :: c in t'.directories[path].query.conditions ==> ConditionOk(p, c);
    }
  }

  /** A new class below classes that exist. */
  lemma ClassCommits(p: Package, key: string, title: string, description: string, parents: seq<string>, session: string, size: Document -> nat)
    requires Consistent(p) && MayEdit(p, session) && Fits(p, DefineClass(key, title, description, parents), size)
    requires ClassTextOk(key, title, description, parents) && key !in p.tables.classes && forall q :: q in parents ==> q in p.tables.classes
    ensures Commits(p, DefineClass(key, title, description, parents), session, size)
  {
    hide Structured, Commits, StatementsOk, DirectoriesOk;
    var c := DefineClass(key, title, description, parents);
    NewClassOffCycle(p, c);
    EffectStructured(p, c, size);
    AddingKeepsConsistency(p, Effect(p.tables, c));
    ConsistentAfter(p, c, size);
    OneEdit(p, c, session, size);
  }

  lemma NewClassOffCycle(p: Package, c: Change)
    requires Structured(p) && c.DefineClass? && c.key !in p.tables.classes && forall q :: q in c.parents ==> q in p.tables.classes
    ensures !OnCycle(Effect(p.tables, c).parents, c.key) && p.tables.parents <= Effect(p.tables, c).parents
  {
    hide PropertiesStructured, NodesStructured, StatementsStructured, DirectoryRowsStructured;
    var after := Effect(p.tables, c).parents;
    assert forall e :: e in after ==> e.1 != c.key;
    if OnCycle(after, c.key) {
      var d: string :| (c.key, d) in after && Reaches(after, d, c.key);
      LastEdge(after, d, c.key);
      assert false;
    }
  }

  lemma LastEdge(edges: set<(string, string)>, a: string, b: string)
    requires Reaches(edges, a, b) && a != b
    ensures exists e :: e in edges && e.1 == b
  {
    var path :| IsPath(edges, path, a, b);
    assert (path[|path| - 2], path[|path| - 2 + 1]) in edges;
  }

  /** A new property over classes that exist. */
  lemma PropertyCommits(p: Package, key: string, property: Property, session: string, size: Document -> nat)
    requires Consistent(p) && MayEdit(p, session) && Fits(p, DefineProperty(key, property), size)
    requires PropertyTextOk(key, property) && key !in p.tables.properties
    requires property.domain == "" || property.domain in p.tables.classes
    requires property.range == "" || property.range in p.tables.classes
    ensures Commits(p, DefineProperty(key, property), session, size)
  {
    hide Structured, Commits, StatementsOk, DirectoriesOk;
    var c := DefineProperty(key, property);
    EffectStructured(p, c, size);
    AddingKeepsConsistency(p, Effect(p.tables, c));
    ConsistentAfter(p, c, size);
    OneEdit(p, c, session, size);
  }

  /** Any entity. */
  lemma EntityCommits(p: Package, key: string, title: string, description: string, session: string, size: Document -> nat)
    requires Consistent(p) && MayEdit(p, session) && Fits(p, DefineEntity(key, title, description), size)
    requires EntityTextOk(key, title, description)
    ensures Commits(p, DefineEntity(key, title, description), session, size)
  {
    hide Structured, Commits, StatementsOk, DirectoriesOk;
    var c := DefineEntity(key, title, description);
    EffectStructured(p, c, size);
    AddingKeepsConsistency(p, Effect(p.tables, c));
    ConsistentAfter(p, c, size);
    OneEdit(p, c, session, size);
  }

  /** A file that is not deleted, or an entity that exists. */
  predicate Present(p: Package, r: Resource) {
    && r.key != "" && |r.key| <= 1024 && '\0' !in r.key
    && match r
       case File(key) => key in p.files.objects && !p.files.objects[key]
       case Entity(key) => "entity:" + key in p.tables.nodes
  }

  /** A class for a resource that is present. */
  lemma TypeCommits(p: Package, r: Resource, classKey: string, session: string, size: Document -> nat)
    requires Consistent(p) && MayEdit(p, session) && Fits(p, Classify(r, classKey, true), size)
    requires Present(p, r) && TextOk(classKey, 1024, true) && classKey in p.tables.classes
    ensures Commits(p, Classify(r, classKey, true), session, size)
  {
    hide Structured, Commits, StatementsOk, DirectoriesOk;
    var c := Classify(r, classKey, true);
    EffectStructured(p, c, size);
    AddingKeepsConsistency(p, Effect(p.tables, c));
    ConsistentAfter(p, c, size);
    OneEdit(p, c, session, size);
  }

  /** A saved query over classes and properties that exist. */
  lemma DirectoryCommits(p: Package, path: string, d: Directory, session: string, size: Document -> nat)
    requires Consistent(p) && MayEdit(p, session) && Fits(p, DefineDirectory(path, d), size)
    requires DirectoryPathOk(path) && |d.title| <= 4096 && '\0' !in d.title && QueryTextOk(d.query, size) && QueryOk(p, d.query)
    ensures Commits(p, DefineDirectory(path, d), session, size)
  {
    hide Structured, Commits, StatementsOk, DirectoriesOk, QueryTextOk, QueryOk;
    var c := DefineDirectory(path, d);
    EffectStructured(p, c, size);
    AddingKeepsConsistency(p, Effect(p.tables, c));
    ConsistentAfter(p, c, size);
    OneEdit(p, c, session, size);
  }

  /** Removing any directory. */
  lemma RemovalCommits(p: Package, path: string, session: string, size: Document -> nat)
    requires Consistent(p) && MayEdit(p, session) && Fits(p, RemoveDirectory(path), size) && DirectoryPathOk(path)
    ensures Commits(p, RemoveDirectory(path), session, size)
  {
    hide Structured, Commits, StatementsOk, DirectoriesOk;
    var c := RemoveDirectory(path);
    EffectStructured(p, c, size);
    AddingKeepsConsistency(p, Effect(p.tables, c));
    ConsistentAfter(p, c, size);
    OneEdit(p, c, session, size);
  }

  /** A statement about resources that are present, of an unrestricted property of its kind. */
  lemma StatementCommits(p: Package, r: Resource, property: string, value: Value, session: string, size: Document -> nat)
    requires Consistent(p) && MayEdit(p, session) && Fits(p, Assert(r, property, value, true), size)
    requires Present(p, r) && ValueOk(value) && (value.ResourceValue? ==> Present(p, value.target))
    requires TextOk(property, 1024, true) && property in p.tables.properties
    requires var q := p.tables.properties[property];
      q.kind == KindOf(value) && q.domain == "" && q.range == "" && !q.single && !q.acyclic
    ensures Commits(p, Assert(r, property, value, true), session, size)
  {
    hide Structured, Commits, StatementsOk, DirectoriesOk;
    var c := Assert(r, property, value, true);
    EffectStructured(p, c, size);
    AssertingKeepsConsistency(p, c);
    ConsistentAfter(p, c, size);
    OneEdit(p, c, session, size);
  }

  lemma AssertingKeepsConsistency(p: Package, c: Change)
    requires Consistent(p) && c.Assert? && c.present && Structured(p.(tables := Effect(p.tables, c)))
    requires c.propertyKey in p.tables.properties
    requires var q := p.tables.properties[c.propertyKey];
      q.kind == KindOf(c.value) && q.domain == "" && q.range == "" && !q.single && !q.acyclic
    ensures Consistent(p.(tables := Effect(p.tables, c)))
  {
    hide Structured, Effect, StatementOk;
    var t, t' := p.tables, Effect(p.tables, c);
    var s := Statement(NodeKey(c.subject), c.propertyKey, c.value);
    EffectKeepsNodes(t, c);
    AssertAdds(t, c);
    forall u | u in t'.statements
      ensures StatementOk(t', u)
    {
      if u == s {
        FreeStatementOk(t', s);
      } else {
        assert StatementOk(t, u);
        OthersUnmoved(t, t', s, u);
      }
    }
    forall path | path in t'.directories
      ensures QueryOk(p.(tables := t'), t'.directories[path].query)
    {
      assert QueryOk(p, t.directories[path].query);
      assert forall c :: c in t.directories[path].query.conditions ==> ConditionOk(p, c);
    }
  }

  lemma AssertAdds(t: Tables, c: Change)
    requires c.Assert? && c.present
    ensures var s, t' := Statement(NodeKey(c.subject), c.propertyKey, c.value), Effect(t, c);
      t' == t.(nodes := t'.nodes, statements := if s in t.statements then t.statements else t.statements + [s])
  {
  }

  lemma FreeStatementOk(t: Tables, s: Statement)
    requires s.property in t.properties
    requires var q := t.properties[s.property];
      q.kind == KindOf(s.value) && q.domain == "" && q.range == "" && !q.single && !q.acyclic
    ensures StatementOk(t, s)
  {
  }

  lemma OthersUnmoved(t: Tables, t': Tables, s: Statement, u: Statement)
    requires u != s && (t'.statements == t.statements + [s] || t'.statements == t.statements)
    requires StatementOk(t, u) && t'.parents == t.parents && t'.types == t.types && t'.properties == t.properties
    requires s.property in t.properties && !t.properties[s.property].single && !t.properties[s.property].acyclic
    ensures StatementOk(t', u)
  {
    if u.property != s.property {
      assert Relation(t'.statements, u.property) == Relation(t.statements, u.property);
    }
  }

  // ----- What is refused

  /** A batch needs the current revision, an open session and between 1 and 256 edits. */
  lemma CommitNeeds(p: Package, changes: seq<Change>, expected: nat, session: string, size: Document -> nat)
    requires Apply(p, changes, expected, session, size).Some?
    ensures 1 <= |changes| <= 256 && expected == p.tables.revision
    ensures session in p.files.sessions && !p.files.sessions[session]
  {
  }

  /** Nothing new is said of a deleted or unknown file. */
  lemma AbsentFileRefused(p: Package, key: string, c: Change, session: string, size: Document -> nat)
    requires key !in p.files.objects || p.files.objects[key]
    requires (c.Classify? && c.present && c.resource == File(key)) || (c.Assert? && c.present && (c.subject == File(key) || c.value == ResourceValue(File(key))))
    ensures Apply(p, [c], p.tables.revision, session, size) == None
  {
    assert [c][..0] == [];
    assert Run(p, [], p.tables.revision + 1, size) == Some(Start(p));
    assert !Admits(p, c, size);
    assert Run(p, [c], p.tables.revision + 1, size) == None;
  }
}
