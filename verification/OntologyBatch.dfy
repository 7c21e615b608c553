/** What one batch of edits does to the ontology, and why re-checking only the
    statements near an edit keeps the whole ontology consistent. */
module OntologyBatch {
  import opened Wrappers
  import opened Graph
  import opened OntologyModel

  const MAXIMUM_CHANGES := 256
  const MAXIMUM_JOURNAL_BYTES := 4 * 1024 * 1024
  const MAXIMUM_REVISION := 0x7fff_ffff_ffff_ffff

  // ----- One edit

  /** The current document of whatever the edit is about. */
  function Before(t: Tables, c: Change): Document {
    match c
    case DefineClass(key, _, _, _) =>
      if key in t.classes then ClassDocument(t.classes[key].title, t.classes[key].description, ParentsOf(t, key)) else Absent
    case DefineProperty(key, _) =>
      if key in t.properties then PropertyDocument(t.properties[key]) else Absent
    case DefineEntity(key, _, _) =>
      var node := NodeKey(Entity(key));
      if node in t.nodes && t.nodes[node].EntityNode?
      then EntityDocument(t.nodes[node].title, t.nodes[node].description) else Absent
    case Classify(r, classKey, _) =>
      if (NodeKey(r), classKey) in t.types then TypeDocument(classKey) else Absent
    case Assert(r, property, value, _) =>
      if Statement(NodeKey(r), property, value) in t.statements then StatementDocument(property, value) else Absent
    case DefineDirectory(path, _) =>
      if path in t.directories then DirectoryDocument(t.directories[path]) else Absent
    case RemoveDirectory(path) =>
      if path in t.directories then DirectoryDocument(t.directories[path]) else Absent
  }

  /** The document the edit asks for. */
  function After(c: Change): Document {
    match c
    case DefineClass(_, title, description, parents) => ClassDocument(title, description, set p | p in parents)
    case DefineProperty(_, p) => PropertyDocument(p)
    case DefineEntity(_, title, description) => EntityDocument(title, description)
    case Classify(_, classKey, present) => if present then TypeDocument(classKey) else Absent
    case Assert(_, property, value, present) => if present then StatementDocument(property, value) else Absent
    case DefineDirectory(_, d) => DirectoryDocument(d)
    case RemoveDirectory(_) => Absent
  }

  function OperationOf(c: Change): Operation {
    match c
    case DefineClass(_, _, _, _) => ClassEdit
    case DefineProperty(_, _) => PropertyEdit
    case DefineEntity(_, _, _) => EntityEdit
    case Classify(_, _, _) => TypeEdit
    case Assert(_, _, _, _) => StatementEdit
    case DefineDirectory(_, _) | RemoveDirectory(_) => DirectoryEdit
  }

  function SubjectOf(c: Change): string {
    match c
    case DefineClass(key, _, _, _) => key
    case DefineProperty(key, _) => key
    case DefineEntity(key, _, _) => NodeKey(Entity(key))
    case Classify(r, _, _) => NodeKey(r)
    case Assert(r, _, _, _) => NodeKey(r)
    case DefineDirectory(path, _) => path
    case RemoveDirectory(path) => path
  }

  predicate Effective(t: Tables, c: Change) {
    Before(t, c) != After(c)
  }

  predicate SameBookkeeping(t: Tables, t': Tables) {
    t'.revision == t.revision && t'.commits == t.commits && t'.journal == t.journal
  }

  /** `ensureResource`: a file gets its node row on first use. */
  function WithNode(t: Tables, r: Resource): (t': Tables)
    ensures SameBookkeeping(t, t')
  {
    if r.File? && NodeKey(r) !in t.nodes then t.(nodes := t.nodes[NodeKey(r) := FileNode(r.key)]) else t
  }

  function WithParents(t: Tables, key: string, parents: seq<string>): (t': Tables)
    ensures SameBookkeeping(t, t')
  {
    t.(parents := (set e | e in t.parents && e.0 != key) + set p | p in parents :: (key, p))
  }

  function Without(statements: seq<Statement>, s: Statement): (rest: seq<Statement>) {
    if statements == [] then []
    else Without(statements[..|statements| - 1], s) +
         if statements[|statements| - 1] == s then [] else [statements[|statements| - 1]]
  }

  function WithoutDirectory(t: Tables, path: string): (t': Tables)
    ensures SameBookkeeping(t, t')
  {
    t.(directories := t.directories - {path},
       directoryProperties := set e | e in t.directoryProperties && e.0 != path)
  }

  /** The rows an admitted edit leaves. */
  function Effect(t: Tables, c: Change): Tables {
    match c
    case DefineClass(key, title, description, parents) =>
      if !Effective(t, c) then t
      else
        var t1 := t.(classes := t.classes[key := ClassRow(title, description)]);
        if key in t.classes && ParentsOf(t, key) == (set p | p in parents) then t1 else WithParents(t1, key, parents)
    case DefineProperty(key, p) =>
      t.(properties := t.properties[key := p])
    case DefineEntity(key, title, description) =>
      t.(nodes := t.nodes[NodeKey(Entity(key)) := EntityNode(title, description)])
    case Classify(r, classKey, present) =>
      if present
      then var t1 := WithNode(t, r); t1.(types := t1.types + {(NodeKey(r), classKey)})
      else t.(types := t.types - {(NodeKey(r), classKey)})
    case Assert(r, property, value, present) =>
      var s := Statement(NodeKey(r), property, value);
      if present
      then
        var t1 := WithNode(t, r);
        var t2 := if value.ResourceValue? then WithNode(t1, value.target) else t1;
        if s in t2.statements then t2 else t2.(statements := t2.statements + [s])
      else t.(statements := Without(t.statements, s))
    case DefineDirectory(path, d) =>
      if !Effective(t, c) then t
      else
        var t1 := WithoutDirectory(t, path);
        t1.(directories := t1.directories[path := d],
            directoryProperties := t1.directoryProperties + set k | k in QueryProperties(d.query) :: (path, k))
    case RemoveDirectory(path) =>
      WithoutDirectory(t, path)
  }

  /** The checks an edit has to pass on the tables it finds. */
  ghost predicate Admits(p: Package, c: Change, size: Document -> nat) {
    var t := p.tables;
    match c
    case DefineClass(key, title, description, parents) =>
      && ClassTextOk(key, title, description, parents)
      && (Effective(t, c) ==> (
            && (forall k :: k in parents ==> k in t.classes)
            && (HierarchyEdit(t, c) || key !in t.classes ==> !OnCycle(Effect(t, c).parents, key))))
    case DefineProperty(key, property) =>
      && PropertyTextOk(key, property)
      && ClassExists(t, property.domain) && ClassExists(t, property.range)
    case DefineEntity(key, title, description) =>
      EntityTextOk(key, title, description)
    case Classify(r, classKey, present) =>
      && TextOk(classKey, 1024, true) && classKey in t.classes
      && ResourceTextOk(r) && ResourceExists(p, r, present)
    case Assert(r, property, value, present) =>
      && TextOk(property, 1024, true) && property in t.properties
      && (present ==> t.properties[property].kind == KindOf(value))
      && ValueOk(value) && ResourceTextOk(r) && ResourceExists(p, r, present)
      && (value.ResourceValue? ==> ResourceExists(p, value.target, present))
    case DefineDirectory(path, d) =>
      && DirectoryPathOk(path) && TextOk(d.title, 4096, false)
      && QueryTextOk(d.query, size) && QueryOk(p, d.query)
    case RemoveDirectory(path) =>
      DirectoryPathOk(path)
  }

  /** The edit replaces the parents of a class that existed before it. */
  predicate HierarchyEdit(t: Tables, c: Change) {
    c.DefineClass? && c.key in t.classes && ParentsOf(t, c.key) != set p | p in c.parents
  }

  function TouchedNodes(t: Tables, c: Change): set<string> {
    if !Effective(t, c) then {}
    else match c
      case Classify(r, _, _) => {NodeKey(r)}
      case Assert(r, _, value, _) => {NodeKey(r)} + if value.ResourceValue? then {NodeKey(value.target)} else {}
      case _ => {}
  }

  function TouchedProperties(t: Tables, c: Change): set<string> {
    if c.DefineProperty? && Effective(t, c) then {c.key} else {}
  }

  // ----- A batch in progress

  /** The transaction's tables and what the batch has touched so far. */
  datatype Batch = Batch(
    p: Package, hierarchyChanged: bool, nodes: set<string>, properties: set<string>, bytes: nat, events: nat)

  function Start(p: Package): Batch {
    Batch(p, false, {}, {}, 0, 0)
  }

  function JournalBytes(t: Tables, c: Change, size: Document -> nat): nat {
    Size(Before(t, c), size) + Size(After(c), size)
  }

  function Size(d: Document, size: Document -> nat): nat {
    if d.Absent? then 0 else size(d)
  }

  function Journal(t: Tables, c: Change, revision: nat): seq<Event> {
    if Effective(t, c) then [Event(revision, OperationOf(c), SubjectOf(c), Before(t, c), After(c))] else []
  }

  ghost predicate Accepts(b: Batch, c: Change, size: Document -> nat) {
    && Admits(b.p, c, size)
    && (Effective(b.p.tables, c) ==> b.bytes + JournalBytes(b.p.tables, c, size) <= MAXIMUM_JOURNAL_BYTES)
  }

  function Step(b: Batch, c: Change, revision: nat, size: Document -> nat): Batch {
    var t := b.p.tables;
    Batch(
      b.p.(tables := Effect(t, c).(journal := t.journal + Journal(t, c, revision))),
      b.hierarchyChanged || HierarchyEdit(t, c),
      b.nodes + TouchedNodes(t, c),
      b.properties + TouchedProperties(t, c),
      b.bytes + (if Effective(t, c) then JournalBytes(t, c, size) else 0),
      b.events + (if Effective(t, c) then 1 else 0))
  }

  /** The batch after all edits, or None when one of them is refused. */
  ghost function Run(p: Package, changes: seq<Change>, revision: nat, size: Document -> nat): Option<Batch> {
    if changes == [] then Some(Start(p))
    else
      var last := |changes| - 1;
      match Run(p, changes[..last], revision, size)
      case None => None
      case Some(b) => if Accepts(b, changes[last], size) then Some(Step(b, changes[last], revision, size)) else None
  }

  // ----- The local check

  /** The rows `validateStatements` selects. */
  predicate Selected(b: Batch, s: Statement) {
    || b.hierarchyChanged
    || s.subject in b.nodes
    || (s.value.ResourceValue? && NodeKey(s.value.target) in b.nodes)
    || s.property in b.properties
  }

  ghost predicate SelectedStatementsOk(b: Batch) {
    forall s :: s in b.p.tables.statements && Selected(b, s) ==> StatementOk(b.p.tables, s)
  }

  predicate AffectedDirectory(b: Batch, path: string) {
    exists k :: k in b.properties && (path, k) in b.p.tables.directoryProperties
  }

  predicate AffectedDirectoriesOk(b: Batch) {
    forall path :: path in b.p.tables.directories && AffectedDirectory(b, path) ==>
      QueryOk(b.p, b.p.tables.directories[path].query)
  }

  ghost predicate LocallyValid(b: Batch) {
    SelectedStatementsOk(b) && AffectedDirectoriesOk(b)
  }

  // ----- The whole operation

  predicate MayBegin(p: Package, changes: seq<Change>, expected: nat, session: string) {
    && 1 <= |changes| <= MAXIMUM_CHANGES
    && TextOk(session, 1024, true)
    && expected == p.tables.revision && expected < MAXIMUM_REVISION
    && session in p.files.sessions && !p.files.sessions[session]
  }

  /** `apply` without cancellation: the committed package, or None when it fails. */
  ghost function Apply(p: Package, changes: seq<Change>, expected: nat, session: string, size: Document -> nat): Option<Package> {
    if !MayBegin(p, changes, expected, session) then None
    else match Run(p, changes, expected + 1, size)
      case None => None
      case Some(b) =>
        if b.events == 0 then Some(b.p)
        else if !LocallyValid(b) then None
        else Some(b.p.(tables := b.p.tables.(
               revision := expected + 1,
               commits := b.p.tables.commits + [Commit(expected + 1, session)])))
  }
}
