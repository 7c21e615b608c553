/** The tables, values and edits of the semantic filesystem, and what a consistent
    ontology is. SQLite is modelled as the typed tables of one value; a JSON document
    is the value it encodes. */
module OntologyModel {
  import opened Orders
  import opened Wrappers
  import opened Graph
  import LogicalPath

  // ----- Resources, values and definitions

  datatype Resource = File(key: string) | Entity(key: string)

  datatype Kind = ResourceKind | TextKind | IntegerKind | RealKind | BooleanKind

  type Int64 = n: int | -0x8000_0000_0000_0000 <= n < 0x8000_0000_0000_0000

  datatype Value =
    | ResourceValue(target: Resource)
    | TextValue(text: string)
    | IntegerValue(n: Int64)
    | RealValue(x: real)
    | BooleanValue(b: bool)

  datatype Property = Property(title: string, kind: Kind, domain: string, range: string, single: bool, acyclic: bool)

  datatype Condition = Condition(property: string, equals: Option<Value>)

  datatype Query = Query(classKey: string, subclasses: bool, conditions: seq<Condition>, deleted: bool)

  // ----- Rows

  datatype ClassRow = ClassRow(title: string, description: string)

  /** A node row is either a file of the object store or an ontology entity. */
  datatype Node = FileNode(objectKey: string) | EntityNode(title: string, description: string)

  /** `object_key` is the node key of a resource value and NULL otherwise. */
  datatype Statement = Statement(subject: string, property: string, value: Value)

  datatype Directory = Directory(title: string, query: Query)

  datatype Commit = Commit(revision: nat, session: string)

  /** A journal document; `Absent` is the empty string that stands for no value. */
  datatype Document =
    | Absent
    | ClassDocument(title: string, description: string, parents: set<string>)
    | PropertyDocument(property: Property)
    | EntityDocument(title: string, description: string)
    | TypeDocument(classKey: string)
    | StatementDocument(propertyKey: string, value: Value)
    | DirectoryDocument(directory: Directory)
    | QueryDocument(query: Query)

  datatype Operation = ClassEdit | PropertyEdit | EntityEdit | TypeEdit | StatementEdit | DirectoryEdit

  datatype Event = Event(revision: nat, operation: Operation, subject: string, before: Document, after: Document)

  datatype Tables = Tables(
    revision: nat,
    classes: map<string, ClassRow>,
    parents: set<(string, string)>,
    properties: map<string, Property>,
    nodes: map<string, Node>,
    types: set<(string, string)>,
    statements: seq<Statement>,
    directories: map<string, Directory>,
    directoryProperties: set<(string, string)>,
    commits: seq<Commit>,
    journal: seq<Event>)

  /** What the object store contributes: which object keys exist and which are deleted,
      and which work sessions exist and which are ended. */
  datatype Files = Files(objects: map<string, bool>, sessions: map<string, bool>)

  datatype Package = Package(files: Files, tables: Tables)

  const EMPTY := Tables(0, map[], {}, map[], map[], {}, [], map[], {}, [], [])

  // ----- Edits

  datatype Change =
    | DefineClass(key: string, title: string, description: string, parents: seq<string>)
    | DefineProperty(key: string, property: Property)
    | DefineEntity(key: string, title: string, description: string)
    | Classify(resource: Resource, classKey: string, present: bool)
    | Assert(subject: Resource, propertyKey: string, value: Value, present: bool)
    | DefineDirectory(path: string, directory: Directory)
    | RemoveDirectory(path: string)

  // ----- Keys and shapes

  function NodeKey(r: Resource): string {
    match r
    case File(key) => "file:" + key
    case Entity(key) => "entity:" + key
  }

  function KindOf(v: Value): Kind {
    match v
    case ResourceValue(_) => ResourceKind
    case TextValue(_) => TextKind
    case IntegerValue(_) => IntegerKind
    case RealValue(_) => RealKind
    case BooleanValue(_) => BooleanKind
  }

  predicate TextOk(s: string, maximum: nat, required: bool) {
    (required ==> s != "") && |s| <= maximum && '\0' !in s
  }

  predicate ResourceTextOk(r: Resource) {
    TextOk(r.key, 1024, true)
  }

  predicate ValueOk(v: Value) {
    match v
    case ResourceValue(r) => ResourceTextOk(r)
    case TextValue(s) => TextOk(s, 65536, false)
    case _ => true
  }

  predicate ClassTextOk(key: string, title: string, description: string, parents: seq<string>) {
    && TextOk(key, 1024, true)
    && TextOk(title, 4096, false)
    && TextOk(description, 16384, false)
    && |parents| <= 32
    && (forall p :: p in parents ==> TextOk(p, 1024, true))
    && Distinct(parents)
  }

  predicate PropertyTextOk(key: string, p: Property) {
    && TextOk(key, 1024, true)
    && TextOk(p.title, 4096, false)
    && TextOk(p.domain, 1024, false)
    && TextOk(p.range, 1024, false)
    && (p.kind != ResourceKind ==> p.range == "" && !p.acyclic)
  }

  predicate EntityTextOk(key: string, title: string, description: string) {
    TextOk(key, 1024, true) && TextOk(title, 4096, false) && TextOk(description, 16384, false)
  }

  /** The text and size limits of `queryJson`; `size` is the length of a JSON document. */
  predicate QueryTextOk(q: Query, size: Document -> nat) {
    && TextOk(q.classKey, 1024, false)
    && |q.conditions| <= 16
    && (forall c :: c in q.conditions ==> TextOk(c.property, 1024, true) && (c.equals.Some? ==> ValueOk(c.equals.value)))
    && size(QueryDocument(q)) <= 256 * 1024
  }

  predicate DirectoryPathOk(path: string) {
    LogicalPath.Valid(path, 4096)
  }

  // ----- What the tables mean

  predicate ClassExists(t: Tables, key: string) {
    key == "" || key in t.classes
  }

  predicate ResourceExists(p: Package, r: Resource, live: bool) {
    match r
    case File(key) => key in p.files.objects && (live ==> !p.files.objects[key])
    case Entity(_) => NodeKey(r) in p.tables.nodes
  }

  function ParentsOf(t: Tables, key: string): (parents: set<string>) {
    set e | e in t.parents && e.0 == key :: e.1
  }

  ghost predicate HasType(t: Tables, node: string, classKey: string) {
    classKey == "" || exists c: string :: (node, c) in t.types && Reaches(t.parents, c, classKey)
  }

  function Relation(statements: seq<Statement>, property: string): (edges: set<(string, string)>) {
    set s | s in statements && s.property == property && s.value.ResourceValue? :: (s.subject, NodeKey(s.value.target))
  }

  predicate OnlyValue(statements: seq<Statement>, s: Statement) {
    forall u :: u in statements && u.subject == s.subject && u.property == s.property ==> u == s
  }

  /** The rules of its property that a statement has to meet. */
  ghost predicate StatementOk(t: Tables, s: Statement) {
    && s.property in t.properties
    && var p := t.properties[s.property];
    && p.kind == KindOf(s.value)
    && HasType(t, s.subject, p.domain)
    && (s.value.ResourceValue? ==> HasType(t, NodeKey(s.value.target), p.range))
    && (p.single ==> OnlyValue(t.statements, s))
    && (p.acyclic ==> (
          && s.value.ResourceValue?
          && !Reaches(Relation(t.statements, s.property), NodeKey(s.value.target), s.subject)))
  }

  predicate ConditionOk(p: Package, c: Condition) {
    && c.property in p.tables.properties
    && (c.equals.Some? ==> (
          && KindOf(c.equals.value) == p.tables.properties[c.property].kind
          && (c.equals.value.ResourceValue? ==> ResourceExists(p, c.equals.value.target, false))))
  }

  predicate QueryOk(p: Package, q: Query) {
    ClassExists(p.tables, q.classKey) && forall c :: c in q.conditions ==> ConditionOk(p, c)
  }

  function QueryProperties(q: Query): set<string> {
    set c | c in q.conditions :: c.property
  }

  // ----- Consistency

  /** Foreign keys, unique keys and the acyclic class hierarchy. */
  ghost predicate Structured(p: Package) {
    && HierarchyStructured(p.tables)
    && PropertiesStructured(p.tables)
    && NodesStructured(p)
    && StatementsStructured(p.tables)
    && DirectoryRowsStructured(p.tables.directories, p.tables.directoryProperties, p.tables.properties.Keys)
  }

  ghost predicate HierarchyStructured(t: Tables) {
    && Acyclic(t.parents)
    && forall e :: e in t.parents ==> e.0 in t.classes && e.1 in t.classes
  }

  predicate PropertiesStructured(t: Tables) {
    forall k :: k in t.properties ==> PropertyStructured(t, t.properties[k])
  }

  ghost predicate NodesStructured(p: Package) {
    && (forall k :: k in p.tables.nodes ==> NodeStructured(p.files, k, p.tables.nodes[k]))
    && (forall e :: e in p.tables.types ==> e.0 in p.tables.nodes && e.1 in p.tables.classes)
  }

  predicate StatementsStructured(t: Tables) {
    && Distinct(t.statements)
    && forall s :: s in t.statements ==> StatementStructured(t, s)
  }

  /** `ontology_directory_properties` lists exactly the properties of each saved query. */
  ghost predicate DirectoryRowsStructured(directories: map<string, Directory>, rows: set<(string, string)>, properties: set<string>) {
    && (forall path, k :: (path, k) in rows <==> path in directories && k in QueryProperties(directories[path].query))
    && (forall path :: path in directories ==> QueryProperties(directories[path].query) <= properties)
  }

  predicate PropertyStructured(t: Tables, p: Property) {
    && ClassExists(t, p.domain) && ClassExists(t, p.range)
    && (p.kind != ResourceKind ==> p.range == "" && !p.acyclic)
  }

  ghost predicate NodeStructured(files: Files, key: string, n: Node) {
    match n
    case FileNode(o) => key == NodeKey(File(o)) && o in files.objects
    case EntityNode(_, _) => exists e :: key == NodeKey(Entity(e))
  }

  predicate StatementStructured(t: Tables, s: Statement) {
    && s.subject in t.nodes
    && s.property in t.properties
    && (s.value.ResourceValue? ==> NodeKey(s.value.target) in t.nodes)
  }

  ghost predicate StatementsOk(t: Tables) {
    forall s :: s in t.statements ==> StatementOk(t, s)
  }

  predicate DirectoriesOk(p: Package) {
    forall path :: path in p.tables.directories ==> QueryOk(p, p.tables.directories[path].query)
  }

  /** Everything the ontology promises between batches. */
  ghost predicate Consistent(p: Package) {
    Structured(p) && StatementsOk(p.tables) && DirectoriesOk(p)
  }

  /** A node key determines its resource: the two prefixes never produce the same key. */
  lemma NodeKeyInjective(a: Resource, b: Resource)
    requires NodeKey(a) == NodeKey(b)
    ensures a == b
  {
    assert NodeKey(a)[0] == NodeKey(b)[0];
    assert "file:"[0] == 'f' && "entity:"[0] == 'e';
    if a.File? {
      assert NodeKey(a)[5..] == a.key && NodeKey(b)[5..] == b.key;
    } else {
      assert NodeKey(a)[7..] == a.key && NodeKey(b)[7..] == b.key;
    }
  }
}
