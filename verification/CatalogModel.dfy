/** The classification catalog: its tables, the metadata companions beside the files, and every
    operation on them as a function. Text normalisation, folding and the byte size of a document
    belong to the libraries and are parameters. */
module CatalogModel {
  import opened Wrappers
  import opened JsonTree

  const MAXIMUM_PAGE: nat := 1024
  const MAXIMUM_METADATA: nat := 256 * 1024
  const MAXIMUM_COLLECTIONS: nat := 4096

  /** A file's classification; `collections` are keys. */
  datatype Metadata = Metadata(
    title: string, description: string, keywords: seq<string>, rating: nat, color: nat,
    fields: map<string, string>, collections: set<string>)

  /** A row of `files`: the columns searched directly, and the stored document without memberships. */
  datatype Row = Row(
    id: nat, path: string, identity: string, size: nat, modified: int, version: string, revision: nat,
    rating: nat, color: nat, title: string, stored: Metadata)

  datatype Keyword = Keyword(id: nat, term: string)
  datatype FieldName = FieldName(id: nat, name: string)
  datatype Member = Member(id: nat, collection: string)
  datatype SearchText = SearchText(path: string, title: string, description: string, keywords: seq<string>, fields: map<string, string>)

  datatype Tables = Tables(
    files: map<string, Row>,
    keywords: set<Keyword>,
    fields: map<FieldName, string>,
    members: set<Member>,
    text: map<nat, SearchText>,
    collections: map<string, string>,
    pending: set<nat>,
    revision: nat,
    nextId: nat)

  datatype Named = Named(key: string, name: string)

  /** A companion document. */
  datatype Document = Document(fileKey: string, path: string, revision: nat, metadata: Metadata, collections: seq<Named>)

  datatype Physical = Physical(identity: string, version: string, size: nat, modified: int)

  /** The catalog, the companions by the path of their file, and the files themselves. */
  datatype World = World(tables: Tables, companions: map<string, Document>, disk: map<string, Physical>)

  datatype Env = Env(normalize: Metadata -> Option<Metadata>, fold: string -> string, size: Document -> nat)

  const NoMetadata: Metadata := Metadata("", "", [], 0, 0, map[], {})
  const EmptyTables: Tables := Tables(map[], {}, map[], {}, map[], map[], {}, 0, 1)

  // ----- What a row means

  function MetadataOf(t: Tables, row: Row): Metadata {
    row.stored.(collections := set m | m in t.members && m.id == row.id :: m.collection)
  }

  /** Membership names in key order; a key without a row has none. */
  function Names(t: Tables, keys: seq<string>): seq<Named> {
    if keys == [] then []
    else (if keys[0] in t.collections then [Named(keys[0], t.collections[keys[0]])] else []) + Names(t, keys[1..])
  }

  function DocumentOf(t: Tables, key: string): Document
    requires key in t.files
  {
    var row := t.files[key];
    var metadata := MetadataOf(t, row);
    Document(key, row.path, row.revision, metadata, Names(t, Ascending(metadata.collections)))
  }

  function Pending(t: Tables, key: string): bool
    requires key in t.files
  {
    t.files[key].id in t.pending
  }

  // ----- `annotations`

  function Terms(env: Env, metadata: Metadata): set<string> {
    set w | w in metadata.keywords :: env.fold(w)
  }

  function TextOf(path: string, metadata: Metadata): SearchText {
    SearchText(path, metadata.title, metadata.description, metadata.keywords, metadata.fields)
  }

  /** The row's columns and every side table rewritten for the new metadata, and the file marked pending. */
  function Annotated(env: Env, t: Tables, key: string, metadata: Metadata): Tables
    requires key in t.files
  {
    var row := t.files[key];
    var id := row.id;
    t.(
      files := t.files[key := row.(rating := metadata.rating, color := metadata.color, title := metadata.title,
        stored := metadata.(collections := {}))],
      keywords := (set k | k in t.keywords && k.id != id) + (set w | w in Terms(env, metadata) :: Keyword(id, w)),
      fields := (map f | f in t.fields && f.id != id :: t.fields[f]) + FieldRows(id, metadata.fields),
      members := (set m | m in t.members && m.id != id) + (set c | c in metadata.collections :: Member(id, c)),
      text := t.text[id := TextOf(row.path, metadata)],
      pending := t.pending + {id})
  }

  function FieldRows(id: nat, fields: map<string, string>): map<FieldName, string> {
    map f: FieldName | f in (set n | n in fields :: FieldName(id, n)) && f.name in fields :: fields[f.name]
  }

  /** Memberships are foreign keys, and the encoded companion is bounded. */
  function Annotate(env: Env, t: Tables, key: string, metadata: Metadata): Option<Tables>
    requires key in t.files
  {
    var next := Annotated(env, t, key, metadata);
    if !(metadata.collections <= t.collections.Keys) || env.size(DocumentOf(next, key)) > MAXIMUM_METADATA then None else Some(next)
  }

  // ----- `publish`

  /** The companion already at the path may be replaced. */
  predicate MayReplace(env: Env, w: World, key: string)
    requires key in w.tables.files
  {
    var row := w.tables.files[key];
    row.path in w.companions ==>
      var previous := w.companions[row.path];
      if previous.fileKey == key then previous.revision <= row.revision
      else
        && previous.fileKey in w.tables.files && w.tables.files[previous.fileKey].path != row.path
        && env.normalize(previous.metadata) == Some(MetadataOf(w.tables, row))
        && previous.revision <= w.tables.files[previous.fileKey].revision
  }

  predicate Publishable(env: Env, w: World, key: string) {
    && key in w.tables.files
    && (var row := w.tables.files[key];
        row.path in w.disk && w.disk[row.path].version == row.version)
    && MayReplace(env, w, key) && env.size(DocumentOf(w.tables, key)) <= MAXIMUM_METADATA
  }

  /** The companion renamed into place, before the commit. */
  function Renamed(w: World, key: string): World
    requires key in w.tables.files
  {
    w.(companions := w.companions[w.tables.files[key].path := DocumentOf(w.tables, key)])
  }

  function Committed(w: World, key: string): World
    requires key in w.tables.files
  {
    w.(tables := w.tables.(pending := w.tables.pending - {w.tables.files[key].id}))
  }

  /** A crash between the rename and the commit rolls the tables back and leaves the companion. */
  function Publish(env: Env, w: World, key: string, crash: bool): Option<World> {
    if key !in w.tables.files then None
    else if !Pending(w.tables, key) then Some(w)
    else if !Publishable(env, w, key) then None
    else if crash then Some(Renamed(w, key))
    else Some(Committed(Renamed(w, key), key))
  }

  // ----- `updateMetadata`, and the collections

  function Bumped(t: Tables): Tables { t.(revision := t.revision + 1) }

  function UpdateMetadata(env: Env, w: World, key: string, expected: nat, input: Metadata): Option<World> {
    var metadata :- env.normalize(input);
    if key !in w.tables.files then None
    else
      var row := w.tables.files[key];
      if row.revision != expected || row.path !in w.disk || w.disk[row.path].version != row.version then None
      else
        var next :- Annotate(env, w.tables.(files := w.tables.files[key := row.(revision := row.revision + 1)]), key, metadata);
        Some(w.(tables := Bumped(next)))
  }

  function CreateCollection(env: Env, t: Tables, key: string, name: string): Option<Tables> {
    if |t.collections| >= MAXIMUM_COLLECTIONS || key in t.collections || FoldedTaken(env, t, "", name) then None
    else Some(t.(collections := t.collections[key := name]))
  }

  /** Another collection than `key` has the folded name. */
  predicate FoldedTaken(env: Env, t: Tables, key: string, name: string) {
    exists c :: c in t.collections && c != key && env.fold(t.collections[c]) == env.fold(name)
  }

  predicate Belongs(t: Tables, row: Row, collection: string) { Member(row.id, collection) in t.members }

  /** Every member's revision grows and it becomes pending. */
  function Touched(t: Tables, collection: string): Tables {
    t.(files := map k | k in t.files ::
         if Belongs(t, t.files[k], collection) then t.files[k].(revision := t.files[k].revision + 1) else t.files[k],
       pending := t.pending + set k | k in t.files && Belongs(t, t.files[k], collection) :: t.files[k].id)
  }

  function RenameCollection(env: Env, t: Tables, collection: string, name: string): Option<Tables> {
    if collection !in t.collections || FoldedTaken(env, t, collection, name) then None
    else
      var next := Touched(t.(collections := t.collections[collection := name]), collection);
      if exists k :: k in next.files && Belongs(next, next.files[k], collection) && env.size(DocumentOf(next, k)) > MAXIMUM_METADATA then None
      else Some(Bumped(next))
  }

  /** The memberships go with the collection. */
  function RemoveCollection(t: Tables, collection: string): Option<Tables> {
    if collection !in t.collections then None
    else
      var next := Touched(t, collection);
      Some(Bumped(next.(collections := next.collections - {collection}, members := set m | m in next.members && m.collection != collection)))
  }

  // ----- `restoreCollections`

  datatype Restored = Restored(tables: Tables, remap: map<string, string>)

  /** The key a companion's membership stands for: its own, else one of that folded name, else a new row. */
  function RestoreOne(env: Env, t: Tables, c: Named): Option<Restored> {
    var named := set k | k in t.collections && env.fold(t.collections[k]) == env.fold(c.name);
    if c.key in t.collections then Some(Restored(t, map[c.key := c.key]))
    else if named != {} then Some(Restored(t, map[c.key := Ascending(named)[0]]))
    else if |t.collections| >= MAXIMUM_COLLECTIONS then None
    else Some(Restored(t.(collections := t.collections[c.key := c.name]), map[c.key := c.key]))
  }

  function RestoreAll(env: Env, t: Tables, names: seq<Named>): Option<Restored> {
    if names == [] then Some(Restored(t, map[]))
    else
      var earlier :- RestoreAll(env, t, names[..|names| - 1]);
      var last :- RestoreOne(env, earlier.tables, names[|names| - 1]);
      Some(Restored(last.tables, earlier.remap + last.remap))
  }

  /** A companion's metadata in this catalog's terms. */
  datatype Adopted = Adopted(tables: Tables, metadata: Metadata)

  function Adopt(env: Env, t: Tables, companion: Document): Option<Adopted> {
    var parsed :- env.normalize(companion.metadata);
    var restored :- RestoreAll(env, t, companion.collections);
    if !(parsed.collections <= restored.remap.Keys) then None
    else
      var metadata :- env.normalize(parsed.(collections := set c | c in parsed.collections :: restored.remap[c]));
      Some(Adopted(restored.tables, metadata))
  }

  // ----- `registration`

  /** The file a path is registered as: by path, else by an identity whose old path is gone. */
  ghost predicate IsExisting(w: World, path: string, existing: Option<string>)
    requires path in w.disk
  {
    match existing
    case Some(k) =>
      && k in w.tables.files
      && (w.tables.files[k].path == path
          || ((forall l :: l in w.tables.files ==> w.tables.files[l].path != path)
              && w.tables.files[k].identity == w.disk[path].identity && w.tables.files[k].path !in w.disk))
    case None =>
      forall l :: l in w.tables.files ==> w.tables.files[l].path != path && w.tables.files[l].identity != w.disk[path].identity
  }

  /** What is about to be registered. */
  datatype Entry = Entry(tables: Tables, key: string, revision: nat, metadata: Metadata)

  function EntryOf(env: Env, w: World, path: string, given: Option<Metadata>, existing: Option<string>, generated: string): Option<Entry>
    requires existing.Some? ==> existing.value in w.tables.files
  {
    var t := w.tables;
    var key := existing.GetOr(generated);
    var revision := if existing.Some? then t.files[key].revision + 1 else 1;
    if given.Some? then
      var metadata :- env.normalize(given.value);
      Some(Entry(t, key, revision, metadata))
    else if existing.Some? then
      if path in w.companions && w.companions[path].fileKey == key && w.companions[path].revision >= t.files[key].revision then
        var adopted :- Adopt(env, t, w.companions[path]);
        Some(Entry(adopted.tables, key, revision, adopted.metadata))
      else Some(Entry(t, key, revision, MetadataOf(t, t.files[key])))
    else if path in w.companions then
      var companion := w.companions[path];
      var adopted :- Adopt(env, t, companion);
      if companion.fileKey in t.files && t.files[companion.fileKey].path != path then Some(Entry(adopted.tables, generated, 1, adopted.metadata))
      else Some(Entry(adopted.tables, companion.fileKey, if companion.revision < 1 then 1 else companion.revision, adopted.metadata))
    else Some(Entry(t, key, revision, NoMetadata))
  }

  datatype Registered = Registered(tables: Tables, key: string, mutated: bool)

  /** The row inserted or updated from the physical file. */
  function Placed(w: World, e: Entry, existing: Option<string>, path: string): Tables
    requires path in w.disk && (existing.Some? ==> existing.value in e.tables.files)
  {
    var physical := w.disk[path];
    if existing.Some? then
      var row := e.tables.files[existing.value];
      e.tables.(files := e.tables.files[existing.value := row.(identity := physical.identity, size := physical.size,
        modified := physical.modified, version := physical.version, revision := e.revision, path := path)])
    else
      e.tables.(files := e.tables.files[e.key := Row(e.tables.nextId, path, physical.identity, physical.size, physical.modified,
        physical.version, e.revision, 0, 0, "", NoMetadata)], nextId := e.tables.nextId + 1)
  }

  /** One registration; keys generated for it are new. */
  ghost predicate Register(env: Env, w: World, path: string, given: Option<Metadata>, generated: string, r: Registered) {
    && path in w.disk && generated !in w.tables.files && (forall p :: p in w.companions ==> w.companions[p].fileKey != generated)
    && exists existing: Option<string> :: IsExisting(w, path, existing) && RegisterAs(env, w, path, given, generated, existing, r)
  }

  ghost predicate RegisterAs(env: Env, w: World, path: string, given: Option<Metadata>, generated: string, existing: Option<string>, r: Registered)
    requires path in w.disk && IsExisting(w, path, existing)
  {
    var entry := EntryOf(env, w, path, given, existing, generated);
    && entry.Some?
    && var e := entry.value;
       (existing.Some? ==> existing.value in e.tables.files) &&
       if existing.Some? && Unchanged(w, e, path) then r == Registered(e.tables, e.key, false)
       else
         && (existing.None? ==> e.key !in e.tables.files)
         && (forall k :: k in e.tables.files && k != e.key ==> e.tables.files[k].identity != w.disk[path].identity)
         && var next := Annotate(env, Placed(w, e, existing, path), e.key, e.metadata);
            next.Some? && r == Registered(next.value, e.key, true)
  }

  predicate Unchanged(w: World, e: Entry, path: string)
    requires e.key in w.tables.files && path in w.disk
  {
    var row := w.tables.files[e.key];
    row.path == path && row.version == w.disk[path].version && MetadataOf(w.tables, row) == e.metadata
  }
}
