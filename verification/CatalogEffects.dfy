/** What the catalog's operations leave in its rows, column by column. */
module CatalogEffects {
  import opened Wrappers
  import opened JsonTree
  import opened CatalogModel
  import opened CatalogInvariants
  import opened CatalogRuns

  /** The side rows of a file are those of its metadata. */
  ghost predicate SideRowsAre(env: Env, t: Tables, row: Row, m: Metadata) {
    && row.rating == m.rating && row.color == m.color && row.title == m.title
    && (forall term :: Keyword(row.id, term) in t.keywords <==> exists w :: w in m.keywords && env.fold(w) == term)
    && (forall n :: FieldName(row.id, n) in t.fields <==> n in m.fields)
    && (forall n :: n in m.fields ==> FieldName(row.id, n) in t.fields && t.fields[FieldName(row.id, n)] == m.fields[n])
    && (forall c :: Member(row.id, c) in t.members <==> c in m.collections)
    && row.id in t.text && t.text[row.id] == SearchText(row.path, m.title, m.description, m.keywords, m.fields)
  }

  /** Rows, metadata and marks of every other file are kept. */
  ghost predicate OtherFilesKept(t: Tables, t': Tables, key: string) {
    forall k :: k != key ==>
      && (k in t'.files <==> k in t.files)
      && (k in t.files ==>
            && t'.files[k] == t.files[k] && MetadataOf(t', t'.files[k]) == MetadataOf(t, t.files[k])
            && (t.files[k].id in t.pending <==> t'.files[k].id in t'.pending))
  }

  /** The rows of the physical file, kept by every edit of annotations. */
  predicate SameFile(a: Row, b: Row) {
    a.id == b.id && a.path == b.path && a.identity == b.identity && a.size == b.size && a.modified == b.modified && a.version == b.version
  }

  /** Annotating a placed row stores exactly the given metadata. */
  lemma AnnotateStores(env: Env, t: Tables, key: string, m: Metadata)
    requires RowsApart(t) && key in t.files && Annotate(env, t, key, m).Some?
    ensures var t' := Annotate(env, t, key, m).value;
      && key in t'.files && SameFile(t'.files[key], t.files[key]) && t'.files[key].revision == t.files[key].revision
      && MetadataOf(t', t'.files[key]) == m && SideRowsAre(env, t', t'.files[key], m)
      && t'.files[key].id in t'.pending && OtherFilesKept(t, t', key)
      && t'.collections == t.collections && t'.revision == t.revision && t'.nextId == t.nextId
  {
    hide SideRowsAre, OtherFilesKept, RowsApart, DocumentOf, MetadataOf, Terms, TextOf, FieldRows;
    AnnotatedMetadata(env, t, key, m);
    AnnotatedSideRows(env, t, key, m);
    AnnotatedOthers(env, t, key, m);
  }

  lemma AnnotatedMetadata(env: Env, t: Tables, key: string, m: Metadata)
    requires key in t.files
    ensures var t' := Annotated(env, t, key, m); MetadataOf(t', t'.files[key]) == m
  {
    hide Terms, TextOf, FieldRows;
    var t' := Annotated(env, t, key, m);
    var id := t.files[key].id;
    forall c
      ensures c in (set x | x in t'.members && x.id == id :: x.collection) <==> c in m.collections
    {
      if c in m.collections {
        assert Member(id, c) in t'.members;
      }
    }
    assert (set x | x in t'.members && x.id == id :: x.collection) == m.collections;
  }

  lemma AnnotatedSideRows(env: Env, t: Tables, key: string, m: Metadata)
    requires key in t.files
    ensures var t' := Annotated(env, t, key, m); SideRowsAre(env, t', t'.files[key], m)
  {
    var t' := Annotated(env, t, key, m);
    var row := t'.files[key];
    forall n
      ensures FieldName(row.id, n) in t'.fields <==> n in m.fields
      ensures n in m.fields ==> FieldName(row.id, n) in t'.fields && t'.fields[FieldName(row.id, n)] == m.fields[n]
    {
      FieldRowsAre(row.id, m.fields, n);
    }
  }

  lemma FieldRowsAre(id: nat, fields: map<string, string>, n: string)
    ensures FieldName(id, n) in FieldRows(id, fields) <==> n in fields
    ensures n in fields ==> FieldRows(id, fields)[FieldName(id, n)] == fields[n]
  {
  }

  lemma AnnotatedOthers(env: Env, t: Tables, key: string, m: Metadata)
    requires RowsApart(t) && key in t.files
    ensures OtherFilesKept(t, Annotated(env, t, key, m), key)
  {
    hide Terms, TextOf, FieldRows;
    var t' := Annotated(env, t, key, m);
    var id := t.files[key].id;
    forall k | k in t.files && k != key
      ensures MetadataOf(t', t.files[k]) == MetadataOf(t, t.files[k]) && (t.files[k].id in t.pending <==> t.files[k].id in t'.pending)
    {
      var other := t.files[k].id;
      assert other != id;
      assert (set x | x in t'.members && x.id == other :: x.collection) == (set x | x in t.members && x.id == other :: x.collection) by {
        OtherMembers(t, t', m, id, other);
      }
    }
  }

  lemma OtherMembers(t: Tables, t': Tables, m: Metadata, id: nat, other: nat)
    requires other != id && t'.members == (set x | x in t.members && x.id != id) + (set c | c in m.collections :: Member(id, c))
    ensures (set x | x in t'.members && x.id == other :: x.collection) == (set x | x in t.members && x.id == other :: x.collection)
  {
    forall x: Member | x.id == other
      ensures x in t'.members <==> x in t.members
    {
    }
  }

  /** An edit stores the normalised metadata, raises the revision, and touches no other file. */
  lemma UpdateStores(env: Env, w: World, key: string, expected: nat, input: Metadata)
    requires RowsApart(w.tables) && UpdateMetadata(env, w, key, expected, input).Some?
    ensures var w' := UpdateMetadata(env, w, key, expected, input).value;
      var t, t' := w.tables, w'.tables;
      && env.normalize(input).Some? && key in t.files && key in t'.files
      && SameFile(t'.files[key], t.files[key]) && t.files[key].revision == expected && t'.files[key].revision == expected + 1
      && MetadataOf(t', t'.files[key]) == env.normalize(input).value
      && SideRowsAre(env, t', t'.files[key], env.normalize(input).value)
      && t'.files[key].id in t'.pending && OtherFilesKept(t, t', key)
      && t'.collections == t.collections && t'.revision == t.revision + 1
      && w'.companions == w.companions && w'.disk == w.disk
  {
    hide Annotate, SideRowsAre, OtherFilesKept, RowsApart, MetadataOf;
    var row := w.tables.files[key];
    var placed := w.tables.(files := w.tables.files[key := row.(revision := row.revision + 1)]);
    var m := env.normalize(input).value;
    RaisedApart(w.tables, placed, key);
    AnnotateStores(env, placed, key, m);
    var t' := Annotate(env, placed, key, m).value;
    SideRowsBumped(env, t', key, m);
    OthersRaised(w.tables, placed, t', key);
    OthersBumped(w.tables, t', key);
  }

  lemma RaisedApart(t: Tables, placed: Tables, key: string)
    requires RowsApart(t) && key in t.files && placed == t.(files := t.files[key := t.files[key].(revision := t.files[key].revision + 1)])
    ensures RowsApart(placed)
  {
  }

  lemma OthersRaised(t: Tables, placed: Tables, t': Tables, key: string)
    requires key in t.files && key in placed.files && placed == t.(files := placed.files) && placed.files == t.files[key := placed.files[key]]
    requires OtherFilesKept(placed, t', key)
    ensures OtherFilesKept(t, t', key)
  {
    forall k | k in t.files && k != key
      ensures MetadataOf(placed, t.files[k]) == MetadataOf(t, t.files[k])
    {
    }
  }

  lemma OthersBumped(t: Tables, t': Tables, key: string)
    requires OtherFilesKept(t, t', key)
    ensures OtherFilesKept(t, Bumped(t'), key)
    ensures forall row :: MetadataOf(Bumped(t'), row) == MetadataOf(t', row)
  {
  }

  lemma SideRowsBumped(env: Env, t: Tables, key: string, m: Metadata)
    requires key in t.files && SideRowsAre(env, t, t.files[key], m)
    ensures SideRowsAre(env, Bumped(t), t.files[key], m)
  {
  }

  // ----- Registration

  /** The row takes the physical file's columns. */
  predicate TakesFile(row: Row, path: string, file: Physical) {
    row.path == path && row.identity == file.identity && row.size == file.size && row.modified == file.modified && row.version == file.version
  }

  /** The file is registered under a new key, or as the one row that names its path, or its identity
      where the old path is gone. */
  predicate RegistersAsKey(w: World, path: string, generated: string, r: Registered) {
    && path in w.disk && r.key in r.tables.files
    && var t, row := w.tables, r.tables.files[r.key];
       if r.key in t.files then
         && (t.files[r.key].path == path || (t.files[r.key].identity == w.disk[path].identity && t.files[r.key].path !in w.disk))
         && row.id == t.files[r.key].id && (r.mutated ==> row.revision == t.files[r.key].revision + 1)
       else r.key == generated && row.id == t.nextId && row.revision == 1
  }

  /** Given metadata is stored as normalised; without it, a known file keeps its own unless its
      companion is as recent, and an unknown one without a companion has none. */
  predicate StoresGiven(env: Env, w: World, path: string, given: Option<Metadata>, r: Registered)
    requires r.key in r.tables.files
  {
    var m := MetadataOf(r.tables, r.tables.files[r.key]);
    && (given.Some? ==> env.normalize(given.value) == Some(m))
    && (given.None? && r.key in w.tables.files
        && (path !in w.companions || w.companions[path].fileKey != r.key || w.companions[path].revision < w.tables.files[r.key].revision)
        ==> m == MetadataOf(w.tables, w.tables.files[r.key]))
    && (given.None? && r.key !in w.tables.files && path !in w.companions ==> m == NoMetadata)
  }

  lemma RegisterStores(env: Env, w: World, path: string, given: Option<Metadata>, generated: string, r: Registered)
    requires Inv(env, w) && Register(env, w, path, given, generated, r)
    ensures RegistersAsKey(w, path, generated, r) && StoresGiven(env, w, path, given, r)
    ensures var row := r.tables.files[r.key];
      if r.mutated then TakesFile(row, path, w.disk[path]) && row.id in r.tables.pending
      else r.key in w.tables.files && row == w.tables.files[r.key] && row.path == path && row.version == w.disk[path].version
    ensures OtherFilesKept(w.tables, r.tables, r.key)
    ensures given.None? && Adopting(w, path, r.key) ==>
      StandsFor(env, w.companions[path], r.tables.collections, MetadataOf(r.tables, r.tables.files[r.key]))
  {
    hide Tidy, Published, Placed, Annotate, EntryOf, RowsApart, OnlyCollections, OtherFilesKept, MetadataOf, NoneNewer, SideRowsAre, RegistersAsKey, StoresGiven, TakesFile, StandsFor;
    var existing: Option<string> :| IsExisting(w, path, existing) && RegisterAs(env, w, path, given, generated, existing, r);
    var e := EntryOf(env, w, path, given, existing, generated).value;
    EntryFacts(env, w, path, given, existing, generated, e);
    EntryMetadata(env, w, path, given, existing, generated, e);
    if existing.Some? && Unchanged(w, e, path) {
      KeptByCollections(w.tables, e.tables, e.key);
      UnchangedStores(env, w, path, given, existing, generated, e, r);
      assert r.tables == e.tables && MetadataOf(e.tables, e.tables.files[e.key]) == e.metadata;
    } else {
      TidyApart(env, w.tables);
      PlacedFacts(env, w, path, existing, e);
      AnnotateStores(env, Placed(w, e, existing, path), e.key, e.metadata);
      PlacedOthers(w, e, existing, path, r.tables);
      PlacedStores(env, w, path, given, existing, generated, e, r);
      PlacedCollections(w, e, existing, path);
    }
  }

  lemma PlacedCollections(w: World, e: Entry, existing: Option<string>, path: string)
    requires path in w.disk && (existing.Some? ==> existing.value in e.tables.files)
    ensures Placed(w, e, existing, path).collections == e.tables.collections
  {
  }

  lemma EntryMetadata(env: Env, w: World, path: string, given: Option<Metadata>, existing: Option<string>, generated: string, e: Entry)
    requires path in w.disk && IsExisting(w, path, existing)
    requires EntryOf(env, w, path, given, existing, generated) == Some(e)
    requires if existing.Some? then e.key == existing.value else e.key == generated && NoneNewer(w)
    ensures given.Some? ==> env.normalize(given.value) == Some(e.metadata)
    ensures given.None? && existing.Some?
      && (path !in w.companions || w.companions[path].fileKey != e.key || w.companions[path].revision < w.tables.files[e.key].revision)
      ==> e.metadata == MetadataOf(w.tables, w.tables.files[e.key])
    ensures given.None? && existing.None? && path !in w.companions ==> e.metadata == NoMetadata
    ensures existing.None? ==> e.revision == 1
    ensures given.None? && Adopting(w, path, e.key) ==> StandsFor(env, w.companions[path], e.tables.collections, e.metadata)
  {
    hide Adopt, MetadataOf, DocumentOf, StandsFor;
    if path in w.companions && existing.None? {
      assert NotNewer(w.tables, path, w.companions[path]);
    }
    if path in w.companions && Adopt(env, w.tables, w.companions[path]).Some? {
      AdoptMeans(env, w.tables, w.companions[path]);
    }
  }

  // ----- A companion's metadata in the catalog's own terms

  /** An unknown file takes the metadata of its companion, and a known one of its own companion if
      that is as recent as the row. */
  predicate Adopting(w: World, path: string, key: string) {
    && path in w.companions
    && (key in w.tables.files ==>
      w.companions[path].fileKey == key && w.companions[path].revision >= w.tables.files[key].revision)
  }

  /** Each membership of the companion's metadata is replaced by a collection of this catalog that has
      its key or, folded, its name; all else is the companion's. */
  ghost predicate StandsFor(env: Env, companion: Document, collections: map<string, string>, m: Metadata) {
    exists remap: map<string, string> :: Renames(env, companion.collections, collections, remap) && Carries(env, companion.metadata, remap, m)
  }

  predicate Carries(env: Env, from: Metadata, remap: map<string, string>, m: Metadata) {
    var parsed := env.normalize(from);
    && parsed.Some? && parsed.value.collections <= remap.Keys
    && env.normalize(parsed.value.(collections := set c | c in parsed.value.collections :: remap[c])) == Some(m)
  }

  ghost predicate Renames(env: Env, names: seq<Named>, collections: map<string, string>, remap: map<string, string>) {
    && (forall n :: n in names ==> n.key in remap)
    && forall c :: c in remap ==> remap[c] in collections && exists n :: n in names && n.key == c && Means(env, n, remap[c], collections)
  }

  predicate Means(env: Env, n: Named, k: string, collections: map<string, string>) {
    k in collections && (k == n.key || env.fold(collections[k]) == env.fold(n.name))
  }

  lemma AdoptMeans(env: Env, t: Tables, companion: Document)
    requires Adopt(env, t, companion).Some?
    ensures var a := Adopt(env, t, companion).value; StandsFor(env, companion, a.tables.collections, a.metadata)
  {
    hide Renames;
    RestoreAllMeans(env, t, companion.collections);
    var remap := RestoreAll(env, t, companion.collections).value.remap;
    assert Carries(env, companion.metadata, remap, Adopt(env, t, companion).value.metadata);
  }

  lemma {:induction false} RestoreAllMeans(env: Env, t: Tables, names: seq<Named>)
    requires RestoreAll(env, t, names).Some?
    ensures var r := RestoreAll(env, t, names).value; Renames(env, names, r.tables.collections, r.remap)
  {
    hide RestoreOne, Renames, Means, Grown;
    if names == [] {
      NoneRenamed(env, t.collections);
    } else {
      var front, last := names[..|names| - 1], names[|names| - 1];
      var earlier := RestoreAll(env, t, front).value;
      RestoreAllMeans(env, t, front);
      OneMeans(env, earlier.tables, last);
      RestoreOneGrows(env, earlier.tables, last);
      assert names == front + [last];
      RenamesOneMore(env, front, last, earlier, RestoreOne(env, earlier.tables, last).value);
    }
  }

  lemma NoneRenamed(env: Env, collections: map<string, string>)
    ensures Renames(env, [], collections, map[])
  {
  }

  lemma OneMeans(env: Env, t: Tables, c: Named)
    requires RestoreOne(env, t, c).Some?
    ensures var r := RestoreOne(env, t, c).value; r.remap.Keys == {c.key} && Means(env, c, r.remap[c.key], r.tables.collections)
  {
    hide RestoreOne;
    RestoreMeans(env, t, c);
  }

  lemma RenamesOneMore(env: Env, front: seq<Named>, last: Named, earlier: Restored, one: Restored)
    requires Renames(env, front, earlier.tables.collections, earlier.remap) && Grown(earlier.tables.collections, one.tables.collections)
    requires one.remap.Keys == {last.key} && Means(env, last, one.remap[last.key], one.tables.collections)
    ensures Renames(env, front + [last], one.tables.collections, earlier.remap + one.remap)
  {
    var names, remap := front + [last], earlier.remap + one.remap;
    forall c | c in remap
      ensures exists n :: n in names && n.key == c && Means(env, n, remap[c], one.tables.collections)
    {
      if c == last.key {
        assert last in names;
      } else {
        var n :| n in front && n.key == c && Means(env, n, earlier.remap[c], earlier.tables.collections);
        assert n in names;
      }
    }
  }

  lemma KeptByCollections(t: Tables, t': Tables, key: string)
    requires OnlyCollections(t, t') && key in t.files
    ensures OtherFilesKept(t, t', key) && t'.files == t.files && forall row :: MetadataOf(t', row) == MetadataOf(t, row)
  {
  }

  lemma UnchangedStores(env: Env, w: World, path: string, given: Option<Metadata>, existing: Option<string>, generated: string, e: Entry, r: Registered)
    requires path in w.disk && IsExisting(w, path, existing) && existing.Some? && e.key == existing.value && Unchanged(w, e, path)
    requires r == Registered(e.tables, e.key, false) && e.tables.files == w.tables.files
    requires forall row :: MetadataOf(e.tables, row) == MetadataOf(w.tables, row)
    requires given.Some? ==> env.normalize(given.value) == Some(e.metadata)
    ensures RegistersAsKey(w, path, generated, r) && StoresGiven(env, w, path, given, r)
  {
    hide MetadataOf;
  }

  lemma PlacedOthers(w: World, e: Entry, existing: Option<string>, path: string, t': Tables)
    requires path in w.disk && OnlyCollections(w.tables, e.tables)
    requires if existing.Some? then e.key == existing.value && existing.value in w.tables.files else e.key !in w.tables.files
    requires OtherFilesKept(Placed(w, e, existing, path), t', e.key)
    ensures OtherFilesKept(w.tables, t', e.key)
  {
    var placed := Placed(w, e, existing, path);
    forall k | k in w.tables.files && k != e.key
      ensures k in placed.files && placed.files[k] == w.tables.files[k]
      ensures MetadataOf(placed, placed.files[k]) == MetadataOf(w.tables, w.tables.files[k])
    {
    }
  }

  lemma PlacedStores(env: Env, w: World, path: string, given: Option<Metadata>, existing: Option<string>, generated: string, e: Entry, r: Registered)
    requires path in w.disk && IsExisting(w, path, existing) && generated !in w.tables.files && OnlyCollections(w.tables, e.tables)
    requires if existing.Some? then e.key == existing.value && e.revision == w.tables.files[e.key].revision + 1 else e.key == generated && e.revision == 1
    requires e.key in r.tables.files && r == Registered(r.tables, e.key, true)
    requires var placed := Placed(w, e, existing, path);
      && e.key in placed.files && SameFile(r.tables.files[e.key], placed.files[e.key]) && r.tables.files[e.key].revision == placed.files[e.key].revision
    requires MetadataOf(r.tables, r.tables.files[e.key]) == e.metadata
    requires given.Some? ==> env.normalize(given.value) == Some(e.metadata)
    requires given.None? && existing.Some?
      && (path !in w.companions || w.companions[path].fileKey != e.key || w.companions[path].revision < w.tables.files[e.key].revision)
      ==> e.metadata == MetadataOf(w.tables, w.tables.files[e.key])
    requires given.None? && existing.None? && path !in w.companions ==> e.metadata == NoMetadata
    ensures RegistersAsKey(w, path, generated, r) && StoresGiven(env, w, path, given, r)
    ensures TakesFile(r.tables.files[e.key], path, w.disk[path])
  {
    hide MetadataOf;
  }

  // ----- Collections

  lemma CreateStores(env: Env, t: Tables, key: string, name: string)
    requires CreateCollection(env, t, key, name).Some?
    ensures var t' := CreateCollection(env, t, key, name).value;
      && key !in t.collections && t'.collections == t.collections[key := name]
      && t'.files == t.files && t'.members == t.members && t'.pending == t.pending
  {
  }

  /** The row of a member gets a later revision, and that is all. */
  predicate MemberRaised(t: Tables, t': Tables, k: string, collection: string)
    requires k in t.files
  {
    && k in t'.files && SameFile(t'.files[k], t.files[k])
    && t'.files[k].rating == t.files[k].rating && t'.files[k].color == t.files[k].color && t'.files[k].title == t.files[k].title
    && t'.files[k].stored == t.files[k].stored
    && if Member(t.files[k].id, collection) in t.members
       then t'.files[k].revision == t.files[k].revision + 1 && t'.files[k].id in t'.pending
       else t'.files[k].revision == t.files[k].revision
  }

  /** A renamed collection has the new name; its members keep their metadata, get a later revision
      and are marked; nothing else changes. */
  lemma RenameStores(env: Env, t: Tables, collection: string, name: string)
    requires RenameCollection(env, t, collection, name).Some?
    ensures var t' := RenameCollection(env, t, collection, name).value;
      && collection in t.collections && t'.collections == t.collections[collection := name]
      && t'.files.Keys == t.files.Keys && t'.members == t.members && t.pending <= t'.pending && t'.revision == t.revision + 1
      && (forall k :: k in t.files ==> MemberRaised(t, t', k, collection) && MetadataOf(t', t'.files[k]) == MetadataOf(t, t.files[k]))
      && (forall i :: i in t'.pending && i !in t.pending ==> Member(i, collection) in t.members)
  {
    hide DocumentOf;
  }

  /** A removed collection is gone, and with it its memberships and nothing else of the metadata. */
  lemma RemoveStores(t: Tables, collection: string)
    requires RemoveCollection(t, collection).Some?
    ensures var t' := RemoveCollection(t, collection).value;
      && collection in t.collections && t'.collections == t.collections - {collection}
      && t'.files.Keys == t.files.Keys && t.pending <= t'.pending && t'.revision == t.revision + 1
      && (forall k :: k in t.files ==>
            && MemberRaised(t, t', k, collection)
            && MetadataOf(t', t'.files[k]) ==
               MetadataOf(t, t.files[k]).(collections := MetadataOf(t, t.files[k]).collections - {collection}))
      && (forall i :: i in t'.pending && i !in t.pending ==> Member(i, collection) in t.members)
  {
    var t' := RemoveCollection(t, collection).value;
    forall k | k in t.files
      ensures MetadataOf(t', t'.files[k]).collections == MetadataOf(t, t.files[k]).collections - {collection}
    {
      forall c
        ensures c in MetadataOf(t', t'.files[k]).collections <==> c in MetadataOf(t, t.files[k]).collections && c != collection
      {
        MemberOf(t, t.files[k], c);
        MemberOf(t', t'.files[k], c);
      }
    }
  }

  /** A companion's collection stands for the row with its key, else for one with its folded name,
      else for a new row with its key and name. */
  lemma RestoreMeans(env: Env, t: Tables, c: Named)
    requires RestoreOne(env, t, c).Some?
    ensures var r := RestoreOne(env, t, c).value;
      && r.remap.Keys == {c.key} && r.remap[c.key] in r.tables.collections
      && (c.key in t.collections ==> r == Restored(t, map[c.key := c.key]))
      && (c.key !in t.collections && (exists k :: k in t.collections && env.fold(t.collections[k]) == env.fold(c.name)) ==>
            r.tables == t && env.fold(t.collections[r.remap[c.key]]) == env.fold(c.name))
      && (c.key !in t.collections && (forall k :: k in t.collections ==> env.fold(t.collections[k]) != env.fold(c.name)) ==>
            r.remap[c.key] == c.key && r.tables == t.(collections := t.collections[c.key := c.name]))
  {
    if k :| k in t.collections && env.fold(t.collections[k]) == env.fold(c.name) {
      var named := set n | n in t.collections && env.fold(t.collections[n]) == env.fold(c.name);
      assert k in named && Ascending(named)[0] in named;
    }
  }

  // ----- Publication

  /** A published companion names its file, path and revision and holds its metadata and the names of
      its collections; no other companion, no file and no row changes. */
  lemma PublishStores(env: Env, w: World, key: string)
    requires Publish(env, w, key, false).Some? && Pending(w.tables, key)
    ensures var w', row := Publish(env, w, key, false).value, w.tables.files[key];
      && row.path in w'.companions && var d := w'.companions[row.path];
         && d.fileKey == key && d.path == row.path && d.revision == row.revision && d.metadata == MetadataOf(w.tables, row)
         && (forall c :: c in d.metadata.collections && c in w.tables.collections ==> Named(c, w.tables.collections[c]) in d.collections)
         && (forall n :: n in d.collections ==> n.key in d.metadata.collections && n.key in w.tables.collections && w.tables.collections[n.key] == n.name)
         && (forall p :: p != row.path ==> (p in w'.companions <==> p in w.companions) && (p in w.companions ==> w'.companions[p] == w.companions[p]))
         && w'.disk == w.disk && w'.tables == w.tables.(pending := w.tables.pending - {row.id})
  {
    var metadata := MetadataOf(w.tables, w.tables.files[key]);
    NamesAre(w.tables, Ascending(metadata.collections));
  }

  lemma {:induction false} NamesAre(t: Tables, keys: seq<string>)
    ensures forall c :: c in keys && c in t.collections ==> Named(c, t.collections[c]) in Names(t, keys)
    ensures forall n :: n in Names(t, keys) ==> n.key in keys && n.key in t.collections && t.collections[n.key] == n.name
  {
    if keys != [] {
      NamesAre(t, keys[1..]);
      assert keys == [keys[0]] + keys[1..];
    }
  }
}
