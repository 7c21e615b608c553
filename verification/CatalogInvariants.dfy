/** What every run of the catalog keeps: side tables that agree with the stored metadata, current
    companions for every file not marked pending, and no companion newer than its row. */
module CatalogInvariants {
  import opened JsonTree
  import opened CatalogModel

  // ----- The tables

  ghost predicate SideTablesAgree(env: Env, t: Tables, row: Row) {
    && row.rating == row.stored.rating && row.color == row.stored.color && row.title == row.stored.title
    && row.stored.collections == {}
    && (forall w :: Keyword(row.id, w) in t.keywords <==> w in Terms(env, row.stored))
    && (forall n :: FieldName(row.id, n) in t.fields <==> n in row.stored.fields)
    && (forall n :: n in row.stored.fields ==> t.fields[FieldName(row.id, n)] == row.stored.fields[n])
    && row.id in t.text && t.text[row.id] == TextOf(row.path, row.stored)
    && (forall c :: Member(row.id, c) in t.members ==> c in t.collections)
  }

  ghost predicate RowsApart(t: Tables) {
    && 0 < t.nextId
    && (forall k :: k in t.files ==> 0 < t.files[k].id < t.nextId)
    && (forall k, l :: k in t.files && l in t.files && k != l ==>
          t.files[k].id != t.files[l].id && t.files[k].path != t.files[l].path && t.files[k].identity != t.files[l].identity)
  }

  ghost predicate Tidy(env: Env, t: Tables) {
    RowsApart(t) && forall k :: k in t.files ==> SideTablesAgree(env, t, t.files[k])
  }

  // ----- The companions

  ghost predicate Published(w: World) {
    forall k :: k in w.tables.files && !Pending(w.tables, k) ==>
      w.tables.files[k].path in w.companions && w.companions[w.tables.files[k].path] == DocumentOf(w.tables, k)
  }

  ghost predicate NotNewer(t: Tables, p: string, c: Document) {
    && c.path == p && c.fileKey in t.files
    && (c.revision < t.files[c.fileKey].revision || c == DocumentOf(t, c.fileKey))
  }

  ghost predicate NoneNewer(w: World) {
    forall p :: p in w.companions ==> NotNewer(w.tables, p, w.companions[p])
  }

  ghost predicate Inv(env: Env, w: World) {
    Tidy(env, w.tables) && Published(w) && NoneNewer(w)
  }

  /** The invariant as its reader sees it: no companion has a later revision than its row. */
  lemma CompanionsNotNewer(env: Env, w: World, p: string)
    requires Inv(env, w) && p in w.companions
    ensures w.companions[p].fileKey in w.tables.files
    ensures w.companions[p].revision <= w.tables.files[w.companions[p].fileKey].revision
  {
    hide Tidy, Published;
    assert NotNewer(w.tables, p, w.companions[p]);
  }

  // ----- How a transaction may change the tables

  /** Files stay; the touched ones have a later revision and are pending, as new ones are; all
      others keep their document and their mark. */
  ghost predicate Evolves(t: Tables, t': Tables, touched: set<string>) {
    && t.files.Keys <= t'.files.Keys
    && (forall k :: k in t'.files && k !in t.files ==> Pending(t', k))
    && (forall k :: k in t.files ==>
      if k in touched then t'.files[k].revision > t.files[k].revision && Pending(t', k)
      else DocumentOf(t', k) == DocumentOf(t, k) && Pending(t', k) == Pending(t, k))
  }

  lemma EvolvesKeeps(w: World, t': Tables, touched: set<string>)
    requires Published(w) && NoneNewer(w) && Evolves(w.tables, t', touched)
    ensures Published(w.(tables := t')) && NoneNewer(w.(tables := t'))
  {
    var w' := w.(tables := t');
    forall k | k in t'.files && !Pending(t', k)
      ensures t'.files[k].path in w'.companions && w'.companions[t'.files[k].path] == DocumentOf(t', k)
    {
      assert DocumentOf(t', k) == DocumentOf(w.tables, k) && !Pending(w.tables, k);
      assert DocumentOf(t', k).path == t'.files[k].path;
    }
    forall p | p in w'.companions
      ensures NotNewer(t', p, w'.companions[p])
    {
      assert NotNewer(w.tables, p, w.companions[p]);
      var k := w.companions[p].fileKey;
      assert DocumentOf(w.tables, k).revision == w.tables.files[k].revision && DocumentOf(t', k).revision == t'.files[k].revision;
    }
  }

  lemma {:induction false} NamesAgree(t: Tables, t': Tables, keys: seq<string>)
    requires forall k :: k in keys ==> k in t.collections && k in t'.collections && t'.collections[k] == t.collections[k]
    ensures Names(t', keys) == Names(t, keys)
  {
    if keys != [] {
      NamesAgree(t, t', keys[1..]);
    }
  }

  /** A file whose row, memberships and collection names are the same has the same document. */
  lemma DocumentSame(env: Env, t: Tables, t': Tables, key: string)
    requires key in t.files && key in t'.files && t'.files[key] == t.files[key] && SideTablesAgree(env, t, t.files[key])
    requires forall c :: Member(t.files[key].id, c) in t'.members <==> Member(t.files[key].id, c) in t.members
    requires forall c :: Member(t.files[key].id, c) in t.members ==> c in t'.collections && t'.collections[c] == t.collections[c]
    ensures DocumentOf(t', key) == DocumentOf(t, key)
  {
    var row := t.files[key];
    SameMembers(t, t', row);
    forall c | c in Ascending(MetadataOf(t, row).collections)
      ensures c in t.collections && c in t'.collections && t'.collections[c] == t.collections[c]
    {
      MemberOf(t, row, c);
    }
    NamesAgree(t, t', Ascending(MetadataOf(t, row).collections));
  }

  lemma MemberOf(t: Tables, row: Row, c: string)
    ensures c in MetadataOf(t, row).collections <==> Member(row.id, c) in t.members
  {
    if Member(row.id, c) in t.members {
      assert Member(row.id, c).collection in MetadataOf(t, row).collections;
    }
  }

  lemma SameMembers(t: Tables, t': Tables, row: Row)
    requires forall c :: Member(row.id, c) in t'.members <==> Member(row.id, c) in t.members
    ensures MetadataOf(t', row) == MetadataOf(t, row)
  {
    forall c
      ensures c in MetadataOf(t', row).collections <==> c in MetadataOf(t, row).collections
    {
      MemberOf(t, row, c);
      MemberOf(t', row, c);
    }
    assert MetadataOf(t', row).collections == MetadataOf(t, row).collections;
  }

  // ----- A change confined to one file

  /** Rows, side rows and marks of every other identifier are the same; collections only grow. */
  ghost predicate Confined(t: Tables, t': Tables, id: nat) {
    && (forall k :: k in t.files && t.files[k].id != id ==> k in t'.files && t'.files[k] == t.files[k])
    && (forall k :: k in t'.files && t'.files[k].id != id ==> k in t.files && t.files[k] == t'.files[k])
    && (forall i, w :: i != id ==> (Keyword(i, w) in t'.keywords <==> Keyword(i, w) in t.keywords))
    && (forall i, n :: i != id ==> (FieldName(i, n) in t'.fields <==> FieldName(i, n) in t.fields))
    && (forall i, n :: i != id && FieldName(i, n) in t.fields ==> t'.fields[FieldName(i, n)] == t.fields[FieldName(i, n)])
    && (forall i, c :: i != id ==> (Member(i, c) in t'.members <==> Member(i, c) in t.members))
    && (forall i :: i != id ==> (i in t'.text <==> i in t.text) && (i in t.text ==> t'.text[i] == t.text[i]))
    && (forall i :: i != id ==> (i in t'.pending <==> i in t.pending))
    && Grown(t.collections, t'.collections)
  }

  predicate Grown(a: map<string, string>, b: map<string, string>) {
    forall c :: c in a ==> c in b && b[c] == a[c]
  }

  lemma ConfinedTransitive(a: Tables, b: Tables, c: Tables, id: nat)
    requires Confined(a, b, id) && Confined(b, c, id)
    ensures Confined(a, c, id)
  {
  }

  lemma ConfinedRow(env: Env, t: Tables, t': Tables, id: nat, row: Row)
    requires Confined(t, t', id) && row.id != id && SideTablesAgree(env, t, row)
    ensures SideTablesAgree(env, t', row)
  {
    hide Terms, TextOf;
  }

  /** A confined change of one file that has a later revision and is marked. */
  lemma ConfinedEvolves(env: Env, t: Tables, t': Tables, key: string)
    requires Tidy(env, t) && key in t'.files && Confined(t, t', t'.files[key].id) && t'.files[key].id in t'.pending
    requires if key in t.files then t.files[key].id == t'.files[key].id && t'.files[key].revision > t.files[key].revision
      else t'.files[key].id == t.nextId
    requires forall k :: k in t'.files && k != key ==> t'.files[k].id != t'.files[key].id
    ensures Evolves(t, t', {key})
  {
    hide DocumentOf, SideTablesAgree, Confined;
    forall k | k in t.files && k != key
      ensures k in t'.files && DocumentOf(t', k) == DocumentOf(t, k) && Pending(t', k) == Pending(t, k)
    {
      ConfinedFile(env, t, t', key, k);
    }
    ConfinedKeys(t, t', key);
  }

  lemma ConfinedKeys(t: Tables, t': Tables, key: string)
    requires key in t'.files && Confined(t, t', t'.files[key].id)
    requires forall k :: k in t'.files && k != key ==> t'.files[k].id != t'.files[key].id
    ensures forall k :: k in t'.files && k != key ==> k in t.files
  {
  }

  lemma ConfinedFile(env: Env, t: Tables, t': Tables, key: string, k: string)
    requires Tidy(env, t) && key in t'.files && Confined(t, t', t'.files[key].id) && k in t.files && k != key
    requires if key in t.files then t.files[key].id == t'.files[key].id else t'.files[key].id == t.nextId
    ensures k in t'.files && DocumentOf(t', k) == DocumentOf(t, k) && Pending(t', k) == Pending(t, k)
  {
    hide Terms, TextOf, DocumentOf;
    assert t.files[k].id != t'.files[key].id;
    assert SideTablesAgree(env, t, t.files[k]);
    DocumentSame(env, t, t', k);
  }

  /** The annotated file agrees with its side tables. */
  lemma AnnotatedAgrees(env: Env, t: Tables, key: string, metadata: Metadata)
    requires key in t.files && metadata.collections <= t.collections.Keys
    ensures var t' := Annotated(env, t, key, metadata);
      && SideTablesAgree(env, t', t'.files[key]) && Confined(t, t', t.files[key].id)
      && t'.files[key].id == t.files[key].id && t'.files[key].id in t'.pending
      && t'.files[key].path == t.files[key].path && t'.files[key].revision == t.files[key].revision
  {
    var t' := Annotated(env, t, key, metadata);
    var id := t.files[key].id;
    AnnotatedFields(env, t, key, metadata);
    assert t'.files[key].stored == metadata.(collections := {});
    assert Terms(env, t'.files[key].stored) == Terms(env, metadata);
  }

  lemma AnnotatedFields(env: Env, t: Tables, key: string, metadata: Metadata)
    requires key in t.files
    ensures var t' := Annotated(env, t, key, metadata);
      var id := t.files[key].id;
      && (forall n :: FieldName(id, n) in t'.fields <==> n in metadata.fields)
      && (forall n :: n in metadata.fields ==> t'.fields[FieldName(id, n)] == metadata.fields[n])
      && (forall i, n :: i != id ==> (FieldName(i, n) in t'.fields <==> FieldName(i, n) in t.fields))
      && (forall i, n :: i != id && FieldName(i, n) in t.fields ==> t'.fields[FieldName(i, n)] == t.fields[FieldName(i, n)])
  {
    var id := t.files[key].id;
    forall n
      ensures FieldName(id, n) in FieldRows(id, metadata.fields) <==> n in metadata.fields
      ensures n in metadata.fields ==> FieldRows(id, metadata.fields)[FieldName(id, n)] == metadata.fields[n]
    {
    }
  }

  // ----- Every operation

  /** A new row or a later revision, annotated: the table part of an edit and of a registration. */
  lemma AnnotateKeeps(env: Env, t: Tables, placed: Tables, key: string, metadata: Metadata)
    requires Tidy(env, t) && key in placed.files && Annotate(env, placed, key, metadata).Some?
    requires Confined(t, placed, placed.files[key].id) && RowsApart(placed)
    requires if key in t.files then t.files[key].id == placed.files[key].id && placed.files[key].revision > t.files[key].revision
      else placed.files[key].id == t.nextId
    ensures var t' := Annotate(env, placed, key, metadata).value;
      Tidy(env, t') && Evolves(t, t', {key}) && Tidy(env, Bumped(t')) && Evolves(t, Bumped(t'), {key})
  {
    hide Confined, SideTablesAgree, Terms, TextOf, DocumentOf;
    var t' := Annotated(env, placed, key, metadata);
    AnnotatedAgrees(env, placed, key, metadata);
    ConfinedTransitive(t, placed, t', placed.files[key].id);
    AnnotatedApart(env, placed, key, metadata);
    ConfinedTidy(env, t, t', key);
    ConfinedEvolves(env, t, t', key);
    BumpedSame(env, t, t', {key});
  }

  lemma AnnotatedApart(env: Env, t: Tables, key: string, metadata: Metadata)
    requires key in t.files && RowsApart(t)
    ensures RowsApart(Annotated(env, t, key, metadata))
  {
    var t' := Annotated(env, t, key, metadata);
    forall k | k in t'.files
      ensures t'.files[k].id == t.files[k].id && t'.files[k].path == t.files[k].path
    {
    }
  }

  lemma ConfinedTidy(env: Env, t: Tables, t': Tables, key: string)
    requires Tidy(env, t) && RowsApart(t') && key in t'.files && Confined(t, t', t'.files[key].id)
    requires SideTablesAgree(env, t', t'.files[key])
    ensures Tidy(env, t')
  {
    hide SideTablesAgree;
    forall k | k in t'.files
      ensures SideTablesAgree(env, t', t'.files[k])
    {
      if k != key {
        assert t'.files[k].id != t'.files[key].id;
        assert k in t.files && t.files[k] == t'.files[k];
        ConfinedRow(env, t, t', t'.files[key].id, t.files[k]);
      }
    }
  }

  lemma BumpedSame(env: Env, t: Tables, t': Tables, touched: set<string>)
    requires Tidy(env, t') && Evolves(t, t', touched)
    ensures Tidy(env, Bumped(t')) && Evolves(t, Bumped(t'), touched)
  {
    forall k | k in t'.files
      ensures SideTablesAgree(env, Bumped(t'), t'.files[k]) && DocumentOf(Bumped(t'), k) == DocumentOf(t', k)
    {
      assert SideTablesAgree(env, t', t'.files[k]);
      DocumentSame(env, t', Bumped(t'), k);
    }
  }

  lemma UpdateKeeps(env: Env, w: World, key: string, expected: nat, input: Metadata)
    requires Inv(env, w) && UpdateMetadata(env, w, key, expected, input).Some?
    ensures Inv(env, UpdateMetadata(env, w, key, expected, input).value)
  {
    hide SideTablesAgree, Published, NoneNewer, Annotate, Evolves, Tidy, Confined, RowsApart;
    TidyApart(env, w.tables);
    var row := w.tables.files[key];
    var placed := w.tables.(files := w.tables.files[key := row.(revision := row.revision + 1)]);
    var metadata := env.normalize(input).value;
    PlacedConfined(w.tables, placed, key);
    AnnotateKeeps(env, w.tables, placed, key, metadata);
    EvolvesKeeps(w, Bumped(Annotate(env, placed, key, metadata).value), {key});
  }

  lemma TidyApart(env: Env, t: Tables)
    requires Tidy(env, t)
    ensures RowsApart(t)
    ensures forall k, l :: k in t.files && l in t.files && k != l ==>
      t.files[k].path != t.files[l].path && t.files[k].identity != t.files[l].identity
  {
    hide SideTablesAgree;
  }

  /** Replacing one row, identifier kept and no path or identity taken twice. */
  lemma PlacedConfined(t: Tables, placed: Tables, key: string)
    requires RowsApart(t) && key in t.files && placed.files.Keys == t.files.Keys
    requires placed == t.(files := placed.files) && placed.files[key].id == t.files[key].id
    requires forall k :: k in t.files && k != key ==> placed.files[k] == t.files[k]
    requires forall k :: k in t.files && k != key ==>
      t.files[k].path != placed.files[key].path && t.files[k].identity != placed.files[key].identity
    ensures Confined(t, placed, t.files[key].id) && RowsApart(placed)
  {
  }

  lemma CollectionsGrow(env: Env, t: Tables, t': Tables)
    requires Tidy(env, t) && t' == t.(collections := t'.collections, revision := t'.revision) && Grown(t.collections, t'.collections)
    ensures Tidy(env, t') && Evolves(t, t', {})
  {
    forall k | k in t.files
      ensures SideTablesAgree(env, t', t'.files[k]) && DocumentOf(t', k) == DocumentOf(t, k)
    {
      assert SideTablesAgree(env, t, t.files[k]);
      DocumentSame(env, t, t', k);
    }
  }

  lemma CreateKeeps(env: Env, w: World, key: string, name: string)
    requires Inv(env, w) && CreateCollection(env, w.tables, key, name).Some?
    ensures Inv(env, w.(tables := Bumped(CreateCollection(env, w.tables, key, name).value)))
  {
    hide Tidy, Published, NoneNewer, Evolves;
    var t' := Bumped(CreateCollection(env, w.tables, key, name).value);
    CollectionsGrow(env, w.tables, t');
    EvolvesKeeps(w, t', {});
  }

  ghost function MembersOf(t: Tables, collection: string): set<string> {
    set k | k in t.files && Belongs(t, t.files[k], collection)
  }

  lemma RenameKeeps(env: Env, w: World, collection: string, name: string)
    requires Inv(env, w) && RenameCollection(env, w.tables, collection, name).Some?
    ensures Inv(env, w.(tables := RenameCollection(env, w.tables, collection, name).value))
  {
    hide Tidy, Published, NoneNewer, Evolves;
    var t := w.tables;
    var next := Touched(t.(collections := t.collections[collection := name]), collection);
    RenamedEvolves(env, t, collection, name);
    BumpedSame(env, t, next, MembersOf(t, collection));
    EvolvesKeeps(w, Bumped(next), MembersOf(t, collection));
  }

  lemma RenamedEvolves(env: Env, t: Tables, collection: string, name: string)
    requires Tidy(env, t) && collection in t.collections
    ensures var next := Touched(t.(collections := t.collections[collection := name]), collection);
      Tidy(env, next) && Evolves(t, next, MembersOf(t, collection))
  {
    hide SideTablesAgree, DocumentOf, Pending, Belongs, Evolves, Touched, RowsApart;
    var renamed := t.(collections := t.collections[collection := name]);
    var next := Touched(renamed, collection);
    RenamedApart(t, renamed);
    TouchedApart(renamed, collection);
    TouchedMarks(renamed, collection);
    SameMarks(t, renamed, collection);
    forall k | k in t.files
      ensures SideTablesAgree(env, next, next.files[k])
      ensures !Belongs(t, t.files[k], collection) ==> DocumentOf(next, k) == DocumentOf(t, k)
    {
      RenamedFile(env, t, collection, name, k);
    }
    MembersEvolve(t, next, collection);
  }

  lemma RenamedApart(t: Tables, t': Tables)
    requires RowsApart(t) && t'.files == t.files && t'.nextId == t.nextId
    ensures RowsApart(t')
  {
  }

  lemma MembersEvolve(t: Tables, next: Tables, collection: string)
    requires next.files.Keys == t.files.Keys
    requires forall k :: k in t.files && Belongs(t, t.files[k], collection) ==>
      next.files[k].revision > t.files[k].revision && Pending(next, k)
    requires forall k :: k in t.files && !Belongs(t, t.files[k], collection) ==>
      DocumentOf(next, k) == DocumentOf(t, k) && Pending(next, k) == Pending(t, k)
    ensures Evolves(t, next, MembersOf(t, collection))
  {
    hide DocumentOf, Pending, Belongs;
  }

  lemma SameMarks(t: Tables, t': Tables, collection: string)
    requires t' == t.(collections := t'.collections)
    ensures forall k :: k in t.files ==> Pending(t', k) == Pending(t, k) && Belongs(t', t.files[k], collection) == Belongs(t, t.files[k], collection)
  {
  }

  lemma RenamedFile(env: Env, t: Tables, collection: string, name: string, k: string)
    requires Tidy(env, t) && collection in t.collections && k in t.files
    ensures var next := Touched(t.(collections := t.collections[collection := name]), collection);
      && SideTablesAgree(env, next, next.files[k])
      && (!Belongs(t, t.files[k], collection) ==> DocumentOf(next, k) == DocumentOf(t, k))
  {
    hide Terms, TextOf, DocumentOf;
    var next := Touched(t.(collections := t.collections[collection := name]), collection);
    assert SideTablesAgree(env, t, t.files[k]);
    RowAgrees(env, t, next, t.files[k], next.files[k]);
    if !Belongs(t, t.files[k], collection) {
      DocumentSame(env, t, next, k);
    }
  }

  lemma TouchedApart(t: Tables, collection: string)
    requires RowsApart(t)
    ensures RowsApart(Touched(t, collection)) && Touched(t, collection).files.Keys == t.files.Keys
  {
    var next := Touched(t, collection);
    forall k | k in t.files
      ensures next.files[k].id == t.files[k].id && next.files[k].path == t.files[k].path
    {
    }
  }

  /** Exactly the members' files get a later revision and a mark. */
  lemma TouchedMarks(t: Tables, collection: string)
    requires RowsApart(t)
    ensures forall k :: k in t.files && Belongs(t, t.files[k], collection) ==>
      Touched(t, collection).files[k].revision > t.files[k].revision && Pending(Touched(t, collection), k)
    ensures forall k :: k in t.files && !Belongs(t, t.files[k], collection) ==>
      Touched(t, collection).files[k] == t.files[k] && (Pending(Touched(t, collection), k) <==> Pending(t, k))
  {
    var next := Touched(t, collection);
    forall k | k in t.files && !Belongs(t, t.files[k], collection)
      ensures Pending(next, k) <==> Pending(t, k)
    {
      forall l | l in t.files && Belongs(t, t.files[l], collection)
        ensures t.files[l].id != t.files[k].id
      {
      }
    }
  }

  lemma RemoveKeeps(env: Env, w: World, collection: string)
    requires Inv(env, w) && RemoveCollection(w.tables, collection).Some?
    ensures Inv(env, w.(tables := RemoveCollection(w.tables, collection).value))
  {
    hide Tidy, Published, NoneNewer, Evolves;
    var t := w.tables;
    var touched := Touched(t, collection);
    var next := touched.(collections := touched.collections - {collection}, members := set m | m in touched.members && m.collection != collection);
    RemovedEvolves(env, t, collection, next);
    BumpedSame(env, t, next, MembersOf(t, collection));
    EvolvesKeeps(w, Bumped(next), MembersOf(t, collection));
  }

  lemma RemovedEvolves(env: Env, t: Tables, collection: string, next: Tables)
    requires Tidy(env, t) && collection in t.collections
    requires var touched := Touched(t, collection);
      next == touched.(collections := touched.collections - {collection}, members := set m | m in touched.members && m.collection != collection)
    ensures Tidy(env, next) && Evolves(t, next, MembersOf(t, collection))
  {
    hide SideTablesAgree, DocumentOf, Pending, Belongs, Evolves, Touched, RowsApart;
    TouchedApart(t, collection);
    RenamedApart(Touched(t, collection), next);
    TouchedMarks(t, collection);
    RemovedMarks(t, collection, next);
    forall k | k in t.files
      ensures SideTablesAgree(env, next, next.files[k])
      ensures !Belongs(t, t.files[k], collection) ==> DocumentOf(next, k) == DocumentOf(t, k)
    {
      RemovedFile(env, t, collection, next, k);
    }
    MembersEvolve(t, next, collection);
  }

  lemma RemovedMarks(t: Tables, collection: string, next: Tables)
    requires next.files == Touched(t, collection).files && next.pending == Touched(t, collection).pending
    ensures forall k :: k in t.files ==> Pending(next, k) == Pending(Touched(t, collection), k)
  {
  }

  lemma RemovedFile(env: Env, t: Tables, collection: string, next: Tables, k: string)
    requires Tidy(env, t) && collection in t.collections && k in t.files
    requires var touched := Touched(t, collection);
      next == touched.(collections := touched.collections - {collection}, members := set m | m in touched.members && m.collection != collection)
    ensures SideTablesAgree(env, next, next.files[k])
    ensures !Belongs(t, t.files[k], collection) ==> DocumentOf(next, k) == DocumentOf(t, k)
  {
    hide Terms, TextOf, DocumentOf;
    assert SideTablesAgree(env, t, t.files[k]);
    RemovedMembers(t, next, collection);
    RowAgrees(env, t, next, t.files[k], next.files[k]);
    if !Belongs(t, t.files[k], collection) {
      DocumentSame(env, t, next, k);
    }
  }

  lemma RemovedMembers(t: Tables, next: Tables, collection: string)
    requires next.members == set m | m in t.members && m.collection != collection
    ensures forall i, c :: Member(i, c) in next.members <==> Member(i, c) in t.members && c != collection
  {
  }

  /** A row changed at most in its revision, with its side rows and the names of its memberships kept. */
  lemma RowAgrees(env: Env, t: Tables, next: Tables, row: Row, row': Row)
    requires SideTablesAgree(env, t, row) && row' == row.(revision := row'.revision)
    requires next.keywords == t.keywords && next.fields == t.fields && next.text == t.text
    requires forall c :: Member(row.id, c) in next.members ==> Member(row.id, c) in t.members && c in next.collections
    ensures SideTablesAgree(env, next, row')
  {
    hide Terms, TextOf;
  }
}
