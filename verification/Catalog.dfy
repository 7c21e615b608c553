/** The catalog as the object its callers hold. A transaction works on a copy of the tables that
    replaces them only when nothing was refused. */
module Catalog {
  import opened Wrappers
  import opened CatalogModel
  import opened CatalogInvariants
  import opened CatalogRuns
  import opened Keyset

  /** `Refused` names what is wrong with the row or the companion; `Failed` is staging or renaming. */
  datatype Publication = AlreadyCurrent | Published | Refused | Failed | Crashed

  class FileCatalog {
    const env: Env
    var tables: Tables
    var companions: map<string, Document>
    var disk: map<string, Physical>

    function Contents(): World
      reads this
    {
      World(tables, companions, disk)
    }

    ghost predicate Valid()
      reads this
    {
      Inv(env, Contents())
    }

    constructor (env: Env, disk: map<string, Physical>)
      ensures Valid() && Contents() == World(EmptyTables, map[], disk)
    {
      this.env, this.disk := env, disk;
      tables, companions := EmptyTables, map[];
    }

    /** One pending companion. The process may stop after the rename and before the commit. */
    method Publish(key: string) returns (result: Publication)
      requires Valid()
      modifies `tables, `companions
      ensures Valid()
      ensures result == Refused <==> CatalogModel.Publish(env, old(Contents()), key, false) == None
      ensures result == AlreadyCurrent <==> key in old(tables).files && !Pending(old(tables), key)
      ensures result == Refused || result == Failed ==> Contents() == old(Contents())
      ensures result == Crashed ==> CatalogModel.Publish(env, old(Contents()), key, true) == Some(Contents()) && tables == old(tables)
      ensures result == AlreadyCurrent ==> Contents() == old(Contents())
      ensures result == AlreadyCurrent || result == Published ==> CatalogModel.Publish(env, old(Contents()), key, false) == Some(Contents())
      ensures result == Published ==> key in tables.files && !Pending(tables, key)
    {
      hide Inv, DocumentOf;
      if key !in tables.files {
        return Refused;
      }
      var row := tables.files[key];
      if row.id !in tables.pending {
        return AlreadyCurrent;
      }
      if row.path !in disk || disk[row.path].version != row.version {
        return Refused;
      }
      if row.path in companions {
        var previous := companions[row.path];
        if previous.fileKey != key {
          if previous.fileKey !in tables.files || tables.files[previous.fileKey].path == row.path
            || env.normalize(previous.metadata) != Some(MetadataOf(tables, row))
            || previous.revision > tables.files[previous.fileKey].revision {
            return Refused;
          }
        } else if previous.revision > row.revision {
          return Refused;
        }
      }
      var document := DocumentOf(tables, key);
      if env.size(document) > MAXIMUM_METADATA {
        return Refused;
      }
      if * {
        return Failed;
      }
      PublishKeeps(env, Contents(), key, true);
      PublishKeeps(env, Contents(), key, false);
      companions := companions[row.path := document];
      if * {
        return Crashed;
      }
      tables := tables.(pending := tables.pending - {row.id});
      return Published;
    }

    /** `publishMetadata`: the first pending files by identifier; the first failure ends the call. */
    method PublishMetadata(limit: nat) returns (accepted: bool, published: nat, complete: bool, ghost ids: seq<nat>)
      requires Valid()
      modifies `tables, `companions
      ensures accepted <==> 1 <= limit <= MAXIMUM_PAGE
      ensures !accepted ==> Contents() == old(Contents()) && published == 0 && ids == []
      ensures Valid() && (accepted ==> FirstOf(PendingIds(old(tables)), limit, ids)) && published <= |ids|
      ensures tables == old(tables).(pending := tables.pending)
      ensures tables.pending == old(tables).pending - (set i | i in ids[..published])
      ensures complete ==> published == |ids|
    {
      hide Inv, Publishable;
      if limit == 0 || limit > MAXIMUM_PAGE {
        return false, 0, false, [];
      }
      var first := FirstKeys(PendingIds(tables), limit);
      ids, published := first, 0;
      while published < |first|
        invariant Valid() && published <= |first|
        invariant tables == old(tables).(pending := tables.pending)
        invariant tables.pending == old(tables).pending - (set i | i in first[..published])
      {
        PendingFirst(old(tables), limit, first, published);
        var key: string :| key in tables.files && tables.files[key].id == first[published];
        assert first[..published + 1] == first[..published] + [first[published]];
        var result := Publish(key);
        if result != Published {
          return true, published, false, ids;
        }
        published := published + 1;
      }
      return true, published, true, ids;
    }

    method UpdateMetadata(key: string, expected: nat, input: Metadata) returns (ok: bool)
      requires Valid()
      modifies `tables
      ensures Valid()
      ensures CatalogModel.UpdateMetadata(env, old(Contents()), key, expected, input) == if ok then Some(Contents()) else None
      ensures !ok ==> tables == old(tables)
    {
      hide Inv, Annotate;
      var metadata := env.normalize(input);
      if metadata == None || key !in tables.files {
        return false;
      }
      var row := tables.files[key];
      if row.revision != expected || row.path !in disk || disk[row.path].version != row.version {
        return false;
      }
      var next := WriteAnnotations(env, tables.(files := tables.files[key := row.(revision := row.revision + 1)]), key, metadata.value);
      if next == None {
        return false;
      }
      UpdateKeeps(env, Contents(), key, expected, input);
      tables := Bumped(next.value);
      return true;
    }

    method CreateCollection(key: string, name: string) returns (ok: bool)
      requires Valid()
      modifies `tables
      ensures Valid()
      ensures ok <==> CatalogModel.CreateCollection(env, old(tables), key, name).Some?
      ensures if ok then tables == Bumped(CatalogModel.CreateCollection(env, old(tables), key, name).value) else tables == old(tables)
    {
      hide Inv;
      var next := CatalogModel.CreateCollection(env, tables, key, name);
      if next == None {
        return false;
      }
      CreateKeeps(env, Contents(), key, name);
      tables := Bumped(next.value);
      return true;
    }

    method RenameCollection(collection: string, name: string) returns (ok: bool)
      requires Valid()
      modifies `tables
      ensures Valid()
      ensures CatalogModel.RenameCollection(env, old(tables), collection, name) == if ok then Some(tables) else None
      ensures !ok ==> tables == old(tables)
    {
      hide Inv, DocumentOf;
      if collection !in tables.collections || FoldedTaken(env, tables, collection, name) {
        return false;
      }
      var next := Touched(tables.(collections := tables.collections[collection := name]), collection);
      var rest := next.files.Keys;
      while rest != {}
        invariant rest <= next.files.Keys
        invariant forall k :: k in next.files && k !in rest && Belongs(next, next.files[k], collection) ==> env.size(DocumentOf(next, k)) <= MAXIMUM_METADATA
        decreases |rest|
      {
        var key :| key in rest;
        if Belongs(next, next.files[key], collection) && env.size(DocumentOf(next, key)) > MAXIMUM_METADATA {
          return false;
        }
        rest := rest - {key};
      }
      RenameKeeps(env, Contents(), collection, name);
      tables := Bumped(next);
      return true;
    }

    method RemoveCollection(collection: string) returns (ok: bool)
      requires Valid()
      modifies `tables
      ensures Valid()
      ensures CatalogModel.RemoveCollection(old(tables), collection) == if ok then Some(tables) else None
      ensures !ok ==> tables == old(tables)
    {
      hide Inv;
      var next := CatalogModel.RemoveCollection(tables, collection);
      if next == None {
        return false;
      }
      RemoveKeeps(env, Contents(), collection);
      tables := next.value;
      return true;
    }

    /** A batch in one transaction, with one new revision if anything was written. */
    method RegisterFiles(requests: seq<Request>) returns (ok: bool)
      requires Valid()
      modifies `tables
      ensures Valid()
      ensures ok ==> Step(env, old(Contents()), Event.RegisterFiles(requests), Contents())
      ensures !ok ==> tables == old(tables) && forall w': World :: !Step(env, old(Contents()), Event.RegisterFiles(requests), w')
    {
      hide Inv, Register;
      var next, mutated, n := tables, false, 0;
      ghost var w := Contents();
      while n < |requests|
        invariant 0 <= n <= |requests| && Batch(env, w, requests[..n], next, mutated) && Contents() == w
      {
        BatchKeeps(env, w, requests[..n], next, mutated);
        InvApart(env, w.(tables := next));
        var registered := Registration(env, w, World(next, companions, disk), requests[n]);
        if registered == None {
          BatchRefused(env, w, requests, n, next, mutated);
          return false;
        }
        BatchNext(env, w, requests, n, next, mutated, registered.value);
        next, mutated, n := registered.value.tables, mutated || registered.value.mutated, n + 1;
      }
      assert requests[..n] == requests;
      BatchKeeps(env, w, requests, next, mutated);
      BumpKeeps(env, w.(tables := next));
      tables := if mutated then Bumped(next) else next;
      return true;
    }
  }

  /** The join of the pending table with the files. */
  function PendingIds(t: Tables): set<nat> {
    set k | k in t.files && Pending(t, k) :: t.files[k].id
  }

  lemma PendingFirst(t: Tables, limit: nat, first: seq<nat>, n: nat)
    requires FirstOf(PendingIds(t), limit, first) && n < |first|
    ensures exists key :: key in t.files && t.files[key].id == first[n]
    ensures first[n] in t.pending && first[n] !in first[..n]
  {
    assert first[n] in first;
  }

  lemma BatchNext(env: Env, w: World, requests: seq<Request>, n: nat, t: Tables, mutated: bool, r: Registered)
    requires n < |requests| && Batch(env, w, requests[..n], t, mutated)
    requires Register(env, w.(tables := t), requests[n].path, requests[n].given, requests[n].generated, r)
    ensures Batch(env, w, requests[..n + 1], r.tables, mutated || r.mutated)
  {
    hide Register;
    var more := requests[..n + 1];
    assert more[..|more| - 1] == requests[..n] && more[|more| - 1] == requests[n];
    assert BatchStep(env, w, more, t, mutated, r, r.tables, mutated || r.mutated);
  }

  /** `registration` in the tables of the running transaction. */
  method Registration(env: Env, ghost before: World, w: World, request: Request) returns (result: Option<Registered>)
    requires w == before.(tables := w.tables) && RowsApart(w.tables)
    ensures result.Some? ==> Register(env, before.(tables := w.tables), request.path, request.given, request.generated, result.value)
    ensures result.None? ==> Refuses(env, before.(tables := w.tables), request)
  {
    hide Annotate, RowsApart;
    var path, generated := request.path, request.generated;
    if path !in w.disk || generated in w.tables.files || generated in (set p | p in w.companions :: w.companions[p].fileKey) {
      return None;
    }
    GeneratedIsNew(w, generated);
    var existing: Option<string> := None;
    if k :| k in w.tables.files && w.tables.files[k].path == path {
      existing := Some(k);
    } else if k :| k in w.tables.files && w.tables.files[k].identity == w.disk[path].identity {
      if w.tables.files[k].path in w.disk {
        StillThere(w, path, k);
        return None;
      }
      existing := Some(k);
    }
    var entry := PrepareEntry(env, w, path, request.given, existing, generated);
    if entry == None || (existing.Some? && existing.value !in entry.value.tables.files) {
      RegistersAs(env, w, request, existing);
      return None;
    }
    var e := entry.value;
    if existing.Some? && e.key in w.tables.files && Unchanged(w, e, path) {
      assert RegisterAs(env, w, path, request.given, generated, existing, Registered(e.tables, e.key, false));
      return Some(Registered(e.tables, e.key, false));
    }
    if (existing.None? && e.key in e.tables.files)
      || (exists k :: k in e.tables.files && k != e.key && e.tables.files[k].identity == w.disk[path].identity) {
      RegistersAs(env, w, request, existing);
      return None;
    }
    var next := WriteAnnotations(env, Placed(w, e, existing, path), e.key, e.metadata);
    if next == None {
      RegistersAs(env, w, request, existing);
      return None;
    }
    assert RegisterAs(env, w, path, request.given, generated, existing, Registered(next.value, e.key, true));
    return Some(Registered(next.value, e.key, true));
  }

  /** A file that is registered and still on disk is not registered again under another path. */
  lemma StillThere(w: World, path: string, k: string)
    requires RowsApart(w.tables) && path in w.disk && k in w.tables.files
    requires w.tables.files[k].identity == w.disk[path].identity && w.tables.files[k].path in w.disk
    requires forall l :: l in w.tables.files ==> w.tables.files[l].path != path
    ensures forall existing: Option<string> :: !IsExisting(w, path, existing)
  {
  }

  /** There is only one file the path can be registered as. */
  lemma RegistersAs(env: Env, w: World, request: Request, existing: Option<string>)
    requires RowsApart(w.tables) && request.path in w.disk && IsExisting(w, request.path, existing)
    ensures forall r: Registered :: Register(env, w, request.path, request.given, request.generated, r) ==>
      RegisterAs(env, w, request.path, request.given, request.generated, existing, r)
  {
    hide RowsApart, IsExisting, RegisterAs;
    forall r: Registered | Register(env, w, request.path, request.given, request.generated, r)
      ensures RegisterAs(env, w, request.path, request.given, request.generated, existing, r)
    {
      var other: Option<string> :| IsExisting(w, request.path, other)
        && RegisterAs(env, w, request.path, request.given, request.generated, other, r);
      ExistingUnique(w, request.path, existing, other);
    }
  }

  lemma GeneratedIsNew(w: World, generated: string)
    requires generated !in (set p | p in w.companions :: w.companions[p].fileKey)
    ensures forall p :: p in w.companions ==> w.companions[p].fileKey != generated
  {
    forall p | p in w.companions
      ensures w.companions[p].fileKey != generated
    {
      assert w.companions[p].fileKey in (set q | q in w.companions :: w.companions[q].fileKey);
    }
  }

  /** Key, revision and metadata of what is registered: given, adopted from a companion, or kept. */
  method PrepareEntry(env: Env, w: World, path: string, given: Option<Metadata>, existing: Option<string>, generated: string)
    returns (entry: Option<Entry>)
    requires existing.Some? ==> existing.value in w.tables.files
    ensures entry == EntryOf(env, w, path, given, existing, generated)
  {
    hide Adopt;
    var t := w.tables;
    var key := existing.GetOr(generated);
    var revision := if existing.Some? then t.files[key].revision + 1 else 1;
    if given.Some? {
      var metadata := env.normalize(given.value);
      return if metadata == None then None else Some(Entry(t, key, revision, metadata.value));
    }
    if existing.Some? {
      if path in w.companions && w.companions[path].fileKey == key && w.companions[path].revision >= t.files[key].revision {
        var adopted := RestoreCollections(env, t, w.companions[path]);
        return if adopted == None then None else Some(Entry(adopted.value.tables, key, revision, adopted.value.metadata));
      }
      return Some(Entry(t, key, revision, MetadataOf(t, t.files[key])));
    }
    if path in w.companions {
      var companion := w.companions[path];
      var adopted := RestoreCollections(env, t, companion);
      if adopted == None {
        return None;
      }
      if companion.fileKey in t.files && t.files[companion.fileKey].path != path {
        return Some(Entry(adopted.value.tables, generated, 1, adopted.value.metadata));
      }
      return Some(Entry(adopted.value.tables, companion.fileKey, if companion.revision < 1 then 1 else companion.revision, adopted.value.metadata));
    }
    return Some(Entry(t, key, revision, NoMetadata));
  }

  /** `restoreCollections`: membership by membership. */
  method RestoreCollections(env: Env, t: Tables, companion: Document) returns (adopted: Option<Adopted>)
    ensures adopted == Adopt(env, t, companion)
  {
    hide RestoreOne;
    var parsed := env.normalize(companion.metadata);
    if parsed == None {
      return None;
    }
    var names := companion.collections;
    var restored, n := Restored(t, map[]), 0;
    while n < |names|
      invariant 0 <= n <= |names| && RestoreAll(env, t, names[..n]) == Some(restored)
    {
      assert names[..n + 1][..n] == names[..n];
      var one := RestoreOne(env, restored.tables, names[n]);
      if one == None {
        RestoreStops(env, t, names, n + 1);
        return None;
      }
      restored, n := Restored(one.value.tables, restored.remap + one.value.remap), n + 1;
    }
    assert names[..n] == names;
    if !(parsed.value.collections <= restored.remap.Keys) {
      return None;
    }
    var metadata := env.normalize(parsed.value.(collections := set c | c in parsed.value.collections :: restored.remap[c]));
    return if metadata == None then None else Some(Adopted(restored.tables, metadata.value));
  }

  lemma {:induction false} RestoreStops(env: Env, t: Tables, names: seq<Named>, n: nat)
    requires n <= |names| && RestoreAll(env, t, names[..n]) == None
    ensures RestoreAll(env, t, names) == None
    decreases |names| - n
  {
    hide RestoreOne;
    if n == |names| {
      assert names[..n] == names;
    } else {
      assert names[..n + 1][..n] == names[..n];
      RestoreStops(env, t, names, n + 1);
    }
  }

  /** `annotations`: the columns, then each side table emptied and filled again. */
  method WriteAnnotations(env: Env, t: Tables, key: string, metadata: Metadata) returns (next: Option<Tables>)
    requires key in t.files
    ensures next == Annotate(env, t, key, metadata)
  {
    var row := t.files[key];
    var id := row.id;
    if !(metadata.collections <= t.collections.Keys) {
      return None;
    }
    var keywords := InsertKeywords(env, (set k | k in t.keywords && k.id != id), id, metadata.keywords);
    var fields := InsertFields((map f | f in t.fields && f.id != id :: t.fields[f]), id, metadata.fields);
    var members := InsertMembers((set m | m in t.members && m.id != id), id, metadata.collections);
    KeywordRows(env, id, metadata);
    var written := t.(
      files := t.files[key := row.(rating := metadata.rating, color := metadata.color, title := metadata.title,
        stored := metadata.(collections := {}))],
      keywords := keywords, fields := fields, members := members,
      text := t.text[id := TextOf(row.path, metadata)],
      pending := t.pending + {id});
    assert written == Annotated(env, t, key, metadata);
    if env.size(DocumentOf(written, key)) > MAXIMUM_METADATA {
      return None;
    }
    return Some(written);
  }

  lemma KeywordRows(env: Env, id: nat, metadata: Metadata)
    ensures (set w | w in metadata.keywords :: Keyword(id, env.fold(w))) == set w | w in Terms(env, metadata) :: Keyword(id, w)
  {
    forall w | w in metadata.keywords
      ensures Keyword(id, env.fold(w)) in (set v | v in Terms(env, metadata) :: Keyword(id, v))
    {
      assert env.fold(w) in Terms(env, metadata);
    }
  }

  method InsertKeywords(env: Env, start: set<Keyword>, id: nat, words: seq<string>) returns (rows: set<Keyword>)
    ensures rows == start + set w | w in words :: Keyword(id, env.fold(w))
  {
    rows := start;
    var i := 0;
    while i < |words|
      invariant 0 <= i <= |words|
      invariant rows == start + set w | w in words[..i] :: Keyword(id, env.fold(w))
    {
      assert words[..i + 1] == words[..i] + [words[i]];
      rows := rows + {Keyword(id, env.fold(words[i]))};
      i := i + 1;
    }
    assert words[..i] == words;
  }

  method InsertFields(start: map<FieldName, string>, id: nat, fields: map<string, string>) returns (rows: map<FieldName, string>)
    ensures rows == start + FieldRows(id, fields)
  {
    rows := start;
    var rest := fields.Keys;
    while rest != {}
      invariant rest <= fields.Keys
      invariant rows == start + (map f | f in FieldRows(id, fields) && f.name !in rest :: fields[f.name])
      decreases |rest|
    {
      var name :| name in rest;
      FieldNext(start, rows, id, fields, rest, name);
      rows, rest := rows[FieldName(id, name) := fields[name]], rest - {name};
    }
  }

  lemma FieldNext(start: map<FieldName, string>, rows: map<FieldName, string>, id: nat, fields: map<string, string>, rest: set<string>, name: string)
    requires name in rest && rest <= fields.Keys
    requires rows == start + (map f | f in FieldRows(id, fields) && f.name !in rest :: fields[f.name])
    ensures rows[FieldName(id, name) := fields[name]] == start + (map f | f in FieldRows(id, fields) && f.name !in rest - {name} :: fields[f.name])
  {
    assert FieldName(id, name) in FieldRows(id, fields);
  }

  method InsertMembers(start: set<Member>, id: nat, collections: set<string>) returns (rows: set<Member>)
    ensures rows == start + set c | c in collections :: Member(id, c)
  {
    rows := start;
    var rest := collections;
    while rest != {}
      invariant rest <= collections
      invariant rows == start + set c | c in collections && c !in rest :: Member(id, c)
      decreases |rest|
    {
      var c :| c in rest;
      rows, rest := rows + {Member(id, c)}, rest - {c};
    }
  }
}
