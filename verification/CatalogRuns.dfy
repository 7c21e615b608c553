/** Registration, publication and whole runs of the catalog, crashes included. */
module CatalogRuns {
  import opened Wrappers
  import opened CatalogModel
  import opened CatalogInvariants

  // ----- Registration

  /** Restoring a companion's collections only adds rows to their table. */
  lemma {:induction false} RestoreGrows(env: Env, t: Tables, names: seq<Named>)
    requires RestoreAll(env, t, names).Some?
    ensures var r := RestoreAll(env, t, names).value.tables;
      r == t.(collections := r.collections) && Grown(t.collections, r.collections)
  {
    hide RestoreOne;
    if names != [] {
      RestoreGrows(env, t, names[..|names| - 1]);
      RestoreOneGrows(env, RestoreAll(env, t, names[..|names| - 1]).value.tables, names[|names| - 1]);
    }
  }

  lemma RestoreOneGrows(env: Env, t: Tables, c: Named)
    requires RestoreOne(env, t, c).Some?
    ensures var r := RestoreOne(env, t, c).value.tables;
      r == t.(collections := r.collections) && Grown(t.collections, r.collections)
  {
  }

  ghost predicate OnlyCollections(t: Tables, t': Tables) {
    t' == t.(collections := t'.collections) && Grown(t.collections, t'.collections)
  }

  lemma AdoptGrows(env: Env, t: Tables, companion: Document)
    requires Adopt(env, t, companion).Some?
    ensures OnlyCollections(t, Adopt(env, t, companion).value.tables)
  {
    RestoreGrows(env, t, companion.collections);
  }

  /** What a registration is about to write, given that no companion is ahead of the tables. */
  lemma EntryFacts(env: Env, w: World, path: string, given: Option<Metadata>, existing: Option<string>, generated: string, e: Entry)
    requires NoneNewer(w) && path in w.disk && IsExisting(w, path, existing) && generated !in w.tables.files
    requires EntryOf(env, w, path, given, existing, generated) == Some(e)
    ensures OnlyCollections(w.tables, e.tables)
    ensures if existing.Some? then e.key == existing.value && e.revision == w.tables.files[e.key].revision + 1 else e.key == generated
  {
    hide Adopt, DocumentOf;
    if path in w.companions {
      var companion := w.companions[path];
      assert NotNewer(w.tables, path, companion);
      if Adopt(env, w.tables, companion).Some? {
        AdoptGrows(env, w.tables, companion);
      }
    }
  }

  lemma PlacedFacts(env: Env, w: World, path: string, existing: Option<string>, e: Entry)
    requires RowsApart(w.tables) && path in w.disk && IsExisting(w, path, existing) && OnlyCollections(w.tables, e.tables)
    requires forall k :: k in e.tables.files && k != e.key ==> e.tables.files[k].identity != w.disk[path].identity
    requires if existing.Some? then e.key == existing.value && e.revision == w.tables.files[e.key].revision + 1 else e.key !in w.tables.files
    ensures var placed := Placed(w, e, existing, path);
      && e.key in placed.files && RowsApart(placed) && Confined(w.tables, placed, placed.files[e.key].id)
      && placed.revision == w.tables.revision
      && if e.key in w.tables.files then
           w.tables.files[e.key].id == placed.files[e.key].id && placed.files[e.key].revision > w.tables.files[e.key].revision
         else placed.files[e.key].id == w.tables.nextId
  {
    hide RowsApart, Confined;
    PathFree(w, path, existing);
    if existing.Some? {
      SameRows(w.tables, w.tables.(collections := e.tables.collections));
      PlacedConfined(w.tables.(collections := e.tables.collections), Placed(w, e, existing, path), e.key);
      MoreCollections(w.tables, w.tables.(collections := e.tables.collections), Placed(w, e, existing, path), w.tables.files[e.key].id);
    } else {
      InsertedConfined(w.tables, e.tables, e.key, Placed(w, e, existing, path));
    }
  }

  lemma PathFree(w: World, path: string, existing: Option<string>)
    requires RowsApart(w.tables) && path in w.disk && IsExisting(w, path, existing)
    ensures forall k :: k in w.tables.files && existing != Some(k) ==> w.tables.files[k].path != path
  {
  }

  lemma SameRows(t: Tables, t': Tables)
    requires RowsApart(t) && t'.files == t.files && t'.nextId == t.nextId
    ensures RowsApart(t')
  {
  }

  lemma MoreCollections(t: Tables, grown: Tables, placed: Tables, id: nat)
    requires OnlyCollections(t, grown) && Confined(grown, placed, id) && placed.collections == grown.collections
    ensures Confined(t, placed, id)
  {
  }

  /** A new row under a new identifier, an unused path and an unused identity. */
  lemma InsertedConfined(t: Tables, grown: Tables, key: string, placed: Tables)
    requires RowsApart(t) && OnlyCollections(t, grown) && key !in t.files
    requires placed == grown.(files := placed.files, nextId := t.nextId + 1)
    requires key in placed.files && placed.files == t.files[key := placed.files[key]] && placed.files[key].id == t.nextId
    requires forall k :: k in t.files ==>
      t.files[k].path != placed.files[key].path && t.files[k].identity != placed.files[key].identity
    ensures RowsApart(placed) && Confined(t, placed, t.nextId)
  {
  }

  lemma RegisterKeeps(env: Env, w: World, path: string, given: Option<Metadata>, generated: string, r: Registered)
    requires Inv(env, w) && Register(env, w, path, given, generated, r)
    ensures Inv(env, w.(tables := r.tables))
    ensures r.tables.revision == w.tables.revision && (!r.mutated ==> OnlyCollections(w.tables, r.tables))
  {
    hide Tidy, Published, Evolves, NoneNewer, Placed, Annotate, EntryOf, Confined, RowsApart, Unchanged, OnlyCollections;
    var existing: Option<string> :| IsExisting(w, path, existing) && RegisterAs(env, w, path, given, generated, existing, r);
    var e := EntryOf(env, w, path, given, existing, generated).value;
    EntryFacts(env, w, path, given, existing, generated, e);
    if existing.Some? && Unchanged(w, e, path) {
      CollectionsOnlyKeeps(env, w, e.tables);
    } else {
      TidyApart(env, w.tables);
      PlacedFacts(env, w, path, existing, e);
      var placed := Placed(w, e, existing, path);
      AnnotateKeeps(env, w.tables, placed, e.key, e.metadata);
      EvolvesKeeps(w, r.tables, {e.key});
      AnnotateRevision(env, placed, e.key, e.metadata);
    }
  }

  lemma AnnotateRevision(env: Env, t: Tables, key: string, metadata: Metadata)
    requires key in t.files && Annotate(env, t, key, metadata).Some?
    ensures Annotate(env, t, key, metadata).value.revision == t.revision
  {
  }

  lemma CollectionsOnlyKeeps(env: Env, w: World, t': Tables)
    requires Inv(env, w) && OnlyCollections(w.tables, t')
    ensures Inv(env, w.(tables := t')) && t'.revision == w.tables.revision
  {
    hide Tidy, Published, Evolves, NoneNewer;
    CollectionsGrow(env, w.tables, t');
    EvolvesKeeps(w, t', {});
  }

  // ----- Publication

  /** A document does not depend on the marks. */
  lemma MarksOnly(env: Env, t: Tables, t': Tables)
    requires Tidy(env, t) && t' == t.(pending := t'.pending)
    ensures Tidy(env, t') && forall k :: k in t.files ==> DocumentOf(t', k) == DocumentOf(t, k)
  {
    forall k | k in t.files
      ensures SideTablesAgree(env, t', t'.files[k]) && DocumentOf(t', k) == DocumentOf(t, k)
    {
      assert SideTablesAgree(env, t, t.files[k]);
      DocumentSame(env, t, t', k);
    }
  }

  lemma RenamedKeeps(env: Env, w: World, key: string)
    requires Inv(env, w) && key in w.tables.files && Pending(w.tables, key)
    ensures Inv(env, Renamed(w, key))
  {
    hide DocumentOf, Tidy;
    TidyApart(env, w.tables);
    DocumentHeader(w.tables, key);
    var w' := Renamed(w, key);
    forall p | p in w'.companions
      ensures NotNewer(w'.tables, p, w'.companions[p])
    {
      if p != w.tables.files[key].path {
        assert NotNewer(w.tables, p, w.companions[p]);
      }
    }
  }

  lemma DocumentHeader(t: Tables, key: string)
    requires key in t.files
    ensures DocumentOf(t, key).fileKey == key && DocumentOf(t, key).path == t.files[key].path
    ensures DocumentOf(t, key).revision == t.files[key].revision
  {
  }

  lemma CommittedKeeps(env: Env, w: World, key: string)
    requires Inv(env, w) && key in w.tables.files
    requires w.tables.files[key].path in w.companions && w.companions[w.tables.files[key].path] == DocumentOf(w.tables, key)
    ensures Inv(env, Committed(w, key))
  {
    hide DocumentOf, Tidy, RowsApart;
    TidyApart(env, w.tables);
    var w' := Committed(w, key);
    MarksOnly(env, w.tables, w'.tables);
    IdsApart(env, w.tables);
    forall k | k in w'.tables.files && !Pending(w'.tables, k)
      ensures w'.tables.files[k].path in w'.companions && w'.companions[w'.tables.files[k].path] == DocumentOf(w'.tables, k)
    {
      if k != key {
        assert !Pending(w.tables, k);
      }
    }
    forall p | p in w'.companions
      ensures NotNewer(w'.tables, p, w'.companions[p])
    {
      assert NotNewer(w.tables, p, w.companions[p]);
    }
  }

  lemma IdsApart(env: Env, t: Tables)
    requires Tidy(env, t)
    ensures forall k, l :: k in t.files && l in t.files && t.files[k].id == t.files[l].id ==> k == l
  {
    hide SideTablesAgree;
  }

  lemma PublishKeeps(env: Env, w: World, key: string, crash: bool)
    requires Inv(env, w) && Publish(env, w, key, crash).Some?
    ensures Inv(env, Publish(env, w, key, crash).value)
  {
    hide Inv, Publishable, DocumentOf;
    if Pending(w.tables, key) {
      RenamedKeeps(env, w, key);
      if !crash {
        CommittedKeeps(env, Renamed(w, key), key);
      }
    }
  }

  /** Running a publication again after a crash between rename and commit gives what the
      undisturbed one would have given. */
  lemma PublishAgain(env: Env, w: World, key: string)
    requires key in w.tables.files && Publish(env, w, key, true).Some?
    ensures Publish(env, Publish(env, w, key, true).value, key, false) == Publish(env, w, key, false)
    ensures Publish(env, w, key, false).Some? && !Pending(Publish(env, w, key, false).value.tables, key)
  {
    if Pending(w.tables, key) {
      DocumentHeader(w.tables, key);
      var w1 := Renamed(w, key);
      assert w1.companions[w.tables.files[key].path := DocumentOf(w.tables, key)] == w1.companions;
      assert Renamed(w1, key) == w1;
    }
  }

  // ----- Runs

  datatype Request = Request(path: string, given: Option<Metadata>, generated: string)

  datatype Event =
    | RegisterFiles(requests: seq<Request>)
    | Update(key: string, expected: nat, metadata: Metadata)
    | PublishMetadata(fileKey: string, crash: bool)
    | Create(collection: string, name: string)
    | Rename(renamed: string, newName: string)
    | Remove(removed: string)
    | FilesChange(disk: map<string, Physical>)

  /** The registrations of one batch, in one transaction. */
  ghost predicate Batch(env: Env, w: World, requests: seq<Request>, t: Tables, mutated: bool)
    decreases |requests|, 0
  {
    if requests == [] then t == w.tables && !mutated
    else exists earlier: Tables, before: bool, r: Registered :: BatchStep(env, w, requests, earlier, before, r, t, mutated)
  }

  ghost predicate BatchStep(env: Env, w: World, requests: seq<Request>, earlier: Tables, before: bool, r: Registered, t: Tables, mutated: bool)
    requires requests != []
    decreases |requests| - 1, 1
  {
    var last := requests[|requests| - 1];
    && Batch(env, w, requests[..|requests| - 1], earlier, before)
    && Register(env, w.(tables := earlier), last.path, last.given, last.generated, r)
    && t == r.tables && mutated == (before || r.mutated)
  }

  ghost predicate Step(env: Env, w: World, e: Event, w': World) {
    match e
    case RegisterFiles(requests) =>
      exists t: Tables, mutated: bool :: Batch(env, w, requests, t, mutated) && w' == w.(tables := if mutated then Bumped(t) else t)
    case Update(key, expected, metadata) => UpdateMetadata(env, w, key, expected, metadata) == Some(w')
    case PublishMetadata(key, crash) => Publish(env, w, key, crash) == Some(w')
    case Create(key, name) =>
      CreateCollection(env, w.tables, key, name).Some? && w' == w.(tables := Bumped(CreateCollection(env, w.tables, key, name).value))
    case Rename(key, name) =>
      RenameCollection(env, w.tables, key, name).Some? && w' == w.(tables := RenameCollection(env, w.tables, key, name).value)
    case Remove(key) => RemoveCollection(w.tables, key).Some? && w' == w.(tables := RemoveCollection(w.tables, key).value)
    case FilesChange(disk) => w' == w.(disk := disk)
  }

  ghost predicate Run(env: Env, states: seq<World>, events: seq<Event>) {
    && |states| == |events| + 1
    && states[0].tables == EmptyTables && states[0].companions == map[]
    && forall i :: 0 <= i < |events| ==> Step(env, states[i], events[i], states[i + 1])
  }

  ghost predicate SameSearch(t: Tables, t': Tables) {
    t'.files == t.files && t'.keywords == t.keywords && t'.fields == t.fields && t'.members == t.members && t'.text == t.text
  }

  lemma {:induction false} BatchKeeps(env: Env, w: World, requests: seq<Request>, t: Tables, mutated: bool)
    requires Inv(env, w) && Batch(env, w, requests, t, mutated)
    ensures Inv(env, w.(tables := t)) && t.revision == w.tables.revision && (!mutated ==> SameSearch(w.tables, t))
    decreases |requests|
  {
    hide Inv, Register;
    if requests == [] {
      assert w.(tables := t) == w;
    } else {
      var last := requests[|requests| - 1];
      var earlier: Tables, before: bool, r: Registered :| BatchStep(env, w, requests, earlier, before, r, t, mutated);
      BatchKeeps(env, w, requests[..|requests| - 1], earlier, before);
      RegisterKeeps(env, w.(tables := earlier), last.path, last.given, last.generated, r);
    }
  }

  // ----- A batch has one outcome

  lemma ExistingUnique(w: World, path: string, a: Option<string>, b: Option<string>)
    requires RowsApart(w.tables) && path in w.disk && IsExisting(w, path, a) && IsExisting(w, path, b)
    ensures a == b
  {
  }

  lemma RegisterUnique(env: Env, w: World, path: string, given: Option<Metadata>, generated: string, r: Registered, r': Registered)
    requires RowsApart(w.tables) && Register(env, w, path, given, generated, r) && Register(env, w, path, given, generated, r')
    ensures r == r'
  {
    hide RowsApart, IsExisting, EntryOf, Unchanged, Annotate, Placed;
    var a: Option<string> :| IsExisting(w, path, a) && RegisterAs(env, w, path, given, generated, a, r);
    var b: Option<string> :| IsExisting(w, path, b) && RegisterAs(env, w, path, given, generated, b, r');
    ExistingUnique(w, path, a, b);
  }

  lemma {:induction false} BatchUnique(env: Env, w: World, requests: seq<Request>, t: Tables, mutated: bool, t': Tables, mutated': bool)
    requires Inv(env, w) && Batch(env, w, requests, t, mutated) && Batch(env, w, requests, t', mutated')
    ensures t == t' && mutated == mutated'
    decreases |requests|
  {
    hide Inv, Register;
    if requests != [] {
      var last := requests[|requests| - 1];
      var e: Tables, m: bool, r: Registered :| BatchStep(env, w, requests, e, m, r, t, mutated);
      var e': Tables, m': bool, r': Registered :| BatchStep(env, w, requests, e', m', r', t', mutated');
      BatchUnique(env, w, requests[..|requests| - 1], e, m, e', m');
      BatchKeeps(env, w, requests[..|requests| - 1], e, m);
      InvApart(env, w.(tables := e));
      RegisterUnique(env, w.(tables := e), last.path, last.given, last.generated, r, r');
    }
  }

  lemma InvApart(env: Env, w: World)
    requires Inv(env, w)
    ensures RowsApart(w.tables)
  {
    hide Published, NoneNewer, SideTablesAgree;
  }

  /** A batch that went through registered each of its requests in the tables the earlier ones left. */
  lemma {:induction false} BatchReached(env: Env, w: World, requests: seq<Request>, n: nat, t: Tables, mutated: bool)
    returns (earlier: Tables, before: bool, r: Registered)
    requires n < |requests| && Batch(env, w, requests, t, mutated)
    ensures Batch(env, w, requests[..n], earlier, before)
    ensures Register(env, w.(tables := earlier), requests[n].path, requests[n].given, requests[n].generated, r)
    decreases |requests|
  {
    hide Register;
    earlier, before, r :| BatchStep(env, w, requests, earlier, before, r, t, mutated);
    if n < |requests| - 1 {
      var shorter := requests[..|requests| - 1];
      assert shorter[..n] == requests[..n] && shorter[n] == requests[n];
      earlier, before, r := BatchReached(env, w, shorter, n, earlier, before);
    }
  }

  /** No registration of the request can be made in these tables. */
  ghost predicate Refuses(env: Env, w: World, request: Request) {
    forall r: Registered :: !Register(env, w, request.path, request.given, request.generated, r)
  }

  /** One refused request refuses the whole batch. */
  lemma BatchRefused(env: Env, w: World, requests: seq<Request>, n: nat, t: Tables, mutated: bool)
    requires Inv(env, w) && n < |requests| && Batch(env, w, requests[..n], t, mutated)
    requires Refuses(env, w.(tables := t), requests[n])
    ensures forall w': World :: !Step(env, w, RegisterFiles(requests), w')
  {
    hide Inv, Register;
    forall w': World
      ensures !Step(env, w, RegisterFiles(requests), w')
    {
      if Step(env, w, RegisterFiles(requests), w') {
        var all: Tables, m: bool :| Batch(env, w, requests, all, m);
        var earlier, before, r := BatchReached(env, w, requests, n, all, m);
        BatchUnique(env, w, requests[..n], t, mutated, earlier, before);
        assert false;
      }
    }
  }

  lemma BumpKeeps(env: Env, w: World)
    requires Inv(env, w)
    ensures Inv(env, w.(tables := Bumped(w.tables)))
  {
    hide Tidy, Published, NoneNewer, Evolves;
    CollectionsGrow(env, w.tables, Bumped(w.tables));
    EvolvesKeeps(w, Bumped(w.tables), {});
  }

  lemma StepKeeps(env: Env, w: World, e: Event, w': World)
    requires Inv(env, w) && Step(env, w, e, w')
    ensures Inv(env, w')
  {
    hide Inv, Batch, UpdateMetadata, Publish, CreateCollection, RenameCollection, RemoveCollection;
    match e
    case RegisterFiles(requests) =>
      var t: Tables, mutated: bool :| Batch(env, w, requests, t, mutated) && w' == w.(tables := if mutated then Bumped(t) else t);
      BatchKeeps(env, w, requests, t, mutated);
      BumpKeeps(env, w.(tables := t));
    case Update(key, expected, metadata) => UpdateKeeps(env, w, key, expected, metadata);
    case PublishMetadata(key, crash) => PublishKeeps(env, w, key, crash);
    case Create(key, name) => CreateKeeps(env, w, key, name);
    case Rename(key, name) => RenameKeeps(env, w, key, name);
    case Remove(key) => RemoveKeeps(env, w, key);
    case FilesChange(disk) => DiskKeeps(env, w, disk);
  }

  lemma DiskKeeps(env: Env, w: World, disk: map<string, Physical>)
    requires Inv(env, w)
    ensures Inv(env, w.(disk := disk))
  {
    hide DocumentOf, Tidy;
    forall p | p in w.companions
      ensures NotNewer(w.tables, p, w.companions[p])
    {
    }
  }

  /** In every run, whatever is refused or crashes: side tables agree, unmarked files have current
      companions, and no companion is newer than its row. */
  lemma {:induction false} RunKeeps(env: Env, states: seq<World>, events: seq<Event>, i: nat)
    requires Run(env, states, events) && i < |states|
    ensures Inv(env, states[i])
  {
    hide Inv, Step;
    if i == 0 {
      StartOk(env, states[0]);
    } else {
      RunKeeps(env, states, events, i - 1);
      StepKeeps(env, states[i - 1], events[i - 1], states[i]);
    }
  }

  lemma StartOk(env: Env, w: World)
    requires w.tables == EmptyTables && w.companions == map[]
    ensures Inv(env, w)
  {
  }

  // ----- The revision in a search cursor

  lemma StepVersion(env: Env, w: World, e: Event, w': World)
    requires Inv(env, w) && Step(env, w, e, w')
    ensures w.tables.revision <= w'.tables.revision
    ensures w.tables.revision == w'.tables.revision ==> SameSearch(w.tables, w'.tables)
  {
    hide Inv, Batch, UpdateMetadata, Publish, CreateCollection, RenameCollection, RemoveCollection;
    match e
    case RegisterFiles(requests) =>
      var t: Tables, mutated: bool :| Batch(env, w, requests, t, mutated) && w' == w.(tables := if mutated then Bumped(t) else t);
      BatchKeeps(env, w, requests, t, mutated);
    case Update(key, expected, metadata) => UpdateBumps(env, w, key, expected, metadata);
    case PublishMetadata(key, crash) => PublishSame(env, w, key, crash);
    case Create(key, name) => CreateSame(env, w.tables, key, name);
    case Rename(key, name) => RenameBumps(env, w.tables, key, name);
    case Remove(key) => RemoveBumps(w.tables, key);
    case FilesChange(disk) =>
  }

  lemma UpdateBumps(env: Env, w: World, key: string, expected: nat, metadata: Metadata)
    requires UpdateMetadata(env, w, key, expected, metadata).Some?
    ensures UpdateMetadata(env, w, key, expected, metadata).value.tables.revision == w.tables.revision + 1
  {
    hide Annotate;
    var row := w.tables.files[key];
    AnnotateRevision(env, w.tables.(files := w.tables.files[key := row.(revision := row.revision + 1)]), key, env.normalize(metadata).value);
  }

  lemma PublishSame(env: Env, w: World, key: string, crash: bool)
    requires Publish(env, w, key, crash).Some?
    ensures var t' := Publish(env, w, key, crash).value.tables; t'.revision == w.tables.revision && SameSearch(w.tables, t')
  {
    hide Publishable, DocumentOf;
  }

  lemma CreateSame(env: Env, t: Tables, key: string, name: string)
    requires CreateCollection(env, t, key, name).Some?
    ensures CreateCollection(env, t, key, name).value.revision == t.revision
  {
  }

  lemma RenameBumps(env: Env, t: Tables, key: string, name: string)
    requires RenameCollection(env, t, key, name).Some?
    ensures RenameCollection(env, t, key, name).value.revision == t.revision + 1
  {
    hide DocumentOf, Belongs;
  }

  lemma RemoveBumps(t: Tables, key: string)
    requires RemoveCollection(t, key).Some?
    ensures RemoveCollection(t, key).value.revision == t.revision + 1
  {
    hide Belongs;
  }

  /** Two states of a run with the same catalog revision hold the same searched rows. */
  lemma {:induction false} VersionDeterminesRows(env: Env, states: seq<World>, events: seq<Event>, i: nat, j: nat)
    requires Run(env, states, events) && i <= j < |states|
    ensures states[i].tables.revision <= states[j].tables.revision
    ensures states[i].tables.revision == states[j].tables.revision ==> SameSearch(states[i].tables, states[j].tables)
    decreases j - i
  {
    hide Step, Inv;
    if i < j {
      VersionDeterminesRows(env, states, events, i, j - 1);
      RunKeeps(env, states, events, j - 1);
      StepVersion(env, states[j - 1], events[j - 1], states[j]);
    }
  }
}
