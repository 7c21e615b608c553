/** The central promise of the ontology: a batch that commits leaves every statement,
    every saved query and the class hierarchy valid, although only the rows near the
    edits are checked again. */
module OntologyConsistency {
  import opened Orders
  import opened Wrappers
  import opened Graph
  import opened OntologyModel
  import opened OntologyBatch

  // ----- What the touched sets are known to cover

  ghost predicate Grown(old_: Package, p: Package) {
    && p.files == old_.files
    && old_.tables.classes.Keys <= p.tables.classes.Keys
    && old_.tables.properties.Keys <= p.tables.properties.Keys
    && old_.tables.nodes.Keys <= p.tables.nodes.Keys
  }

  ghost predicate TypesTracked(old_: Tables, b: Batch) {
    forall e :: (e in old_.types <==> e in b.p.tables.types) || e.0 in b.nodes
  }

  ghost predicate PropertiesTracked(old_: Tables, b: Batch) {
    forall k :: k in b.p.tables.properties && k !in b.properties ==>
      k in old_.properties && old_.properties[k] == b.p.tables.properties[k]
  }

  ghost predicate HierarchyTracked(old_: Tables, b: Batch) {
    !b.hierarchyChanged ==> old_.parents <= b.p.tables.parents
  }

  ghost predicate StatementsTracked(old_: Tables, b: Batch) {
    forall s :: s in b.p.tables.statements && s !in old_.statements ==> s.subject in b.nodes
  }

  ghost predicate DirectoriesTracked(b: Batch) {
    forall path :: path in b.p.tables.directories ==>
      QueryTracked(b, b.p.tables.directories[path].query)
  }

  ghost predicate QueryTracked(b: Batch, q: Query) {
    QueryOk(b.p, q) || exists k :: k in b.properties && k in QueryProperties(q)
  }

  /** The batch's tables differ from the tables it began with only where its touched
      sets say so. */
  ghost predicate Tracks(old_: Package, b: Batch) {
    && Structured(b.p)
    && Grown(old_, b.p)
    && TypesTracked(old_.tables, b)
    && PropertiesTracked(old_.tables, b)
    && HierarchyTracked(old_.tables, b)
    && StatementsTracked(old_.tables, b)
    && DirectoriesTracked(b)
  }

  // ----- Structure is kept by every edit

  lemma {:induction false} WithoutElements(statements: seq<Statement>, s: Statement)
    requires Distinct(statements)
    ensures Distinct(Without(statements, s))
    ensures forall u :: u in Without(statements, s) <==> u in statements && u != s
  {
    if statements != [] {
      var last := |statements| - 1;
      assert statements == statements[..last] + [statements[last]];
      WithoutElements(statements[..last], s);
      assert statements[last] !in statements[..last];
    }
  }

  lemma ClassStructured(p: Package, c: Change, size: Document -> nat)
    requires c.DefineClass? && Structured(p) && Admits(p, c, size)
    ensures Structured(p.(tables := Effect(p.tables, c)))
  {
    var t, t' := p.tables, Effect(p.tables, c);
    assert HierarchyStructured(t') by {
      if Effective(t, c) && t'.parents != t.parents {
        assert forall e :: e in t'.parents - t.parents ==> e.0 == c.key;
        AddedEdgesOffCycle(t.parents, t'.parents);
        assert forall e :: e in t'.parents ==> e in t.parents || (e.0 == c.key && e.1 in c.parents);
      }
    }
  }

  lemma WithNodeStructured(p: Package, r: Resource)
    requires Structured(p) && ResourceExists(p, r, false)
    ensures Structured(p.(tables := WithNode(p.tables, r)))
    ensures NodeKey(r) in WithNode(p.tables, r).nodes
  {
    var p' := p.(tables := WithNode(p.tables, r));
    forall k | k in p'.tables.nodes ensures NodeStructured(p'.files, k, p'.tables.nodes[k]) {
      if k in p.tables.nodes {
        assert p'.tables.nodes[k] == p.tables.nodes[k];
      }
    }
  }

  lemma StatementsReplaced(p: Package, statements: seq<Statement>)
    requires Structured(p) && Distinct(statements)
    requires forall s :: s in statements ==> StatementStructured(p.tables, s)
    ensures Structured(p.(tables := p.tables.(statements := statements)))
  {
  }

  lemma AssertStructured(p: Package, c: Change, size: Document -> nat)
    requires c.Assert? && Structured(p) && Admits(p, c, size)
    ensures Structured(p.(tables := Effect(p.tables, c)))
  {
    var s := Statement(NodeKey(c.subject), c.propertyKey, c.value);
    if c.present {
      WithNodeStructured(p, c.subject);
      var p1 := p.(tables := WithNode(p.tables, c.subject));
      if c.value.ResourceValue? {
        WithNodeStructured(p1, c.value.target);
        p1 := p1.(tables := WithNode(p1.tables, c.value.target));
      }
      if s !in p1.tables.statements {
        StatementsReplaced(p1, p1.tables.statements + [s]);
      }
    } else {
      WithoutElements(p.tables.statements, s);
      StatementsReplaced(p, Without(p.tables.statements, s));
    }
  }

  lemma DirectoryStructured(p: Package, c: Change, size: Document -> nat)
    requires c.DefineDirectory? || c.RemoveDirectory?
    requires Structured(p) && Admits(p, c, size)
    ensures Structured(p.(tables := Effect(p.tables, c)))
  {
    var t, t' := p.tables, Effect(p.tables, c);
    if Effective(t, c) || c.RemoveDirectory? {
      var q := if c.DefineDirectory? then Some(c.directory) else None;
      DirectoryRowsReplaced(t, t', c.path, q);
    }
  }

  lemma DirectoryRowsReplaced(t: Tables, t': Tables, path: string, d: Option<Directory>)
    requires DirectoryRowsStructured(t.directories, t.directoryProperties, t.properties.Keys)
    requires t'.properties.Keys == t.properties.Keys
    requires d.Some? ==> QueryProperties(d.value.query) <= t.properties.Keys
    requires t'.directories == if d.Some? then t.directories[path := d.value] else t.directories - {path}
    requires t'.directoryProperties == (set e | e in t.directoryProperties && e.0 != path) +
      if d.Some? then set k | k in QueryProperties(d.value.query) :: (path, k) else {}
    ensures DirectoryRowsStructured(t'.directories, t'.directoryProperties, t'.properties.Keys)
  {
  }

  lemma EffectStructured(p: Package, c: Change, size: Document -> nat)
    requires Structured(p) && Admits(p, c, size)
    ensures Structured(p.(tables := Effect(p.tables, c)))
  {
    match c
    case DefineClass(_, _, _, _) =>
      ClassStructured(p, c, size);
    case DefineProperty(_, _) =>
    case DefineEntity(_, _, _) =>
    case Classify(r, _, _) =>
      WithNodeStructured(p, r);
    case Assert(_, _, _, _) =>
      AssertStructured(p, c, size);
    case DefineDirectory(_, _) =>
      DirectoryStructured(p, c, size);
    case RemoveDirectory(_) =>
      DirectoryStructured(p, c, size);
  }

  // ----- The touched sets cover every difference, edit by edit

  lemma EffectGrows(old_: Package, p: Package, c: Change)
    requires Grown(old_, p)
    ensures Grown(old_, p.(tables := Effect(p.tables, c)))
  {
  }

  lemma PropertyKept(t: Tables, c: Change, k: string)
    requires k in t.properties && k !in TouchedProperties(t, c)
    ensures k in Effect(t, c).properties && Effect(t, c).properties[k] == t.properties[k]
  {
    if c.DefineProperty? && c.key == k {
      assert PropertyDocument(t.properties[k]) == PropertyDocument(c.property);
    }
  }

  lemma ConditionKept(p: Package, c: Change, d: Condition)
    requires ConditionOk(p, d) && d.property !in TouchedProperties(p.tables, c)
    ensures ConditionOk(p.(tables := Effect(p.tables, c)), d)
  {
    hide Effect, TouchedProperties;
    PropertyKept(p.tables, c, d.property);
    EffectGrows(p, p, c);
  }

  /** A query that was valid stays valid unless the edit redefines one of its properties. */
  lemma QueryKept(b: Batch, c: Change, revision: nat, size: Document -> nat, q: Query)
    requires QueryTracked(b, q)
    ensures QueryTracked(Step(b, c, revision, size), q)
  {
    hide Effect, TouchedProperties, ConditionOk;
    var b' := Step(b, c, revision, size);
    if QueryOk(b.p, q) && !(exists k :: k in b'.properties && k in QueryProperties(q)) {
      EffectGrows(b.p, b.p, c);
      forall d | d in q.conditions ensures ConditionOk(b'.p, d) {
        assert d.property in QueryProperties(q);
        ConditionKept(b.p, c, d);
        JournalKeepsCondition(b.p.(tables := Effect(b.p.tables, c)), b'.p.tables.journal, d);
      }
    }
  }

  lemma JournalKeepsCondition(p: Package, journal: seq<Event>, d: Condition)
    requires ConditionOk(p, d)
    ensures ConditionOk(p.(tables := p.tables.(journal := journal)), d)
  {
  }

  lemma StepTracksDirectories(b: Batch, c: Change, revision: nat, size: Document -> nat)
    requires DirectoriesTracked(b) && Admits(b.p, c, size)
    ensures DirectoriesTracked(Step(b, c, revision, size))
  {
    var b' := Step(b, c, revision, size);
    forall path | path in b'.p.tables.directories
      ensures QueryTracked(b', b'.p.tables.directories[path].query)
    {
      var q := b'.p.tables.directories[path].query;
      assert QueryTracked(b, q);
      QueryKept(b, c, revision, size, q);
    }
  }

  lemma StepTracksStatements(old_: Tables, b: Batch, c: Change, revision: nat, size: Document -> nat)
    requires StatementsTracked(old_, b) && Distinct(b.p.tables.statements)
    ensures StatementsTracked(old_, Step(b, c, revision, size))
  {
    if c.Assert? {
      WithoutElements(b.p.tables.statements, Statement(NodeKey(c.subject), c.propertyKey, c.value));
    }
  }

  lemma StepTracksHierarchy(old_: Tables, b: Batch, c: Change, revision: nat, size: Document -> nat)
    requires HierarchyTracked(old_, b) && HierarchyStructured(b.p.tables)
    ensures HierarchyTracked(old_, Step(b, c, revision, size))
  {
  }

  lemma StepTracks(old_: Package, b: Batch, c: Change, revision: nat, size: Document -> nat)
    requires Tracks(old_, b) && Admits(b.p, c, size)
    ensures Tracks(old_, Step(b, c, revision, size))
  {
    EffectStructured(b.p, c, size);
    EffectGrows(old_, b.p, c);
    StepTracksTypes(old_.tables, b, c, revision, size);
    StepTracksProperties(old_.tables, b, c, revision, size);
    StepTracksHierarchy(old_.tables, b, c, revision, size);
    StepTracksStatements(old_.tables, b, c, revision, size);
    StepTracksDirectories(b, c, revision, size);
    JournalKeepsStructure(b.p, Effect(b.p.tables, c), b.p.tables.journal + Journal(b.p.tables, c, revision));
  }

  lemma StepTracksTypes(old_: Tables, b: Batch, c: Change, revision: nat, size: Document -> nat)
    requires TypesTracked(old_, b)
    ensures TypesTracked(old_, Step(b, c, revision, size))
  {
  }

  lemma StepTracksProperties(old_: Tables, b: Batch, c: Change, revision: nat, size: Document -> nat)
    requires PropertiesTracked(old_, b)
    ensures PropertiesTracked(old_, Step(b, c, revision, size))
  {
  }

  lemma JournalKeepsStructure(p: Package, t: Tables, journal: seq<Event>)
    requires Structured(p.(tables := t))
    ensures Structured(p.(tables := t.(journal := journal)))
  {
  }

  lemma {:induction false} RunTracks(p: Package, changes: seq<Change>, revision: nat, size: Document -> nat)
    requires Consistent(p) && Run(p, changes, revision, size).Some?
    ensures Tracks(p, Run(p, changes, revision, size).value)
  {
    if changes != [] {
      var last := |changes| - 1;
      RunTracks(p, changes[..last], revision, size);
      StepTracks(p, Run(p, changes[..last], revision, size).value, changes[last], revision, size);
    }
  }

  // ----- The local check is as good as checking everything

  lemma TypeKept(old_: Tables, b: Batch, node: string, classKey: string)
    requires TypesTracked(old_, b) && HierarchyTracked(old_, b)
    requires !b.hierarchyChanged && node !in b.nodes && HasType(old_, node, classKey)
    ensures HasType(b.p.tables, node, classKey)
  {
    if classKey != "" {
      var c :| (node, c) in old_.types && Reaches(old_.parents, c, classKey);
      assert (node, c).0 !in b.nodes;
      ReachesMonotone(old_.parents, b.p.tables.parents, c, classKey);
      assert (node, c) in b.p.tables.types;
    }
  }

  lemma RelationEdgeOk(t: Tables, property: string, e: (string, string))
    requires e in Relation(t.statements, property)
    requires property in t.properties && t.properties[property].acyclic
    requires forall s :: s in t.statements && s.property == property && s.subject == e.0 ==> StatementOk(t, s)
    ensures !Reaches(Relation(t.statements, property), e.1, e.0)
  {
    var s :| s in t.statements && s.property == property && s.value.ResourceValue?
      && (s.subject, NodeKey(s.value.target)) == e;
  }

  /** The statements of an acyclic property form an acyclic graph. */
  lemma RelationAcyclic(t: Tables, property: string)
    requires StatementsOk(t) && property in t.properties && t.properties[property].acyclic
    ensures Acyclic(Relation(t.statements, property))
  {
    var edges := Relation(t.statements, property);
    forall k, c | (k, c) in edges ensures !Reaches(edges, c, k) {
      RelationEdgeOk(t, property, (k, c));
    }
  }

  lemma UnselectedAcyclic(old_: Package, b: Batch, s: Statement)
    requires Consistent(old_) && Tracks(old_, b) && SelectedStatementsOk(b)
    requires s in b.p.tables.statements && !Selected(b, s)
    requires b.p.tables.properties[s.property].acyclic && s.value.ResourceValue?
    ensures !Reaches(Relation(b.p.tables.statements, s.property), NodeKey(s.value.target), s.subject)
  {
    var t := b.p.tables;
    var before, after := Relation(old_.tables.statements, s.property), Relation(t.statements, s.property);
    RelationAcyclic(old_.tables, s.property);
    forall e | e in after - before ensures !Reaches(after, e.1, e.0) {
      var added :| added in t.statements && added.property == s.property && added.value.ResourceValue?
        && (added.subject, NodeKey(added.value.target)) == e;
      assert added !in old_.tables.statements;
      assert StatementOk(t, added);
    }
    if OnCycle(after, s.subject) {
      NewCycleUsesAddedEdge(before, after, s.subject);
    }
    assert (s.subject, NodeKey(s.value.target)) in after;
  }

  lemma UnselectedStatementOk(old_: Package, b: Batch, s: Statement)
    requires Consistent(old_) && Tracks(old_, b) && SelectedStatementsOk(b)
    requires s in b.p.tables.statements && !Selected(b, s)
    ensures StatementOk(b.p.tables, s)
  {
    var t := b.p.tables;
    assert s in old_.tables.statements;
    assert StatementStructured(t, s);
    assert StatementOk(old_.tables, s);
    var p := t.properties[s.property];
    assert p == old_.tables.properties[s.property];
    TypeKept(old_.tables, b, s.subject, p.domain);
    if s.value.ResourceValue? {
      TypeKept(old_.tables, b, NodeKey(s.value.target), p.range);
    }
    if p.single {
      forall u | u in t.statements && u.subject == s.subject && u.property == s.property ensures u == s {
        assert u in old_.tables.statements;
      }
    }
    if p.acyclic {
      UnselectedAcyclic(old_, b, s);
    }
  }

  lemma UnaffectedDirectoryOk(b: Batch, path: string)
    requires Structured(b.p) && DirectoriesTracked(b)
    requires path in b.p.tables.directories && !AffectedDirectory(b, path)
    ensures QueryOk(b.p, b.p.tables.directories[path].query)
  {
    var q := b.p.tables.directories[path].query;
    assert QueryTracked(b, q);
    forall k | k in QueryProperties(q) ensures k !in b.properties {
      assert (path, k) in b.p.tables.directoryProperties;
    }
  }

  /** On a batch that began consistent, re-checking the selected statements and the
      affected directories decides exactly whether everything is consistent. */
  lemma LocalCheckIsComplete(old_: Package, b: Batch)
    requires Consistent(old_) && Tracks(old_, b)
    ensures LocallyValid(b) <==> Consistent(b.p)
  {
    if LocallyValid(b) {
      forall s | s in b.p.tables.statements ensures StatementOk(b.p.tables, s) {
        if !Selected(b, s) {
          UnselectedStatementOk(old_, b, s);
        }
      }
      forall path | path in b.p.tables.directories ensures QueryOk(b.p, b.p.tables.directories[path].query) {
        if !AffectedDirectory(b, path) {
          UnaffectedDirectoryOk(b, path);
        }
      }
    }
  }

  lemma EmptyConsistent(files: Files)
    ensures Consistent(Package(files, EMPTY))
  {
    var e: set<(string, string)> := {};
    assert forall k: string :: !OnCycle(e, k);
  }

  // ----- A batch without effect

  lemma IneffectiveAssert(p: Package, c: Change)
    requires c.Assert? && Structured(p) && !Effective(p.tables, c)
    ensures Effect(p.tables, c) == p.tables
  {
    var s := Statement(NodeKey(c.subject), c.propertyKey, c.value);
    if c.present {
      assert StatementStructured(p.tables, s);
    } else {
      WithoutAbsent(p.tables.statements, s);
    }
  }

  lemma IneffectiveEffect(p: Package, c: Change)
    requires Structured(p) && !Effective(p.tables, c)
    ensures Effect(p.tables, c) == p.tables
  {
    var t := p.tables;
    match c
    case DefineProperty(key, property) =>
      assert t.properties[key := property] == t.properties;
    case DefineEntity(key, title, description) =>
      var node := NodeKey(Entity(key));
      assert t.nodes[node := EntityNode(title, description)] == t.nodes;
    case Classify(r, classKey, present) =>
      assert present ==> t.types + {(NodeKey(r), classKey)} == t.types;
      assert !present ==> t.types - {(NodeKey(r), classKey)} == t.types;
    case Assert(_, _, _, _) =>
      IneffectiveAssert(p, c);
    case RemoveDirectory(path) =>
      assert t.directories - {path} == t.directories;
      assert (set e | e in t.directoryProperties && e.0 != path) == t.directoryProperties;
    case _ =>
  }

  lemma IneffectiveStep(b: Batch, c: Change, revision: nat, size: Document -> nat)
    requires Structured(b.p) && !Effective(b.p.tables, c)
    ensures Step(b, c, revision, size) == b
  {
    IneffectiveEffect(b.p, c);
  }

  lemma {:induction false} WithoutAbsent(statements: seq<Statement>, s: Statement)
    requires s !in statements
    ensures Without(statements, s) == statements
  {
    if statements != [] {
      var last := |statements| - 1;
      WithoutAbsent(statements[..last], s);
      assert statements == statements[..last] + [statements[last]];
    }
  }

  lemma {:induction false} NoEventsNoChange(p: Package, changes: seq<Change>, revision: nat, size: Document -> nat)
    requires Consistent(p)
    requires Run(p, changes, revision, size).Some? && Run(p, changes, revision, size).value.events == 0
    ensures Run(p, changes, revision, size).value == Start(p)
  {
    if changes != [] {
      var last := |changes| - 1;
      var b := Run(p, changes[..last], revision, size).value;
      NoEventsNoChange(p, changes[..last], revision, size);
      IneffectiveStep(b, changes[last], revision, size);
    }
  }

  // ----- Main results

  /** A committed batch leaves a consistent package. */
  lemma ApplyKeepsConsistency(p: Package, changes: seq<Change>, expected: nat, session: string, size: Document -> nat)
    requires Consistent(p) && Apply(p, changes, expected, session, size).Some?
    ensures Consistent(Apply(p, changes, expected, session, size).value)
  {
    hide Consistent, Tracks, LocallyValid, Run, MayBegin;
    var b := Run(p, changes, expected + 1, size).value;
    if b.events == 0 {
      NoEventsNoChange(p, changes, expected + 1, size);
    } else {
      RunTracks(p, changes, expected + 1, size);
      LocalCheckIsComplete(p, b);
      BookkeepingKeepsConsistency(b.p, expected + 1, b.p.tables.commits + [Commit(expected + 1, session)]);
    }
  }

  lemma BookkeepingKeepsConsistency(p: Package, revision: nat, commits: seq<Commit>)
    requires Consistent(p)
    ensures Consistent(p.(tables := p.tables.(revision := revision, commits := commits)))
  {
    var t' := p.tables.(revision := revision, commits := commits);
    assert forall s :: s in t'.statements ==> StatementOk(p.tables, s);
  }

  /** A batch whose edits are all admitted commits if and only if the ontology it
      would leave is consistent as a whole. */
  lemma ApplyRefusesExactlyTheInconsistent(p: Package, changes: seq<Change>, expected: nat, session: string, size: Document -> nat)
    requires Consistent(p) && MayBegin(p, changes, expected, session)
    requires Run(p, changes, expected + 1, size).Some?
    ensures Apply(p, changes, expected, session, size).Some? <==> Consistent(Run(p, changes, expected + 1, size).value.p)
  {
    hide Consistent, Tracks, LocallyValid, Run;
    var b := Run(p, changes, expected + 1, size).value;
    if b.events == 0 {
      NoEventsNoChange(p, changes, expected + 1, size);
    } else {
      RunTracks(p, changes, expected + 1, size);
      LocalCheckIsComplete(p, b);
    }
  }
}
