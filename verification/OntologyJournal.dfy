/** The journal is enough to rebuild the ontology: replaying its after-documents from
    nothing gives the current tables, and each before-document is what the replay holds
    at that point. */
module OntologyJournal {
  import opened Wrappers
  import opened OntologyModel
  import opened OntologyBatch
  import opened OntologyConsistency

  /** The part of the tables the journal speaks of, as documents. */
  datatype View = View(
    classes: map<string, Document>,
    properties: map<string, Document>,
    entities: map<string, Document>,
    types: set<(string, string)>,
    statements: set<Statement>,
    directories: map<string, Document>)

  function ViewOf(t: Tables): View {
    View(
      map k | k in t.classes :: ClassDocument(t.classes[k].title, t.classes[k].description, ParentsOf(t, k)),
      map k | k in t.properties :: PropertyDocument(t.properties[k]),
      map k | k in t.nodes && t.nodes[k].EntityNode? :: EntityDocument(t.nodes[k].title, t.nodes[k].description),
      t.types,
      set s | s in t.statements,
      map k | k in t.directories :: DirectoryDocument(t.directories[k]))
  }

  // ----- Replay

  function Put(m: map<string, Document>, key: string, d: Document): map<string, Document> {
    if d.Absent? then m - {key} else m[key := d]
  }

  function Find(m: map<string, Document>, key: string): Document {
    if key in m then m[key] else Absent
  }

  /** The document an event describes: its after-document, or what it removed. */
  function Content(e: Event): Document {
    if e.after.Absent? then e.before else e.after
  }

  function Replay1(v: View, e: Event): View {
    match e.operation
    case ClassEdit => v.(classes := Put(v.classes, e.subject, e.after))
    case PropertyEdit => v.(properties := Put(v.properties, e.subject, e.after))
    case EntityEdit => v.(entities := Put(v.entities, e.subject, e.after))
    case DirectoryEdit => v.(directories := Put(v.directories, e.subject, e.after))
    case TypeEdit =>
      if !Content(e).TypeDocument? then v
      else
        var row := (e.subject, Content(e).classKey);
        v.(types := if e.after.Absent? then v.types - {row} else v.types + {row})
    case StatementEdit =>
      if !Content(e).StatementDocument? then v
      else
        var row := Statement(e.subject, Content(e).propertyKey, Content(e).value);
        v.(statements := if e.after.Absent? then v.statements - {row} else v.statements + {row})
  }

  function Replay(journal: seq<Event>): View {
    if journal == [] then View(map[], map[], map[], {}, {}, map[])
    else Replay1(Replay(journal[..|journal| - 1]), journal[|journal| - 1])
  }

  /** What a view holds about the subject of an event. */
  function Held(v: View, e: Event): Document {
    match e.operation
    case ClassEdit => Find(v.classes, e.subject)
    case PropertyEdit => Find(v.properties, e.subject)
    case EntityEdit => Find(v.entities, e.subject)
    case DirectoryEdit => Find(v.directories, e.subject)
    case TypeEdit =>
      if Content(e).TypeDocument? && (e.subject, Content(e).classKey) in v.types then Content(e) else Absent
    case StatementEdit =>
      if Content(e).StatementDocument? && Statement(e.subject, Content(e).propertyKey, Content(e).value) in v.statements
      then Content(e) else Absent
  }

  predicate BeforesHeld(journal: seq<Event>) {
    forall i :: 0 <= i < |journal| ==>
      && journal[i].before == Held(Replay(journal[..i]), journal[i])
      && journal[i].before != journal[i].after
  }

  predicate Replayable(t: Tables) {
    Replay(t.journal) == ViewOf(t) && BeforesHeld(t.journal)
  }

  /** Revision r was committed r-th, and every event carries the revision of its batch. */
  predicate Numbered(t: Tables) {
    && |t.commits| == t.revision
    && (forall i :: 0 <= i < |t.commits| ==> t.commits[i].revision == i + 1)
    && (forall i :: 0 <= i < |t.journal| ==> 1 <= t.journal[i].revision <= t.revision)
    && (forall i, j :: 0 <= i < j < |t.journal| ==> t.journal[i].revision <= t.journal[j].revision)
    && (forall r :: 1 <= r <= t.revision ==> HasEvent(t.journal, r))
  }

  predicate HasEvent(journal: seq<Event>, revision: nat) {
    exists i :: 0 <= i < |journal| && journal[i].revision == revision
  }

  // ----- One edit

  function EventOf(t: Tables, c: Change, revision: nat): Event {
    Event(revision, OperationOf(c), SubjectOf(c), Before(t, c), After(c))
  }

  lemma WithNodeView(t: Tables, r: Resource)
    ensures ViewOf(WithNode(t, r)) == ViewOf(t)
  {
    var t' := WithNode(t, r);
    assert ViewOf(t').entities == ViewOf(t).entities;
    ClassesView(t, t');
  }

  lemma ClassesView(t: Tables, t': Tables)
    requires t'.classes == t.classes && t'.parents == t.parents
    ensures ViewOf(t').classes == ViewOf(t).classes
  {
    forall k | k in t.classes ensures ParentsOf(t', k) == ParentsOf(t, k) {
    }
  }

  lemma ParentsReplaced(t: Tables, key: string, parents: seq<string>)
    ensures var t' := WithParents(t, key, parents);
      && ParentsOf(t', key) == (set p | p in parents)
      && forall k :: k != key ==> ParentsOf(t', k) == ParentsOf(t, k)
  {
    var t' := WithParents(t, key, parents);
    forall p | p in parents ensures p in ParentsOf(t', key) {
      assert (key, p) in t'.parents && (key, p).1 == p;
    }
    forall k | k != key ensures ParentsOf(t', k) == ParentsOf(t, k) {
      assert forall e: (string, string) :: e.0 == k ==> (e in t'.parents <==> e in t.parents);
    }
  }

  lemma ClassView(t: Tables, c: Change, revision: nat)
    requires c.DefineClass? && Effective(t, c)
    ensures ViewOf(Effect(t, c)) == Replay1(ViewOf(t), EventOf(t, c, revision))
  {
    var t1 := t.(classes := t.classes[c.key := ClassRow(c.title, c.description)]);
    ParentsReplaced(t1, c.key, c.parents);
    var t' := Effect(t, c);
    assert ParentsOf(t', c.key) == set p | p in c.parents;
    forall k | k != c.key ensures ParentsOf(t', k) == ParentsOf(t, k) {
      assert ParentsOf(t1, k) == ParentsOf(t, k);
    }
    assert ViewOf(t').classes == Put(ViewOf(t).classes, c.key, After(c));
  }

  lemma PropertyView(t: Tables, c: Change, revision: nat)
    requires c.DefineProperty?
    ensures ViewOf(Effect(t, c)) == Replay1(ViewOf(t), EventOf(t, c, revision))
  {
    ClassesView(t, Effect(t, c));
    assert ViewOf(Effect(t, c)).properties == Put(ViewOf(t).properties, c.key, After(c));
  }

  lemma EntityView(t: Tables, c: Change, revision: nat)
    requires c.DefineEntity?
    ensures ViewOf(Effect(t, c)) == Replay1(ViewOf(t), EventOf(t, c, revision))
  {
    ClassesView(t, Effect(t, c));
    assert ViewOf(Effect(t, c)).entities == Put(ViewOf(t).entities, NodeKey(Entity(c.key)), After(c));
  }

  lemma TypeView(t: Tables, c: Change, revision: nat)
    requires c.Classify? && Effective(t, c)
    ensures ViewOf(Effect(t, c)) == Replay1(ViewOf(t), EventOf(t, c, revision))
  {
    WithNodeView(t, c.resource);
    ClassesView(t, Effect(t, c));
    assert ViewOf(Effect(t, c)).entities == ViewOf(t).entities;
  }

  lemma AssertView(p: Package, c: Change, revision: nat)
    requires c.Assert? && Structured(p) && Effective(p.tables, c)
    ensures ViewOf(Effect(p.tables, c)) == Replay1(ViewOf(p.tables), EventOf(p.tables, c, revision))
  {
    hide HierarchyStructured, PropertiesStructured, NodesStructured, DirectoryRowsStructured, WithNode;
    var t := p.tables;
    var s := Statement(NodeKey(c.subject), c.propertyKey, c.value);
    if c.present {
      WithNodeView(t, c.subject);
      var t1 := WithNode(t, c.subject);
      if c.value.ResourceValue? {
        WithNodeView(t1, c.value.target);
        t1 := WithNode(t1, c.value.target);
      }
      StatementsView(t1, t1.statements + [s]);
      assert (set u | u in t1.statements + [s]) == (set u | u in t1.statements) + {s};
    } else {
      WithoutElements(t.statements, s);
      StatementsView(t, Without(t.statements, s));
      assert (set u | u in Without(t.statements, s)) == (set u | u in t.statements) - {s};
    }
  }

  lemma StatementsView(t: Tables, statements: seq<Statement>)
    ensures ViewOf(t.(statements := statements)) == ViewOf(t).(statements := set s | s in statements)
  {
    ClassesView(t, t.(statements := statements));
  }

  lemma DirectoryView(t: Tables, c: Change, revision: nat)
    requires c.DefineDirectory? || c.RemoveDirectory?
    requires Effective(t, c)
    ensures ViewOf(Effect(t, c)) == Replay1(ViewOf(t), EventOf(t, c, revision))
  {
    var t' := Effect(t, c);
    ClassesView(t, t');
    assert ViewOf(t').directories == Put(ViewOf(t).directories, c.path, After(c));
  }

  lemma EffectView(p: Package, c: Change, revision: nat)
    requires Structured(p) && Effective(p.tables, c)
    ensures ViewOf(Effect(p.tables, c)) == Replay1(ViewOf(p.tables), EventOf(p.tables, c, revision))
  {
    match c
    case DefineClass(_, _, _, _) => ClassView(p.tables, c, revision);
    case DefineProperty(_, _) => PropertyView(p.tables, c, revision);
    case DefineEntity(_, _, _) => EntityView(p.tables, c, revision);
    case Classify(_, _, _) => TypeView(p.tables, c, revision);
    case Assert(_, _, _, _) => AssertView(p, c, revision);
    case DefineDirectory(_, _) => DirectoryView(p.tables, c, revision);
    case RemoveDirectory(_) => DirectoryView(p.tables, c, revision);
  }

  lemma BeforeIsHeld(t: Tables, c: Change, revision: nat)
    requires Effective(t, c)
    ensures Before(t, c) == Held(ViewOf(t), EventOf(t, c, revision))
  {
  }

  lemma JournalIrrelevant(t: Tables, journal: seq<Event>)
    ensures ViewOf(t.(journal := journal)) == ViewOf(t)
  {
    ClassesView(t, t.(journal := journal));
  }

  lemma StepReplayable(b: Batch, c: Change, revision: nat, size: Document -> nat)
    requires Structured(b.p) && Replayable(b.p.tables)
    ensures Replayable(Step(b, c, revision, size).p.tables)
  {
    var t := b.p.tables;
    if Effective(t, c) {
      var e := EventOf(t, c, revision);
      EffectView(b.p, c, revision);
      BeforeIsHeld(t, c, revision);
      JournalIrrelevant(Effect(t, c), t.journal + [e]);
      AppendedEvent(t.journal, e);
    } else {
      IneffectiveStep(b, c, revision, size);
    }
  }

  lemma AppendedEvent(journal: seq<Event>, e: Event)
    requires BeforesHeld(journal)
    requires e.before == Held(Replay(journal), e) && e.before != e.after
    ensures BeforesHeld(journal + [e]) && Replay(journal + [e]) == Replay1(Replay(journal), e)
  {
    var longer := journal + [e];
    assert longer[..|journal|] == journal;
    forall i | 0 <= i < |longer| ensures longer[i].before == Held(Replay(longer[..i]), longer[i]) {
      if i < |journal| {
        assert longer[..i] == journal[..i];
      }
    }
  }

  // ----- Batches

  /** The journal during a batch: the committed events, then `events` events of the next revision. */
  predicate Extends(old_: seq<Event>, journal: seq<Event>, events: nat, revision: nat) {
    && |journal| == |old_| + events
    && journal[..|old_|] == old_
    && forall i :: |old_| <= i < |journal| ==> journal[i].revision == revision
  }

  lemma StepExtends(old_: seq<Event>, b: Batch, c: Change, revision: nat, size: Document -> nat)
    requires Extends(old_, b.p.tables.journal, b.events, revision)
    ensures var b' := Step(b, c, revision, size);
      && Extends(old_, b'.p.tables.journal, b'.events, revision)
      && b'.p.tables.commits == b.p.tables.commits && b'.p.tables.revision == b.p.tables.revision
  {
    hide Effect, Effective, Before, After;
    EffectKeepsBookkeeping(b.p.tables, c);
  }

  lemma EffectKeepsBookkeeping(t: Tables, c: Change)
    ensures SameBookkeeping(t, Effect(t, c))
  {
    hide Effective, ParentsOf, Without, QueryProperties, NodeKey, WithNode, WithParents, WithoutDirectory;
  }

  lemma {:induction false} RunReplayable(p: Package, changes: seq<Change>, revision: nat, size: Document -> nat)
    requires Consistent(p) && Replayable(p.tables) && Run(p, changes, revision, size).Some?
    ensures var b := Run(p, changes, revision, size).value;
      && Replayable(b.p.tables)
      && Extends(p.tables.journal, b.p.tables.journal, b.events, revision)
      && b.p.tables.commits == p.tables.commits && b.p.tables.revision == p.tables.revision
  {
    if changes != [] {
      var last := |changes| - 1;
      RunReplayable(p, changes[..last], revision, size);
      RunTracks(p, changes[..last], revision, size);
      var b := Run(p, changes[..last], revision, size).value;
      StepReplayable(b, changes[last], revision, size);
      StepExtends(p.tables.journal, b, changes[last], revision, size);
    }
  }

  /** A committed batch leaves a journal that still rebuilds the tables, and it moves the
      revision by one exactly when it had an effect. */
  lemma ApplyKeepsJournal(p: Package, changes: seq<Change>, expected: nat, session: string, size: Document -> nat)
    requires Consistent(p) && Replayable(p.tables) && Numbered(p.tables)
    requires Apply(p, changes, expected, session, size).Some?
    ensures var p' := Apply(p, changes, expected, session, size).value;
      && Replayable(p'.tables) && Numbered(p'.tables)
      && p.tables.journal <= p'.tables.journal
      && (if p'.tables.journal == p.tables.journal then p' == p
          else p'.tables.revision == p.tables.revision + 1)
  {
    var b := Run(p, changes, expected + 1, size).value;
    if b.events == 0 {
      NoEventsNoChange(p, changes, expected + 1, size);
    } else {
      RunReplayable(p, changes, expected + 1, size);
      CommitKeepsJournal(p.tables, b.p.tables, b.events, session);
    }
  }

  lemma CommitKeepsJournal(t: Tables, done: Tables, events: nat, session: string)
    requires Numbered(t) && Replayable(done) && events > 0
    requires Extends(t.journal, done.journal, events, t.revision + 1)
    requires done.commits == t.commits
    ensures var t' := done.(revision := t.revision + 1, commits := done.commits + [Commit(t.revision + 1, session)]);
      Replayable(t') && Numbered(t') && t.journal <= t'.journal && t'.journal != t.journal
  {
    var t' := done.(revision := t.revision + 1, commits := done.commits + [Commit(t.revision + 1, session)]);
    ClassesView(done, t');
    NumberedAfter(t, t', events, session);
  }

  lemma NumberedAfter(t: Tables, t': Tables, events: nat, session: string)
    requires Numbered(t) && events > 0
    requires Extends(t.journal, t'.journal, events, t.revision + 1)
    requires t'.revision == t.revision + 1 && t'.commits == t.commits + [Commit(t.revision + 1, session)]
    ensures Numbered(t')
  {
    forall i | 0 <= i < |t.journal| ensures t'.journal[i] == t.journal[i] {
      assert t'.journal[..|t.journal|][i] == t.journal[i];
    }
    forall r | 1 <= r <= t'.revision ensures HasEvent(t'.journal, r) {
      if r == t'.revision {
        assert t'.journal[|t.journal|].revision == r;
      } else {
        assert HasEvent(t.journal, r);
        var i :| 0 <= i < |t.journal| && t.journal[i].revision == r;
        assert t'.journal[i].revision == r;
      }
    }
  }

  lemma EmptyReplayable()
    ensures Replayable(EMPTY) && Numbered(EMPTY)
  {
  }
}
