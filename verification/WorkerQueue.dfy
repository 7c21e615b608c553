/** The presentation worker as interleaved critical sections. Every transition is what one thread
    does between taking the mutex and giving it up (or waiting), or what a scan prepares outside it.
    A log records calls and their effects. */
module WorkerQueue {
  import opened Graph
  import opened Orders
  import opened Wrappers

  type Path = seq<string>
  type Thread = nat

  const CAPACITY: nat := 4096
  const MAXIMUM_ROOTS: nat := 128

  /** Normalised absolute paths: at the root or below it. */
  predicate Within(path: Path, root: Path) { root <= path }

  /** A file in the tree of a watched root. */
  predicate Below(path: Path, root: Path) { root < path }

  /** A scan slice prepares at most one file. */
  datatype Phase = NotStarted | Looping | Preparing(path: Path) | Scanning(root: Path, prepared: bool) | Exited

  datatype Entry =
    | Promised(path: Path)
    | Refused(path: Path)
    | PrepareStarted(path: Path)
    | ScanPrepared(path: Path)
    | Cancelled(root: Path)
    | CancelReturned(root: Path)

  datatype State = State(
    queue: seq<Path>,
    queued: set<Path>,
    watches: set<Path>,
    stopping: bool,
    active: bool,
    activePath: Path,
    phase: Phase,
    adding: map<Thread, Path>,
    cancelling: map<Thread, Path>,
    log: seq<Entry>)

  datatype Event =
    | Add(thread: Thread, path: Path)
    | ResumeAdd(thread: Thread)
    | Take
    | StartScan(root: Path)
    | ScanPrepare(path: Path)
    | Finish
    | Exit
    | Cancel(thread: Thread, root: Path)
    | CancelOnWorker
    | ReturnCancel(thread: Thread)
    | Watch(root: Path)
    | Unwatch(root: Path)
    | Stop

  const Fresh: State := State([], {}, {}, false, false, [], NotStarted, map[], map[], [])

  function Logged(s: State, e: Entry): State { s.(log := s.log + [e]) }

  function Started(s: State): State { if s.phase == NotStarted then s.(phase := Looping) else s }

  /** The end of `add`, once there is room or the worker stops. */
  function Enqueued(s: State, p: Path): State {
    if s.stopping then Logged(s, Refused(p))
    else if p in s.queued then Logged(s, Promised(p))
    else Logged(Started(s.(queue := s.queue + [p], queued := s.queued + {p})), Promised(p))
  }

  /** The queue without the paths below a root, in order. */
  function Without(queue: seq<Path>, root: Path): seq<Path> {
    if queue == [] then []
    else if Within(queue[|queue| - 1], root) then Without(queue[..|queue| - 1], root)
    else Without(queue[..|queue| - 1], root) + [queue[|queue| - 1]]
  }

  predicate ClearOf(s: State, root: Path) {
    !s.active || (!Within(s.activePath, root) && !Within(root, s.activePath))
  }

  /** One critical section; `None` where the thread cannot run it now. */
  function Step(s: State, e: Event): Option<State> {
    match e
    case Add(t, p) =>
      if t in s.adding || t in s.cancelling then None
      else if s.stopping || p in s.queued || |s.queue| < CAPACITY then Some(Enqueued(s, p))
      else Some(s.(adding := s.adding[t := p]))
    case ResumeAdd(t) =>
      if t !in s.adding || !(s.stopping || |s.queue| < CAPACITY) then None
      else Some(Enqueued(s.(adding := s.adding - {t}), s.adding[t]))
    case Take =>
      if s.phase != Looping || s.queue == [] then None
      else
        var p := s.queue[0];
        Some(Logged(s.(queue := s.queue[1..], queued := s.queued - {p}, active := true, activePath := p, phase := Preparing(p)), PrepareStarted(p)))
    case StartScan(root) =>
      if s.phase != Looping || s.queue != [] || s.stopping || root !in s.watches then None
      else Some(s.(active := true, activePath := root, phase := Scanning(root, false)))
    case ScanPrepare(p) =>
      if !s.phase.Scanning? || s.phase.prepared || !Below(p, s.phase.root) then None
      else Some(Logged(s.(phase := Scanning(s.phase.root, true)), ScanPrepared(p)))
    case Finish =>
      if !s.phase.Preparing? && !s.phase.Scanning? then None
      else Some(s.(active := false, activePath := [], phase := Looping))
    case Exit => if s.phase != Looping || s.queue != [] || !s.stopping then None else Some(s.(phase := Exited))
    case Cancel(t, root) =>
      if t in s.adding || t in s.cancelling then None
      else
        Some(Logged(s.(
          queue := Without(s.queue, root),
          queued := (set p | p in s.queued && !Within(p, root)),
          watches := (set w | w in s.watches && !Within(w, root)),
          cancelling := s.cancelling[t := root]), Cancelled(root)))
    case CancelOnWorker => if s.phase.Preparing? || s.phase.Scanning? then Some(s) else None
    case ReturnCancel(t) =>
      if t !in s.cancelling || !ClearOf(s, s.cancelling[t]) then None
      else Some(Logged(s.(cancelling := s.cancelling - {t}), CancelReturned(s.cancelling[t])))
    case Watch(root) =>
      if |s.watches| >= MAXIMUM_ROOTS && root !in s.watches then None
      else Some(Started(s.(watches := s.watches + {root})))
    case Unwatch(root) => Some(s.(watches := s.watches - {root}))
    case Stop => Some(s.(stopping := true))
  }

  function Run(events: seq<Event>): Option<State> {
    if events == [] then Some(Fresh)
    else
      var s :- Run(events[..|events| - 1]);
      Step(s, events[|events| - 1])
  }

  // ----- Structure: what is true between any two critical sections

  ghost predicate Mirrors(queue: seq<Path>, queued: set<Path>) {
    Distinct(queue) && forall p :: p in queue <==> p in queued
  }

  ghost predicate Structured(s: State) {
    && Mirrors(s.queue, s.queued) && |s.queue| <= CAPACITY
    && (s.queue != [] ==> s.phase != NotStarted && s.phase != Exited)
    && (s.phase == Exited ==> s.stopping)
    && |s.watches| <= MAXIMUM_ROOTS && (s.watches != {} ==> s.phase != NotStarted)
    && (s.active <==> s.phase.Preparing? || s.phase.Scanning?)
    && (s.phase.Preparing? ==> s.activePath == s.phase.path)
    && (s.phase.Scanning? ==> s.activePath == s.phase.root)
  }

  lemma {:induction false} WithoutKeeps(queue: seq<Path>, root: Path)
    requires Distinct(queue)
    ensures Distinct(Without(queue, root)) && |Without(queue, root)| <= |queue|
    ensures forall p :: p in Without(queue, root) <==> p in queue && !Within(p, root)
  {
    if queue != [] {
      WithoutKeeps(queue[..|queue| - 1], root);
      assert queue == queue[..|queue| - 1] + [queue[|queue| - 1]];
    }
  }

  lemma EnqueueStructured(s: State, p: Path)
    requires Structured(s) && (s.stopping || p in s.queued || |s.queue| < CAPACITY)
    ensures Structured(Enqueued(s, p))
  {
  }

  lemma StepStructured(s: State, e: Event)
    requires Structured(s) && Step(s, e).Some?
    ensures Structured(Step(s, e).value)
  {
    match e
    case Add(t, p) =>
      if s.stopping || p in s.queued || |s.queue| < CAPACITY {
        EnqueueStructured(s, p);
      }
    case ResumeAdd(t) => EnqueueStructured(s.(adding := s.adding - {t}), s.adding[t]);
    case Cancel(t, root) =>
      WithoutKeeps(s.queue, root);
      CardinalityAtMost(Step(s, e).value.watches, s.watches);
    case Take => assert s.queue == [s.queue[0]] + s.queue[1..];
    case _ =>
  }

  // ----- Promises

  /** The promise made at `i` for a path is kept, withdrawn or still queued. */
  ghost predicate Settled(s: State, i: nat)
    requires i < |s.log|
  {
    s.log[i].Promised? ==>
      var p := s.log[i].path;
      p in s.queue || exists j :: i < j < |s.log| && Settles(s.log[j], p)
  }

  /** A preparation of the path that starts, or a cancellation that covers it. */
  predicate Settles(e: Entry, p: Path) {
    e == PrepareStarted(p) || (e.Cancelled? && Within(p, e.root))
  }

  /** A queued path was promised after everything that settled it before. */
  ghost predicate Justified(s: State, p: Path) {
    exists k :: 0 <= k < |s.log| && s.log[k] == Promised(p) && forall j :: k < j < |s.log| ==> !Settles(s.log[j], p)
  }

  ghost predicate Promises(s: State) {
    && (forall i: nat :: i < |s.log| ==> Settled(s, i))
    && (forall p :: p in s.queue ==> Justified(s, p))
  }

  /** A preparation never comes from a queue entry that a cancellation covered. */
  ghost predicate Warranted(log: seq<Entry>, j: nat)
    requires j < |log|
  {
    log[j].PrepareStarted? ==>
      exists k :: 0 <= k < j && log[k] == Promised(log[j].path) && forall i :: k < i < j ==> !Settles(log[i], log[j].path)
  }

  ghost predicate History(s: State) {
    Promises(s) && forall j: nat :: j < |s.log| ==> Warranted(s.log, j)
  }

  /** Appending an entry: old positions stay, and what it settles must have left the queue. */
  lemma LogKeeps(s: State, s': State, e: Entry)
    requires History(s) && s'.log == s.log + [e]
    requires forall p :: p in s.queue && !Settles(e, p) ==> p in s'.queue
    requires forall p :: p in s'.queue ==> (p in s.queue && !Settles(e, p)) || e == Promised(p)
    requires e.Promised? ==> e.path in s'.queue
    requires e.PrepareStarted? ==> e.path in s.queue
    ensures History(s')
  {
    forall i: nat | i < |s'.log|
      ensures Settled(s', i)
    {
      if i < |s.log| {
        OldSettled(s, s', e, i);
      }
    }
    forall p | p in s'.queue
      ensures Justified(s', p)
    {
      if e == Promised(p) {
        assert s'.log[|s.log|] == Promised(p);
      } else {
        OldJustified(s, s', e, p);
      }
    }
    forall j: nat | j < |s'.log|
      ensures Warranted(s'.log, j)
    {
      if j < |s.log| {
        assert Warranted(s.log, j);
        OldWarranted(s.log, e, j);
      } else if e.PrepareStarted? {
        NewWarranted(s, e);
      }
    }
  }

  lemma OldSettled(s: State, s': State, e: Entry, i: nat)
    requires Promises(s) && s'.log == s.log + [e] && i < |s.log|
    requires forall p :: p in s.queue && !Settles(e, p) ==> p in s'.queue
    ensures Settled(s', i)
  {
    assert Settled(s, i) && s'.log[i] == s.log[i];
    if s.log[i].Promised? {
      var p := s.log[i].path;
      if p in s.queue {
        assert Settles(e, p) ==> Settles(s'.log[|s.log|], p);
      } else {
        var j :| i < j < |s.log| && Settles(s.log[j], p);
        assert Settles(s'.log[j], p);
      }
    }
  }

  lemma OldJustified(s: State, s': State, e: Entry, p: Path)
    requires Promises(s) && s'.log == s.log + [e] && p in s.queue && !Settles(e, p)
    ensures Justified(s', p)
  {
    assert Justified(s, p);
    var k :| 0 <= k < |s.log| && s.log[k] == Promised(p) && forall j :: k < j < |s.log| ==> !Settles(s.log[j], p);
    assert s'.log[k] == Promised(p);
  }

  lemma OldWarranted(log: seq<Entry>, e: Entry, j: nat)
    requires j < |log| && Warranted(log, j)
    ensures Warranted(log + [e], j)
  {
    var log' := log + [e];
    assert log'[j] == log[j];
    if log[j].PrepareStarted? {
      var k :| 0 <= k < j && log[k] == Promised(log[j].path) && forall i :: k < i < j ==> !Settles(log[i], log[j].path);
      assert log'[k] == Promised(log[j].path);
    }
  }

  lemma NewWarranted(s: State, e: Entry)
    requires Promises(s) && e.PrepareStarted? && e.path in s.queue
    ensures Warranted(s.log + [e], |s.log|)
  {
    assert Justified(s, e.path);
    var log' := s.log + [e];
    var k :| 0 <= k < |s.log| && s.log[k] == Promised(e.path) && forall j :: k < j < |s.log| ==> !Settles(s.log[j], e.path);
    assert log'[k] == Promised(e.path);
  }

  lemma StepHistory(s: State, e: Event)
    requires Structured(s) && History(s) && Step(s, e).Some?
    ensures History(Step(s, e).value)
  {
    hide History;
    var s' := Step(s, e).value;
    match e
    case Add(t, p) =>
      if s.stopping || p in s.queued || |s.queue| < CAPACITY {
        EnqueueHistory(s, p);
      } else {
        SameHistory(s, s');
      }
    case ResumeAdd(t) =>
      SameHistory(s, s.(adding := s.adding - {t}));
      EnqueueHistory(s.(adding := s.adding - {t}), s.adding[t]);
    case Take =>
      assert s.queue == [s.queue[0]] + s.queue[1..];
      LogKeeps(s, s', PrepareStarted(s.queue[0]));
    case Cancel(t, root) =>
      WithoutKeeps(s.queue, root);
      LogKeeps(s, s', Cancelled(root));
    case ScanPrepare(p) => LogKeeps(s, s', ScanPrepared(p));
    case ReturnCancel(t) => LogKeeps(s, s', CancelReturned(s.cancelling[t]));
    case _ => SameHistory(s, s');
  }

  lemma EnqueueHistory(s: State, p: Path)
    requires Structured(s) && History(s)
    ensures History(Enqueued(s, p))
  {
    hide History;
    LogKeeps(s, Enqueued(s, p), if s.stopping then Refused(p) else Promised(p));
  }

  lemma SameHistory(s: State, s': State)
    requires History(s) && s'.log == s.log && s'.queue == s.queue
    ensures History(s')
  {
    forall i: nat | i < |s'.log|
      ensures Settled(s', i)
    {
      assert Settled(s, i);
    }
    forall p | p in s'.queue
      ensures Justified(s', p)
    {
      assert Justified(s, p);
    }
  }

  /** Every reachable state is structured and honours its log. */
  lemma {:induction false} RunKeeps(events: seq<Event>)
    requires Run(events).Some?
    ensures Structured(Run(events).value) && History(Run(events).value)
  {
    if events != [] {
      var s := Run(events[..|events| - 1]).value;
      RunKeeps(events[..|events| - 1]);
      StepStructured(s, events[|events| - 1]);
      StepHistory(s, events[|events| - 1]);
    }
  }

  /** When the worker has exited, every promise has been kept or withdrawn. */
  lemma ExitSettlesAll(events: seq<Event>, i: nat)
    requires Run(events).Some? && Run(events).value.phase == Exited
    requires var log := Run(events).value.log; i < |log| && log[i].Promised?
    ensures Run(events).value.queue == []
    ensures var log := Run(events).value.log; exists j :: i < j < |log| && Settles(log[j], log[i].path)
  {
    RunKeeps(events);
    assert Settled(Run(events).value, i);
  }

  // ----- Progress

  /** A queued path only moves forward: a step keeps or shortens its way, and taking shortens it. */
  lemma MovesForward(s: State, e: Event, k: nat)
    requires Structured(s) && Step(s, e).Some? && k < |s.queue|
    ensures var s' := Step(s, e).value;
      var p := s.queue[k];
      || (|s'.log| > |s.log| && Settles(s'.log[|s.log|], p))
      || exists j :: 0 <= j <= k && j < |s'.queue| && s'.queue[j] == p && (e == Take ==> j < k)
  {
    var s' := Step(s, e).value;
    match e
    case Cancel(t, root) =>
      if !Within(s.queue[k], root) {
        var j := WithoutPosition(s.queue, root, k);
      }
    case Take =>
      if k > 0 {
        assert s'.queue[k - 1] == s.queue[k];
      }
    case StartScan(_) =>
    case Exit =>
    case _ => assert s'.queue[k] == s.queue[k];
  }

  lemma {:induction false} WithoutPosition(queue: seq<Path>, root: Path, k: nat) returns (j: nat)
    requires k < |queue| && !Within(queue[k], root)
    ensures j <= k && j < |Without(queue, root)| && Without(queue, root)[j] == queue[k]
  {
    var fewer := queue[..|queue| - 1];
    if k < |fewer| {
      j := WithoutPosition(fewer, root, k);
    } else {
      j := |Without(fewer, root)|;
      WithoutShorter(fewer, root);
    }
  }

  lemma {:induction false} WithoutShorter(queue: seq<Path>, root: Path)
    ensures |Without(queue, root)| <= |queue|
  {
    if queue != [] {
      WithoutShorter(queue[..|queue| - 1], root);
    }
  }

  function Takes(events: seq<Event>): nat {
    if events == [] then 0 else (if events[0] == Take then 1 else 0) + Takes(events[1..])
  }

  lemma LogGrows(s: State, e: Event)
    requires Step(s, e).Some?
    ensures s.log <= Step(s, e).value.log
  {
  }

  lemma {:induction false} RunSplits(before: seq<Event>, after: seq<Event>)
    requires Run(before + after).Some?
    ensures Run(before).Some? && Run(before).value.log <= Run(before + after).value.log
    decreases |after|
  {
    if after == [] {
      assert before + after == before;
    } else {
      var shorter := after[..|after| - 1];
      assert (before + after)[..|before + after| - 1] == before + shorter;
      RunSplits(before, shorter);
      LogGrows(Run(before + shorter).value, after[|after| - 1]);
    }
  }

  /** Once the worker has taken from the queue one time more than there are paths in front, the
      path has been taken or cancelled. */
  lemma {:induction false} QueuedIsSettled(before: seq<Event>, after: seq<Event>, k: nat)
    requires Run(before + after).Some? && Run(before).Some? && k < |Run(before).value.queue|
    requires Takes(after) > k
    ensures var s, s' := Run(before).value, Run(before + after).value;
      exists i :: |s.log| <= i < |s'.log| && Settles(s'.log[i], s.queue[k])
    decreases |after|
  {
    hide Step, Structured, History, Settles;
    var s, e, next := Run(before).value, after[0], before + [after[0]];
    assert before + after == next + after[1..];
    assert next[..|next| - 1] == before && next[|next| - 1] == e;
    RunSplits(next, after[1..]);
    RunKeeps(before);
    LogGrows(s, e);
    MovesForward(s, e, k);
    var s' := Step(s, e).value;
    if j :| 0 <= j <= k && j < |s'.queue| && s'.queue[j] == s.queue[k] && (e == Take ==> j < k) {
      QueuedIsSettled(next, after[1..], j);
    } else {
      assert Settles(s'.log[|s.log|], s.queue[k]);
      assert Run(before + after).value.log[|s.log|] == s'.log[|s.log|];
    }
  }

  /** While anything is queued the worker is alive, and between two jobs it can always take the next. */
  lemma WorkerCanTake(s: State)
    requires Structured(s) && s.queue != []
    ensures Step(s, Finish).Some? || Step(s, Take).Some?
  {
  }

  // ----- What a cancellation leaves to be prepared

  /** Whatever is taken from the queue below a cancelled root was promised after the cancellation. */
  lemma TakenAfterCancel(events: seq<Event>, i: nat, j: nat)
    requires Run(events).Some?
    requires var log := Run(events).value.log;
      i < j < |log| && log[i].Cancelled? && log[j].PrepareStarted? && Within(log[j].path, log[i].root)
    ensures var log := Run(events).value.log; exists k :: i < k < j && log[k] == Promised(log[j].path)
  {
    hide Run, Structured, Promises;
    RunKeeps(events);
    var log := Run(events).value.log;
    SettledBetween(log, i, j);
  }

  lemma SettledBetween(log: seq<Entry>, i: nat, j: nat)
    requires i < j < |log| && Warranted(log, j)
    requires log[i].Cancelled? && log[j].PrepareStarted? && Within(log[j].path, log[i].root)
    ensures exists k :: i < k < j && log[k] == Promised(log[j].path)
  {
    var k :| 0 <= k < j && log[k] == Promised(log[j].path) && forall m :: k < m < j ==> !Settles(log[m], log[j].path);
    assert Settles(log[i], log[j].path);
  }

  lemma CancelReturnsClear(s: State, t: Thread)
    requires Structured(s) && Step(s, ReturnCancel(t)).Some?
    ensures s.phase.Preparing? ==> !Within(s.phase.path, s.cancelling[t]) && !Within(s.cancelling[t], s.phase.path)
    ensures s.phase.Scanning? ==> !Within(s.phase.root, s.cancelling[t]) && !Within(s.cancelling[t], s.phase.root)
  {
  }

  /** One lies at or below the other. */
  predicate Related(a: Path, b: Path) { Within(a, b) || Within(b, a) }

  /** The slice in progress has not prepared its file yet, and may do so below the root. */
  predicate MidScan(s: State, root: Path) {
    s.phase.Scanning? && !s.phase.prepared && Related(s.phase.root, root)
  }

  /** A slice in progress or a standing watch may reach below the root. */
  ghost predicate Exposed(s: State, root: Path) {
    MidScan(s, root) || (!s.stopping && exists w :: w in s.watches && Related(w, root))
  }

  /** The events after a state, in order. */
  function Continue(s: State, events: seq<Event>): Option<State>
    decreases |events|
  {
    if events == [] then Some(s)
    else
      var s' :- Step(s, events[0]);
      Continue(s', events[1..])
  }

  /** No watch is set that could reach below the root. */
  predicate SetsNone(events: seq<Event>, root: Path) {
    forall e :: e in events && e.Watch? ==> !Related(e.root, root)
  }

  /** A scan prepares a path below the root. */
  predicate ScansAt(log: seq<Entry>, j: nat, root: Path)
    requires j < |log|
  {
    log[j].ScanPrepared? && Within(log[j].path, root)
  }

  /** Nobody ever asked for the path prepared at `j`. */
  predicate Unasked(log: seq<Entry>, j: nat)
    requires j < |log|
  {
    log[j].ScanPrepared? && forall k :: 0 <= k < j ==> log[k] != Promised(log[j].path)
  }

  /** The events lead from the state to an unasked preparation below the root. */
  ghost predicate ScansBelow(s: State, events: seq<Event>, root: Path) {
    && Continue(s, events).Some?
    && var log := Continue(s, events).value.log;
       exists j :: |s.log| <= j < |log| && ScansAt(log, j, root) && Unasked(log, j)
  }

  lemma PrefixesRelated(a: Path, b: Path, p: Path)
    requires Within(p, a) && Within(p, b)
    ensures Related(a, b)
  {
    if |a| <= |b| {
      assert b[..|a|] == p[..|a|] == a;
    } else {
      assert a[..|b|] == p[..|b|] == b;
    }
  }

  /** No scan can reach below the root: until a watch is set that does, or, `sealed` by the worker's
      stop, for good. */
  ghost predicate Clear(s: State, root: Path, sealed: bool) {
    if sealed then !MidScan(s, root) && s.stopping else !Exposed(s, root)
  }

  lemma StepStaysClear(s: State, e: Event, root: Path, sealed: bool)
    requires Step(s, e).Some? && Clear(s, root, sealed) && (sealed || !(e.Watch? && Related(e.root, root)))
    ensures var s' := Step(s, e).value;
      Clear(s', root, sealed) && s.log <= s'.log && forall j: nat :: |s.log| <= j < |s'.log| ==> !ScansAt(s'.log, j, root)
  {
    if e.ScanPrepare? && Within(e.path, root) {
      PrefixesRelated(s.phase.root, root, e.path);
    }
  }

  lemma {:induction false} StaysClear(s: State, events: seq<Event>, root: Path, sealed: bool)
    requires Continue(s, events).Some? && Clear(s, root, sealed) && (sealed || SetsNone(events, root))
    ensures var s' := Continue(s, events).value;
      s.log <= s'.log && forall j: nat :: |s.log| <= j < |s'.log| ==> !ScansAt(s'.log, j, root)
    decreases |events|
  {
    hide Step, Clear;
    if events != [] {
      var s1 := Step(s, events[0]).value;
      StepStaysClear(s, events[0], root, sealed);
      StaysClear(s1, events[1..], root, sealed);
      var log := Continue(s, events).value.log;
      forall j: nat | |s.log| <= j < |log|
        ensures !ScansAt(log, j, root)
      {
        if j < |s1.log| {
          assert log[j] == s1.log[j] && !ScansAt(s1.log, j, root);
        }
      }
    }
  }

  /** The worker comes to an empty queue, taking and finishing what there is. */
  lemma {:induction false} Drains(s: State) returns (events: seq<Event>, s': State)
    requires Structured(s) && s.phase != NotStarted && s.phase != Exited
    ensures Continue(s, events) == Some(s') && s.log <= s'.log
    ensures s'.phase == Looping && s'.queue == [] && s'.watches == s.watches && s'.stopping == s.stopping
    ensures forall e :: e in events ==> e == Take || e == Finish
    decreases |s.queue|, if s.phase == Looping then 0 else 1
  {
    if s.phase == Looping && s.queue == [] {
      return [], s;
    }
    var e := if s.phase == Looping then Take else Finish;
    var s1 := Step(s, e).value;
    StepStructured(s, e);
    var more;
    more, s' := Drains(s1);
    events := [e] + more;
    assert events[1..] == more;
  }

  function Longest(log: seq<Entry>): (n: nat)
    ensures forall j :: 0 <= j < |log| && log[j].Promised? ==> |log[j].path| <= n
  {
    if log == [] then 0
    else
      var e, n := log[|log| - 1], Longest(log[..|log| - 1]);
      if e.Promised? && |e.path| > n then |e.path| else n
  }

  /** A path in both trees that was never asked for. */
  function NewPath(log: seq<Entry>, a: Path, b: Path): (p: Path)
    requires Related(a, b)
    ensures Below(p, a) && Within(p, b)
    ensures forall j :: 0 <= j < |log| ==> log[j] != Promised(p)
  {
    var base := if |a| <= |b| then b else a;
    var pad := seq(Longest(log) + 1, _ => "x");
    assert base[..|a|] == a && base[..|b|] == b;
    assert (base + pad)[..|a|] == a && (base + pad)[..|b|] == b;
    base + pad
  }

  /** The slice in progress prepares such a path. */
  lemma MidScanScans(s: State, root: Path) returns (e: Event)
    requires MidScan(s, root)
    ensures e.ScanPrepare? && ScansBelow(s, [e], root)
  {
    var p := NewPath(s.log, s.phase.root, root);
    e := ScanPrepare(p);
    var s' := Step(s, e).value;
    assert [e][1..] == [] && Continue(s', []) == Some(s');
    assert Continue(s, [e]) == Some(s');
    assert ScansAt(s'.log, |s.log|, root) && Unasked(s'.log, |s.log|);
  }

  lemma {:induction false} Onward(s: State, a: seq<Event>, b: seq<Event>)
    requires Continue(s, a).Some?
    ensures Continue(s, a + b) == Continue(Continue(s, a).value, b)
    decreases |a|
  {
    if a == [] {
      assert a + b == b;
    } else {
      assert (a + b)[1..] == a[1..] + b;
      Onward(Step(s, a[0]).value, a[1..], b);
    }
  }

  lemma ScansOnward(s: State, a: seq<Event>, b: seq<Event>, root: Path)
    requires Continue(s, a).Some? && s.log <= Continue(s, a).value.log && ScansBelow(Continue(s, a).value, b, root)
    ensures ScansBelow(s, a + b, root)
  {
    hide Continue;
    Onward(s, a, b);
  }

  lemma ExposedScans(s: State, root: Path) returns (events: seq<Event>)
    requires Structured(s) && Exposed(s, root)
    ensures SetsNone(events, root) && ScansBelow(s, events, root)
  {
    hide ScansBelow;
    if MidScan(s, root) {
      var e := MidScanScans(s, root);
      events := [e];
    } else {
      var w :| w in s.watches && Related(w, root);
      var drain, s1 := Drains(s);
      var s2 := Step(s1, StartScan(w)).value;
      var e := MidScanScans(s2, root);
      OneEvent(s1, StartScan(w));
      ScansOnward(s1, [StartScan(w)], [e], root);
      ScansOnward(s, drain, [StartScan(w)] + [e], root);
      events := drain + ([StartScan(w)] + [e]);
    }
  }

  lemma OneEvent(s: State, e: Event)
    ensures Continue(s, [e]) == Step(s, e)
  {
    hide Step;
    assert [e][1..] == [];
    if Step(s, e).Some? {
      assert Continue(Step(s, e).value, []) == Step(s, e);
    }
  }

  /** Exactly an exposed root can be prepared below unasked without setting a watch that reaches it. */
  lemma ScansBelowExactly(s: State, root: Path)
    requires Structured(s)
    ensures Exposed(s, root) <==> exists events: seq<Event> :: SetsNone(events, root) && ScansBelow(s, events, root)
  {
    hide Structured, Exposed;
    if Exposed(s, root) {
      var events := ExposedScans(s, root);
    } else if events: seq<Event> :| SetsNone(events, root) && ScansBelow(s, events, root) {
      StaysClear(s, events, root, false);
      assert false;
    }
  }

  /** Where watches may be set again, exactly stopping the worker rules it out, but for a slice in progress. */
  lemma ScansBelowAtAll(s: State, root: Path)
    requires Structured(s)
    ensures !s.stopping || MidScan(s, root) <==> exists events: seq<Event> :: ScansBelow(s, events, root)
  {
    hide Structured, ScansBelow, Step;
    if !s.stopping {
      var set_, s1 := SetsAgain(s, root);
      var more := ExposedScans(s1, root);
      ScansOnward(s, set_, more, root);
    } else if MidScan(s, root) {
      var e := MidScanScans(s, root);
    } else if events: seq<Event> :| ScansBelow(s, events, root) {
      CannotScan(s, events, root);
    }
  }

  lemma CannotScan(s: State, events: seq<Event>, root: Path)
    requires s.stopping && !MidScan(s, root)
    ensures !ScansBelow(s, events, root)
  {
    if ScansBelow(s, events, root) {
      StaysClear(s, events, root, true);
      assert false;
    }
  }

  /** The root is watched, if need be in place of another one. */
  lemma SetsAgain(s: State, root: Path) returns (events: seq<Event>, s': State)
    requires Structured(s) && !s.stopping
    ensures Continue(s, events) == Some(s') && s'.log == s.log && Structured(s') && Exposed(s', root)
  {
    hide Structured;
    var s1 := s;
    events := [];
    assert Continue(s, []) == Some(s);
    if |s.watches| >= MAXIMUM_ROOTS && root !in s.watches {
      var w :| w in s.watches;
      events := [Unwatch(w)];
      s1 := Step(s, Unwatch(w)).value;
      OneEvent(s, Unwatch(w));
      StepStructured(s, Unwatch(w));
      RootsFit(s);
      assert s.watches == s1.watches + {w};
    }
    s' := Step(s1, Watch(root)).value;
    StepStructured(s1, Watch(root));
    OneEvent(s1, Watch(root));
    Onward(s, events, [Watch(root)]);
    events := events + [Watch(root)];
    assert root in s'.watches && Related(root, root);
  }

  lemma RootsFit(s: State)
    requires Structured(s)
    ensures |s.watches| <= MAXIMUM_ROOTS
  {
  }

  lemma {:induction false} RunContinues(before: seq<Event>, after: seq<Event>)
    requires Run(before).Some?
    ensures Run(before + after) == Continue(Run(before).value, after)
    decreases |after|
  {
    hide Step;
    if after == [] {
      assert before + after == before;
    } else {
      var next := before + [after[0]];
      assert before + after == next + after[1..];
      assert next[..|next| - 1] == before && next[|next| - 1] == after[0];
      if Step(Run(before).value, after[0]).Some? {
        RunContinues(next, after[1..]);
      } else {
        NoRun(next, after[1..]);
      }
    }
  }

  lemma {:induction false} NoRun(before: seq<Event>, after: seq<Event>)
    requires Run(before) == None
    ensures Run(before + after) == None
    decreases |after|
  {
    if after == [] {
      assert before + after == before;
    } else {
      var shorter := after[..|after| - 1];
      assert (before + after)[..|before + after| - 1] == before + shorter;
      NoRun(before, shorter);
    }
  }

  /** A watch on something that contains the root. */
  predicate Above(w: Path, root: Path) { w < root }

  ghost predicate WatchedAbove(s: State, root: Path) {
    exists w :: w in s.watches && Above(w, root)
  }

  /** Right after a cancellation's section, what can reach below its root is the slice in progress
      and the watches above the root that it leaves standing. */
  lemma CancelLeaves(s: State, t: Thread, root: Path)
    requires Step(s, Cancel(t, root)).Some?
    ensures var s' := Step(s, Cancel(t, root)).value;
      && MidScan(s', root) == MidScan(s, root) && s'.stopping == s.stopping && (WatchedAbove(s', root) <==> WatchedAbove(s, root))
      && forall w :: w in s'.watches && Related(w, root) ==> Above(w, root)
  {
    var s' := Step(s, Cancel(t, root)).value;
    forall w | w in s.watches && Above(w, root)
      ensures w in s'.watches
    {
      assert !Within(w, root);
    }
  }

  /** Between a cancellation's section and its return, unless a watch is set that reaches below
      the root: exactly with a slice in progress, or a watch above the root and no stop, can
      something below it be prepared that nobody asked for. */
  lemma AfterCancelled(events: seq<Event>, t: Thread, root: Path)
    requires Run(events + [Cancel(t, root)]).Some?
    ensures var s := Run(events + [Cancel(t, root)]).value;
      MidScan(s, root) || (!s.stopping && WatchedAbove(s, root))
      <==> exists more: seq<Event> :: SetsNone(more, root) && ScansBelow(s, more, root)
  {
    hide Structured, Step, ScansBelow;
    var all := events + [Cancel(t, root)];
    assert all[..|all| - 1] == events;
    RunKeeps(all);
    CancelLeaves(Run(events).value, t, root);
    var s := Run(all).value;
    ScansBelowExactly(s, root);
    OnlyAbove(s, root);
  }

  ghost predicate RelatedAreAbove(s: State, root: Path) {
    forall w :: w in s.watches && Related(w, root) ==> Above(w, root)
  }

  lemma OnlyAbove(s: State, root: Path)
    requires RelatedAreAbove(s, root)
    ensures Exposed(s, root) <==> MidScan(s, root) || (!s.stopping && WatchedAbove(s, root))
  {
    if w :| w in s.watches && Above(w, root) {
      assert Related(w, root);
    }
  }

  lemma StepStaysAbove(s: State, e: Event, root: Path)
    requires Step(s, e).Some? && RelatedAreAbove(s, root) && !(e.Watch? && Related(e.root, root))
    ensures RelatedAreAbove(Step(s, e).value, root)
  {
    hide Related;
  }

  lemma {:induction false} StaysAbove(s: State, events: seq<Event>, root: Path)
    requires Continue(s, events).Some? && SetsNone(events, root) && RelatedAreAbove(s, root)
    ensures RelatedAreAbove(Continue(s, events).value, root)
    decreases |events|
  {
    hide Step, RelatedAreAbove;
    if events != [] {
      StepStaysAbove(s, events[0], root);
      StaysAbove(Step(s, events[0]).value, events[1..], root);
    }
  }

  lemma StepStillCancels(s: State, e: Event, t: Thread)
    requires Step(s, e).Some? && t in s.cancelling && e != ReturnCancel(t)
    ensures var s' := Step(s, e).value; t in s'.cancelling && s'.cancelling[t] == s.cancelling[t]
  {
  }

  lemma {:induction false} StillCancelling(s: State, events: seq<Event>, t: Thread)
    requires Continue(s, events).Some? && t in s.cancelling && ReturnCancel(t) !in events
    ensures var s' := Continue(s, events).value; t in s'.cancelling && s'.cancelling[t] == s.cancelling[t]
    decreases |events|
  {
    hide Step;
    if events != [] {
      StepStillCancels(s, events[0], t);
      StillCancelling(Step(s, events[0]).value, events[1..], t);
    }
  }

  /** From the state after its return on: exactly a watch above the root and no stop do. */
  lemma AfterCancelReturned(before: seq<Event>, t: Thread, root: Path, between: seq<Event>)
    requires SetsNone(between, root) && ReturnCancel(t) !in between
    requires Run(before + [Cancel(t, root)] + between + [ReturnCancel(t)]).Some?
    ensures var s := Run(before + [Cancel(t, root)] + between + [ReturnCancel(t)]).value;
      !s.stopping && WatchedAbove(s, root)
      <==> exists more: seq<Event> :: SetsNone(more, root) && ScansBelow(s, more, root)
  {
    hide Structured, Step, ScansBelow, Exposed;
    var cancelled := before + [Cancel(t, root)];
    var waited := cancelled + between;
    var all := waited + [ReturnCancel(t)];
    assert cancelled[..|cancelled| - 1] == before && all[..|all| - 1] == waited;
    RunSplits(cancelled, between);
    RunContinues(cancelled, between);
    CancelLeaves(Run(before).value, t, root);
    CancelBegins(Run(before).value, t, root);
    StaysAbove(Run(cancelled).value, between, root);
    StillCancelling(Run(cancelled).value, between, t);
    RunKeeps(waited);
    RunKeeps(all);
    ReturnsUnscanned(Run(waited).value, t);
    ScansBelowExactly(Run(all).value, root);
    OnlyAbove(Run(all).value, root);
  }

  lemma CancelBegins(s: State, t: Thread, root: Path)
    requires Step(s, Cancel(t, root)).Some?
    ensures var s' := Step(s, Cancel(t, root)).value; t in s'.cancelling && s'.cancelling[t] == root
  {
  }

  lemma ReturnsUnscanned(s: State, t: Thread)
    requires Structured(s) && Step(s, ReturnCancel(t)).Some?
    ensures var s' := Step(s, ReturnCancel(t)).value;
      s'.watches == s.watches && !MidScan(s', s.cancelling[t])
  {
    CancelReturnsClear(s, t);
  }

  /** Setting a watch that reaches below the root exposes it again, until the worker stops. */
  lemma SetAgainScans(s: State, w: Path, root: Path)
    requires Structured(s) && !s.stopping && Related(w, root) && Step(s, Watch(w)).Some?
    ensures exists more: seq<Event> :: SetsNone(more, root) && ScansBelow(Step(s, Watch(w)).value, more, root)
  {
    hide ScansBelow;
    StepStructured(s, Watch(w));
    assert w in Step(s, Watch(w)).value.watches;
    ScansBelowExactly(Step(s, Watch(w)).value, root);
  }

  /** Where neither can happen, whatever is prepared below a cancelled root is taken from the
      queue, and was asked for after the cancellation. */
  lemma CancelIsClean(before: seq<Event>, t: Thread, root: Path, after: seq<Event>, j: nat)
    requires Run(before + [Cancel(t, root)] + after).Some? && SetsNone(after, root)
    requires Run(before).Some?
    requires var s := Run(before).value; !MidScan(s, root) && (s.stopping || !WatchedAbove(s, root))
    requires var log := Run(before + [Cancel(t, root)] + after).value.log; |Run(before).value.log| <= j < |log|
    requires var e := Run(before + [Cancel(t, root)] + after).value.log[j];
      (e.PrepareStarted? || e.ScanPrepared?) && Within(e.path, root)
    ensures var log := Run(before + [Cancel(t, root)] + after).value.log;
      log[j].PrepareStarted? && exists k :: |Run(before).value.log| < k < j && log[k] == Promised(log[j].path)
  {
    hide Structured, Step, Continue, Exposed;
    var cancelled := before + [Cancel(t, root)];
    assert cancelled[..|cancelled| - 1] == before;
    RunSplits(cancelled, after);
    RunContinues(cancelled, after);
    CancelLeaves(Run(before).value, t, root);
    CancelLogs(Run(before).value, t, root);
    OnlyAbove(Run(cancelled).value, root);
    StaysClear(Run(cancelled).value, after, root, false);
    var i, log := |Run(before).value.log|, Run(cancelled + after).value.log;
    assert Run(cancelled).value.log[i] == log[i] == Cancelled(root);
    assert !ScansAt(log, j, root);
    TakenAfterCancel(cancelled + after, i, j);
  }

  lemma CancelLogs(s: State, t: Thread, root: Path)
    requires Step(s, Cancel(t, root)).Some?
    ensures Step(s, Cancel(t, root)).value.log == s.log + [Cancelled(root)]
  {
  }

  const Tree: Path := ["a"]
  const Branch: Path := ["a", "b"]
  const Leaf: Path := ["a", "b", "x"]

  /** The watch above survives the cancellation of a branch, and its next slice prepares below it. */
  lemma ScannedAfterReturn()
    ensures var events := [Watch(Tree), Cancel(0, Branch), ReturnCancel(0), StartScan(Tree), ScanPrepare(Leaf)];
      Run(events).Some? && Run(events).value.log == [Cancelled(Branch), CancelReturned(Branch), ScanPrepared(Leaf)]
  {
    var s1 := Step(Fresh, Watch(Tree)).value;
    var s2 := Step(s1, Cancel(0, Branch)).value;
    assert s2.watches == {Tree};
    var s3 := Step(s2, ReturnCancel(0)).value;
    var s4 := Step(s3, StartScan(Tree)).value;
    var s5 := Step(s4, ScanPrepare(Leaf)).value;
    FiveEvents(Watch(Tree), s1, Cancel(0, Branch), s2, ReturnCancel(0), s3, StartScan(Tree), s4, ScanPrepare(Leaf), s5);
  }

  lemma FiveEvents(e1: Event, s1: State, e2: Event, s2: State, e3: Event, s3: State, e4: Event, s4: State, e5: Event, s5: State)
    requires Step(Fresh, e1) == Some(s1) && Step(s1, e2) == Some(s2) && Step(s2, e3) == Some(s3)
    requires Step(s3, e4) == Some(s4) && Step(s4, e5) == Some(s5)
    ensures Run([e1, e2, e3, e4, e5]) == Some(s5)
  {
    hide Step;
    FourEvents(e1, s1, e2, s2, e3, s3, e4, s4);
    assert [e1, e2, e3, e4, e5][..4] == [e1, e2, e3, e4];
  }

  lemma FourEvents(e1: Event, s1: State, e2: Event, s2: State, e3: Event, s3: State, e4: Event, s4: State)
    requires Step(Fresh, e1) == Some(s1) && Step(s1, e2) == Some(s2) && Step(s2, e3) == Some(s3) && Step(s3, e4) == Some(s4)
    ensures Run([e1, e2, e3, e4]) == Some(s4)
  {
    hide Step;
    assert Run([]) == Some(Fresh) && [e1][..0] == [];
    assert Run([e1]) == Some(s1);
    assert [e1, e2][..1] == [e1];
    assert Run([e1, e2]) == Some(s2);
    assert [e1, e2, e3][..2] == [e1, e2];
    assert Run([e1, e2, e3]) == Some(s3);
    assert [e1, e2, e3, e4][..3] == [e1, e2, e3];
  }

  /** A slice that was under way when its own root was cancelled still prepares its file. */
  lemma ScannedWhileCancelling()
    ensures var events := [Watch(Branch), StartScan(Branch), Cancel(0, Branch), ScanPrepare(Leaf)];
      Run(events).Some? && Run(events).value.log == [Cancelled(Branch), ScanPrepared(Leaf)]
  {
    var s1 := Step(Fresh, Watch(Branch)).value;
    var s2 := Step(s1, StartScan(Branch)).value;
    var s3 := Step(s2, Cancel(0, Branch)).value;
    var s4 := Step(s3, ScanPrepare(Leaf)).value;
    FourEvents(Watch(Branch), s1, StartScan(Branch), s2, Cancel(0, Branch), s3, ScanPrepare(Leaf), s4);
  }

  // ----- The object: each method is one critical section

  /** The threads that wait inside `add` and `cancel`, and the log, are ghost. */
  class Worker {
    var queue: seq<Path>
    var queued: set<Path>
    var watches: set<Path>
    var stopping: bool
    var active: bool
    var activePath: Path
    var phase: Phase
    ghost var adding: map<Thread, Path>
    ghost var cancelling: map<Thread, Path>
    ghost var log: seq<Entry>

    ghost function View(): State
      reads this
    {
      State(queue, queued, watches, stopping, active, activePath, phase, adding, cancelling, log)
    }

    ghost predicate Valid()
      reads this
    {
      Structured(View()) && History(View())
    }

    /** What every section does: exactly the transition of its event. */
    twostate predicate Did(e: Event)
      reads this
    {
      Step(old(View()), e) == Some(View())
    }

    twostate lemma DidKeeps(e: Event)
      requires old(Valid()) && Did(e)
      ensures Valid()
    {
      StepStructured(old(View()), e);
      StepHistory(old(View()), e);
    }

    constructor ()
      ensures Valid() && View() == Fresh
    {
      queue, queued, watches, stopping, active, activePath, phase := [], {}, {}, false, false, [], NotStarted;
      adding, cancelling, log := map[], map[], [];
    }

    method Start()
      modifies `phase
      ensures View() == Started(old(View()))
    {
      if phase == NotStarted {
        phase := Looping;
      }
    }

    /** `add` from its wait on. */
    method Enqueue(p: Path)
      modifies this
      ensures View() == Enqueued(old(View()), p)
    {
      if stopping {
        log := log + [Refused(p)];
        return;
      }
      if p in queued {
        log := log + [Promised(p)];
        return;
      }
      queued, queue := queued + {p}, queue + [p];
      Start();
      log := log + [Promised(p)];
    }

    method Add(ghost t: Thread, p: Path)
      requires Valid() && t !in adding && t !in cancelling
      modifies this
      ensures Valid() && Did(Event.Add(t, p))
    {
      hide History;
      if stopping || p in queued || |queue| < CAPACITY {
        Enqueue(p);
      } else {
        adding := adding[t := p];
      }
      DidKeeps(Event.Add(t, p));
    }

    method ResumeAdd(ghost t: Thread, p: Path)
      requires Valid() && t in adding && adding[t] == p && (stopping || |queue| < CAPACITY)
      modifies this
      ensures Valid() && Did(Event.ResumeAdd(t))
    {
      hide History;
      adding := adding - {t};
      Enqueue(p);
      DidKeeps(Event.ResumeAdd(t));
    }

    /** One turn of `run` up to where it gives up the mutex; `None` when it waits or returns. */
    method Turn(due: Option<Path>) returns (ghost e: Option<Event>)
      requires Valid() && phase == Looping && (due.Some? ==> due.value in watches)
      modifies this
      ensures Valid() && (if e.Some? then Did(e.value) else View() == old(View()))
      ensures old(queue) != [] ==> e == Some(Take)
      ensures old(queue) == [] && stopping ==> phase == Exited
    {
      hide History;
      if queue != [] {
        var path := queue[0];
        queue, queued, active, activePath, phase := queue[1..], queued - {path}, true, path, Preparing(path);
        log := log + [PrepareStarted(path)];
        DidKeeps(Take);
        return Some(Take);
      }
      if stopping {
        phase := Exited;
        DidKeeps(Exit);
        return Some(Exit);
      }
      if due.Some? {
        active, activePath, phase := true, due.value, Scanning(due.value, false);
        DidKeeps(StartScan(due.value));
        return Some(StartScan(due.value));
      }
      return None;
    }

    /** A slice prepares one file outside the mutex, asked for by nobody, and ends. */
    method PrepareScanned(p: Path)
      requires Valid() && phase.Scanning? && !phase.prepared && Below(p, phase.root)
      modifies this
      ensures Valid() && Did(Event.ScanPrepare(p))
    {
      hide History;
      phase := Scanning(phase.root, true);
      log := log + [ScanPrepared(p)];
      DidKeeps(Event.ScanPrepare(p));
    }

    /** The mutex is taken again after a preparation or a scan. */
    method Finish()
      requires Valid() && (phase.Preparing? || phase.Scanning?)
      modifies this
      ensures Valid() && Did(Event.Finish)
    {
      hide History;
      active, activePath, phase := false, [], Looping;
      DidKeeps(Event.Finish);
    }

    /** `cancel` up to its wait, on another thread than the worker's. */
    method Cancel(ghost t: Thread, root: Path)
      requires Valid() && t !in adding && t !in cancelling
      modifies this
      ensures Valid() && Did(Event.Cancel(t, root))
    {
      hide History;
      EraseQueued(root);
      watches := set w | w in watches && !Within(w, root);
      cancelling, log := cancelling[t := root], log + [Cancelled(root)];
      DidKeeps(Event.Cancel(t, root));
    }

    /** The erasing loop over the queue. */
    method EraseQueued(root: Path)
      requires Mirrors(queue, queued)
      modifies `queue, `queued
      ensures queue == Without(old(queue), root)
      ensures queued == set p | p in old(queued) && !Within(p, root)
    {
      hide Mirrors, Erased;
      ghost var q0, set0 := queue, queued;
      var i := 0;
      ghost var n := 0;
      EraseBegins(q0, set0, root);
      while i < |queue|
        invariant i <= |queue| && n <= |q0| && |queue| - i == |q0| - n
        invariant Erased(q0, set0, root, n, queue, queued, i)
        decreases |q0| - n
      {
        EraseTurn(q0, set0, root, n, queue, queued, i);
        if Within(queue[i], root) {
          queued, queue := queued - {queue[i]}, queue[..i] + queue[i + 1..];
        } else {
          i := i + 1;
        }
        n := n + 1;
      }
      EraseEnds(q0, set0, root, queue, queued, i);
    }

    method ReturnCancel(ghost t: Thread, root: Path)
      requires Valid() && t in cancelling && cancelling[t] == root && ClearOf(View(), root)
      modifies this
      ensures Valid() && Did(Event.ReturnCancel(t))
    {
      hide History;
      cancelling, log := cancelling - {t}, log + [CancelReturned(root)];
      DidKeeps(Event.ReturnCancel(t));
    }

    method Watch(root: Path) returns (ok: bool)
      requires Valid()
      modifies this
      ensures Valid() && (if ok then Did(Event.Watch(root)) else View() == old(View()))
      ensures !ok <==> old(|watches| >= MAXIMUM_ROOTS && root !in watches)
    {
      hide History;
      if |watches| >= MAXIMUM_ROOTS && root !in watches {
        return false;
      }
      watches := watches + {root};
      Start();
      DidKeeps(Event.Watch(root));
      return true;
    }

    method Unwatch(root: Path)
      requires Valid()
      modifies this
      ensures Valid() && Did(Event.Unwatch(root))
    {
      hide History;
      watches := watches - {root};
      DidKeeps(Event.Unwatch(root));
    }

    /** The destructor's section; it then joins the worker. */
    method Stop()
      requires Valid()
      modifies this
      ensures Valid() && Did(Event.Stop)
    {
      hide History;
      stopping := true;
      DidKeeps(Event.Stop);
    }
  }

  /** The first `n` entries have been visited, those outside the root kept before position `i`. */
  ghost predicate Erased(q0: seq<Path>, set0: set<Path>, root: Path, n: nat, queue: seq<Path>, queued: set<Path>, i: nat) {
    && n <= |q0| && i <= |queue| && queue[..i] == Without(q0[..n], root) && queue[i..] == q0[n..]
    && queued == set p | p in set0 && !(p in q0[..n] && Within(p, root))
  }

  lemma EraseBegins(q0: seq<Path>, set0: set<Path>, root: Path)
    ensures Erased(q0, set0, root, 0, q0, set0, 0)
  {
  }

  lemma EraseTurn(q0: seq<Path>, set0: set<Path>, root: Path, n: nat, queue: seq<Path>, queued: set<Path>, i: nat)
    requires Erased(q0, set0, root, n, queue, queued, i) && i < |queue|
    ensures n < |q0| && queue[i] == q0[n]
    ensures Within(queue[i], root) ==> Erased(q0, set0, root, n + 1, queue[..i] + queue[i + 1..], queued - {queue[i]}, i)
    ensures !Within(queue[i], root) ==> Erased(q0, set0, root, n + 1, queue, queued, i + 1)
  {
    assert queue[i] == queue[i..][0] == q0[n..][0] == q0[n];
    assert q0[..n + 1] == q0[..n] + [q0[n]] && q0[..n + 1][..n] == q0[..n];
    assert queue[i + 1..] == queue[i..][1..] == q0[n..][1..] == q0[n + 1..];
    if Within(queue[i], root) {
      var shorter := queue[..i] + queue[i + 1..];
      assert shorter[..i] == queue[..i] && shorter[i..] == queue[i + 1..];
    } else {
      assert queue[..i + 1] == queue[..i] + [queue[i]];
    }
  }

  lemma EraseEnds(q0: seq<Path>, set0: set<Path>, root: Path, queue: seq<Path>, queued: set<Path>, i: nat)
    requires Erased(q0, set0, root, |q0|, queue, queued, i) && i == |queue| && Mirrors(q0, set0)
    ensures queue == Without(q0, root) && queued == set p | p in set0 && !Within(p, root)
  {
    assert q0[..|q0|] == q0 && queue[..i] == queue;
  }
}
