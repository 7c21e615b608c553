/** The batch readers and the snapshot batch: sizes are checked before any worker starts, workers
    claim indices from an atomic cursor, and cleanup claims them the same way. Every atomic
    operation is a step of its own, in any interleaving of any number of workers. */
module BatchWorkers {
  import opened Wrappers

  type Worker = nat
  type Bytes = seq<bv8>

  const MAXIMUM_BYTES: nat := 16 * 1024 * 1024

  // ----- The size check before the workers

  function Sum(sizes: seq<nat>): nat {
    if sizes == [] then 0 else Sum(sizes[..|sizes| - 1]) + sizes[|sizes| - 1]
  }

  lemma {:induction false} SumPrefix(sizes: seq<nat>, n: nat)
    requires n <= |sizes|
    ensures Sum(sizes[..n]) <= Sum(sizes)
  {
    if n == |sizes| {
      assert sizes[..n] == sizes;
    } else {
      SumPrefix(sizes[..|sizes| - 1], n);
      assert sizes[..|sizes| - 1][..n] == sizes[..n];
    }
  }

  /** The remaining budget is counted down, so that the sum is never formed. */
  method CheckSizes(sizes: seq<nat>, maximumFiles: nat) returns (ok: bool)
    ensures ok <==> 0 < |sizes| <= maximumFiles && Sum(sizes) <= MAXIMUM_BYTES
  {
    if sizes == [] || |sizes| > maximumFiles {
      return false;
    }
    var remaining, i := MAXIMUM_BYTES, 0;
    while i < |sizes|
      invariant 0 <= i <= |sizes| && remaining >= 0 && remaining == MAXIMUM_BYTES - Sum(sizes[..i])
    {
      assert sizes[..i + 1][..i] == sizes[..i];
      if sizes[i] > remaining {
        SumPrefix(sizes, i + 1);
        return false;
      }
      remaining, i := remaining - sizes[i], i + 1;
    }
    assert sizes[..i] == sizes;
    return true;
  }

  // ----- The workers

  datatype Phase = Checking | Claiming | Working(index: nat) | Failing | Finished

  /** `claims[i]` is the worker that claimed index `i`. */
  datatype State = State(
    sizes: seq<nat>,
    cursor: nat,
    failed: bool,
    claims: seq<Worker>,
    filled: map<nat, Bytes>,
    errors: set<nat>,
    workers: map<Worker, Phase>)

  datatype Event =
    | Spawn(w: Worker)
    | LoadFailed(w: Worker)
    | FetchAdd(w: Worker)
    | Succeed(w: Worker, bytes: Bytes)
    | Throw(w: Worker)
    | StoreFailed(w: Worker)

  function Start(sizes: seq<nat>): State { State(sizes, 0, false, [], map[], {}, map[]) }

  function Step(s: State, e: Event): Option<State> {
    match e
    case Spawn(w) => if w in s.workers then None else Some(s.(workers := s.workers[w := Checking]))
    case LoadFailed(w) =>
      if w !in s.workers || s.workers[w] != Checking then None
      else Some(s.(workers := s.workers[w := if s.failed then Finished else Claiming]))
    case FetchAdd(w) =>
      if w !in s.workers || s.workers[w] != Claiming then None
      else if s.cursor >= |s.sizes| then Some(s.(cursor := s.cursor + 1, workers := s.workers[w := Finished]))
      else Some(s.(cursor := s.cursor + 1, claims := s.claims + [w], workers := s.workers[w := Working(s.cursor)]))
    case Succeed(w, bytes) =>
      if w !in s.workers || !s.workers[w].Working? || s.workers[w].index >= |s.sizes|
        || |bytes| != s.sizes[s.workers[w].index] then None
      else Some(s.(filled := s.filled[s.workers[w].index := bytes], workers := s.workers[w := Checking]))
    case Throw(w) =>
      if w !in s.workers || !s.workers[w].Working? then None
      else Some(s.(errors := s.errors + {s.workers[w].index}, workers := s.workers[w := Failing]))
    case StoreFailed(w) =>
      if w !in s.workers || s.workers[w] != Failing then None
      else Some(s.(failed := true, workers := s.workers[w := Checking]))
  }

  function Run(sizes: seq<nat>, events: seq<Event>): Option<State> {
    if events == [] then Some(Start(sizes))
    else
      var s :- Run(sizes, events[..|events| - 1]);
      Step(s, events[|events| - 1])
  }

  /** What has become of a claimed index: read, failed, or in the hands of the one that claimed it. */
  ghost predicate Accounted(s: State, i: nat)
    requires i < |s.claims|
  {
    || (i in s.filled && i !in s.errors)
    || (i in s.errors && i !in s.filled)
    || (i !in s.filled && i !in s.errors && s.claims[i] in s.workers && s.workers[s.claims[i]] == Working(i))
  }

  ghost predicate WorkerOk(s: State, w: Worker)
    requires w in s.workers
  {
    match s.workers[w]
    case Working(i) => i < |s.claims| && s.claims[i] == w && i !in s.filled && i !in s.errors
    case Failing => s.errors != {}
    case Finished => s.failed || s.cursor >= |s.sizes|
    case _ => true
  }

  ghost predicate Inv(s: State) {
    && |s.claims| == (if s.cursor < |s.sizes| then s.cursor else |s.sizes|)
    && (s.failed ==> s.errors != {})
    && (forall i :: i in s.filled ==> i < |s.claims| && |s.filled[i]| == s.sizes[i])
    && (forall i :: i in s.errors ==> i < |s.claims|)
    && (forall i: nat :: i < |s.claims| ==> Accounted(s, i))
    && (forall w :: w in s.workers ==> WorkerOk(s, w))
  }

  lemma StepKeeps(s: State, e: Event)
    requires Inv(s) && Step(s, e).Some?
    ensures Inv(Step(s, e).value)
    ensures s.claims <= Step(s, e).value.claims && Step(s, e).value.sizes == s.sizes
  {
    hide WorkerOk, Accounted;
    var s' := Step(s, e).value;
    ItemsKeep(s, e);
    ClaimsKeep(s, e);
    forall w | w in s'.workers
      ensures WorkerOk(s', w)
    {
      WorkerKeeps(s, e, w);
    }
  }

  lemma ItemsKeep(s: State, e: Event)
    requires Inv(s) && Step(s, e).Some?
    ensures var s' := Step(s, e).value;
      && |s'.claims| == (if s'.cursor < |s'.sizes| then s'.cursor else |s'.sizes|)
      && (s'.failed ==> s'.errors != {})
      && (forall i :: i in s'.filled ==> i < |s'.claims| && |s'.filled[i]| == s'.sizes[i])
      && (forall i :: i in s'.errors ==> i < |s'.claims|)
  {
    hide Accounted;
    if e.StoreFailed? || e.Succeed? || e.Throw? {
      assert WorkerOk(s, e.w);
    }
  }

  lemma ClaimsKeep(s: State, e: Event)
    requires Inv(s) && Step(s, e).Some?
    ensures var s' := Step(s, e).value; forall i: nat :: i < |s'.claims| ==> Accounted(s', i)
  {
    var s' := Step(s, e).value;
    if e.w in s.workers {
      assert WorkerOk(s, e.w);
    }
    forall i: nat | i < |s'.claims|
      ensures Accounted(s', i)
    {
      if i < |s.claims| {
        assert Accounted(s, i);
      }
    }
  }

  lemma WorkerKeeps(s: State, e: Event, w: Worker)
    requires Inv(s) && Step(s, e).Some? && w in Step(s, e).value.workers
    ensures WorkerOk(Step(s, e).value, w)
  {
    hide Accounted;
    if w in s.workers {
      assert WorkerOk(s, w);
    }
    if e.w in s.workers {
      assert WorkerOk(s, e.w);
    }
  }

  lemma {:induction false} RunKeeps(sizes: seq<nat>, events: seq<Event>)
    requires Run(sizes, events).Some?
    ensures Inv(Run(sizes, events).value) && Run(sizes, events).value.sizes == sizes
  {
    hide Inv;
    if events == [] {
      StartOk(sizes);
    } else {
      RunKeeps(sizes, events[..|events| - 1]);
      StepKeeps(Run(sizes, events[..|events| - 1]).value, events[|events| - 1]);
    }
  }

  lemma StartOk(sizes: seq<nat>)
    ensures Inv(Start(sizes))
  {
  }

  lemma {:induction false} RunGrows(sizes: seq<nat>, before: seq<Event>, after: seq<Event>)
    requires Run(sizes, before + after).Some?
    ensures Run(sizes, before).Some? && Run(sizes, before).value.claims <= Run(sizes, before + after).value.claims
    decreases |after|
  {
    hide Inv, Step;
    if after == [] {
      assert before + after == before;
    } else {
      var shorter := after[..|after| - 1];
      assert (before + after)[..|before + after| - 1] == before + shorter;
      RunGrows(sizes, before, shorter);
      RunKeeps(sizes, before + shorter);
      StepKeeps(Run(sizes, before + shorter).value, after[|after| - 1]);
    }
  }

  /** Once an index is claimed, at any later point of the run its claim stands, nobody but its claimer
      works on it, and the next claim is of another index. */
  lemma ClaimedOnce(sizes: seq<nat>, before: seq<Event>, after: seq<Event>, i: nat)
    requires Run(sizes, before).Some? && Run(sizes, before + after).Some? && i < |Run(sizes, before).value.claims|
    ensures var s, s' := Run(sizes, before).value, Run(sizes, before + after).value;
      && i < |s'.claims| && s'.claims[i] == s.claims[i]
      && (forall w :: w in s'.workers && s'.workers[w] == Working(i) ==> w == s.claims[i])
      && (forall w :: Step(s', FetchAdd(w)).Some? ==> Step(s', FetchAdd(w)).value.workers[w] != Working(i))
  {
    hide Run;
    RunGrows(sizes, before, after);
    RunKeeps(sizes, before + after);
    var s' := Run(sizes, before + after).value;
    forall w | w in s'.workers && s'.workers[w] == Working(i)
      ensures w == s'.claims[i]
    {
      assert WorkerOk(s', w);
    }
  }

  ghost predicate Joined(s: State) {
    s.workers != map[] && forall w :: w in s.workers ==> s.workers[w] == Finished
  }

  /** After the join with no error recorded, every item is filled, and the bytes are within the budget. */
  lemma JoinedIsComplete(sizes: seq<nat>, events: seq<Event>)
    requires Run(sizes, events).Some? && Joined(Run(sizes, events).value) && Run(sizes, events).value.errors == {}
    requires Sum(sizes) <= MAXIMUM_BYTES
    ensures var filled := Run(sizes, events).value.filled;
      && (forall i :: i in filled <==> 0 <= i < |sizes|)
      && Sum(Lengths(filled, |sizes|)) <= MAXIMUM_BYTES
  {
    hide Run;
    RunKeeps(sizes, events);
    var s := Run(sizes, events).value;
    AllFilled(s);
    assert Lengths(s.filled, |sizes|) == sizes;
  }

  lemma AllFilled(s: State)
    requires Inv(s) && Joined(s) && s.errors == {}
    ensures forall i :: i in s.filled <==> 0 <= i < |s.sizes|
  {
    var w :| w in s.workers;
    assert WorkerOk(s, w);
    forall i: nat | i < |s.sizes|
      ensures i in s.filled
    {
      assert Accounted(s, i);
    }
  }

  function Lengths(filled: map<nat, Bytes>, n: nat): (lengths: seq<nat>)
    requires forall i: nat :: i < n ==> i in filled
    ensures |lengths| == n && forall i :: 0 <= i < n ==> lengths[i] == |filled[i]|
  {
    seq(n, i requires 0 <= i < n => |filled[i]|)
  }

  // ----- Cleanup

  datatype CleanPhase = Fetching | Resetting(index: nat) | Drained

  /** `resets[i]` counts how often slot `i` was reset. */
  datatype Cleanup = Cleanup(cursor: nat, resets: seq<nat>, cleaners: map<Worker, CleanPhase>)

  datatype CleanEvent = Join(w: Worker) | Fetch(w: Worker) | Reset(w: Worker)

  function Unclean(n: nat): Cleanup { Cleanup(0, seq(n, _ => 0), map[]) }

  /** Starting a cleaner may fail at any point: then `Join` simply does not happen again. */
  function CleanStep(c: Cleanup, e: CleanEvent): Option<Cleanup> {
    match e
    case Join(w) => if w in c.cleaners then None else Some(c.(cleaners := c.cleaners[w := Fetching]))
    case Fetch(w) =>
      if w !in c.cleaners || c.cleaners[w] != Fetching then None
      else Some(c.(cursor := c.cursor + 1, cleaners := c.cleaners[w := if c.cursor < |c.resets| then Resetting(c.cursor) else Drained]))
    case Reset(w) =>
      if w !in c.cleaners || !c.cleaners[w].Resetting? || c.cleaners[w].index >= |c.resets| then None
      else
        var i := c.cleaners[w].index;
        Some(c.(resets := c.resets[i := c.resets[i] + 1], cleaners := c.cleaners[w := Fetching]))
  }

  function CleanRun(n: nat, events: seq<CleanEvent>): Option<Cleanup> {
    if events == [] then Some(Unclean(n))
    else
      var c :- CleanRun(n, events[..|events| - 1]);
      CleanStep(c, events[|events| - 1])
  }

  /** A slot is untouched, in the hands of exactly one cleaner, or reset once. */
  ghost predicate SlotOk(c: Cleanup, i: nat)
    requires i < |c.resets|
  {
    if i >= c.cursor then c.resets[i] == 0
    else c.resets[i] == 1 || (c.resets[i] == 0 && exists w :: w in c.cleaners && c.cleaners[w] == Resetting(i))
  }

  ghost predicate CleanerOk(c: Cleanup, w: Worker)
    requires w in c.cleaners
  {
    match c.cleaners[w]
    case Resetting(i) => i < |c.resets| && i < c.cursor && c.resets[i] == 0
    case Drained => c.cursor >= |c.resets|
    case Fetching => true
  }

  ghost predicate Apart(c: Cleanup) {
    forall v, w :: v in c.cleaners && w in c.cleaners && c.cleaners[v].Resetting? && c.cleaners[v] == c.cleaners[w] ==> v == w
  }

  ghost predicate CleanInv(c: Cleanup) {
    && (forall i: nat :: i < |c.resets| ==> SlotOk(c, i))
    && (forall w :: w in c.cleaners ==> CleanerOk(c, w))
    && Apart(c)
  }

  lemma CleanStepKeeps(c: Cleanup, e: CleanEvent)
    requires CleanInv(c) && CleanStep(c, e).Some?
    ensures CleanInv(CleanStep(c, e).value) && |CleanStep(c, e).value.resets| == |c.resets|
  {
    hide SlotOk, CleanerOk, Apart;
    var c' := CleanStep(c, e).value;
    forall i: nat | i < |c'.resets|
      ensures SlotOk(c', i)
    {
      SlotKeeps(c, e, i);
    }
    forall w | w in c'.cleaners
      ensures CleanerOk(c', w)
    {
      CleanerKeeps(c, e, w);
    }
    ApartKeeps(c, e);
  }

  lemma SlotKeeps(c: Cleanup, e: CleanEvent, i: nat)
    requires CleanInv(c) && CleanStep(c, e).Some? && i < |c.resets|
    ensures var c' := CleanStep(c, e).value; |c'.resets| == |c.resets| && SlotOk(c', i)
  {
    var c' := CleanStep(c, e).value;
    assert SlotOk(c, i);
    if e.w in c.cleaners {
      assert CleanerOk(c, e.w);
    }
    if i < c.cursor && c.resets[i] == 0 {
      var w :| w in c.cleaners && c.cleaners[w] == Resetting(i);
      assert w != e.w ==> c'.cleaners[w] == Resetting(i);
    } else if e.Fetch? && i == c.cursor {
      assert c'.cleaners[e.w] == Resetting(i);
    }
  }

  lemma CleanerKeeps(c: Cleanup, e: CleanEvent, w: Worker)
    requires CleanInv(c) && CleanStep(c, e).Some? && w in CleanStep(c, e).value.cleaners
    ensures CleanerOk(CleanStep(c, e).value, w)
  {
    if w in c.cleaners {
      assert CleanerOk(c, w);
    }
    if e.w in c.cleaners {
      assert CleanerOk(c, e.w);
      if e.Fetch? && c.cursor < |c.resets| {
        assert SlotOk(c, c.cursor);
      }
    }
  }

  lemma ApartKeeps(c: Cleanup, e: CleanEvent)
    requires CleanInv(c) && CleanStep(c, e).Some?
    ensures Apart(CleanStep(c, e).value)
  {
    var c' := CleanStep(c, e).value;
    forall v, w | v in c'.cleaners && w in c'.cleaners && c'.cleaners[v].Resetting? && c'.cleaners[v] == c'.cleaners[w]
      ensures v == w
    {
      if v in c.cleaners && w in c.cleaners {
        assert CleanerOk(c, v) && CleanerOk(c, w);
      }
    }
  }

  lemma {:induction false} CleanRunKeeps(n: nat, events: seq<CleanEvent>)
    requires CleanRun(n, events).Some?
    ensures CleanInv(CleanRun(n, events).value) && |CleanRun(n, events).value.resets| == n
  {
    hide CleanInv;
    if events == [] {
      UncleanOk(n);
    } else {
      CleanRunKeeps(n, events[..|events| - 1]);
      CleanStepKeeps(CleanRun(n, events[..|events| - 1]).value, events[|events| - 1]);
    }
  }

  lemma UncleanOk(n: nat)
    ensures CleanInv(Unclean(n))
  {
  }

  /** Whatever cleaners could be started beside the caller: once all have drained, every slot was
      reset exactly once. */
  lemma EverySlotOnce(n: nat, events: seq<CleanEvent>, caller: Worker, i: nat)
    requires CleanRun(n, events).Some? && i < n
    requires var c := CleanRun(n, events).value;
      caller in c.cleaners && forall w :: w in c.cleaners ==> c.cleaners[w] == Drained
    ensures var c := CleanRun(n, events).value; |c.resets| == n && c.resets[i] == 1
  {
    hide CleanRun;
    CleanRunKeeps(n, events);
    assert SlotOk(CleanRun(n, events).value, i);
  }
}
