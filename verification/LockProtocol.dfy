/** The output guard `.iisacc-lock` as interleaved steps: exclusive creation, the inode lock, the
    ownership text, release, and recovery from a dead owner. Every system call is a step of its
    own, and a process may stop between any two of them. */
module LockProtocol {
  import opened Wrappers

  type Actor = nat
  type Inode = nat

  /** A process identifier on a host; identifiers may be used again. */
  datatype Process = Process(host: string, pid: nat)

  /** What the guard file says: nothing readable yet, or its owner. */
  datatype Content = Unwritten | Owner(who: Process)

  /** Where an attempt to hold the guard stands. */
  datatype Phase =
    | Trying(attempt: nat)
    | Created(file: Inode)
    | Locked(file: Inode)
    | Holding(file: Inode)
    | Leaving(file: Inode)
    | Unlinking(file: Inode)
    | Closing(file: Inode)
    | Suspecting
    | Opening
    | Opened(file: Inode)
    | Guarded(file: Inode)
    | Same(file: Inode)
    | Reclaiming(file: Inode)
    | Reclaimed(file: Inode)
    | Failed
    | Done

  datatype State = State(
    path: Option<Inode>,
    content: map<Inode, Content>,
    lock: map<Inode, Actor>,
    phase: map<Actor, Phase>,
    process: map<Actor, Process>,
    alive: set<Process>,
    next: Inode)

  datatype Event =
    | StartProcess(p: Process)
    | ExitProcess(p: Process)
    | Begin(a: Actor, p: Process)
    | Step(a: Actor)
    | Fail(a: Actor)

  function ContentOf(s: State, i: Inode): Content { if i in s.content then s.content[i] else Unwritten }

  /** `dead_local_owner` on the path: readable, of this host, and no such process. */
  predicate DeadOwner(s: State, host: string) {
    s.path.Some? && var c := ContentOf(s, s.path.value); c.Owner? && c.who.host == host && c.who !in s.alive
  }

  function Move(s: State, a: Actor, ph: Phase): State { s.(phase := s.phase[a := ph]) }

  /** Closing a descriptor gives up the inode lock it holds. */
  function Unlock(s: State, a: Actor, i: Inode): State {
    if i in s.lock && s.lock[i] == a then s.(lock := s.lock - {i}) else s
  }

  /** The actor's next system call. */
  function Advance(s: State, a: Actor): Option<State>
    requires a in s.phase && a in s.process
  {
    match s.phase[a]
    case Trying(attempt) =>
      if s.path == None then Some(Move(s.(path := Some(s.next), content := s.content - {s.next}, next := s.next + 1), a, Created(s.next)))
      else Some(Move(s, a, if attempt == 0 then Suspecting else Failed))
    case Created(i) =>
      if i in s.lock then Some(Move(s, a, Leaving(i))) else Some(Move(s.(lock := s.lock[i := a]), a, Locked(i)))
    case Locked(i) => Some(Move(s.(content := s.content[i := Owner(s.process[a])]), a, Holding(i)))
    case Holding(i) => Some(Move(s, a, Leaving(i)))
    case Leaving(i) => Some(Move(s, a, if s.path == Some(i) then Unlinking(i) else Closing(i)))
    case Unlinking(i) => Some(Move(s.(path := None), a, Closing(i)))
    case Closing(i) => Some(Move(Unlock(s, a, i), a, Done))
    case Suspecting => Some(Move(s, a, if DeadOwner(s, s.process[a].host) then Opening else Failed))
    case Opening => Some(Move(s, a, if s.path == None then Failed else Opened(s.path.value)))
    case Opened(i) =>
      if i in s.lock then Some(Move(s, a, Failed)) else Some(Move(s.(lock := s.lock[i := a]), a, Guarded(i)))
    case Guarded(i) => if s.path == Some(i) then Some(Move(s, a, Same(i))) else Some(Move(Unlock(s, a, i), a, Failed))
    case Same(i) =>
      if DeadOwner(s, s.process[a].host) then Some(Move(s, a, Reclaiming(i))) else Some(Move(Unlock(s, a, i), a, Failed))
    case Reclaiming(i) =>
      if s.path == None then Some(Move(Unlock(s, a, i), a, Failed)) else Some(Move(s.(path := None), a, Reclaimed(i)))
    case Reclaimed(i) => Some(Move(Unlock(s, a, i), a, Trying(1)))
    case Failed => None
    case Done => None
  }

  /** A system call that fails: an owner's constructor unwinds, a reclaimer gives up. */
  function GiveUp(s: State, a: Actor): Option<State>
    requires a in s.phase
  {
    match s.phase[a]
    case Trying(_) => Some(Move(s, a, Failed))
    case Locked(i) => Some(Move(s, a, Leaving(i)))
    case Leaving(i) => Some(Move(s, a, Closing(i)))
    case Unlinking(i) => Some(Move(s, a, Closing(i)))
    case Opening => Some(Move(s, a, Failed))
    case Opened(_) => Some(Move(s, a, Failed))
    case Guarded(i) => Some(Move(Unlock(s, a, i), a, Failed))
    case Same(i) => Some(Move(Unlock(s, a, i), a, Failed))
    case Reclaiming(i) => Some(Move(Unlock(s, a, i), a, Failed))
    case _ => None
  }

  /** A process ends anywhere: its attempts vanish and the kernel drops their locks. */
  function Exit(s: State, p: Process): State {
    var gone := set a | a in s.process && s.process[a] == p;
    s.(alive := s.alive - {p}, phase := s.phase - gone, process := s.process - gone,
       lock := map i | i in s.lock && s.lock[i] !in gone :: s.lock[i])
  }

  function Next(s: State, e: Event): Option<State> {
    match e
    case StartProcess(p) => if p in s.alive then None else Some(s.(alive := s.alive + {p}))
    case ExitProcess(p) => if p in s.alive then Some(Exit(s, p)) else None
    case Begin(a, p) =>
      if a in s.phase || a in s.process || p !in s.alive then None
      else Some(s.(phase := s.phase[a := Trying(0)], process := s.process[a := p]))
    case Step(a) => if a in s.phase && a in s.process then Advance(s, a) else None
    case Fail(a) => if a in s.phase && a in s.process then GiveUp(s, a) else None
  }

  /** The creator of a guard finds it locked by another: the branch that throws before writing. */
  predicate LosesLock(s: State, e: Event) {
    e.Step? && e.a in s.phase && s.phase[e.a].Created? && s.phase[e.a].file in s.lock
  }

  // ----- What the protocol keeps

  /** A live owner: from the creation of its guard until it starts to release it. */
  predicate Owns(ph: Phase, i: Inode) {
    (ph.Created? || ph.Locked? || ph.Holding?) && ph.file == i
  }

  predicate Creator(ph: Phase, i: Inode) {
    Owns(ph, i) || ((ph.Leaving? || ph.Unlinking? || ph.Closing?) && ph.file == i)
  }

  /** Phases that hold the inode lock. */
  predicate HoldsLock(ph: Phase, i: Inode) {
    (ph.Locked? || ph.Holding? || ph.Leaving? || ph.Unlinking? || ph.Closing? || ph.Guarded? || ph.Same? || ph.Reclaiming? || ph.Reclaimed?)
    && ph.file == i
  }

  /** Phases that have compared the path with their file and may go on to unlink it. */
  predicate Compared(ph: Phase, i: Inode) {
    (ph.Unlinking? || ph.Same? || ph.Reclaiming?) && ph.file == i
  }

  predicate HasFile(ph: Phase) {
    !(ph.Trying? || ph.Suspecting? || ph.Opening? || ph.Failed? || ph.Done?)
  }

  /** Two attempts that created the same file. */
  predicate SameCreation(p: Phase, q: Phase) {
    HasFile(p) && HasFile(q) && p.file == q.file && Creator(p, p.file) && Creator(q, q.file)
  }

  ghost predicate ActorOk(s: State, a: Actor)
    requires a in s.phase
  {
    var ph := s.phase[a];
    HasFile(ph) ==>
      var i := ph.file;
      && i < s.next
      && (HoldsLock(ph, i) ==> i in s.lock && s.lock[i] == a)
      && (Compared(ph, i) || Owns(ph, i) ==> s.path == Some(i))
      && (ph.Created? || ph.Locked? ==> ContentOf(s, i) == Unwritten)
      && (ph.Reclaiming? || ph.Reclaimed? ==> ContentOf(s, i).Owner?)
  }

  ghost predicate ActorsOk(s: State) {
    forall a :: a in s.phase ==> ActorOk(s, a)
  }

  ghost predicate LocksOk(s: State) {
    forall i :: i in s.lock ==> i < s.next && s.lock[i] in s.phase && HoldsLock(s.phase[s.lock[i]], i)
  }

  ghost predicate CreationsOk(s: State) {
    forall a, b :: a in s.phase && b in s.phase && SameCreation(s.phase[a], s.phase[b]) ==> a == b
  }

  ghost predicate Inv(s: State) {
    && s.phase.Keys == s.process.Keys
    && (s.path.Some? ==> s.path.value < s.next)
    && ActorsOk(s) && LocksOk(s) && CreationsOk(s)
  }

  /** At most one live owner. */
  ghost predicate MutualExclusion(s: State) {
    forall a, b, i: Inode, j: Inode :: a in s.phase && b in s.phase && Owns(s.phase[a], i) && Owns(s.phase[b], j) ==> a == b
  }

  /** The path still names every live owner's guard. */
  ghost predicate GuardsInPlace(s: State) {
    forall a, i: Inode :: a in s.phase && Owns(s.phase[a], i) ==> s.path == Some(i)
  }

  lemma InvIsSafe(s: State)
    requires Inv(s)
    ensures MutualExclusion(s) && GuardsInPlace(s)
  {
    forall a, i: Inode | a in s.phase && Owns(s.phase[a], i)
      ensures s.path == Some(i)
    {
      assert ActorOk(s, a);
    }
  }

  // ----- One lemma for each kind of effect

  /** What a step of another actor must leave alone. */
  ghost predicate Undisturbed(s: State, s': State, b: Actor)
    requires b in s.phase
  {
    && b in s'.phase && s'.phase[b] == s.phase[b] && s.next <= s'.next
    && (forall i :: i in s.lock && s.lock[i] == b ==> i in s'.lock && s'.lock[i] == b)
    && (HasFile(s.phase[b]) ==>
      var i := s.phase[b].file;
      (s'.path == s.path || !(Owns(s.phase[b], i) || Compared(s.phase[b], i)))
      && (ContentOf(s', i) == ContentOf(s, i)))
  }

  lemma OtherKeeps(s: State, s': State, b: Actor)
    requires b in s.phase && ActorOk(s, b) && Undisturbed(s, s', b)
    ensures ActorOk(s', b)
  {
    hide Owns, Compared, HoldsLock, ContentOf, HasFile;
  }

  lemma ActorsKeep(s: State, s': State, a: Actor)
    requires ActorsOk(s) && a in s.phase && s'.phase.Keys == s.phase.Keys && ActorOk(s', a)
    requires forall b :: b in s.phase && b != a ==> Undisturbed(s, s', b)
    ensures ActorsOk(s')
  {
    hide ActorOk, Undisturbed;
    forall b | b in s'.phase
      ensures ActorOk(s', b)
    {
      if b != a {
        OtherKeeps(s, s', b);
      }
    }
  }

  /** A step that creates nothing keeps creations apart. */
  lemma CreationsKeep(s: State, s': State, a: Actor)
    requires CreationsOk(s) && a in s.phase && s'.phase.Keys == s.phase.Keys
    requires forall b :: b in s.phase && b != a ==> s'.phase[b] == s.phase[b]
    requires forall i: Inode :: Creator(s'.phase[a], i) ==> Creator(s.phase[a], i)
    ensures CreationsOk(s')
  {
    forall b, c | b in s'.phase && c in s'.phase && SameCreation(s'.phase[b], s'.phase[c])
      ensures b == c
    {
      CreatorHasFile(s.phase[b], s'.phase[b].file);
      CreatorHasFile(s.phase[c], s'.phase[c].file);
      assert SameCreation(s.phase[b], s.phase[c]);
    }
  }

  lemma CreatorHasFile(ph: Phase, i: Inode)
    requires Creator(ph, i)
    ensures HasFile(ph) && ph.file == i
  {
  }

  /** Only the actor's phase changes. */
  lemma MoveKeeps(s: State, a: Actor, ph: Phase)
    requires Inv(s) && a in s.phase && ActorOk(Move(s, a, ph), a)
    requires forall i: Inode :: HoldsLock(s.phase[a], i) ==> HoldsLock(ph, i)
    requires forall i: Inode :: Creator(ph, i) ==> Creator(s.phase[a], i)
    ensures Inv(Move(s, a, ph))
  {
    hide ActorOk, ActorsOk, CreationsOk, HoldsLock, Creator, Owns, Compared, HasFile;
    ActorsKeep(s, Move(s, a, ph), a);
    CreationsKeep(s, Move(s, a, ph), a);
  }

  /** The inode lock is taken. */
  lemma AcquireKeeps(s: State, a: Actor, i: Inode, ph: Phase)
    requires Inv(s) && a in s.phase && i !in s.lock
    requires (s.phase[a] == Created(i) && ph == Locked(i)) || (s.phase[a] == Opened(i) && ph == Guarded(i))
    ensures Inv(Move(s.(lock := s.lock[i := a]), a, ph))
  {
    hide ActorsOk, LocksOk, CreationsOk, ActorOk;
    var s' := Move(s.(lock := s.lock[i := a]), a, ph);
    ActorFacts(s, a);
    AcquiredActor(s, a, i, ph);
    AcquireLocks(s, a, i, ph);
    forall b | b in s.phase && b != a
      ensures Undisturbed(s, s', b)
    {
    }
    ActorsKeep(s, s', a);
    CreationsKeep(s, s', a);
  }

  lemma AcquiredActor(s: State, a: Actor, i: Inode, ph: Phase)
    requires a in s.phase && ActorOk(s, a)
    requires (s.phase[a] == Created(i) && ph == Locked(i)) || (s.phase[a] == Opened(i) && ph == Guarded(i))
    ensures i < s.next && ActorOk(Move(s.(lock := s.lock[i := a]), a, ph), a)
  {
  }

  lemma AcquireLocks(s: State, a: Actor, i: Inode, ph: Phase)
    requires LocksOk(s) && i !in s.lock && i < s.next && a in s.phase && (forall j: Inode :: !HoldsLock(s.phase[a], j)) && HoldsLock(ph, i)
    ensures LocksOk(Move(s.(lock := s.lock[i := a]), a, ph))
  {
    hide HoldsLock;
  }

  /** The descriptor is closed and the attempt holds no file any more. */
  lemma ReleaseKeeps(s: State, a: Actor, i: Inode, ph: Phase)
    requires Inv(s) && a in s.phase && HoldsLock(s.phase[a], i) && !HasFile(ph)
    ensures Inv(Move(Unlock(s, a, i), a, ph))
  {
    hide ActorsOk, LocksOk, CreationsOk;
    var s' := Move(Unlock(s, a, i), a, ph);
    ActorFacts(s, a);
    ReleaseLocks(s, a, i, ph);
    forall b | b in s.phase && b != a
      ensures Undisturbed(s, s', b)
    {
    }
    ActorsKeep(s, s', a);
    CreationsKeep(s, s', a);
  }

  lemma ReleaseLocks(s: State, a: Actor, i: Inode, ph: Phase)
    requires LocksOk(s) && a in s.phase && i in s.lock && s.lock[i] == a && HoldsLock(s.phase[a], i)
    ensures LocksOk(Move(Unlock(s, a, i), a, ph))
  {
    forall j | j in s.lock && j != i
      ensures s.lock[j] != a
    {
      OneFile(s.phase[a], i, j);
    }
  }

  lemma OneFile(ph: Phase, i: Inode, j: Inode)
    requires HoldsLock(ph, i) && i != j
    ensures !HoldsLock(ph, j)
  {
  }

  lemma CreateKeeps(s: State, a: Actor)
    requires Inv(s) && a in s.phase && s.phase[a].Trying? && s.path == None
    ensures Inv(Move(s.(path := Some(s.next), content := s.content - {s.next}, next := s.next + 1), a, Created(s.next)))
  {
    hide ActorsOk, CreationsOk;
    var s' := Move(s.(path := Some(s.next), content := s.content - {s.next}, next := s.next + 1), a, Created(s.next));
    forall b | b in s.phase && b != a
      ensures Undisturbed(s, s', b)
    {
      ActorFacts(s, b);
    }
    ActorsKeep(s, s', a);
    FreshCreation(s, s', a);
  }

  lemma FreshCreation(s: State, s': State, a: Actor)
    requires ActorsOk(s) && CreationsOk(s) && a in s.phase && s'.phase == s.phase[a := Created(s.next)]
    ensures CreationsOk(s')
  {
    hide Creator, Owns, Compared, HoldsLock;
    forall b, c | b in s'.phase && c in s'.phase && SameCreation(s'.phase[b], s'.phase[c])
      ensures b == c
    {
      assert ActorOk(s, b) && ActorOk(s, c);
      assert b != a && c != a ==> SameCreation(s.phase[b], s.phase[c]);
    }
  }

  lemma WriteKeeps(s: State, a: Actor, i: Inode, c: Content)
    requires Inv(s) && a in s.phase && s.phase[a] == Locked(i) && c.Owner?
    ensures Inv(Move(s.(content := s.content[i := c]), a, Holding(i)))
  {
    hide ActorsOk, LocksOk, CreationsOk;
    ActorFacts(s, a);
    var s1 := s.(content := s.content[i := c]);
    var s' := Move(s1, a, Holding(i));
    WriteActors(s, a, i, c);
    SameLocks(s, s', a);
    CreationsKeep(s, s', a);
  }

  lemma SameLocks(s: State, s': State, a: Actor)
    requires LocksOk(s) && a in s.phase && s'.lock == s.lock && s'.next == s.next && s'.phase.Keys == s.phase.Keys
    requires forall b :: b in s.phase && b != a ==> s'.phase[b] == s.phase[b]
    requires forall i: Inode :: HoldsLock(s.phase[a], i) ==> HoldsLock(s'.phase[a], i)
    ensures LocksOk(s')
  {
    hide HoldsLock;
  }

  /** Nobody else's claim rests on a guard that is still unwritten. */
  lemma WriteActors(s: State, a: Actor, i: Inode, c: Content)
    requires ActorsOk(s) && CreationsOk(s) && a in s.phase && s.phase[a] == Locked(i) && c.Owner?
    ensures ActorsOk(Move(s.(content := s.content[i := c]), a, Holding(i)))
  {
    var s' := Move(s.(content := s.content[i := c]), a, Holding(i));
    assert ActorOk(s, a);
    forall b | b in s'.phase
      ensures ActorOk(s', b)
    {
      assert ActorOk(s, b);
      assert b != a ==> !SameCreation(s.phase[b], s.phase[a]);
    }
  }

  /** The path is unlinked by an attempt that has compared it: nobody else relies on that file. */
  lemma UnlinkKeeps(s: State, a: Actor, i: Inode, ph: Phase)
    requires Inv(s) && a in s.phase
    requires (s.phase[a] == Unlinking(i) && ph == Closing(i)) || (s.phase[a] == Reclaiming(i) && ph == Reclaimed(i))
    ensures Inv(Move(s.(path := None), a, ph))
    ensures forall b :: b in s.phase && b != a ==> !Owns(s.phase[b], i)
  {
    hide ActorsOk, LocksOk, CreationsOk, ActorOk;
    var s' := Move(s.(path := None), a, ph);
    ActorFacts(s, a);
    forall b | b in s.phase && b != a
      ensures Undisturbed(s, s', b) && !Owns(s.phase[b], i)
    {
      NobodyElse(s, a, i, b);
      OtherFile(s, a, i, b);
    }
    UnlinkedActor(s, a, i, ph);
    ActorsKeep(s, s', a);
    SameLocks(s, s', a);
    CreationsKeep(s, s', a);
  }

  lemma UnlinkedActor(s: State, a: Actor, i: Inode, ph: Phase)
    requires a in s.phase && ActorOk(s, a)
    requires (s.phase[a] == Unlinking(i) && ph == Closing(i)) || (s.phase[a] == Reclaiming(i) && ph == Reclaimed(i))
    ensures ActorOk(Move(s.(path := None), a, ph), a)
  {
  }

  lemma NobodyElse(s: State, a: Actor, i: Inode, b: Actor)
    requires ActorsOk(s) && CreationsOk(s) && a in s.phase && b in s.phase && a != b
    requires s.phase[a] == Unlinking(i) || s.phase[a] == Reclaiming(i)
    ensures !Owns(s.phase[b], i) && !Compared(s.phase[b], i)
  {
    assert ActorOk(s, a) && ActorOk(s, b);
    assert !SameCreation(s.phase[a], s.phase[b]);
  }

  /** Whoever owns or has compared a file has the path's file. */
  lemma OtherFile(s: State, a: Actor, i: Inode, b: Actor)
    requires ActorsOk(s) && a in s.phase && b in s.phase
    requires s.phase[a] == Unlinking(i) || s.phase[a] == Reclaiming(i)
    ensures HasFile(s.phase[b]) && (Owns(s.phase[b], s.phase[b].file) || Compared(s.phase[b], s.phase[b].file)) ==> s.phase[b].file == i
  {
    assert ActorOk(s, a) && ActorOk(s, b);
  }

  lemma AdvanceKeeps(s: State, a: Actor)
    requires Inv(s) && a in s.phase && a in s.process && Advance(s, a).Some? && !LosesLock(s, Step(a))
    ensures Inv(Advance(s, a).value)
  {
    hide Inv;
    var ph := s.phase[a];
    ActorFacts(s, a);
    match ph
    case Trying(attempt) => if s.path == None { CreateKeeps(s, a); } else { MoveKeeps(s, a, if attempt == 0 then Suspecting else Failed); }
    case Created(i) => AcquireKeeps(s, a, i, Locked(i));
    case Locked(i) => WriteKeeps(s, a, i, Owner(s.process[a]));
    case Holding(i) => MoveKeeps(s, a, Leaving(i));
    case Leaving(i) => MoveKeeps(s, a, if s.path == Some(i) then Unlinking(i) else Closing(i));
    case Unlinking(i) => UnlinkKeeps(s, a, i, Closing(i));
    case Closing(i) => ReleaseKeeps(s, a, i, Done);
    case Suspecting => MoveKeeps(s, a, if DeadOwner(s, s.process[a].host) then Opening else Failed);
    case Opening => MoveKeeps(s, a, if s.path == None then Failed else Opened(s.path.value));
    case Opened(i) => if i in s.lock { MoveKeeps(s, a, Failed); } else { AcquireKeeps(s, a, i, Guarded(i)); }
    case Guarded(i) => if s.path == Some(i) { MoveKeeps(s, a, Same(i)); } else { ReleaseKeeps(s, a, i, Failed); }
    case Same(i) => if DeadOwner(s, s.process[a].host) { MoveKeeps(s, a, Reclaiming(i)); } else { ReleaseKeeps(s, a, i, Failed); }
    case Reclaiming(i) => UnlinkKeeps(s, a, i, Reclaimed(i));
    case Reclaimed(i) => ReleaseKeeps(s, a, i, Trying(1));
    case Failed =>
    case Done =>
  }

  lemma ActorFacts(s: State, a: Actor)
    requires Inv(s) && a in s.phase
    ensures ActorOk(s, a) && a in s.process && (s.path.Some? ==> s.path.value < s.next)
  {
    hide ActorOk, LocksOk, CreationsOk;
  }

  lemma GiveUpKeeps(s: State, a: Actor)
    requires Inv(s) && a in s.phase && GiveUp(s, a).Some?
    ensures Inv(GiveUp(s, a).value)
  {
    hide Inv;
    ActorFacts(s, a);
    match s.phase[a]
    case Locked(i) => MoveKeeps(s, a, Leaving(i));
    case Leaving(i) => MoveKeeps(s, a, Closing(i));
    case Unlinking(i) => MoveKeeps(s, a, Closing(i));
    case Guarded(i) => ReleaseKeeps(s, a, i, Failed);
    case Same(i) => ReleaseKeeps(s, a, i, Failed);
    case Reclaiming(i) => ReleaseKeeps(s, a, i, Failed);
    case _ => MoveKeeps(s, a, Failed);
  }

  lemma ExitKeeps(s: State, p: Process)
    requires Inv(s)
    ensures Inv(Exit(s, p))
  {
    var s' := Exit(s, p);
    forall b | b in s'.phase
      ensures ActorOk(s', b)
    {
      assert ActorOk(s, b);
    }
  }

  lemma StepKeeps(s: State, e: Event)
    requires Inv(s) && Next(s, e).Some? && !LosesLock(s, e)
    ensures Inv(Next(s, e).value)
  {
    match e
    case StartProcess(p) =>
      forall b | b in s.phase
        ensures ActorOk(Next(s, e).value, b)
      {
        assert ActorOk(s, b);
      }
    case ExitProcess(p) => ExitKeeps(s, p);
    case Begin(a, p) =>
      forall b | b in Next(s, e).value.phase
        ensures ActorOk(Next(s, e).value, b)
      {
        assert b != a ==> ActorOk(s, b);
      }
    case Step(a) => AdvanceKeeps(s, a);
    case Fail(a) => GiveUpKeeps(s, a);
  }

  // ----- Runs

  function Run(s: State, events: seq<Event>): Option<State>
    decreases |events|
  {
    if events == [] then Some(s)
    else
      var s' :- Next(s, events[0]);
      Run(s', events[1..])
  }

  /** No creator along the run ever finds its fresh guard already locked. */
  predicate NoLostLock(s: State, events: seq<Event>)
    requires Run(s, events).Some?
    decreases |events|
  {
    events == [] || (!LosesLock(s, events[0]) && NoLostLock(Next(s, events[0]).value, events[1..]))
  }

  /** Nobody has started; a guard of any content may lie at the path. */
  ghost predicate Initial(s: State) {
    s.phase == map[] && s.process == map[] && s.lock == map[] && (s.path.Some? ==> s.path.value < s.next)
  }

  lemma {:induction false} RunKeeps(s: State, events: seq<Event>)
    requires Inv(s) && Run(s, events).Some? && NoLostLock(s, events)
    ensures Inv(Run(s, events).value)
    decreases |events|
  {
    hide Inv;
    if events != [] {
      StepKeeps(s, events[0]);
      RunKeeps(Next(s, events[0]).value, events[1..]);
    }
  }

  /** No interleaving without a lost lock gives two live processes the guard or takes a live one's away. */
  lemma RunIsSafe(s: State, events: seq<Event>)
    requires Initial(s) && Run(s, events).Some? && NoLostLock(s, events)
    ensures MutualExclusion(Run(s, events).value) && GuardsInPlace(Run(s, events).value)
  {
    hide NoLostLock;
    RunKeeps(s, events);
    InvIsSafe(Run(s, events).value);
  }

  /** Whoever unlinks the path removes no live owner's guard. */
  lemma RemovesNobodys(s: State, e: Event, i: Inode)
    requires Inv(s) && Next(s, e).Some? && !LosesLock(s, e)
    requires s.path == Some(i) && Next(s, e).value.path != Some(i)
    ensures e.Step? && e.a in s.phase && forall b :: b in s.phase ==> !Owns(s.phase[b], i)
  {
    hide Inv;
    ActorFacts(s, e.a);
    var ph := s.phase[e.a];
    UnlinkKeeps(s, e.a, ph.file, if ph.Unlinking? then Closing(ph.file) else Reclaimed(ph.file));
  }

  // ----- Creation and lock as one step

  /** The step creates a guard. */
  predicate Creates(s: State, e: Event) {
    e.Step? && e.a in s.phase && s.phase[e.a].Trying? && s.path == None
  }

  /** Every creation along the run is followed at once by the creator's own next step, its lock. */
  predicate LockedAtOnce(s: State, events: seq<Event>)
    requires Run(s, events).Some?
    decreases |events|
  {
    events == [] ||
      ((Creates(s, events[0]) && |events| > 1 ==> events[1] == events[0]) && LockedAtOnce(Next(s, events[0]).value, events[1..]))
  }

  /** A guard that waits for its lock belongs to whoever moves next, and nobody has locked it. */
  ghost predicate NoneWaits(s: State, events: seq<Event>) {
    events == [] || forall b :: b in s.phase && s.phase[b].Created? ==> events[0] == Step(b) && s.phase[b].file !in s.lock
  }

  /** A guard only starts to wait by being created, and its creator's next step ends the wait. */
  lemma WaitBegins(s: State, e: Event, b: Actor)
    requires Next(s, e).Some? && b in Next(s, e).value.phase && Next(s, e).value.phase[b].Created?
    ensures if b in s.phase && s.phase[b].Created? then e != Step(b)
      else e == Step(b) && Creates(s, e) && Next(s, e).value.phase[b].file == s.next && Next(s, e).value.lock == s.lock
  {
    if e.Step? {
      StepWaits(s, e.a, b);
    } else {
      hide Advance;
    }
  }

  lemma StepWaits(s: State, a: Actor, b: Actor)
    requires a in s.phase && a in s.process && Advance(s, a).Some?
    requires b in Advance(s, a).value.phase && Advance(s, a).value.phase[b].Created?
    ensures if b in s.phase && s.phase[b].Created? then a != b
      else a == b && s.phase[a].Trying? && s.path == None && Advance(s, a).value == CreatedBy(s, a)
  {
  }

  lemma NoneWaitsNext(s: State, events: seq<Event>)
    requires Inv(s) && events != [] && NoneWaits(s, events) && Next(s, events[0]).Some?
    requires Creates(s, events[0]) && |events| > 1 ==> events[1] == events[0]
    ensures !LosesLock(s, events[0]) && NoneWaits(Next(s, events[0]).value, events[1..])
  {
    hide Next, ActorsOk, CreationsOk;
    var e, s' := events[0], Next(s, events[0]).value;
    forall b | b in s'.phase && s'.phase[b].Created? && |events| > 1
      ensures events[1] == Step(b) && s'.phase[b].file !in s'.lock
    {
      WaitBegins(s, e, b);
    }
  }

  lemma {:induction false} AtOnceLosesNoLock(s: State, events: seq<Event>)
    requires Inv(s) && Run(s, events).Some? && NoneWaits(s, events) && LockedAtOnce(s, events)
    ensures NoLostLock(s, events)
    decreases |events|
  {
    hide Inv, NoneWaits;
    if events != [] {
      NoneWaitsNext(s, events);
      StepKeeps(s, events[0]);
      AtOnceLosesNoLock(Next(s, events[0]).value, events[1..]);
    }
  }

  /** With creation and lock taken as one step, every run is safe. */
  lemma LockedAtOnceIsSafe(s: State, events: seq<Event>)
    requires Initial(s) && Run(s, events).Some? && LockedAtOnce(s, events)
    ensures NoLostLock(s, events)
    ensures MutualExclusion(Run(s, events).value) && GuardsInPlace(Run(s, events).value)
  {
    AtOnceLosesNoLock(s, events);
    RunIsSafe(s, events);
  }

  // ----- Recovery works

  /** The events lead from one state to the other, and nobody on the way loses its lock. */
  predicate Leads(s: State, events: seq<Event>, s': State) {
    Run(s, events) == Some(s') && NoLostLock(s, events)
  }

  lemma {:induction false} Onward(s: State, a: seq<Event>, s1: State, b: seq<Event>, s2: State)
    requires Leads(s, a, s1) && Leads(s1, b, s2)
    ensures Leads(s, a + b, s2)
    decreases |a|
  {
    if a == [] {
      assert a + b == b;
    } else {
      assert (a + b)[1..] == a[1..] + b;
      Onward(Next(s, a[0]).value, a[1..], s1, b, s2);
    }
  }

  lemma OneEvent(s: State, e: Event, s': State)
    requires Next(s, e) == Some(s') && !LosesLock(s, e)
    ensures Leads(s, [e], s')
  {
    assert [e][1..] == [] && Run(s', []) == Some(s');
  }

  lemma TwoEvents(s: State, e: Event, s1: State, f: Event, s2: State)
    requires Next(s, e) == Some(s1) && !LosesLock(s, e) && Next(s1, f) == Some(s2) && !LosesLock(s1, f)
    ensures Leads(s, [e, f], s2)
  {
    hide Leads;
    OneEvent(s, e, s1);
    OneEvent(s1, f, s2);
    Onward(s, [e], s1, [f], s2);
    assert [e] + [f] == [e, f];
  }

  function Steps(a: Actor, n: nat): (events: seq<Event>)
    ensures |events| == n
  {
    seq(n, _ => Step(a))
  }

  lemma Steps1(s: State, a: Actor, s1: State)
    requires a in s.phase && a in s.process && Advance(s, a) == Some(s1) && !LosesLock(s, Step(a))
    ensures Leads(s, Steps(a, 1), s1)
  {
    hide Advance, Leads;
    OneEvent(s, Step(a), s1);
    assert Steps(a, 1) == [Step(a)];
  }

  lemma Steps2(s: State, a: Actor, s1: State, s2: State)
    requires a in s.phase && a in s.process && Advance(s, a) == Some(s1) && !LosesLock(s, Step(a))
    requires a in s1.phase && a in s1.process && Advance(s1, a) == Some(s2) && !LosesLock(s1, Step(a))
    ensures Leads(s, Steps(a, 2), s2)
  {
    hide Advance, Leads;
    TwoEvents(s, Step(a), s1, Step(a), s2);
    assert Steps(a, 2) == [Step(a), Step(a)];
  }

  lemma StepsOn(s: State, a: Actor, m: nat, s1: State, n: nat, s2: State)
    requires Leads(s, Steps(a, m), s1) && Leads(s1, Steps(a, n), s2)
    ensures Leads(s, Steps(a, m + n), s2)
  {
    hide Leads;
    Onward(s, Steps(a, m), s1, Steps(a, n), s2);
    assert Steps(a, m + n) == Steps(a, m) + Steps(a, n);
  }

  /** The state in which an attempt has just created its guard. */
  function CreatedBy(s: State, a: Actor): State {
    Move(s.(path := Some(s.next), content := s.content - {s.next}, next := s.next + 1), a, Created(s.next))
  }

  /** An undisturbed attempt removes a dead owner's unlocked guard and creates its own. */
  lemma Recovers(s: State, a: Actor)
    requires a in s.phase && s.phase[a] == Trying(0) && a in s.process
    requires DeadOwner(s, s.process[a].host) && s.path.value !in s.lock
    ensures Leads(s, Steps(a, 9), CreatedBy(s, a))
  {
    hide Leads, Advance;
    var i := s.path.value;
    var s2 := Move(s, a, Opening);
    var s5 := Move(s.(lock := s.lock[i := a]), a, Same(i));
    var s7 := Move(s5.(path := None), a, Reclaimed(i));
    ToOpening(s, a);
    ToSame(s2, a, i);
    assert Move(s2.(lock := s2.lock[i := a]), a, Same(i)) == s5;
    StepsOn(s, a, 2, s2, 3, s5);
    UnlinksDead(s5, a, i);
    StepsOn(s, a, 5, s5, 2, s7);
    ClosesAndCreates(s7, a, i);
    assert s7.lock - {i} == s.lock;
    assert CreatedBy(Move(Unlock(s7, a, i), a, Trying(1)), a) == CreatedBy(s, a);
    StepsOn(s, a, 7, s7, 2, CreatedBy(s, a));
  }

  lemma ToOpening(s: State, a: Actor)
    requires a in s.phase && s.phase[a] == Trying(0) && a in s.process && DeadOwner(s, s.process[a].host)
    ensures Leads(s, Steps(a, 2), Move(s, a, Opening))
  {
    var s1 := Move(s, a, Suspecting);
    assert Advance(s1, a).value == Move(s, a, Opening);
    Steps2(s, a, s1, Move(s, a, Opening));
  }

  /** Opening, locking and comparing what lies at the path. */
  lemma ToSame(s: State, a: Actor, i: Inode)
    requires a in s.phase && s.phase[a] == Opening && a in s.process && s.path == Some(i) && i !in s.lock
    ensures Leads(s, Steps(a, 3), Move(s.(lock := s.lock[i := a]), a, Same(i)))
  {
    hide Leads;
    var s1 := Move(s, a, Opened(i));
    var s2 := Move(s1.(lock := s1.lock[i := a]), a, Guarded(i));
    var s3 := Move(s.(lock := s.lock[i := a]), a, Same(i));
    assert s2.phase[a := Same(i)] == s3.phase;
    Steps1(s, a, s1);
    Steps2(s1, a, s2, s3);
    StepsOn(s, a, 1, s1, 2, s3);
  }

  lemma UnlinksDead(s: State, a: Actor, i: Inode)
    requires a in s.phase && s.phase[a] == Same(i) && a in s.process && DeadOwner(s, s.process[a].host)
    ensures Leads(s, Steps(a, 2), Move(s.(path := None), a, Reclaimed(i)))
  {
    var s1 := Move(s, a, Reclaiming(i));
    assert Advance(s1, a).value == Move(s.(path := None), a, Reclaimed(i));
    Steps2(s, a, s1, Move(s.(path := None), a, Reclaimed(i)));
  }

  lemma ClosesAndCreates(s: State, a: Actor, i: Inode)
    requires a in s.phase && s.phase[a] == Reclaimed(i) && a in s.process && s.path == None
    ensures Leads(s, Steps(a, 2), CreatedBy(Move(Unlock(s, a, i), a, Trying(1)), a))
  {
    var s1 := Move(Unlock(s, a, i), a, Trying(1));
    Steps2(s, a, s1, CreatedBy(s1, a));
  }

  /** An undisturbed creator locks its guard and writes itself into it. */
  lemma Claims(s: State, a: Actor, i: Inode)
    requires a in s.phase && a in s.process && s.phase[a] == Created(i) && i !in s.lock
    ensures Leads(s, Steps(a, 2), Move(s.(content := s.content[i := Owner(s.process[a])], lock := s.lock[i := a]), a, Holding(i)))
  {
    var s1 := Move(s.(lock := s.lock[i := a]), a, Locked(i));
    var last := Move(s.(content := s.content[i := Owner(s.process[a])], lock := s.lock[i := a]), a, Holding(i));
    assert last.phase == s1.phase[a := Holding(i)];
    Steps2(s, a, s1, last);
  }

  /** The state in which an attempt has taken a free path. */
  function TakenBy(s: State, a: Actor, p: Process): State {
    Move(s.(path := Some(s.next), content := (s.content - {s.next})[s.next := Owner(p)], lock := s.lock[s.next := a], next := s.next + 1),
      a, Holding(s.next))
  }

  /** An undisturbed attempt on a free path takes the guard. */
  lemma Takes(s: State, a: Actor)
    requires a in s.phase && a in s.process && s.phase[a].Trying? && s.path == None && s.next !in s.lock
    ensures Leads(s, Steps(a, 3), TakenBy(s, a, s.process[a]))
  {
    hide Leads;
    var s1 := CreatedBy(s, a);
    Steps1(s, a, s1);
    Claims(s1, a, s.next);
    assert s1.phase[a := Holding(s.next)] == s.phase[a := Holding(s.next)];
    StepsOn(s, a, 1, s1, 2, TakenBy(s, a, s.process[a]));
  }

  // ----- A lost lock can always be continued to two owners

  /** Whoever has locked a guard before its creator is a reclaimer, past its comparison or just before it. */
  lemma HolderReclaims(s: State, e: Event)
    requires Inv(s) && LosesLock(s, e)
    ensures var i := s.phase[e.a].file;
      var r := s.lock[i];
      && s.path == Some(i) && r != e.a && r in s.phase && r in s.process
      && (s.phase[r] == Guarded(i) || s.phase[r] == Same(i))
  {
    var i := s.phase[e.a].file;
    var r := s.lock[i];
    assert ActorOk(s, e.a) && ActorOk(s, r);
    assert !SameCreation(s.phase[e.a], s.phase[r]);
  }

  /** A reclaimer that has compared a file no longer at the path. */
  ghost predicate Stale(s: State, r: Actor, i: Inode) {
    && r in s.phase && r in s.process && s.phase[r] == Same(i) && s.path == None
    && i in s.lock && s.lock[i] == r
    && forall j :: j in s.lock ==> j < s.next
  }

  /** The loser removes the path although it does not hold the lock. */
  lemma LoserUnlinks(s: State, a: Actor, r: Actor, i: Inode) returns (events: seq<Event>, s': State)
    requires a in s.phase && a in s.process && s.phase[a] == Leaving(i) && s.path == Some(i) && r != a
    requires r in s.phase && r in s.process && (s.phase[r] == Guarded(i) || s.phase[r] == Same(i))
    requires i in s.lock && s.lock[i] == r && forall j :: j in s.lock ==> j < s.next
    ensures Leads(s, events, s') && Stale(s', r, i)
  {
    hide Leads;
    var s1 := Move(s, r, Same(i));
    events := if s.phase[r] == Guarded(i) then Steps(r, 1) else [];
    if s.phase[r] == Guarded(i) {
      Steps1(s, r, s1);
    } else {
      assert s1.phase == s.phase;
      Stays(s);
    }
    var s2 := Move(s1, a, Unlinking(i));
    s' := Move(s2.(path := None), a, Closing(i));
    Steps2(s1, a, s2, s');
    Onward(s, events, s1, Steps(a, 2), s');
    events := events + Steps(a, 2);
  }

  lemma Stays(s: State)
    ensures Leads(s, [], s)
  {
  }

  lemma {:induction false} Bound(numbers: set<nat>) returns (n: nat)
    ensures forall k :: k in numbers ==> k < n
  {
    n := 0;
    if k :| k in numbers {
      var m := Bound(numbers - {k});
      n := if k < m then m else k + 1;
      forall j | j in numbers
        ensures j < n
      {
        assert j != k ==> j in numbers - {k};
      }
    }
  }

  /** Two processes on a host and two attempts that nobody has used. */
  lemma Newcomers(s: State, host: string) returns (c: Actor, p: Process, v: Actor, q: Process)
    ensures p.host == host && q.host == host && p != q && c != v
    ensures p !in s.alive && q !in s.alive && p !in s.process.Values && q !in s.process.Values
    ensures c !in s.phase && c !in s.process && v !in s.phase && v !in s.process
  {
    c := Bound(s.phase.Keys + s.process.Keys);
    v := c + 1;
    var pids := set x | x in s.alive + s.process.Values :: x.pid;
    var n := Bound(pids);
    p, q := Process(host, n), Process(host, n + 1);
    forall x | x in s.alive + s.process.Values
      ensures x.pid < n
    {
      assert x.pid in pids;
    }
  }

  function Joined(s: State, c: Actor, p: Process, v: Actor, q: Process): State {
    s.(alive := s.alive + {p} + {q}, phase := s.phase[c := Trying(0)][v := Trying(0)], process := s.process[c := p][v := q])
  }

  lemma NewcomersBegin(s: State, c: Actor, p: Process, v: Actor, q: Process)
    requires p !in s.alive && q !in s.alive && p != q && c != v
    requires c !in s.phase && c !in s.process && v !in s.phase && v !in s.process
    ensures Leads(s, [StartProcess(p), StartProcess(q)] + [Begin(c, p), Begin(v, q)], Joined(s, c, p, v, q))
  {
    hide Leads;
    var s1 := s.(alive := s.alive + {p});
    var s2 := s1.(alive := s1.alive + {q});
    var s3 := s2.(phase := s2.phase[c := Trying(0)], process := s2.process[c := p]);
    TwoEvents(s, StartProcess(p), s1, StartProcess(q), s2);
    TwoEvents(s2, Begin(c, p), s3, Begin(v, q), Joined(s, c, p, v, q));
    Onward(s, [StartProcess(p), StartProcess(q)], s2, [Begin(c, p), Begin(v, q)], Joined(s, c, p, v, q));
  }

  /** An owner's process ends, and its guard passes for the one the stale reclaimer has compared. */
  lemma OwnerDies(s: State, r: Actor, i: Inode, c: Actor, p: Process, n: Inode)
    returns (s': State)
    requires r in s.phase && r in s.process && s.phase[r] == Same(i) && i in s.lock && s.lock[i] == r
    requires c in s.process && r != c && s.process[c] == p && p.host == s.process[r].host && p in s.alive
    requires forall a :: a in s.process && s.process[a] == p ==> a == c
    requires s.path == Some(n) && ContentOf(s, n) == Owner(p) && n in s.lock && s.lock[n] == c
    ensures Leads(s, [ExitProcess(p), Step(r)], s')
    ensures s' == Move(Exit(s, p), r, Reclaiming(i))
    ensures r in s'.process && s'.process[r] == s.process[r] && i in s'.lock && s'.lock[i] == r && n !in s'.lock
    ensures DeadOwner(s', p.host)
  {
    hide Leads;
    var s1 := Exit(s, p);
    s' := Move(s1, r, Reclaiming(i));
    assert r in s1.phase && r in s1.process && DeadOwner(s1, p.host);
    TwoEvents(s, ExitProcess(p), s1, Step(r), s');
  }

  /** The reclaimer unlinks whatever the path names by now, and takes the guard itself. */
  lemma Usurps(s: State, a: Actor, i: Inode) returns (s': State)
    requires a in s.phase && a in s.process && s.phase[a] == Reclaiming(i) && s.path.Some?
    requires i in s.lock && s.lock[i] == a && s.next !in s.lock
    ensures Leads(s, Steps(a, 5), s')
    ensures s'.phase == s.phase[a := Holding(s.next)]
  {
    hide Leads;
    var s1 := Move(s.(path := None), a, Reclaimed(i));
    var s2 := Move(Unlock(s1, a, i), a, Trying(1));
    s' := TakenBy(s2, a, s2.process[a]);
    Steps2(s, a, s1, s2);
    Takes(s2, a);
    StepsOn(s, a, 2, s2, 3, s');
    assert s2.phase[a := Holding(s.next)] == s.phase[a := Holding(s.next)];
  }

  /** The path names a dead owner's unlocked guard, and the stale reclaimer is about to unlink it. */
  ghost predicate AboutToUnlink(s: State, r: Actor, i: Inode, v: Actor, n: Inode) {
    && r in s.phase && r in s.process && s.phase[r] == Reclaiming(i) && i in s.lock && s.lock[i] == r
    && v in s.phase && v in s.process && s.phase[v] == Trying(0)
    && DeadOwner(s, s.process[v].host) && s.path == Some(n) && s.next == n + 1
    && forall j :: j in s.lock ==> j < n
  }

  /** A newcomer takes the free path and dies; another is about to recover. */
  lemma NewcomerDies(s: State, r: Actor, i: Inode) returns (events: seq<Event>, v: Actor, s': State)
    requires Stale(s, r, i)
    ensures Leads(s, events, s') && AboutToUnlink(s', r, i, v, s.next)
  {
    hide Leads;
    var c, p, w, q := Newcomers(s, s.process[r].host);
    v := w;
    var s1 := Joined(s, c, p, v, q);
    NewcomersBegin(s, c, p, v, q);
    Takes(s1, c);
    var s2 := TakenBy(s1, c, p);
    s' := OwnerDies(s2, r, i, c, p, s.next);
    events := [StartProcess(p), StartProcess(q)] + [Begin(c, p), Begin(v, q)];
    Onward(s, events, s1, Steps(c, 3), s2);
    events := events + Steps(c, 3);
    Onward(s, events, s2, [ExitProcess(p), Step(r)], s');
    events := events + [ExitProcess(p), Step(r)];
  }

  /** One recovers and takes the guard, and the stale reclaimer takes it too. */
  lemma BothHold(s: State, r: Actor, i: Inode, v: Actor, n: Inode) returns (events: seq<Event>, s': State)
    requires AboutToUnlink(s, r, i, v, n)
    ensures Leads(s, events, s') && !MutualExclusion(s')
  {
    hide Leads;
    Recovers(s, v);
    var s1 := CreatedBy(s, v);
    Claims(s1, v, n + 1);
    var s2 := Move(s1.(content := s1.content[n + 1 := Owner(s1.process[v])], lock := s1.lock[n + 1 := v]), v, Holding(n + 1));
    s' := Usurps(s2, r, i);
    Onward(s, Steps(v, 9), s1, Steps(v, 2), s2);
    events := Steps(v, 9) + Steps(v, 2);
    Onward(s, events, s2, Steps(r, 5), s');
    events := events + Steps(r, 5);
    assert Owns(s'.phase[v], n + 1) && Owns(s'.phase[r], n + 2);
  }

  /** From any reachable state, a lost lock is followed by a run to two live owners. */
  lemma LostLockAlwaysBreaks(s: State, e: Event) returns (events: seq<Event>)
    requires Inv(s) && LosesLock(s, e) && Next(s, e).Some?
    ensures events != [] && events[0] == e && Breaks(s, events)
  {
    hide Leads, ActorsOk, CreationsOk;
    HolderReclaims(s, e);
    var a, i := e.a, s.phase[e.a].file;
    var r, s1 := s.lock[i], Next(s, e).value;
    var first, s2 := LoserUnlinks(s1, a, r, i);
    var second, v, s3 := NewcomerDies(s2, r, i);
    var third, s4 := BothHold(s3, r, i, v, s2.next);
    Onward(s1, first, s2, second, s3);
    Onward(s1, first + second, s3, third, s4);
    events := [e] + (first + second + third);
    assert events[1..] == first + second + third;
    assert Breaks(s, events) by {
      LeadsTo(s1, events[1..], s4);
    }
  }

  lemma LeadsTo(s: State, events: seq<Event>, s': State)
    requires Leads(s, events, s')
    ensures Run(s, events) == Some(s') && NoLostLock(s, events)
  {
  }

  /** After its first event nobody loses a lock, and it ends with two live owners. */
  ghost predicate Breaks(s: State, events: seq<Event>)
    requires events != []
  {
    && Run(s, events).Some? && NoLostLock(Next(s, events[0]).value, events[1..])
    && !MutualExclusion(Run(s, events).value)
  }

  /** Exactly the lost lock endangers exclusion: the event that can be followed, by events that
      lose no lock, to two live owners is the one that loses a lock. */
  lemma ExactlyLostLocksBreak(s: State, e: Event)
    requires Inv(s) && Next(s, e).Some?
    ensures LosesLock(s, e) <==> exists events: seq<Event> :: events != [] && events[0] == e && Breaks(s, events)
  {
    hide Inv, Run, NoLostLock, Next, LosesLock;
    if LosesLock(s, e) {
      var events := LostLockAlwaysBreaks(s, e);
    } else if events: seq<Event> :| events != [] && events[0] == e && Breaks(s, events) {
      StepKeeps(s, e);
      RunTail(s, events);
      RunKeeps(Next(s, e).value, events[1..]);
      InvIsSafe(Run(s, events).value);
      assert false;
    }
  }

  lemma RunTail(s: State, events: seq<Event>)
    requires events != [] && Next(s, events[0]).Some?
    ensures Run(s, events) == Run(Next(s, events[0]).value, events[1..])
  {
  }

  // ----- It happens: a run from the start that loses a lock

  const Reclaimer: Actor := 1
  const Loser: Actor := 2

  function ProcessOf(a: Actor): Process { Process("host", a) }

  /** A dead owner's guard lies at the path. */
  function Start(): State { State(Some(0), map[0 := Owner(Process("host", 99))], map[], map[], map[], {}, 1) }

  lemma TwoSuspect() returns (events: seq<Event>, s: State)
    ensures Leads(Start(), events, s)
    ensures s == Joined(Start(), Reclaimer, ProcessOf(Reclaimer), Loser, ProcessOf(Loser)).(phase := map[Reclaimer := Opening, Loser := Trying(0)])
  {
    hide Leads;
    var s1 := Joined(Start(), Reclaimer, ProcessOf(Reclaimer), Loser, ProcessOf(Loser));
    NewcomersBegin(Start(), Reclaimer, ProcessOf(Reclaimer), Loser, ProcessOf(Loser));
    ToOpening(s1, Reclaimer);
    s := Move(s1, Reclaimer, Opening);
    assert s.phase == map[Reclaimer := Opening, Loser := Trying(0)];
    events := [StartProcess(ProcessOf(Reclaimer)), StartProcess(ProcessOf(Loser))] + [Begin(Reclaimer, ProcessOf(Reclaimer)), Begin(Loser, ProcessOf(Loser))];
    Onward(Start(), events, s1, Steps(Reclaimer, 2), s);
    events := events + Steps(Reclaimer, 2);
  }

  /** The reclaimer opens the path before the loser replaces the guard, and locks the new guard first. */
  lemma LockIsLost() returns (events: seq<Event>, s: State)
    ensures Leads(Start(), events, s) && LosesLock(s, Step(Loser)) && Next(s, Step(Loser)).Some?
  {
    hide Leads;
    var s1;
    events, s1 := TwoSuspect();
    Recovers(s1, Loser);
    var s2 := CreatedBy(s1, Loser);
    ToSame(s2, Reclaimer, 1);
    s := Move(s2.(lock := s2.lock[1 := Reclaimer]), Reclaimer, Same(1));
    Onward(Start(), events, s1, Steps(Loser, 9), s2);
    events := events + Steps(Loser, 9);
    Onward(Start(), events, s2, Steps(Reclaimer, 3), s);
    events := events + Steps(Reclaimer, 3);
  }

  /** The concrete run: one lost lock, and two live processes hold the guard. */
  lemma LostLockBreaksExclusion() returns (events: seq<Event>)
    ensures Initial(Start()) && Run(Start(), events).Some? && !MutualExclusion(Run(Start(), events).value)
  {
    var before, s := LockIsLost();
    assert Inv(Start());
    RunKeeps(Start(), before);
    var after := LostLockAlwaysBreaks(s, Step(Loser));
    RunConcat(Start(), before, after);
    events := before + after;
  }

  lemma {:induction false} RunConcat(s: State, a: seq<Event>, b: seq<Event>)
    requires Run(s, a).Some?
    ensures Run(s, a + b) == Run(Run(s, a).value, b)
    decreases |a|
  {
    if a == [] {
      assert a + b == b;
    } else {
      assert (a + b)[1..] == a[1..] + b;
      RunConcat(Next(s, a[0]).value, a[1..], b);
    }
  }
}
