/** Whole runs of changes, accepted and rejected: what holds of every ledger they reach. */
module LedgerRuns {
  import opened Wrappers
  import opened JsonTree
  import opened JsonText
  import opened LedgerModel
  import opened LedgerHistory
  import opened LedgerReader
  import opened LedgerWriter
  import ByteOrder
  import Timestamp

  /** When a prepared change goes through. */
  ghost predicate Accepted(next: State, at: string) {
    && Timestamp.Canonical(at).Some? && next.revision < MAXIMUM_REVISION
    && |Print(Tree(Recorded(next, Timestamp.Canonical(at).value)))| <= MAXIMUM_BYTES
  }

  /** A recorded change: the prepared copy at the canonical time, one step on, and dates kept within
      four-digit years if they were and the new one is. */
  ghost predicate Became(before: State, next: State, at: string, after: State) {
    && Timestamp.Canonical(at).Some? && after == Recorded(next, Timestamp.Canonical(at).value) && Grows(before, after)
    && (Dated(before) && Timestamp.Shape(Timestamp.Canonical(at).value) ==> Dated(after))
  }

  ghost predicate LinksChanged(env: Env, before: State, newLinks: seq<Link>, at: string, after: State) {
    ValidatedLinks(env, newLinks).Some? && Became(before, before.(links := ValidatedLinks(env, newLinks).value), at, after)
  }

  ghost predicate AuthorChanged(env: Env, before: State, profile: Json, newLinks: seq<Link>, at: string, after: State) {
    && ValidatedLinks(env, newLinks).Some?
    && Became(before, WithAuthor(env, before, profile, ValidatedLinks(env, newLinks).value), at, after)
  }

  ghost predicate LinksRejected(env: Env, s: State, newLinks: seq<Link>, at: string) {
    var parsed := ValidatedLinks(env, newLinks);
    parsed == None || (parsed.value != s.links && !Accepted(s.(links := parsed.value), at))
  }

  /** The author is registered with this very profile. */
  ghost predicate Known(env: Env, s: State, profile: Json) {
    exists i :: 0 <= i < |s.authors| && s.authors[i].key == env.key(profile) && s.authors[i].profile == profile
  }

  function WithAuthor(env: Env, s: State, profile: Json, links: seq<Link>): State {
    s.(active := env.key(profile), authors := Registered(s.authors, env.key(profile), profile), links := links)
  }

  lemma AcceptedNewLinks(env: Env, links: seq<Link>)
    requires Lawful(env) && ValidatedLinks(env, links).Some?
    ensures LinksOk(env, ValidatedLinks(env, links).value)
  {
    hide Lawful, Validated;
    ValidatedOk(env, links, |links|);
  }

  lemma CommitFacts(env: Env, before: State, next: State, at: string)
    requires Prepared(env, before, next) && Accepted(next, at)
    ensures WellFormed(env, Recorded(next, Timestamp.Canonical(at).value))
    ensures Became(before, next, at, Recorded(next, Timestamp.Canonical(at).value))
  {
    hide Print, Tree, Grows, Dated, Prepared, Recorded, WellFormed, Timestamp.Canonical, Timestamp.Shape;
    PreparedRevision(env, before, next);
    RecordedWellFormed(env, before, next, Timestamp.Canonical(at).value);
    if Dated(before) && Timestamp.Shape(Timestamp.Canonical(at).value) {
      RecordedDated(env, before, next, Timestamp.Canonical(at).value);
    }
  }

  lemma PreparedRevision(env: Env, before: State, next: State)
    requires Prepared(env, before, next)
    ensures next.revision == before.revision <= MAXIMUM_REVISION
  {
    hide Print, Tree;
  }

  /** The active author is no part of the document. */
  lemma ActiveOnly(env: Env, s: State, active: string)
    requires WellFormed(env, s) && (active == "" || HasKey(s.authors, active))
    ensures WellFormed(env, s.(active := active)) && Tree(s.(active := active)) == Tree(s)
  {
    hide Print, Tree, AuthorsOk, LinksOk, IsTime;
    SameTree(s);
    SameTree(s.(active := active));
  }

  // ----- Runs

  datatype Event =
    | SetAuthor(profile: Json, links: seq<Link>, at: string)
    | SetLinks(newLinks: seq<Link>, linkedAt: string)
    | RecordChange(changedAt: string)
    | ClearActiveAuthor

  ghost function Attempt(s: State, next: State, at: string): State {
    if Accepted(next, at) then Recorded(next, Timestamp.Canonical(at).value) else s
  }

  /** One call: a rejected one leaves the ledger as it was. */
  ghost function Step(env: Env, s: State, e: Event): State {
    match e
    case SetAuthor(profile, links, at) =>
      var parsed := ValidatedLinks(env, links);
      if env.canonical(profile) != Some(profile) || parsed == None then s
      else if Known(env, s, profile) && parsed.value == s.links then s.(active := env.key(profile))
      else if !HasKey(s.authors, env.key(profile)) && |s.authors| >= MAXIMUM_AUTHORS then s
      else Attempt(s, WithAuthor(env, s, profile, parsed.value), at)
    case SetLinks(links, at) =>
      var parsed := ValidatedLinks(env, links);
      if parsed == None || parsed.value == s.links then s else Attempt(s, s.(links := parsed.value), at)
    case RecordChange(at) => Attempt(s, s, at)
    case ClearActiveAuthor => s.(active := "")
  }

  ghost function Run(env: Env, events: seq<Event>): State {
    if events == [] then Empty else Step(env, Run(env, events[..|events| - 1]), events[|events| - 1])
  }

  /** Later states extend earlier ones: nobody leaves the roster or moves in it, first times stay,
      and no time goes back as a text, nor the revision. */
  ghost predicate Extends(s: State, s': State) {
    && s.revision <= s'.revision && !ByteOrder.Less(s'.modifiedAt, s.modifiedAt)
    && |s.authors| <= |s'.authors|
    && forall i :: 0 <= i < |s.authors| ==>
      && s'.authors[i].key == s.authors[i].key && s'.authors[i].first == s.authors[i].first
      && !ByteOrder.Less(s'.authors[i].last, s.authors[i].last)
  }

  /** The change times of an event, canonical and within four-digit years where they are accepted at all. */
  ghost predicate Timely(e: Event) {
    var at := match e case SetAuthor(_, _, at) => at case SetLinks(_, at) => at case RecordChange(at) => at case ClearActiveAuthor => "";
    Timestamp.Read(at).Some? ==> Timestamp.FourDigitYear(Timestamp.Instant(Timestamp.Read(at).value))
  }

  lemma AttemptKeeps(env: Env, s: State, next: State, at: string)
    requires Prepared(env, s, next)
    ensures WellFormed(env, Attempt(s, next, at)) && (Attempt(s, next, at) == s || Became(s, next, at, Attempt(s, next, at)))
  {
    hide Prepared, Accepted, Became, WellFormed, Recorded, Timestamp.Canonical;
    PreparedFrom(env, s, next);
    if Accepted(next, at) {
      CommitFacts(env, s, next, at);
    }
  }

  lemma PreparedFrom(env: Env, s: State, next: State)
    requires Prepared(env, s, next)
    ensures WellFormed(env, s)
  {
    hide WellFormed;
  }

  lemma ExtendsSelf(s: State, s': State)
    requires s'.revision == s.revision && s'.modifiedAt == s.modifiedAt && s'.authors == s.authors
    ensures Extends(s, s')
  {
    ByteOrder.Irreflexive(s.modifiedAt);
    forall i | 0 <= i < |s.authors|
      ensures !ByteOrder.Less(s.authors[i].last, s.authors[i].last)
    {
      ByteOrder.Irreflexive(s.authors[i].last);
    }
  }

  lemma ExtendsTransitive(a: State, b: State, c: State)
    requires Extends(a, b) && Extends(b, c)
    ensures Extends(a, c)
  {
    NotLessTransitive(a.modifiedAt, b.modifiedAt, c.modifiedAt);
    forall i | 0 <= i < |a.authors|
      ensures !ByteOrder.Less(c.authors[i].last, a.authors[i].last)
    {
      NotLessTransitive(a.authors[i].last, b.authors[i].last, c.authors[i].last);
    }
  }

  lemma BecameExtends(s: State, next: State, at: string, s': State)
    requires Became(s, next, at, s')
    ensures Extends(s, s')
  {
    hide Timestamp.Canonical, Recorded, Dated;
  }

  /** One call keeps the ledger well formed and extends it; timely ones keep every time readable. */
  lemma StepKeeps(env: Env, s: State, e: Event)
    requires Lawful(env) && WellFormed(env, s)
    ensures WellFormed(env, Step(env, s, e)) && Extends(s, Step(env, s, e))
    ensures Timely(e) && Dated(s) ==> Dated(Step(env, s, e))
  {
    hide Lawful, WellFormed, Prepared, Accepted, Recorded, ValidatedLinks, Known, HasKey, Registered, LinksOk, Extends, Became, Timestamp.Canonical;
    var s' := Step(env, s, e);
    ExtendsSelf(s, s);
    match e
    case SetAuthor(profile, links, at) =>
      if ValidatedLinks(env, links).Some? && env.canonical(profile) == Some(profile) {
        AcceptedNewLinks(env, links);
        var parsed := ValidatedLinks(env, links).value;
        if Known(env, s, profile) && parsed == s.links {
          KnownHasKey(env, s, profile);
          ActiveOnly(env, s, env.key(profile));
          ExtendsSelf(s, s');
        } else if HasKey(s.authors, env.key(profile)) || |s.authors| < MAXIMUM_AUTHORS {
          PreparedByAuthor(env, s, profile, parsed);
          AttemptStep(env, s, WithAuthor(env, s, profile, parsed), at);
        }
      }
    case SetLinks(links, at) =>
      if ValidatedLinks(env, links).Some? {
        AcceptedNewLinks(env, links);
        PreparedUnchanged(env, s, ValidatedLinks(env, links).value);
        AttemptStep(env, s, s.(links := ValidatedLinks(env, links).value), at);
      }
    case RecordChange(at) =>
      StoredLinks(env, s);
      PreparedUnchanged(env, s, s.links);
      AttemptStep(env, s, s, at);
    case ClearActiveAuthor =>
      ActiveOnly(env, s, "");
      ExtendsSelf(s, s');
  }

  lemma StoredLinks(env: Env, s: State)
    requires WellFormed(env, s)
    ensures LinksOk(env, s.links) && s.(links := s.links) == s
  {
    hide LinksOk, Print, Tree, AuthorsOk;
  }

  lemma KnownHasKey(env: Env, s: State, profile: Json)
    requires Known(env, s, profile)
    ensures HasKey(s.authors, env.key(profile))
  {
  }

  lemma AttemptStep(env: Env, s: State, next: State, at: string)
    requires Prepared(env, s, next)
    ensures WellFormed(env, Attempt(s, next, at)) && Extends(s, Attempt(s, next, at))
    ensures Dated(s) && (Timestamp.Read(at).Some? ==> Timestamp.FourDigitYear(Timestamp.Instant(Timestamp.Read(at).value)))
      ==> Dated(Attempt(s, next, at))
  {
    hide Prepared, Accepted, WellFormed, Extends, Recorded, Dated, Attempt, Timestamp.Shape, Timestamp.FourDigitYear, Timestamp.Format, Timestamp.Instant;
    AttemptKeeps(env, s, next, at);
    ExtendsSelf(s, s);
    if Attempt(s, next, at) != s {
      BecameExtends(s, next, at, Attempt(s, next, at));
      Timestamp.CanonicalShape(at);
    }
  }

  /** Every reachable ledger is well formed, and with timely changes it is read back from its own
      text, without its active author. */
  lemma {:induction false} RunKeeps(env: Env, events: seq<Event>)
    requires Lawful(env)
    ensures WellFormed(env, Run(env, events))
    ensures (forall e :: e in events ==> Timely(e)) ==>
      ReadState(env, Print(Tree(Run(env, events)))) == Some(Run(env, events).(active := ""))
  {
    hide Lawful, WellFormed, Step, Timely, ReadState, Print, Tree;
    RunState(env, events);
    RoundTrip(env, Run(env, events));
  }

  lemma {:induction false} RunState(env: Env, events: seq<Event>)
    requires Lawful(env)
    ensures WellFormed(env, Run(env, events))
    ensures (forall e :: e in events ==> Timely(e)) ==> Dated(Run(env, events))
  {
    hide Lawful, WellFormed, Step, Timely, Dated;
    if events == [] {
      EmptyOk(env);
    } else {
      RunState(env, events[..|events| - 1]);
      StepKeeps(env, Run(env, events[..|events| - 1]), events[|events| - 1]);
    }
  }

  lemma EmptyOk(env: Env)
    ensures WellFormed(env, Empty) && Dated(Empty)
  {
    hide Print, Tree;
    EmptyFits();
  }

  /** Any later point of a run extends any earlier one. */
  lemma {:induction false} RunExtends(env: Env, events: seq<Event>, n: nat)
    requires Lawful(env) && n <= |events|
    ensures Extends(Run(env, events[..n]), Run(env, events))
  {
    hide Lawful, WellFormed, Step, Extends;
    if n == |events| {
      assert events[..n] == events;
      ExtendsSelf(Run(env, events), Run(env, events));
    } else {
      var fewer := events[..|events| - 1];
      assert fewer[..n] == events[..n];
      RunExtends(env, fewer, n);
      RunState(env, fewer);
      StepKeeps(env, Run(env, fewer), events[|events| - 1]);
      ExtendsTransitive(Run(env, events[..n]), Run(env, fewer), Run(env, events));
    }
  }
}
