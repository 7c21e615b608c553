/** The native multi-range compare-and-exchange on one BLOB. All ranges are checked against the
    current bytes before any is written, and the writes happen under a savepoint nested in the
    caller's transaction. Every engine call may fail, and a failing call may already have rolled
    the whole transaction back. */
module BlobRanges {
  import opened Wrappers
  import opened BlobPatch

  type Bytes = seq<Byte>

  const MAXIMUM_RANGES: nat := 65536

  datatype Range = Range(offset: nat, before: Bytes, after: Bytes) {
    function End(): nat { offset + |after| }
  }

  datatype Outcome =
    | Success(compared: nat, written: nat)
    | Closed | ReadOnly | NoTransaction | LimitExceeded | SizesDiffer
    | Outside | Overlapping | Conflict
    | EngineFailure | RollbackFailed

  // ----- What a batch of ranges means

  ghost predicate Sized(ranges: seq<Range>) {
    forall r :: r in ranges ==> |r.before| == |r.after|
  }

  ghost predicate InBounds(content: Bytes, ranges: seq<Range>) {
    forall r :: r in ranges ==> r.End() <= |content|
  }

  predicate Apart(a: Range, b: Range) {
    a.after == [] || b.after == [] || a.End() <= b.offset || b.End() <= a.offset
  }

  ghost predicate Disjoint(ranges: seq<Range>) {
    forall i, j :: 0 <= i < j < |ranges| ==> Apart(ranges[i], ranges[j])
  }

  /** The range's expected bytes are the current ones. */
  ghost predicate Agrees(content: Bytes, r: Range) {
    |r.before| == |r.after| && r.End() <= |content| && content[r.offset..r.End()] == r.before
  }

  ghost predicate Matches(content: Bytes, ranges: seq<Range>) {
    forall r :: r in ranges ==> Agrees(content, r)
  }

  ghost predicate Changes(ranges: seq<Range>) {
    exists r :: r in ranges && r.before != r.after
  }

  ghost predicate Acceptable(content: Bytes, ranges: seq<Range>) {
    InBounds(content, ranges) && Disjoint(ranges) && Matches(content, ranges)
  }

  ghost predicate Covers(r: Range, i: nat) {
    r.offset <= i < r.End()
  }

  /** The overlay says nothing of the order of the ranges: each covered byte is its range's
      replacement, every other byte is unchanged. */
  ghost predicate IsOverlay(content: Bytes, ranges: seq<Range>, result: Bytes) {
    && |result| == |content|
    && (forall r, i: nat :: r in ranges && Covers(r, i) && i < |result| ==> result[i] == r.after[i - r.offset])
    && forall i :: 0 <= i < |result| && (forall r :: r in ranges ==> !Covers(r, i)) ==> result[i] == content[i]
  }

  lemma OverlayUnique(content: Bytes, ranges: seq<Range>, a: Bytes, b: Bytes)
    requires IsOverlay(content, ranges, a) && IsOverlay(content, ranges, b)
    ensures a == b
  {
    forall i | 0 <= i < |a|
      ensures a[i] == b[i]
    {
      if r :| r in ranges && Covers(r, i) {
        assert a[i] == r.after[i - r.offset];
      }
    }
  }

  /** Neither acceptance nor the result depends on the order the ranges are given in. */
  lemma OrderIrrelevant(content: Bytes, ranges: seq<Range>, ranges': seq<Range>, result: Bytes)
    requires multiset(ranges) == multiset(ranges')
    ensures Acceptable(content, ranges) <==> Acceptable(content, ranges')
    ensures IsOverlay(content, ranges, result) <==> IsOverlay(content, ranges', result)
  {
    SameMembers(ranges, ranges');
    Reordered(content, ranges, ranges');
  }

  lemma Reordered(content: Bytes, ranges: seq<Range>, ranges': seq<Range>)
    requires multiset(ranges) == multiset(ranges')
    ensures Sized(ranges) <==> Sized(ranges')
    ensures InBounds(content, ranges) <==> InBounds(content, ranges')
    ensures Disjoint(ranges) <==> Disjoint(ranges')
    ensures Matches(content, ranges) <==> Matches(content, ranges')
    ensures Changes(ranges) <==> Changes(ranges')
  {
    hide Disjoint;
    SameMembers(ranges, ranges');
    if Disjoint(ranges) {
      DisjointPermuted(ranges, ranges');
    }
    if Disjoint(ranges') {
      DisjointPermuted(ranges', ranges);
    }
  }

  lemma SameMembers(ranges: seq<Range>, ranges': seq<Range>)
    requires multiset(ranges) == multiset(ranges')
    ensures forall r :: r in ranges <==> r in ranges'
  {
    forall r
      ensures r in ranges <==> r in ranges'
    {
      assert r in ranges <==> r in multiset(ranges);
      assert r in ranges' <==> r in multiset(ranges');
    }
  }

  lemma {:induction false} TwoPositions(s: seq<Range>, r: Range) returns (i: nat, j: nat)
    requires multiset(s)[r] >= 2
    ensures i < j < |s| && s[i] == r && s[j] == r
  {
    assert s == s[..|s| - 1] + [s[|s| - 1]];
    if s[|s| - 1] == r {
      assert r in multiset(s[..|s| - 1]);
      i :| 0 <= i < |s| - 1 && s[i] == r;
      j := |s| - 1;
    } else {
      i, j := TwoPositions(s[..|s| - 1], r);
    }
  }

  lemma DisjointPermuted(ranges: seq<Range>, ranges': seq<Range>)
    requires multiset(ranges) == multiset(ranges') && Disjoint(ranges)
    ensures Disjoint(ranges')
  {
    SameMembers(ranges, ranges');
    forall i, j | 0 <= i < j < |ranges'|
      ensures Apart(ranges'[i], ranges'[j])
    {
      var a, b := ranges'[i], ranges'[j];
      if a == b {
        assert ranges' == ranges'[..j] + ranges'[j..];
        assert a in multiset(ranges'[..j]) && a in multiset(ranges'[j..]);
        var k, l := TwoPositions(ranges, a);
      } else {
        assert a in ranges' && b in ranges';
        var k :| 0 <= k < |ranges| && ranges[k] == a;
        var l :| 0 <= l < |ranges| && ranges[l] == b;
        assert k < l || l < k;
      }
    }
  }

  // ----- Sorting

  ghost predicate Sorted(ranges: seq<Range>) {
    forall i, j :: 0 <= i < j < |ranges| ==> ranges[i].offset <= ranges[j].offset
  }

  /** `std::ranges::sort` by offset; ties may come out in any order. */
  method SortByOffset(ranges: seq<Range>) returns (ordered: seq<Range>)
    ensures Sorted(ordered) && multiset(ordered) == multiset(ranges)
  {
    ordered := [];
    var n := 0;
    while n < |ranges|
      invariant 0 <= n <= |ranges| && Sorted(ordered) && multiset(ordered) == multiset(ranges[..n])
    {
      ordered := Insert(ordered, ranges[n]);
      assert ranges[..n + 1] == ranges[..n] + [ranges[n]];
      n := n + 1;
    }
    assert ranges[..n] == ranges;
  }

  method Insert(ordered: seq<Range>, r: Range) returns (ordered': seq<Range>)
    requires Sorted(ordered)
    ensures Sorted(ordered') && multiset(ordered') == multiset(ordered) + multiset{r}
  {
    var k := |ordered|;
    while k > 0 && ordered[k - 1].offset > r.offset
      invariant 0 <= k <= |ordered|
      invariant forall i :: k <= i < |ordered| ==> ordered[i].offset > r.offset
    {
      k := k - 1;
    }
    ordered' := ordered[..k] + [r] + ordered[k..];
    InsertedSorted(ordered, r, k, ordered');
    InsertedMembers(ordered, r, k);
  }

  lemma InsertedMembers(ordered: seq<Range>, r: Range, k: nat)
    requires k <= |ordered|
    ensures multiset(ordered[..k] + [r] + ordered[k..]) == multiset(ordered) + multiset{r}
  {
    assert ordered == ordered[..k] + ordered[k..];
  }

  lemma InsertedSorted(ordered: seq<Range>, r: Range, k: nat, ordered': seq<Range>)
    requires Sorted(ordered) && k <= |ordered| && ordered' == ordered[..k] + [r] + ordered[k..]
    requires k > 0 ==> ordered[k - 1].offset <= r.offset
    requires forall i :: k <= i < |ordered| ==> ordered[i].offset > r.offset
    ensures Sorted(ordered')
  {
    forall i, j | 0 <= i < j < |ordered'|
      ensures ordered'[i].offset <= ordered'[j].offset
    {
      assert i < k ==> ordered'[i] == ordered[i] && (i < k - 1 ==> ordered[i].offset <= ordered[k - 1].offset);
      assert i > k ==> ordered'[i] == ordered[i - 1];
      assert j < k ==> ordered'[j] == ordered[j];
      assert j > k ==> ordered'[j] == ordered[j - 1];
    }
  }

  // ----- Writing range after range

  function Splice(content: Bytes, r: Range): (result: Bytes)
    requires r.End() <= |content|
    ensures |result| == |content|
  {
    content[..r.offset] + r.after + content[r.End()..]
  }

  ghost function SpliceAll(content: Bytes, ranges: seq<Range>): (result: Bytes)
    requires InBounds(content, ranges)
    ensures |result| == |content|
  {
    if ranges == [] then content
    else
      assert ranges[|ranges| - 1] in ranges;
      Splice(SpliceAll(content, ranges[..|ranges| - 1]), ranges[|ranges| - 1])
  }

  lemma {:induction false} SpliceAllAway(content: Bytes, ranges: seq<Range>, i: nat)
    requires InBounds(content, ranges) && i < |content|
    requires forall r :: r in ranges ==> !Covers(r, i)
    ensures SpliceAll(content, ranges)[i] == content[i]
  {
    if ranges != [] {
      assert ranges[|ranges| - 1] in ranges;
      SpliceAllAway(content, ranges[..|ranges| - 1], i);
    }
  }

  lemma {:induction false} SpliceAllAt(content: Bytes, ranges: seq<Range>, k: nat, i: nat)
    requires InBounds(content, ranges) && Disjoint(ranges) && k < |ranges| && Covers(ranges[k], i)
    ensures i < |content| && SpliceAll(content, ranges)[i] == ranges[k].after[i - ranges[k].offset]
  {
    assert ranges[k] in ranges;
    if k < |ranges| - 1 {
      assert ranges[|ranges| - 1] in ranges && Apart(ranges[k], ranges[|ranges| - 1]);
      SpliceAllAt(content, ranges[..|ranges| - 1], k, i);
    }
  }

  lemma SpliceAllIsOverlay(content: Bytes, ranges: seq<Range>)
    requires InBounds(content, ranges) && Disjoint(ranges)
    ensures IsOverlay(content, ranges, SpliceAll(content, ranges))
  {
    var result := SpliceAll(content, ranges);
    forall r, i: nat | r in ranges && Covers(r, i) && i < |result|
      ensures result[i] == r.after[i - r.offset]
    {
      var k :| 0 <= k < |ranges| && ranges[k] == r;
      SpliceAllAt(content, ranges, k, i);
    }
    forall i | 0 <= i < |result| && (forall r :: r in ranges ==> !Covers(r, i))
      ensures result[i] == content[i]
    {
      SpliceAllAway(content, ranges, i);
    }
  }

  /** A range's bytes are still the original ones when its turn comes. */
  lemma RangeUntouched(content: Bytes, ranges: seq<Range>, k: nat)
    requires InBounds(content, ranges) && Disjoint(ranges) && k < |ranges|
    ensures InBounds(content, ranges[..k]) && ranges[k].End() <= |content|
    ensures var r := ranges[k]; SpliceAll(content, ranges[..k])[r.offset..r.End()] == content[r.offset..r.End()]
  {
    var r, earlier := ranges[k], ranges[..k];
    assert r in ranges;
    forall q | q in earlier
      ensures q.End() <= |content|
    {
      assert q in ranges;
    }
    var now := SpliceAll(content, earlier);
    forall i: nat | r.offset <= i < r.End()
      ensures now[i] == content[i]
    {
      UncoveredByEarlier(ranges, k, i);
      SpliceAllAway(content, earlier, i);
    }
    SlicesEqual(now, content, r.offset, r.End());
  }

  lemma SlicesEqual(a: Bytes, b: Bytes, lo: nat, hi: nat)
    requires lo <= hi <= |a| && hi <= |b|
    requires forall i :: lo <= i < hi ==> a[i] == b[i]
    ensures a[lo..hi] == b[lo..hi]
  {
  }

  lemma UncoveredByEarlier(ranges: seq<Range>, k: nat, i: nat)
    requires Disjoint(ranges) && k < |ranges| && Covers(ranges[k], i)
    ensures forall q :: q in ranges[..k] ==> !Covers(q, i)
  {
    forall q | q in ranges[..k]
      ensures !Covers(q, i)
    {
      var j :| 0 <= j < k && ranges[j] == q;
      assert Apart(ranges[j], ranges[k]);
    }
  }

  // ----- Counting what changed

  /** Overwriting unchanged bytes by different ones adds their number to the difference. */
  lemma DifferingAfter(base: Bytes, content: Bytes, content': Bytes, lo: nat, hi: nat)
    requires |base| == |content| == |content'| && lo <= hi <= |base|
    requires forall i :: 0 <= i < lo || hi <= i < |base| ==> content'[i] == content[i]
    requires forall i :: lo <= i < hi ==> content[i] == base[i] && content'[i] != base[i]
    ensures Differing(base, content') == Differing(base, content) + (hi - lo)
  {
    CountSplit(base, content, 0, lo, |base|);
    CountSplit(base, content, lo, hi, |base|);
    CountSplit(base, content', 0, lo, |base|);
    CountSplit(base, content', lo, hi, |base|);
    CountAgrees(base, content, content', 0, lo);
    CountAgrees(base, content, content', hi, |base|);
    CountEqual(base, content, lo, hi);
    CountDiffering(base, content', lo, hi);
  }

  function Total(ranges: seq<Range>): nat {
    if ranges == [] then 0 else Total(ranges[..|ranges| - 1]) + |ranges[|ranges| - 1].after|
  }

  lemma {:induction false} TotalPrefix(ranges: seq<Range>, k: nat)
    requires k <= |ranges|
    ensures Total(ranges[..k]) <= Total(ranges)
  {
    if k == |ranges| {
      assert ranges[..k] == ranges;
    } else {
      TotalPrefix(ranges[..|ranges| - 1], k);
      assert ranges[..|ranges| - 1][..k] == ranges[..k];
    }
  }

  lemma TotalNext(ranges: seq<Range>, k: nat)
    requires k < |ranges|
    ensures Total(ranges[..k + 1]) == Total(ranges[..k]) + |ranges[k].after|
  {
    assert ranges[..k + 1][..k] == ranges[..k];
  }

  // ----- Checks that touch no bytes

  /** The size checks, in the order given; `compared` is what a success reports. */
  method CheckSizes(ranges: seq<Range>, limit: nat) returns (problem: Option<Outcome>, compared: nat)
    ensures problem == None || problem == Some(SizesDiffer) || problem == Some(LimitExceeded)
    ensures problem == None <==> Sized(ranges) && Total(ranges) <= limit
    ensures problem == None ==> compared == Total(ranges)
    ensures problem == Some(SizesDiffer) ==> !Sized(ranges)
    ensures problem == Some(LimitExceeded) ==> Total(ranges) > limit
  {
    compared := 0;
    var k := 0;
    while k < |ranges|
      invariant 0 <= k <= |ranges|
      invariant forall j :: 0 <= j < k ==> |ranges[j].before| == |ranges[j].after|
      invariant compared == Total(ranges[..k]) <= limit
    {
      var r := ranges[k];
      if |r.before| != |r.after| {
        return Some(SizesDiffer), compared;
      }
      TotalNext(ranges, k);
      if |r.after| > limit - compared {
        TotalPrefix(ranges, k + 1);
        return Some(LimitExceeded), compared;
      }
      compared := compared + |r.after|;
      k := k + 1;
    }
    assert ranges[..k] == ranges;
    return None, compared;
  }

  /** Every non-empty range so far ends by `priorEnd`, and one ends there. */
  ghost predicate Laid(ordered: seq<Range>, k: nat, priorEnd: nat)
    requires k <= |ordered|
  {
    && (forall j :: 0 <= j < k && ordered[j].after != [] ==> ordered[j].End() <= priorEnd)
    && (priorEnd == 0 || exists j :: 0 <= j < k && ordered[j].after != [] && ordered[j].End() == priorEnd)
  }

  lemma NothingLaid(ordered: seq<Range>)
    ensures Laid(ordered, 0, 0) && Disjoint(ordered[..0])
  {
  }

  lemma LaidNext(ordered: seq<Range>, k: nat, priorEnd: nat)
    requires k < |ordered| && Laid(ordered, k, priorEnd)
    requires ordered[k].after != [] ==> ordered[k].offset >= priorEnd
    ensures Laid(ordered, k + 1, if ordered[k].after != [] then ordered[k].End() else priorEnd)
  {
  }

  lemma OverlapFound(ordered: seq<Range>, k: nat, priorEnd: nat)
    requires Sorted(ordered) && k < |ordered| && Laid(ordered, k, priorEnd)
    requires ordered[k].after != [] && ordered[k].offset < priorEnd
    ensures !Disjoint(ordered)
  {
    var j :| 0 <= j < k && ordered[j].after != [] && ordered[j].End() == priorEnd;
    assert ordered[j].offset <= ordered[k].offset;
    assert !Apart(ordered[j], ordered[k]);
  }

  lemma DisjointNext(ordered: seq<Range>, k: nat, priorEnd: nat)
    requires k < |ordered| && Laid(ordered, k, priorEnd) && Disjoint(ordered[..k])
    requires ordered[k].after != [] ==> ordered[k].offset >= priorEnd
    ensures Disjoint(ordered[..k + 1])
  {
    forall i, j | 0 <= i < j < k + 1
      ensures Apart(ordered[i], ordered[j])
    {
      if j < k {
        assert Apart(ordered[..k][i], ordered[..k][j]);
      }
    }
  }

  /** Bounds and overlaps in one pass over the sorted ranges, comparing neighbours only. */
  method CheckLayout(ordered: seq<Range>, length: nat, ghost content: Bytes) returns (problem: Option<Outcome>, changes: bool)
    requires Sorted(ordered) && length == |content|
    ensures problem == None || problem == Some(Outside) || problem == Some(Overlapping)
    ensures problem == None <==> Disjoint(ordered) && InBounds(content, ordered)
    ensures problem == Some(Outside) ==> !InBounds(content, ordered)
    ensures problem == Some(Overlapping) ==> !Disjoint(ordered)
    ensures problem == None && Sized(ordered) ==> (changes <==> Changes(ordered))
  {
    hide Laid, Disjoint, Sorted;
    NothingLaid(ordered);
    var priorEnd, k := 0, 0;
    changes := false;
    while k < |ordered|
      invariant 0 <= k <= |ordered|
      invariant forall j :: 0 <= j < k ==> ordered[j].End() <= length
      invariant Laid(ordered, k, priorEnd) && Disjoint(ordered[..k])
      invariant changes <==> exists j :: 0 <= j < k && ordered[j].after != [] && ordered[j].before != ordered[j].after
    {
      var r := ordered[k];
      assert r in ordered;
      if r.offset > length || |r.after| > length - r.offset {
        return Some(Outside), changes;
      }
      if r.after != [] {
        if r.offset < priorEnd {
          OverlapFound(ordered, k, priorEnd);
          return Some(Overlapping), changes;
        }
        DisjointNext(ordered, k, priorEnd);
        LaidNext(ordered, k, priorEnd);
        priorEnd := r.End();
        changes := changes || r.before != r.after;
      } else {
        DisjointNext(ordered, k, priorEnd);
        LaidNext(ordered, k, priorEnd);
      }
      k := k + 1;
    }
    assert ordered[..k] == ordered;
    return None, changes;
  }

  // ----- The connection

  /** A connection and the one BLOB concerned: its value as the connection sees it, its durable
      value, and its value at the private savepoint. */
  class Connection {
    const readOnly: bool
    const limit: nat
    const patchSize: nat
    var open: bool
    var inTransaction: bool
    var serial: nat
    var transaction: nat
    var content: Bytes
    var committed: Bytes
    var saved: Option<Bytes>

    ghost predicate Valid()
      reads this
    {
      && patchSize > 0 && transaction <= serial
      && (!inTransaction ==> content == committed && saved == None)
      && (!open ==> !inTransaction && transaction == 0)
    }

    constructor (readOnly: bool, limit: nat, patchSize: nat, content: Bytes)
      requires patchSize > 0
      ensures Valid() && open && !inTransaction && this.content == committed == content
    {
      this.readOnly, this.limit, this.patchSize := readOnly, limit, patchSize;
      open, inTransaction, serial, transaction := true, false, 0, 0;
      this.content, committed, saved := content, content, None;
    }

    // ----- Engine calls

    /** What a failing call may have done to the transaction on its own. */
    twostate predicate Faulted()
      reads this
    {
      unchanged(this) || (!inTransaction && content == committed && saved == None)
    }

    method Fault()
      modifies `content, `inTransaction, `saved
      ensures Faulted() && (old(Valid()) ==> Valid())
    {
      if * {
        inTransaction, content, saved := false, committed, None;
      }
    }

    method Read(offset: nat, count: nat) returns (bytes: Option<Bytes>)
      requires Valid() && offset + count <= |content|
      modifies `content, `inTransaction, `saved
      ensures Valid() && Faulted()
      ensures bytes.Some? ==> unchanged(this) && bytes.value == content[offset..offset + count]
    {
      if * {
        Fault();
        return None;
      }
      return Some(content[offset..offset + count]);
    }

    /** Opening or closing a handle. */
    method Handle() returns (ok: bool)
      requires Valid()
      modifies `content, `inTransaction, `saved
      ensures Valid() && Faulted() && (ok ==> unchanged(this))
    {
      if * {
        Fault();
        return false;
      }
      return true;
    }

    /** A failed write may leave a prefix of the data behind. */
    method Write(offset: nat, data: Bytes) returns (ok: bool)
      requires Valid() && inTransaction && offset + |data| <= |content|
      modifies `content, `inTransaction, `saved
      ensures Valid()
      ensures ok ==> inTransaction && saved == old(saved)
      ensures ok ==> content == old(content)[..offset] + data + old(content)[offset + |data|..]
      ensures !ok ==> (inTransaction && saved == old(saved)) || !inTransaction
    {
      if * {
        var done: nat :| done <= |data|;
        content := content[..offset] + data[..done] + content[offset + done..];
        Fault();
        return false;
      }
      content := content[..offset] + data + content[offset + |data|..];
      return true;
    }

    // ----- The private savepoint

    method Begin() returns (ok: bool)
      requires Valid() && inTransaction && saved == None
      modifies `content, `inTransaction, `saved
      ensures Valid()
      ensures ok ==> inTransaction && content == old(content) && saved == Some(content)
      ensures !ok ==> Faulted()
    {
      if * {
        Fault();
        return false;
      }
      saved := Some(content);
      return true;
    }

    method Release() returns (ok: bool)
      requires Valid() && inTransaction && saved.Some?
      modifies `content, `inTransaction, `saved
      ensures Valid()
      ensures ok ==> inTransaction && content == old(content) && saved == None
      ensures !ok ==> Faulted()
    {
      if * {
        Fault();
        return false;
      }
      saved := None;
      return true;
    }

    method RollbackTo() returns (ok: bool)
      requires Valid() && inTransaction && saved.Some?
      modifies `content, `inTransaction, `saved
      ensures Valid()
      ensures ok ==> inTransaction && content == old(saved).value && saved == old(saved)
      ensures !ok ==> Faulted()
    {
      if * {
        Fault();
        return false;
      }
      content := saved.value;
      return true;
    }

    method RollbackAll() returns (ok: bool)
      requires Valid()
      modifies `content, `inTransaction, `saved
      ensures Valid()
      ensures ok ==> !inTransaction && content == committed && saved == None
      ensures !ok ==> Faulted()
    {
      if * {
        Fault();
        return false;
      }
      inTransaction, content, saved := false, committed, None;
      return true;
    }

    /** `BlobSavepoint::rollback` on an active savepoint: back to the savepoint, else the whole
        transaction, else no connection at all. */
    method RollbackSavepoint() returns (sound: bool)
      requires Valid() && open && (inTransaction ==> saved.Some?)
      modifies this
      ensures Valid() && saved == None && committed == old(committed)
      ensures sound ==> open && (inTransaction ==> old(saved) == Some(content) && transaction == old(transaction))
      ensures sound && !inTransaction ==> transaction == 0
      ensures !sound ==> !open && transaction == 0
      ensures inTransaction ==> old(inTransaction)
    {
      if !inTransaction {
        transaction := 0;
        return true;
      }
      var restored := RollbackTo();
      if restored {
        var released := Release();
        if released {
          return true;
        }
      }
      var rolledBack := RollbackAll();
      if rolledBack || !inTransaction {
        transaction := 0;
        return true;
      }
      Invalidate();
      return false;
    }

    /** Closing the handle discards whatever was uncommitted. */
    method Invalidate()
      requires Valid()
      modifies this
      ensures Valid() && !open && transaction == 0 && !inTransaction && committed == old(committed)
    {
      open, transaction, inTransaction, content, saved := false, 0, false, committed, None;
    }

    // ----- The caller's transaction

    method BeginTransaction() returns (id: Option<nat>)
      requires Valid()
      modifies this
      ensures Valid() && committed == old(committed)
      ensures id.Some? ==> open && inTransaction && content == committed && transaction == id.value > old(serial)
    {
      if !open || inTransaction {
        return None;
      }
      if * {
        return None;
      }
      inTransaction, serial := true, serial + 1;
      transaction := serial;
      return Some(transaction);
    }

    /** Only the transaction that is still current can commit, and it commits what the connection sees. */
    method Commit(id: nat) returns (ok: bool)
      requires Valid() && id > 0 && saved == None
      modifies this
      ensures Valid()
      ensures ok ==> old(open) && old(inTransaction) && old(transaction) == id && committed == old(content)
      ensures !ok ==> committed == old(committed)
    {
      if transaction != id || !inTransaction {
        return false;
      }
      if * {
        Fault();
        return false;
      }
      inTransaction, committed, transaction := false, content, 0;
      return true;
    }

    // ----- The operation

    ghost predicate Ready()
      reads this
    {
      open && !readOnly && inTransaction
    }

    /** The limits on the batch itself. */
    ghost predicate WithinLimits(ranges: seq<Range>)
      requires patchSize > 0
    {
      |ranges| <= MAXIMUM_RANGES && |ranges| <= limit / patchSize && Total(ranges) <= limit
    }

    method CompareExchange(ranges: seq<Range>) returns (outcome: Outcome)
      requires Valid() && saved == None
      modifies this
      ensures Valid() && saved == None && committed == old(committed)
      ensures outcome.Success? ==> old(Ready()) && WithinLimits(ranges) && Sized(ranges) && Acceptable(old(content), ranges)
      ensures outcome.Success? ==> Ready() && transaction == old(transaction)
      ensures outcome.Success? ==> IsOverlay(old(content), ranges, content)
      ensures outcome.Success? ==>
        outcome.compared == Total(ranges) && |content| == |old(content)| && outcome.written == Differing(old(content), content)
      ensures !outcome.Success? ==>
        !open || (inTransaction && content == old(content) && transaction == old(transaction)) || (!inTransaction && content == committed)
      ensures outcome == Closed <==> !old(open)
      ensures outcome == ReadOnly <==> old(open) && readOnly
      ensures outcome == Outcome.NoTransaction <==> old(open) && !readOnly && !old(inTransaction)
      ensures outcome == LimitExceeded ==> !WithinLimits(ranges)
      ensures outcome == SizesDiffer ==> !Sized(ranges)
      ensures outcome == Outside ==> !InBounds(old(content), ranges)
      ensures outcome == Overlapping ==> !Disjoint(ranges)
      ensures outcome == Conflict ==> InBounds(old(content), ranges) && Disjoint(ranges) && !Matches(old(content), ranges)
      ensures outcome == RollbackFailed ==> !open
    {
      hide Sized, InBounds, Disjoint, Matches, Changes, IsOverlay, Sorted, Differing, Total;
      if !open {
        return Closed;
      }
      if readOnly {
        return ReadOnly;
      }
      if !inTransaction {
        return Outcome.NoTransaction;
      }
      if |ranges| > MAXIMUM_RANGES || |ranges| > limit / patchSize {
        return LimitExceeded;
      }
      var problem, compared := CheckSizes(ranges, limit);
      if problem.Some? {
        return problem.value;
      }
      var ordered := SortByOffset(ranges);
      Reordered(content, ranges, ordered);
      var ready := Handle();
      if !ready {
        return EngineFailure;
      }
      var changes;
      problem, changes := CheckLayout(ordered, |content|, content);
      if problem.Some? {
        return problem.value;
      }
      var verdict := Compare(ordered);
      if verdict == EngineFailure {
        return EngineFailure;
      }
      if verdict == Conflict {
        return Conflict;
      }
      var closed := Handle();
      if !closed {
        return EngineFailure;
      }
      if !changes {
        NothingChanges(content, ranges);
        return Success(compared, 0);
      }
      outcome := Exchange(ranges, ordered, compared, content);
    }

    /** The whole comparison, piece by piece, before anything is written. */
    method Compare(ordered: seq<Range>) returns (verdict: Outcome)
      requires Valid() && inTransaction && Sized(ordered) && InBounds(content, ordered)
      modifies `content, `inTransaction, `saved
      ensures Valid() && (verdict == EngineFailure || verdict == Conflict || verdict.Success?)
      ensures verdict.Success? ==> unchanged(this) && Matches(content, ordered)
      ensures verdict == Conflict ==> unchanged(this) && !Matches(content, ordered)
      ensures verdict == EngineFailure ==> Faulted()
    {
      var k := 0;
      while k < |ordered|
        invariant 0 <= k <= |ordered| && unchanged(this)
        invariant forall j :: 0 <= j < k ==> Agrees(content, ordered[j])
      {
        assert ordered[k] in ordered;
        verdict := CompareRange(ordered[k]);
        if !verdict.Success? {
          return;
        }
        k := k + 1;
      }
      return Success(0, 0);
    }

    method CompareRange(r: Range) returns (verdict: Outcome)
      requires Valid() && inTransaction && |r.before| == |r.after| && r.End() <= |content|
      modifies `content, `inTransaction, `saved
      ensures Valid() && (verdict == EngineFailure || verdict == Conflict || verdict.Success?)
      ensures verdict.Success? ==> unchanged(this) && Agrees(content, r)
      ensures verdict == Conflict ==> unchanged(this) && !Agrees(content, r)
      ensures verdict == EngineFailure ==> Faulted()
    {
      var done := 0;
      while done < |r.before|
        invariant 0 <= done <= |r.before| && unchanged(this)
        invariant content[r.offset..r.offset + done] == r.before[..done]
      {
        var count := if CHUNK < |r.before| - done then CHUNK else |r.before| - done;
        var scratch := Read(r.offset + done, count);
        if scratch == None {
          return EngineFailure;
        }
        if scratch.value != r.before[done..done + count] {
          PieceDiffers(content, r, done, count);
          return Conflict;
        }
        PieceAgrees(content, r, done, count);
        done := done + count;
      }
      return Success(0, 0);
    }

    /** Everything under the savepoint. `base` is the BLOB when the comparison succeeded. */
    method Exchange(ghost ranges: seq<Range>, ordered: seq<Range>, compared: nat, ghost base: Bytes) returns (outcome: Outcome)
      requires Valid() && open && inTransaction && saved == None && content == base
      requires multiset(ordered) == multiset(ranges) && Acceptable(base, ordered)
      modifies this
      ensures Valid() && saved == None && committed == old(committed)
      ensures outcome == EngineFailure || outcome == RollbackFailed || outcome.Success?
      ensures outcome.Success? ==> open && inTransaction && transaction == old(transaction) && outcome.compared == compared
      ensures outcome.Success? ==>
        IsOverlay(base, ranges, content) && |content| == |base| && outcome.written == Differing(base, content)
      ensures !outcome.Success? ==>
        !open || (inTransaction && content == base && transaction == old(transaction)) || (!inTransaction && content == committed)
      ensures outcome == RollbackFailed ==> !open
    {
      var begun := Begin();
      if !begun {
        return EngineFailure;
      }
      var written := WriteAll(ordered, base);
      if written == None {
        var sound := RollbackSavepoint();
        if !sound {
          return RollbackFailed;
        }
        return EngineFailure;
      }
      var released := Release();
      if !released {
        var _ := RollbackSavepoint();
        return EngineFailure;
      }
      SpliceAllIsOverlay(base, ordered);
      OrderIrrelevant(base, ordered, ranges, content);
      return Success(compared, written.value);
    }

    /** Writes the differing runs of every range, in order. */
    method WriteAll(ordered: seq<Range>, ghost base: Bytes) returns (written: Option<nat>)
      requires Valid() && inTransaction && content == base && saved == Some(base) && Acceptable(base, ordered)
      modifies `content, `inTransaction, `saved
      ensures Valid() && (inTransaction ==> saved == Some(base))
      ensures written.Some? ==> inTransaction && content == SpliceAll(base, ordered) && written.value == Differing(base, content)
    {
      hide SpliceAll, Splice, Differing, Disjoint;
      var ready := Handle();
      if !ready {
        return None;
      }
      NothingSpliced(base);
      var total: nat, k: nat := 0, 0;
      while k < |ordered|
        invariant 0 <= k <= |ordered| && Valid() && inTransaction && saved == Some(base)
        invariant InBounds(base, ordered[..k]) && content == SpliceAll(base, ordered[..k]) && total == Differing(base, content)
      {
        RangeUntouched(base, ordered, k);
        assert ordered[k] in ordered && Agrees(base, ordered[k]);
        var more := WriteRange(ordered[k], base, content);
        if more == None {
          return None;
        }
        SpliceNext(base, ordered, k);
        total, k := total + more.value, k + 1;
      }
      var closed := Handle();
      if !closed {
        return None;
      }
      assert ordered[..k] == ordered;
      return Some(total);
    }

    method WriteRange(r: Range, ghost base: Bytes, ghost start: Bytes) returns (written: Option<nat>)
      requires Valid() && inTransaction && saved == Some(base) && content == start && |start| == |base|
      requires Agrees(base, r) && start[r.offset..r.End()] == base[r.offset..r.End()]
      modifies `content, `inTransaction, `saved
      ensures Valid() && (inTransaction ==> saved == Some(base))
      ensures written.Some? ==> inTransaction && content == Splice(start, r)
      ensures written.Some? ==> Differing(base, content) == Differing(base, start) + written.value
    {
      hide Partly, Splice, Differing;
      var total: nat, cursor: nat := 0, 0;
      RangeStarted(start, r);
      while cursor < |r.after|
        invariant 0 <= cursor <= |r.after| && Valid() && inTransaction && saved == Some(base)
        invariant content == Partly(start, r, cursor) && Differing(base, content) == Differing(base, start) + total
      {
        if r.before[cursor] == r.after[cursor] {
          ByteKept(base, start, r, cursor);
          cursor := cursor + 1;
          continue;
        }
        var first := cursor;
        while cursor < |r.after| && r.before[cursor] != r.after[cursor]
          invariant first <= cursor <= |r.after|
          invariant forall i :: first <= i < cursor ==> r.before[i] != r.after[i]
        {
          cursor := cursor + 1;
        }
        var ok := Write(r.offset + first, r.after[first..cursor]);
        if !ok {
          return None;
        }
        RunReplaced(base, start, r, first, cursor);
        total := total + (cursor - first);
      }
      return Some(total);
    }
  }

  // ----- Steps of the loops above

  /** A batch that changes nothing is its own overlay. */
  lemma NothingChanges(content: Bytes, ranges: seq<Range>)
    requires Matches(content, ranges) && !Changes(ranges)
    ensures IsOverlay(content, ranges, content) && Differing(content, content) == 0
  {
    CountEqual(content, content, 0, |content|);
    forall r, i: nat | r in ranges && Covers(r, i) && i < |content|
      ensures content[i] == r.after[i - r.offset]
    {
      assert Agrees(content, r);
      assert content[r.offset..r.End()][i - r.offset] == content[i];
    }
  }

  lemma PieceDiffers(content: Bytes, r: Range, done: nat, count: nat)
    requires |r.before| == |r.after| && r.End() <= |content| && done + count <= |r.before|
    requires content[r.offset + done..r.offset + done + count] != r.before[done..done + count]
    ensures !Agrees(content, r)
  {
    var whole, piece := content[r.offset..r.End()], content[r.offset + done..r.offset + done + count];
    forall i | 0 <= i < count
      ensures piece[i] == whole[done + i]
    {
    }
    assert whole[done..done + count] == piece;
  }

  lemma PieceAgrees(content: Bytes, r: Range, done: nat, count: nat)
    requires |r.before| == |r.after| && r.End() <= |content| && done + count <= |r.before|
    requires content[r.offset..r.offset + done] == r.before[..done]
    requires content[r.offset + done..r.offset + done + count] == r.before[done..done + count]
    ensures content[r.offset..r.offset + (done + count)] == r.before[..done + count]
  {
    var lo, mid, hi := r.offset, r.offset + done, r.offset + done + count;
    assert content[lo..hi] == content[lo..mid] + content[mid..hi];
    assert r.before[..done + count] == r.before[..done] + r.before[done..done + count];
  }

  lemma NothingSpliced(base: Bytes)
    ensures SpliceAll(base, []) == base && Differing(base, base) == 0
  {
    CountEqual(base, base, 0, |base|);
  }

  lemma SpliceNext(base: Bytes, ordered: seq<Range>, k: nat)
    requires InBounds(base, ordered) && k < |ordered|
    ensures InBounds(base, ordered[..k]) && InBounds(base, ordered[..k + 1]) && ordered[k].End() <= |base|
    ensures SpliceAll(base, ordered[..k + 1]) == Splice(SpliceAll(base, ordered[..k]), ordered[k])
  {
    assert ordered[k] in ordered;
    assert ordered[..k + 1][..k] == ordered[..k];
    assert InBounds(base, ordered[..k]) && InBounds(base, ordered[..k + 1]);
  }

  /** A range of which the first `cursor` bytes are in place. */
  ghost function Partly(start: Bytes, r: Range, cursor: nat): (content: Bytes)
    requires cursor <= |r.after| && r.End() <= |start|
    ensures |content| == |start|
    ensures cursor == |r.after| ==> content == Splice(start, r)
  {
    start[..r.offset] + r.after[..cursor] + start[r.offset + cursor..]
  }

  lemma RangeStarted(start: Bytes, r: Range)
    requires r.End() <= |start|
    ensures Partly(start, r, 0) == start
  {
  }

  lemma ByteKept(base: Bytes, start: Bytes, r: Range, cursor: nat)
    requires |start| == |base| && Agrees(base, r) && start[r.offset..r.End()] == base[r.offset..r.End()]
    requires cursor < |r.after| && r.before[cursor] == r.after[cursor]
    ensures Partly(start, r, cursor + 1) == Partly(start, r, cursor)
  {
    assert start[r.offset + cursor] == start[r.offset..r.End()][cursor];
  }

  lemma RunReplaced(base: Bytes, start: Bytes, r: Range, first: nat, cursor: nat)
    requires |start| == |base| && Agrees(base, r) && start[r.offset..r.End()] == base[r.offset..r.End()]
    requires first < cursor <= |r.after| && forall i :: first <= i < cursor ==> r.before[i] != r.after[i]
    ensures Partly(start, r, cursor) ==
      Partly(start, r, first)[..r.offset + first] + r.after[first..cursor] + Partly(start, r, first)[r.offset + cursor..]
    ensures Differing(base, Partly(start, r, cursor)) == Differing(base, Partly(start, r, first)) + (cursor - first)
  {
    hide Differing;
    PartlyMore(start, r, first, cursor);
    PartlyDiffers(base, start, r, first, cursor);
    DifferingAfter(base, Partly(start, r, first), Partly(start, r, cursor), r.offset + first, r.offset + cursor);
  }

  lemma PartlyMore(start: Bytes, r: Range, first: nat, cursor: nat)
    requires r.End() <= |start| && first < cursor <= |r.after|
    ensures Partly(start, r, cursor) ==
      Partly(start, r, first)[..r.offset + first] + r.after[first..cursor] + Partly(start, r, first)[r.offset + cursor..]
  {
    var content := Partly(start, r, first);
    assert content[..r.offset + first] == start[..r.offset] + r.after[..first];
    assert content[r.offset + cursor..] == start[r.offset + cursor..];
    assert r.after[..cursor] == r.after[..first] + r.after[first..cursor];
  }

  lemma PartlyDiffers(base: Bytes, start: Bytes, r: Range, first: nat, cursor: nat)
    requires |start| == |base| && Agrees(base, r) && start[r.offset..r.End()] == base[r.offset..r.End()]
    requires first < cursor <= |r.after| && forall i :: first <= i < cursor ==> r.before[i] != r.after[i]
    ensures var content, content' := Partly(start, r, first), Partly(start, r, cursor);
      && (forall i :: 0 <= i < r.offset + first || r.offset + cursor <= i < |base| ==> content'[i] == content[i])
      && forall i :: r.offset + first <= i < r.offset + cursor ==> content[i] == base[i] && content'[i] != base[i]
  {
    var content, content' := Partly(start, r, first), Partly(start, r, cursor);
    forall i | r.offset + first <= i < r.offset + cursor
      ensures content[i] == base[i] && content'[i] != base[i]
    {
      assert start[i] == start[r.offset..r.End()][i - r.offset];
      assert base[i] == base[r.offset..r.End()][i - r.offset] == r.before[i - r.offset];
    }
  }
}
