/** Rewriting a stored BLOB in place: the catalog's coalescing form and the native exact form.
    The engine's calls may fail at any point, and a failed write may stop anywhere inside its run. */
module BlobPatch {
  type Byte = bv8

  const CHUNK: nat := 4096
  const GAP: nat := 32

  datatype Outcome = Written(bytes: nat) | NoTransaction | SizeMismatch | IoError

  // ----- Differences between two equally long values

  ghost predicate Equal(before: seq<Byte>, after: seq<Byte>, lo: nat, hi: nat)
    requires |before| == |after| && hi <= |before|
  {
    forall i :: lo <= i < hi ==> before[i] == after[i]
  }

  /** `GAP` bytes in a row unchanged. */
  ghost predicate Flat(before: seq<Byte>, after: seq<Byte>, i: nat)
    requires |before| == |after|
  {
    i + GAP <= |before| && Equal(before, after, i, i + GAP)
  }

  /** The number of differing bytes in a range. */
  ghost function Count(before: seq<Byte>, after: seq<Byte>, lo: nat, hi: nat): (n: nat)
    requires |before| == |after| && lo <= hi <= |before|
    ensures n <= hi - lo
    decreases hi - lo
  {
    if lo == hi then 0
    else Count(before, after, lo, hi - 1) + if before[hi - 1] != after[hi - 1] then 1 else 0
  }

  ghost function Differing(before: seq<Byte>, after: seq<Byte>): nat
    requires |before| == |after|
  {
    Count(before, after, 0, |before|)
  }

  lemma {:induction false} CountSplit(before: seq<Byte>, after: seq<Byte>, lo: nat, mid: nat, hi: nat)
    requires |before| == |after| && lo <= mid <= hi <= |before|
    ensures Count(before, after, lo, hi) == Count(before, after, lo, mid) + Count(before, after, mid, hi)
    decreases hi - mid
  {
    if mid < hi {
      CountSplit(before, after, lo, mid, hi - 1);
    }
  }

  lemma {:induction false} CountEqual(before: seq<Byte>, after: seq<Byte>, lo: nat, hi: nat)
    requires |before| == |after| && lo <= hi <= |before| && Equal(before, after, lo, hi)
    ensures Count(before, after, lo, hi) == 0
    decreases hi - lo
  {
    if lo < hi {
      CountEqual(before, after, lo, hi - 1);
    }
  }

  lemma {:induction false} CountDiffering(before: seq<Byte>, after: seq<Byte>, lo: nat, hi: nat)
    requires |before| == |after| && lo <= hi <= |before|
    requires forall i :: lo <= i < hi ==> before[i] != after[i]
    ensures Count(before, after, lo, hi) == hi - lo
    decreases hi - lo
  {
    if lo < hi {
      CountDiffering(before, after, lo, hi - 1);
    }
  }

  lemma {:induction false} CountAgrees(before: seq<Byte>, after: seq<Byte>, after': seq<Byte>, lo: nat, hi: nat)
    requires |before| == |after| == |after'| && lo <= hi <= |before|
    requires forall i :: lo <= i < hi ==> after[i] == after'[i]
    ensures Count(before, after, lo, hi) == Count(before, after', lo, hi)
    decreases hi - lo
  {
    if lo < hi {
      CountAgrees(before, after, after', lo, hi - 1);
    }
  }

  // ----- The runs a patch writes

  datatype Run = Run(first: nat, last: nat)

  /** A written run: it starts and ends on a differing byte of one chunk, and nowhere inside
      are `GAP` bytes in a row unchanged. */
  ghost predicate IsRun(before: seq<Byte>, after: seq<Byte>, r: Run)
    requires |before| == |after|
  {
    && r.first < r.last <= |before|
    && before[r.first] != after[r.first] && before[r.last - 1] != after[r.last - 1]
    && r.first / CHUNK == (r.last - 1) / CHUNK
    && forall i :: r.first <= i <= r.last - GAP ==> !Flat(before, after, i)
  }

  /** Two consecutive runs that could not have been one. */
  ghost predicate Separate(q: Run, r: Run) {
    q.last > 0 && (q.last + GAP <= r.first || (q.last - 1) / CHUNK != r.first / CHUNK)
  }

  /** The runs written for the first `n` bytes: everything outside them is unchanged. */
  ghost predicate Coalesced(before: seq<Byte>, after: seq<Byte>, runs: seq<Run>, n: nat)
    requires |before| == |after| && n <= |before|
    decreases |runs|
  {
    if runs == [] then Equal(before, after, 0, n)
    else
      var r := runs[|runs| - 1];
      && IsRun(before, after, r) && r.last <= n && Equal(before, after, r.last, n)
      && (|runs| > 1 ==> Separate(runs[|runs| - 2], r))
      && Coalesced(before, after, runs[..|runs| - 1], r.first)
  }

  ghost function Cost(runs: seq<Run>): int {
    if runs == [] then 0
    else Cost(runs[..|runs| - 1]) + runs[|runs| - 1].last - runs[|runs| - 1].first
  }

  /** The last differing byte before the end of a run is at most `GAP` bytes back. */
  lemma PreviousDifference(before: seq<Byte>, after: seq<Byte>, r: Run) returns (p: nat)
    requires |before| == |after| && IsRun(before, after, r) && r.last > r.first + 1
    ensures r.first <= p < r.last - 1 && r.last - 1 - p <= GAP
    ensures before[p] != after[p] && Equal(before, after, p + 1, r.last - 1)
  {
    p := r.last - 2;
    while before[p] == after[p]
      invariant r.first <= p <= r.last - 2 && Equal(before, after, p + 1, r.last - 1)
      decreases p
    {
      p := p - 1;
    }
    if r.last - 1 - p > GAP {
      assert Flat(before, after, p + 1);
    }
  }

  lemma {:induction false} RunBound(before: seq<Byte>, after: seq<Byte>, r: Run)
    requires |before| == |after| && IsRun(before, after, r)
    ensures 0 < Count(before, after, r.first, r.last) <= r.last - r.first <= 32 * Count(before, after, r.first, r.last) - 31
    decreases r.last
  {
    if r.last > r.first + 1 {
      var p := PreviousDifference(before, after, r);
      RunBound(before, after, Run(r.first, p + 1));
      CountSplit(before, after, r.first, p + 1, r.last - 1);
    } else {
      assert Count(before, after, r.first, r.first) == 0;
    }
  }

  /** Coalescing never writes less than the difference and never more than 31 bytes extra per
      differing byte after the first. */
  lemma {:induction false} CoalescedCost(before: seq<Byte>, after: seq<Byte>, runs: seq<Run>, n: nat)
    requires |before| == |after| && n <= |before| && Coalesced(before, after, runs, n)
    ensures var h := Count(before, after, 0, n);
      h <= Cost(runs) && (if h == 0 then Cost(runs) == 0 else Cost(runs) <= 32 * h - 31)
    decreases |runs|
  {
    if runs == [] {
      CountEqual(before, after, 0, n);
    } else {
      var r := runs[|runs| - 1];
      CoalescedCost(before, after, runs[..|runs| - 1], r.first);
      RunBound(before, after, r);
      CountSplit(before, after, 0, r.first, r.last);
      CountSplit(before, after, 0, r.last, n);
      CountEqual(before, after, r.last, n);
    }
  }

  // ----- Writing

  /** The first `n` bytes are already the replacement's, the rest still the original's. */
  ghost predicate Patched(blob: seq<Byte>, before: seq<Byte>, after: seq<Byte>, n: nat) {
    |blob| == |before| == |after| && n <= |before| && blob == after[..n] + before[n..]
  }

  /** What an interrupted patch leaves for the transaction to roll back. */
  ghost predicate Interrupted(blob: seq<Byte>, before: seq<Byte>, after: seq<Byte>) {
    exists n :: Patched(blob, before, after, n)
  }

  /** `sqlite3_blob_write`: a failure may leave any prefix of the data behind. */
  method Write(blob: array<Byte>, at: nat, data: seq<Byte>) returns (ok: bool, ghost done: nat)
    requires at + |data| <= blob.Length
    modifies blob
    ensures done <= |data| && (ok ==> done == |data|)
    ensures blob[..] == old(blob[..])[..at] + data[..done] + old(blob[..])[at + done..]
  {
    var i := 0;
    ok := true;
    while i < |data| && ok
      invariant 0 <= i <= |data|
      invariant blob[..at + i] == old(blob[..])[..at] + data[..i]
      invariant blob[at + i..] == old(blob[..])[at + i..]
      decreases |data| - i, ok
    {
      if * {
        ok := false;
      } else {
        blob[at + i] := data[i];
        i := i + 1;
      }
    }
    done := i;
    assert blob[..] == blob[..at + i] + blob[at + i..];
  }

  lemma PatchedByWrite(blob: seq<Byte>, before: seq<Byte>, after: seq<Byte>, n: nat, last: nat, done: nat, blob': seq<Byte>)
    requires Patched(blob, before, after, n) && n + done <= last <= |before|
    requires blob' == blob[..n] + after[n..last][..done] + blob[n + done..]
    ensures Patched(blob', before, after, n + done)
  {
    assert after[n..last][..done] == after[n..n + done];
  }

  lemma NothingWritten(before: seq<Byte>, after: seq<Byte>)
    requires |before| == |after|
    ensures Patched(before, before, after, 0) && Coalesced(before, after, [], 0) && Finished([], 0) && Cost([]) == 0
  {
  }

  lemma FullyPatched(blob: seq<Byte>, before: seq<Byte>, after: seq<Byte>)
    requires Patched(blob, before, after, |after|)
    ensures blob == after
  {
  }

  lemma PatchedByEqual(blob: seq<Byte>, before: seq<Byte>, after: seq<Byte>, n: nat, m: nat)
    requires Patched(blob, before, after, n) && n <= m <= |before| && Equal(before, after, n, m)
    ensures Patched(blob, before, after, m)
  {
  }

  lemma CoalescedMore(before: seq<Byte>, after: seq<Byte>, runs: seq<Run>, n: nat, m: nat)
    requires |before| == |after| && n <= m <= |before|
    requires Coalesced(before, after, runs, n) && Equal(before, after, n, m)
    ensures Coalesced(before, after, runs, m)
  {
  }

  ghost predicate Finished(runs: seq<Run>, n: nat) {
    runs == [] || (0 < runs[|runs| - 1].last <= n && (runs[|runs| - 1].last + GAP <= n || (runs[|runs| - 1].last - 1) / CHUNK != n / CHUNK))
  }

  lemma CoalescedRun(before: seq<Byte>, after: seq<Byte>, runs: seq<Run>, r: Run, m: nat)
    requires |before| == |after| && IsRun(before, after, r) && r.last <= m <= |before|
    requires Coalesced(before, after, runs, r.first) && Finished(runs, r.first)
    requires Equal(before, after, r.last, m)
    ensures Coalesced(before, after, runs + [r], m) && Cost(runs + [r]) == Cost(runs) + (r.last - r.first)
  {
    assert (runs + [r])[..|runs|] == runs;
  }

  /** The catalog's `patchBlob`: chunk by chunk, joining runs less than `GAP` equal bytes apart. */
  method PatchCoalesced(blob: array<Byte>, inTransaction: bool, replacement: seq<Byte>)
    returns (outcome: Outcome, ghost runs: seq<Run>)
    modifies blob
    ensures outcome == NoTransaction <==> !inTransaction
    ensures outcome == SizeMismatch ==> |replacement| != blob.Length
    ensures inTransaction && |replacement| != blob.Length ==> outcome == SizeMismatch || outcome == IoError
    ensures outcome == NoTransaction || |replacement| != blob.Length ==> unchanged(blob)
    ensures outcome.IoError? && |replacement| == blob.Length ==> Interrupted(blob[..], old(blob[..]), replacement)
    ensures outcome.Written? ==> blob[..] == replacement
    ensures outcome.Written? ==> Coalesced(old(blob[..]), replacement, runs, |replacement|) && outcome.bytes == Cost(runs)
    ensures outcome.Written? ==>
      var h := Differing(old(blob[..]), replacement);
      h <= outcome.bytes && (if h == 0 then outcome.bytes == 0 else outcome.bytes <= 32 * h - 31)
  {
    hide Coalesced, IsRun, Finished, Patched, Count, Cost;
    runs := [];
    if !inTransaction {
      return NoTransaction, runs;
    }
    ghost var before := blob[..];
    if |replacement| == blob.Length {
      NothingWritten(before, replacement);
    }
    if * {
      return IoError, runs; // the BLOB cannot be opened
    }
    if |replacement| != blob.Length {
      return SizeMismatch, runs;
    }
    var written, offset := 0, 0;
    while offset < |replacement|
      invariant 0 <= offset && (offset % CHUNK == 0 || offset == |replacement|) && offset <= |replacement|
      invariant Patched(blob[..], before, replacement, offset)
      invariant Coalesced(before, replacement, runs, offset) && written == Cost(runs)
      invariant offset < |replacement| ==> Finished(runs, offset)
      decreases |replacement| - offset
    {
      var count := if CHUNK < |replacement| - offset then CHUNK else |replacement| - offset;
      if * {
        return IoError, runs;
      }
      var more, ok;
      more, ok, runs := PatchChunk(blob, replacement, offset, count, before, runs);
      if !ok {
        return IoError, runs;
      }
      written := written + more;
      offset := offset + count;
    }
    if * {
      return IoError, runs; // closing the handle failed
    }
    CoalescedCost(before, replacement, runs, |replacement|);
    FullyPatched(blob[..], before, replacement);
    outcome := Written(written);
  }

  method PatchChunk(blob: array<Byte>, replacement: seq<Byte>, offset: nat, count: nat, ghost before: seq<Byte>, ghost earlier: seq<Run>)
    returns (written: nat, ok: bool, ghost runs: seq<Run>)
    requires |before| == |replacement| == blob.Length && offset % CHUNK == 0 && 0 < count <= CHUNK && offset + count <= |replacement|
    requires count == CHUNK || offset + count == |replacement|
    requires Patched(blob[..], before, replacement, offset)
    requires Coalesced(before, replacement, earlier, offset) && Finished(earlier, offset)
    modifies blob
    ensures ok ==> Patched(blob[..], before, replacement, offset + count)
    ensures !ok ==> Interrupted(blob[..], before, replacement)
    ensures ok ==> Coalesced(before, replacement, runs, offset + count) && Cost(runs) == Cost(earlier) + written
    ensures ok && offset + count < |replacement| ==> Finished(runs, offset + count)
  {
    hide Coalesced, Patched, Cost, Equal, Finished;
    var previous := blob[offset..offset + count];
    PatchedSuffix(blob[..], before, replacement, offset, count);
    written, ok, runs := 0, true, earlier;
    var index := 0;
    while index < count
      invariant 0 <= index <= count
      invariant Patched(blob[..], before, replacement, offset + index)
      invariant Coalesced(before, replacement, runs, offset + index) && Cost(runs) == Cost(earlier) + written
      invariant index < count || offset + count < |replacement| ==> Finished(runs, offset + index)
    {
      if previous[index] == replacement[offset + index] {
        OneEqual(before, replacement, offset + index);
        PatchedByEqual(blob[..], before, replacement, offset + index, offset + index + 1);
        CoalescedMore(before, replacement, runs, offset + index, offset + index + 1);
        FinishedMore(runs, offset + index);
        index := index + 1;
        continue;
      }
      var next, last;
      next, last, ok := PatchRun(blob, replacement, offset, count, previous, index, before, runs);
      if !ok {
        return;
      }
      written, runs := written + (last - index), runs + [Run(offset + index, offset + last)];
      index := next;
    }
  }

  /** One run of a chunk: found, written, and followed by equal bytes up to `next`. */
  method PatchRun(blob: array<Byte>, replacement: seq<Byte>, offset: nat, count: nat, previous: seq<Byte>, first: nat,
                  ghost before: seq<Byte>, ghost runs: seq<Run>)
    returns (next: nat, last: nat, ok: bool)
    requires |before| == |replacement| == blob.Length && offset % CHUNK == 0 && count <= CHUNK
    requires offset + count <= |replacement| && (count == CHUNK || offset + count == |replacement|)
    requires previous == before[offset..offset + count]
    requires first < count && previous[first] != replacement[offset + first]
    requires Patched(blob[..], before, replacement, offset + first)
    requires Coalesced(before, replacement, runs, offset + first) && Finished(runs, offset + first)
    modifies blob
    ensures !ok ==> Interrupted(blob[..], before, replacement)
    ensures ok ==> first < last <= next <= count && Patched(blob[..], before, replacement, offset + next)
    ensures ok ==> Coalesced(before, replacement, runs + [Run(offset + first, offset + last)], offset + next)
    ensures ok ==> Cost(runs + [Run(offset + first, offset + last)]) == Cost(runs) + (last - first)
    ensures ok && (next < count || offset + count < |before|) ==>
      Finished(runs + [Run(offset + first, offset + last)], offset + next)
  {
    hide Coalesced, IsRun, Patched, Cost, Equal, Finished;
    last, next := RunEnd(previous, replacement[offset..offset + count], first);
    ghost var was := blob[..];
    ghost var done;
    ok, done := Write(blob, offset + first, replacement[offset + first..offset + last]);
    PatchedByWrite(was, before, replacement, offset + first, offset + last, done, blob[..]);
    if ok {
      assert offset + first + done == offset + last;
      RunWritten(blob[..], before, replacement, offset, count, first, last, next, runs);
    }
  }

  lemma FinishedMore(runs: seq<Run>, n: nat)
    requires Finished(runs, n)
    ensures Finished(runs, n + 1)
  {
  }

  /** All that one written run and the scan behind it establish. */
  lemma RunWritten(blob: seq<Byte>, before: seq<Byte>, after: seq<Byte>, offset: nat, count: nat,
                   first: nat, last: nat, index: nat, runs: seq<Run>)
    requires |before| == |after| && offset % CHUNK == 0 && count <= CHUNK && offset + count <= |before|
    requires first < last <= index <= count && Patched(blob, before, after, offset + last)
    requires Joined(before[offset..offset + count], after[offset..offset + count], first, last)
    requires Equal(before[offset..offset + count], after[offset..offset + count], last, index)
    requires index == last + GAP || index == count
    requires count == CHUNK || offset + count == |before|
    requires Coalesced(before, after, runs, offset + first) && Finished(runs, offset + first)
    ensures Patched(blob, before, after, offset + index)
    ensures Coalesced(before, after, runs + [Run(offset + first, offset + last)], offset + index)
    ensures Cost(runs + [Run(offset + first, offset + last)]) == Cost(runs) + (last - first)
    ensures index < count || offset + count < |before| ==> Finished(runs + [Run(offset + first, offset + last)], offset + index)
  {
    hide Coalesced, IsRun, Patched, Cost, Joined, Equal;
    JoinedIsRun(before, after, offset, count, first, last, index);
    PatchedByEqual(blob, before, after, offset + last, offset + index);
    CoalescedRun(before, after, runs, Run(offset + first, offset + last), offset + index);
    if index < count || offset + count < |before| {
      SameChunk(offset, last - 1);
    }
  }

  /** From a differing byte on: the end of its run, and where the scan stopped. */
  method RunEnd(previous: seq<Byte>, next: seq<Byte>, first: nat) returns (last: nat, index: nat)
    requires |previous| == |next| && first < |previous| && previous[first] != next[first]
    ensures Joined(previous, next, first, last) && last <= index <= |previous|
    ensures Equal(previous, next, last, index)
    ensures index == last + GAP || (index < last + GAP && index == |previous|)
  {
    last, index := first + 1, first + 1;
    while index < |previous| && index - last < GAP
      invariant first < last <= index <= |previous| && index - last <= GAP
      invariant Joined(previous, next, first, last)
      invariant Equal(previous, next, last, index)
    {
      if previous[index] != next[index] {
        JoinedMore(previous, next, first, last, index);
        last := index + 1;
      }
      index := index + 1;
    }
  }

  lemma OneEqual(before: seq<Byte>, after: seq<Byte>, i: nat)
    requires |before| == |after| && i < |before| && before[i] == after[i]
    ensures Equal(before, after, i, i + 1)
  {
  }

  lemma PatchedSuffix(blob: seq<Byte>, before: seq<Byte>, after: seq<Byte>, offset: nat, count: nat)
    requires Patched(blob, before, after, offset) && offset + count <= |before|
    ensures blob[offset..offset + count] == before[offset..offset + count]
  {
  }

  /** `IsRun` inside one chunk. */
  ghost predicate Joined(previous: seq<Byte>, after: seq<Byte>, first: nat, last: nat)
    requires |previous| == |after|
  {
    && first < last <= |previous|
    && previous[first] != after[first] && previous[last - 1] != after[last - 1]
    && forall i :: first <= i <= last - GAP ==> !Flat(previous, after, i)
  }

  lemma JoinedMore(previous: seq<Byte>, after: seq<Byte>, first: nat, last: nat, index: nat)
    requires |previous| == |after| && last <= index < |previous| && index - last < GAP
    requires Joined(previous, after, first, last) && previous[index] != after[index]
    ensures Joined(previous, after, first, index + 1)
  {
    forall i | first <= i <= index + 1 - GAP
      ensures !Flat(previous, after, i)
    {
      var k := if i + GAP == index + 1 then index else last - 1;
      if i > last - GAP {
        assert i <= k < i + GAP && previous[k] != after[k];
      }
    }
  }

  /** A run found inside a chunk, and the equal bytes after it, in the BLOB's own positions. */
  lemma JoinedIsRun(before: seq<Byte>, after: seq<Byte>, offset: nat, count: nat, first: nat, last: nat, index: nat)
    requires |before| == |after| && offset % CHUNK == 0 && count <= CHUNK && offset + count <= |before|
    requires last <= index <= count
    requires Joined(before[offset..offset + count], after[offset..offset + count], first, last)
    requires Equal(before[offset..offset + count], after[offset..offset + count], last, index)
    ensures IsRun(before, after, Run(offset + first, offset + last))
    ensures Equal(before, after, offset + last, offset + index)
  {
    var previous, next := before[offset..offset + count], after[offset..offset + count];
    assert before[offset + first] == previous[first] && before[offset + last - 1] == previous[last - 1];
    SameChunk(offset, first);
    SameChunk(offset, last - 1);
    forall i | offset + first <= i <= offset + last - GAP
      ensures !Flat(before, after, i)
    {
      assert !Flat(previous, next, i - offset);
      var k :| i - offset <= k < i - offset + GAP && previous[k] != next[k];
      assert before[offset + k] != after[offset + k];
    }
    forall i | offset + last <= i < offset + index
      ensures before[i] == after[i]
    {
      assert previous[i - offset] == next[i - offset];
    }
  }

  lemma SameChunk(offset: nat, i: nat)
    requires offset % CHUNK == 0 && i < CHUNK
    ensures (offset + i) / CHUNK == offset / CHUNK
  {
  }

  // ----- The native form

  /** The native `patch_blob`: exactly the differing bytes are written. */
  method PatchExact(blob: array<Byte>, inTransaction: bool, replacement: seq<Byte>) returns (outcome: Outcome)
    modifies blob
    ensures outcome == NoTransaction <==> !inTransaction
    ensures outcome == SizeMismatch ==> |replacement| != blob.Length
    ensures inTransaction && |replacement| != blob.Length ==> outcome == SizeMismatch || outcome == IoError
    ensures outcome == NoTransaction || |replacement| != blob.Length ==> unchanged(blob)
    ensures outcome.IoError? && |replacement| == blob.Length ==> Interrupted(blob[..], old(blob[..]), replacement)
    ensures outcome.Written? ==> blob[..] == replacement && outcome.bytes == Differing(old(blob[..]), replacement)
  {
    hide Patched, Count, Interrupted;
    if !inTransaction {
      return NoTransaction;
    }
    if * {
      if |replacement| == blob.Length {
        NotStarted(blob[..], replacement);
      }
      return IoError; // the BLOB cannot be opened
    }
    if |replacement| != blob.Length {
      return SizeMismatch;
    }
    outcome := PatchChunks(blob, replacement, blob[..]);
  }

  lemma NotStarted(before: seq<Byte>, after: seq<Byte>)
    requires |before| == |after|
    ensures Interrupted(before, before, after)
  {
    assert Patched(before, before, after, 0);
  }

  method PatchChunks(blob: array<Byte>, replacement: seq<Byte>, ghost before: seq<Byte>) returns (outcome: Outcome)
    requires before == blob[..] && |replacement| == blob.Length
    modifies blob
    ensures outcome.IoError? || outcome.Written?
    ensures outcome.IoError? ==> Interrupted(blob[..], before, replacement)
    ensures outcome.Written? ==> blob[..] == replacement && outcome.bytes == Differing(before, replacement)
  {
    hide Patched, Count;
    NothingWritten(before, replacement);
    CountEqual(before, replacement, 0, 0);
    var written, offset := 0, 0;
    while offset < |replacement|
      invariant 0 <= offset <= |replacement|
      invariant Patched(blob[..], before, replacement, offset)
      invariant written == Count(before, replacement, 0, offset)
    {
      var count := if CHUNK < |replacement| - offset then CHUNK else |replacement| - offset;
      if * {
        return IoError;
      }
      var previous := blob[offset..offset + count];
      PatchedSuffix(blob[..], before, replacement, offset, count);
      var more, ok := WriteDifferences(blob, previous, replacement, offset, offset + count, before);
      if !ok {
        return IoError;
      }
      CountSplit(before, replacement, 0, offset, offset + count);
      written := written + more;
      offset := offset + count;
    }
    if * {
      return IoError;
    }
    FullyPatched(blob[..], before, replacement);
    outcome := Written(written);
  }

  /** Writes the maximal differing runs of `replacement[from..to]`; `previous` holds the
      original bytes there. */
  method WriteDifferences(blob: array<Byte>, previous: seq<Byte>, replacement: seq<Byte>, from: nat, to: nat, ghost before: seq<Byte>)
    returns (written: nat, ok: bool)
    requires |before| == |replacement| == blob.Length && from <= to <= |replacement|
    requires Patched(blob[..], before, replacement, from)
    requires previous == before[from..to]
    modifies blob
    ensures ok ==> Patched(blob[..], before, replacement, to) && written == Count(before, replacement, from, to)
    ensures !ok ==> Interrupted(blob[..], before, replacement)
  {
    hide Patched, Count;
    CountEqual(before, replacement, from, from);
    written, ok := 0, true;
    var i := from;
    while i < to
      invariant from <= i <= to
      invariant Patched(blob[..], before, replacement, i)
      invariant written == Count(before, replacement, from, i)
    {
      if previous[i - from] == replacement[i] {
        PatchedByEqual(blob[..], before, replacement, i, i + 1);
        CountSplit(before, replacement, from, i, i + 1);
        CountEqual(before, replacement, i, i + 1);
        i := i + 1;
        continue;
      }
      var first := i;
      ghost var was := blob[..];
      while i < to && previous[i - from] != replacement[i]
        invariant first <= i <= to && blob[..] == was
        invariant forall k :: first <= k < i ==> before[k] != replacement[k]
      {
        i := i + 1;
      }
      ghost var done;
      ok, done := Write(blob, first, replacement[first..i]);
      PatchedByWrite(was, before, replacement, first, i, done, blob[..]);
      if !ok {
        return;
      }
      CountSplit(before, replacement, from, first, i);
      CountDiffering(before, replacement, first, i);
      written := written + (i - first);
    }
  }
}
