/** Keyset pages: the first matches after a key, and what follows from their order. */
module Keyset {
  import opened Graph
  import opened Orders

  predicate Smaller(a: nat, b: nat) { a < b }

  predicate Ascending(keys: seq<nat>) {
    forall i, j :: 0 <= i < j < |keys| ==> keys[i] < keys[j]
  }

  function Later(keys: set<nat>, after: int): set<nat> {
    set k | k in keys && k > after
  }

  /** `ORDER BY key LIMIT count`. */
  predicate FirstOf(keys: set<nat>, count: nat, first: seq<nat>) {
    && Ascending(first) && |first| <= count
    && (forall k :: k in first ==> k in keys)
    && (forall k, l :: k in first && l in keys && l !in first ==> k < l)
    && (|first| < count ==> forall k :: k in keys ==> k in first)
  }

  method FirstKeys(keys: set<nat>, count: nat) returns (first: seq<nat>)
    ensures FirstOf(keys, count, first)
  {
    var rest := keys;
    first := [];
    while rest != {} && |first| < count
      invariant |first| <= count && Picked(keys, first, rest)
      decreases |rest|
    {
      LeastExists(Smaller, rest);
      var k :| IsLeast(Smaller, rest, k);
      PickedNext(keys, first, rest, k);
      first, rest := first + [k], rest - {k};
    }
  }

  /** The keys split into an ascending sequence and the larger rest. */
  predicate Picked(keys: set<nat>, first: seq<nat>, rest: set<nat>) {
    && Ascending(first)
    && keys == (set k | k in first) + rest
    && (forall k, l :: k in first && l in rest ==> k < l)
  }

  lemma PickedNext(keys: set<nat>, first: seq<nat>, rest: set<nat>, k: nat)
    requires Picked(keys, first, rest) && IsLeast(Smaller, rest, k)
    ensures Picked(keys, first + [k], rest - {k})
  {
    assert forall i :: 0 <= i < |first| ==> first[i] in first;
    assert (set l | l in first + [k]) == (set l | l in first) + {k};
  }

  lemma FirstOfPrefix(keys: set<nat>, limit: nat, found: seq<nat>)
    requires FirstOf(keys, limit + 1, found) && |found| == limit + 1
    ensures FirstOf(keys, limit, found[..limit])
    ensures found[limit] in keys && found[limit] !in found[..limit]
  {
    forall k, l | k in found[..limit] && l in keys && l !in found[..limit] ensures k < l {
      var i :| 0 <= i < limit && found[..limit][i] == k;
      assert k == found[i] && found[i] < found[limit];
      assert k in found;
      if l in found {
        var j :| 0 <= j < |found| && found[j] == l;
        assert forall m :: 0 <= m < limit ==> found[..limit][m] == found[m];
        assert j == limit;
      }
    }
  }

  lemma AscendingAppend(a: seq<nat>, b: seq<nat>, middle: int)
    requires Ascending(a) && Ascending(b)
    requires (forall k :: k in a ==> k <= middle) && (forall k :: k in b ==> k > middle)
    ensures Ascending(a + b)
  {
    assert forall i :: 0 <= i < |a| ==> a[i] in a;
    assert forall i :: 0 <= i < |b| ==> b[i] in b;
  }

  lemma PageEnds(keys: set<nat>, limit: nat, files: seq<nat>)
    requires FirstOf(keys, limit, files) && files != []
    ensures forall k :: k in keys && k <= files[|files| - 1] <==> k in files
  {
    var last := files[|files| - 1];
    forall k | k in keys && k !in files ensures k > last {
      assert last in files;
    }
  }

  /** What has been listed so far: every key up to `after`, ascending. */
  ghost predicate Listed(keys: set<nat>, all: seq<nat>, after: int) {
    Ascending(all) && forall k :: k in all <==> k in keys && k <= after
  }

  lemma NothingListed(keys: set<nat>)
    requires forall k :: k in keys ==> k > 0
    ensures Listed(keys, [], 0)
  {
  }

  /** One more page, with more to follow: the listing grows and what remains shrinks. */
  lemma ListedNext(keys: set<nat>, all: seq<nat>, after: int, limit: nat, files: seq<nat>)
    requires Listed(keys, all, after) && FirstOf(Later(keys, after), limit, files) && files != []
    ensures Listed(keys, all + files, files[|files| - 1])
    ensures |Later(keys, files[|files| - 1])| < |Later(keys, after)|
  {
    var later, last := Later(keys, after), files[|files| - 1];
    assert forall i :: 0 <= i < |files| ==> files[i] in files;
    assert last in later;
    AscendingAppend(all, files, after);
    PageEnds(later, limit, files);
    CardinalitySmaller(Later(keys, last), later, last);
  }

  /** The last page: nothing is left out. */
  lemma ListedAll(keys: set<nat>, all: seq<nat>, after: int, limit: nat, files: seq<nat>)
    requires Listed(keys, all, after) && FirstOf(Later(keys, after), limit, files)
    requires forall k :: k in Later(keys, after) ==> k in files
    ensures Ascending(all + files) && forall k :: k in all + files <==> k in keys
  {
    AscendingAppend(all, files, after);
  }
}
