/** Finite directed graphs given as sets of edges, with the worklist closure that
    SQLite runs for a `WITH RECURSIVE ... UNION` query. */
module Graph {
  ghost predicate IsPath<K(!new)>(edges: set<(K, K)>, p: seq<K>, from: K, to: K) {
    && |p| > 0
    && p[0] == from
    && p[|p| - 1] == to
    && forall i :: 0 <= i < |p| - 1 ==> (p[i], p[i + 1]) in edges
  }

  /** `to` can be reached from `from` along zero or more edges. */
  ghost predicate Reaches<K(!new)>(edges: set<(K, K)>, from: K, to: K) {
    exists p: seq<K> :: IsPath(edges, p, from, to)
  }

  /** `k` can be reached from itself along one or more edges. */
  ghost predicate OnCycle<K(!new)>(edges: set<(K, K)>, k: K) {
    exists c: K :: (k, c) in edges && Reaches(edges, c, k)
  }

  ghost predicate Acyclic<K(!new)>(edges: set<(K, K)>) {
    forall k: K :: !OnCycle(edges, k)
  }

  ghost predicate ReachedFrom<K(!new)>(edges: set<(K, K)>, roots: set<K>, k: K) {
    exists r: K :: r in roots && Reaches(edges, r, k)
  }

  function Reverse<K(==)>(edges: set<(K, K)>): set<(K, K)> {
    set e | e in edges :: (e.1, e.0)
  }

  lemma ReachesSelf<K(!new)>(edges: set<(K, K)>, k: K)
    ensures Reaches(edges, k, k)
  {
    assert IsPath(edges, [k], k, k);
  }

  lemma ReachesStep<K(!new)>(edges: set<(K, K)>, a: K, b: K, c: K)
    requires (a, b) in edges && Reaches(edges, b, c)
    ensures Reaches(edges, a, c)
  {
    var p :| IsPath(edges, p, b, c);
    assert IsPath(edges, [a] + p, a, c);
  }

  lemma ReachesSnoc<K(!new)>(edges: set<(K, K)>, a: K, b: K, c: K)
    requires Reaches(edges, a, b) && (b, c) in edges
    ensures Reaches(edges, a, c)
  {
    var p :| IsPath(edges, p, a, b);
    assert IsPath(edges, p + [c], a, c);
  }

  lemma ReachesTransitive<K(!new)>(edges: set<(K, K)>, a: K, b: K, c: K)
    requires Reaches(edges, a, b) && Reaches(edges, b, c)
    ensures Reaches(edges, a, c)
  {
    var p :| IsPath(edges, p, a, b);
    var q :| IsPath(edges, q, b, c);
    assert IsPath(edges, p + q[1..], a, c);
  }

  lemma ReachesMonotone<K(!new)>(edges: set<(K, K)>, more: set<(K, K)>, a: K, b: K)
    requires edges <= more && Reaches(edges, a, b)
    ensures Reaches(more, a, b)
  {
    var p :| IsPath(edges, p, a, b);
    assert IsPath(more, p, a, b);
  }

  lemma ReachesReverse<K(!new)>(edges: set<(K, K)>, a: K, b: K)
    requires Reaches(edges, a, b)
    ensures Reaches(Reverse(edges), b, a)
  {
    var p :| IsPath(edges, p, a, b);
    var q := seq(|p|, i requires 0 <= i < |p| => p[|p| - 1 - i]);
    forall i | 0 <= i < |q| - 1 ensures (q[i], q[i + 1]) in Reverse(edges) {
      assert (p[|p| - 2 - i], p[|p| - 2 - i + 1]) in edges;
    }
    assert IsPath(Reverse(edges), q, b, a);
  }

  /** Walking the edges backwards reaches exactly what walking them forwards does. */
  lemma ReverseReaches<K(!new)>(edges: set<(K, K)>, a: K, b: K)
    ensures Reaches(Reverse(edges), b, a) <==> Reaches(edges, a, b)
  {
    if Reaches(edges, a, b) {
      ReachesReverse(edges, a, b);
    }
    if Reaches(Reverse(edges), b, a) {
      ReachesReverse(Reverse(edges), b, a);
      assert Reverse(Reverse(edges)) == edges by {
        forall e ensures e in Reverse(Reverse(edges)) <==> e in edges {
          if e in edges {
            assert (e.1, e.0) in Reverse(edges);
          }
        }
      }
    }
  }

  /** A path that leaves `edges` must use one of the edges `edges` lacks. */
  lemma PathLeaves<K(!new)>(edges: set<(K, K)>, more: set<(K, K)>, a: K, b: K)
    requires Reaches(more, a, b)
    ensures Reaches(edges, a, b)
         || exists x: K, y: K :: (x, y) in more - edges && Reaches(more, a, x) && Reaches(more, y, b)
  {
    var p :| IsPath(more, p, a, b);
    if i :| 0 <= i < |p| - 1 && (p[i], p[i + 1]) !in edges {
      var x, y := p[i], p[i + 1];
      assert IsPath(more, p[..i + 1], a, x);
      assert IsPath(more, p[i + 1..], y, b);
      assert (x, y) in more - edges;
    } else {
      assert IsPath(edges, p, a, b);
    }
  }

  /** Every cycle a change introduces runs through an edge the change added. */
  lemma NewCycleUsesAddedEdge<K(!new)>(before: set<(K, K)>, after: set<(K, K)>, k: K)
    requires Acyclic(before) && OnCycle(after, k)
    ensures exists e :: e in after - before && Reaches(after, e.1, e.0)
  {
    var c :| (k, c) in after && Reaches(after, c, k);
    var e := (k, c);
    if e in before {
      PathLeaves(before, after, c, k);
      assert !OnCycle(before, k);
      var x, y :| (x, y) in after - before && Reaches(after, c, x) && Reaches(after, y, k);
      ReachesStep(after, k, c, x);
      ReachesTransitive(after, y, k, x);
      e := (x, y);
    }
    assert e in after - before && Reaches(after, e.1, e.0);
  }

  /** When every edge a change adds starts at a node that lies on no cycle afterwards,
      an acyclic graph stays acyclic. */
  lemma AddedEdgesOffCycle<K(!new)>(before: set<(K, K)>, after: set<(K, K)>)
    requires Acyclic(before)
    requires forall e :: e in after - before ==> !OnCycle(after, e.0)
    ensures Acyclic(after)
  {
    forall k: K ensures !OnCycle(after, k) {
      if OnCycle(after, k) {
        NewCycleUsesAddedEdge(before, after, k);
      }
    }
  }

  /** Every edge out of a processed node (reached and no longer queued) has been followed. */
  ghost predicate Followed<K(!new)>(edges: set<(K, K)>, reached: set<K>, queue: set<K>) {
    forall e :: e in edges && e.0 in reached && e.0 !in queue ==> e.1 in reached
  }

  ghost predicate AllReached<K(!new)>(edges: set<(K, K)>, roots: set<K>, ks: set<K>) {
    forall k :: k in ks ==> ReachedFrom(edges, roots, k)
  }

  function Successors<K(==,!new)>(edges: set<(K, K)>, key: K): (next: set<K>)
    ensures forall k :: k in next <==> (key, k) in edges
  {
    set e | e in edges && e.0 == key :: e.1
  }

  function Targets<K(==,!new)>(edges: set<(K, K)>): (targets: set<K>)
    ensures forall e :: e in edges ==> e.1 in targets
  {
    set e | e in edges :: e.1
  }

  ghost predicate Searching<K(!new)>(edges: set<(K, K)>, roots: set<K>, reached: set<K>, queue: set<K>) {
    && queue <= reached
    && roots <= reached <= roots + Targets(edges)
    && AllReached(edges, roots, reached)
    && Followed(edges, reached, queue)
  }

  ghost function Unreached<K(!new)>(edges: set<(K, K)>, roots: set<K>, reached: set<K>): nat {
    |roots + Targets(edges) - reached|
  }

  /** The recursive query `SELECT roots UNION SELECT e.1 ... JOIN ... ON e.0 = key`. */
  method Closure<K(==,!new)>(edges: set<(K, K)>, roots: set<K>) returns (reached: set<K>)
    ensures forall k :: k in reached <==> ReachedFrom(edges, roots, k)
  {
    var queue := roots;
    reached := roots;
    RootsReached(edges, roots);
    while queue != {}
      invariant Searching(edges, roots, reached, queue)
      decreases Unreached(edges, roots, reached), |queue|
    {
      var key :| key in queue;
      SearchStep(edges, roots, reached, queue, key);
      var next := Successors(edges, key) - reached;
      reached, queue := reached + next, queue - {key} + next;
    }
    ClosureComplete(edges, roots, reached);
  }

  lemma SearchStep<K(!new)>(edges: set<(K, K)>, roots: set<K>, reached: set<K>, queue: set<K>, key: K)
    requires Searching(edges, roots, reached, queue) && key in queue
    ensures var next := Successors(edges, key) - reached;
      && Searching(edges, roots, reached + next, queue - {key} + next)
      && (if next == {} then reached + next == reached && |queue - {key} + next| < |queue|
          else Unreached(edges, roots, reached + next) < Unreached(edges, roots, reached))
  {
    var next := Successors(edges, key) - reached;
    NextReached(edges, roots, key, next);
    NextFollowed(edges, reached, queue, key, next);
    SearchRoom(edges, roots, reached, queue, key, next);
  }

  lemma SearchRoom<K(!new)>(edges: set<(K, K)>, roots: set<K>, reached: set<K>, queue: set<K>, key: K, next: set<K>)
    requires key in queue && next !! reached && next <= Targets(edges)
    ensures if next == {} then reached + next == reached && |queue - {key} + next| < |queue|
      else Unreached(edges, roots, reached + next) < Unreached(edges, roots, reached)
  {
    var room := roots + Targets(edges) - reached;
    assert roots + Targets(edges) - (reached + next) == room - next;
    assert next <= room;
    if next == {} {
      assert queue - {key} + next == queue - {key};
    } else {
      var k :| k in next;
      CardinalitySmaller(room - next, room, k);
    }
  }

  lemma CardinalitySmaller<K>(small: set<K>, big: set<K>, k: K)
    requires small <= big && k in big && k !in small
    ensures |small| < |big|
  {
    CardinalityAtMost(small, big - {k});
  }

  lemma {:induction false} CardinalityAtMost<K>(small: set<K>, big: set<K>)
    requires small <= big
    ensures |small| <= |big|
  {
    if small != {} {
      var k :| k in small;
      CardinalityAtMost(small - {k}, big - {k});
    }
  }

  lemma RootsReached<K(!new)>(edges: set<(K, K)>, roots: set<K>)
    ensures AllReached(edges, roots, roots)
  {
    forall r | r in roots ensures ReachedFrom(edges, roots, r) {
      ReachesSelf(edges, r);
    }
  }

  lemma NextReached<K(!new)>(edges: set<(K, K)>, roots: set<K>, key: K, next: set<K>)
    requires ReachedFrom(edges, roots, key)
    requires forall k :: k in next ==> (key, k) in edges
    ensures AllReached(edges, roots, next)
  {
    var r :| r in roots && Reaches(edges, r, key);
    forall k | k in next ensures ReachedFrom(edges, roots, k) {
      ReachesSnoc(edges, r, key, k);
    }
  }

  lemma NextFollowed<K(!new)>(edges: set<(K, K)>, reached: set<K>, queue: set<K>, key: K, next: set<K>)
    requires Followed(edges, reached, queue) && queue <= reached
    requires forall e :: e in edges && e.0 == key && e.1 !in reached ==> e.1 in next
    ensures Followed(edges, reached + next, queue - {key} + next)
  {
  }

  lemma ClosureComplete<K(!new)>(edges: set<(K, K)>, roots: set<K>, reached: set<K>)
    requires Searching(edges, roots, reached, {})
    ensures forall k :: k in reached <==> ReachedFrom(edges, roots, k)
  {
    forall k | ReachedFrom(edges, roots, k) ensures k in reached {
      var r :| r in roots && Reaches(edges, r, k);
      var p :| IsPath(edges, p, r, k);
      ClosedUnderPaths(edges, reached, p, r, k);
    }
  }

  lemma {:induction false} ClosedUnderPaths<K(!new)>(edges: set<(K, K)>, closed: set<K>, p: seq<K>, from: K, to: K)
    requires forall e :: e in edges && e.0 in closed ==> e.1 in closed
    requires IsPath(edges, p, from, to) && from in closed
    ensures to in closed
    decreases |p|
  {
    if |p| > 1 {
      assert (p[0], p[1]) in edges;
      ClosedUnderPaths(edges, closed, p[1..], p[1], to);
    }
  }
}
