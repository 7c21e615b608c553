/** Least elements of finite sets under a strict order, and sequences without repetition. */
module Orders {
  predicate Distinct<T(==)>(s: seq<T>) {
    forall i, j :: 0 <= i < j < |s| ==> s[i] != s[j]
  }

  ghost predicate Strict<T(!new)>(less: (T, T) -> bool) {
    && (forall a, b, c :: less(a, b) && less(b, c) ==> less(a, c))
    && (forall a, b :: a == b || less(a, b) || less(b, a))
  }

  predicate IsLeast<T(==)>(less: (T, T) -> bool, keys: set<T>, k: T) {
    k in keys && forall l :: l in keys && l != k ==> less(k, l)
  }

  lemma {:induction false} LeastExists<T(!new)>(less: (T, T) -> bool, keys: set<T>)
    requires Strict(less) && keys != {}
    ensures exists k :: IsLeast(less, keys, k)
    decreases keys
  {
    var k :| k in keys;
    var rest := keys - {k};
    assert keys == rest + {k};
    if rest == {} {
      assert IsLeast(less, keys, k);
    } else {
      LeastExists(less, rest);
      var l :| IsLeast(less, rest, l);
      assert IsLeast(less, keys, if less(k, l) then k else l);
    }
  }
}
