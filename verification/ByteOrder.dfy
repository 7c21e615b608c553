/** The order SQLite's BINARY collation and `std::string` give to byte strings. */
module ByteOrder {
  import Orders

  predicate Less(a: string, b: string) {
    b != "" && (a == "" || a[0] < b[0] || (a[0] == b[0] && Less(a[1..], b[1..])))
  }

  lemma {:induction false} Irreflexive(a: string)
    ensures !Less(a, a)
  {
    if a != "" {
      Irreflexive(a[1..]);
    }
  }

  lemma {:induction false} Transitive(a: string, b: string, c: string)
    requires Less(a, b) && Less(b, c)
    ensures Less(a, c)
  {
    if a != "" && a[0] == b[0] && b[0] == c[0] {
      Transitive(a[1..], b[1..], c[1..]);
    }
  }

  lemma {:induction false} Total(a: string, b: string)
    ensures a == b || Less(a, b) || Less(b, a)
  {
    if a != "" && b != "" && a[0] == b[0] {
      Total(a[1..], b[1..]);
      if a[1..] == b[1..] {
        assert a == [a[0]] + a[1..] == [b[0]] + b[1..] == b;
      }
    }
  }

  /** Strings with a common prefix compare as their remainders do. */
  lemma {:induction false} CommonPrefix(prefix: string, a: string, b: string)
    ensures Less(prefix + a, prefix + b) <==> Less(a, b)
  {
    if prefix == "" {
      assert prefix + a == a && prefix + b == b;
    } else {
      assert (prefix + a)[1..] == prefix[1..] + a;
      assert (prefix + b)[1..] == prefix[1..] + b;
      CommonPrefix(prefix[1..], a, b);
    }
  }

  /** The same, as an order to pass on. */
  predicate Precedes(a: string, b: string) { Less(a, b) }

  lemma PrecedesIsStrict()
    ensures Orders.Strict(Precedes)
  {
    forall a: string, b: string, c: string | Precedes(a, b) && Precedes(b, c)
      ensures Precedes(a, c)
    {
      Transitive(a, b, c);
    }
    forall a: string, b: string
      ensures a == b || Precedes(a, b) || Precedes(b, a)
    {
      Total(a, b);
    }
  }

  /** The range from `p` followed by a character up to `p` followed by the next one is exactly the
      strings that start with `p` and that character. */
  lemma {:induction false} PrefixRange(p: string, c: char, next: char, s: string)
    requires c as int + 1 == next as int
    ensures !Less(s, p + [c]) && Less(s, p + [next]) <==> p + [c] <= s
  {
    if p == "" {
      assert p + [c] == [c] && p + [next] == [next];
      assert [c][1..] == "" && [next][1..] == "";
    } else if s != "" && s[0] == p[0] {
      assert (p + [c])[1..] == p[1..] + [c] && (p + [next])[1..] == p[1..] + [next];
      PrefixRange(p[1..], c, next, s[1..]);
      assert p + [c] <= s <==> p[1..] + [c] <= s[1..] by {
        assert s == [s[0]] + s[1..] && p + [c] == [p[0]] + (p[1..] + [c]);
      }
    }
  }
}
