/** JSON documents as trees. An object is a map whose members are visited in key order, as the
    library's sorted objects are. */
module JsonTree {
  import opened Wrappers
  import opened Orders
  import ByteOrder

  datatype Json =
    | Null
    | Bool(b: bool)
    | Number(n: int)
    | Text(s: string)
    | Array(items: seq<Json>)
    | Object(members: map<string, Json>)

  function Child(doc: Json, key: string): Option<Json>
    requires doc.Object?
  {
    if key in doc.members then Some(doc.members[key]) else None
  }

  // ----- Keys in the order of `std::set<std::string>`

  lemma LeastUnique(a: string, b: string, keys: set<string>)
    requires IsLeast(ByteOrder.Precedes, keys, a) && IsLeast(ByteOrder.Precedes, keys, b)
    ensures a == b
  {
    if a != b {
      ByteOrder.Transitive(a, b, a);
      ByteOrder.Irreflexive(a);
    }
  }

  lemma OneLeast(keys: set<string>)
    requires keys != {}
    ensures exists k :: k in keys && IsLeast(ByteOrder.Precedes, keys, k)
    ensures forall a, b :: IsLeast(ByteOrder.Precedes, keys, a) && IsLeast(ByteOrder.Precedes, keys, b) ==> a == b
  {
    ByteOrder.PrecedesIsStrict();
    LeastExists(ByteOrder.Precedes, keys);
    var k :| IsLeast(ByteOrder.Precedes, keys, k);
    assert k in keys;
    forall a, b | IsLeast(ByteOrder.Precedes, keys, a) && IsLeast(ByteOrder.Precedes, keys, b)
      ensures a == b
    {
      LeastUnique(a, b, keys);
    }
  }

  function LeastOf(keys: set<string>): (k: string)
    requires keys != {}
    ensures k in keys && IsLeast(ByteOrder.Precedes, keys, k)
  {
    OneLeast(keys);
    var k :| k in keys && IsLeast(ByteOrder.Precedes, keys, k);
    k
  }

  function Ascending(keys: set<string>): (s: seq<string>)
    ensures forall k :: k in s <==> k in keys
    ensures forall i, j :: 0 <= i < j < |s| ==> s[i] != s[j]
    decreases keys
  {
    if keys == {} then []
    else
      var k := LeastOf(keys);
      [k] + Ascending(keys - {k})
  }

  lemma AscendingFrom(keys: set<string>, key: string)
    requires IsLeast(ByteOrder.Precedes, keys, key)
    ensures Ascending(keys) == [key] + Ascending(keys - {key})
  {
    LeastUnique(LeastOf(keys), key, keys);
  }

  lemma AscendingStep(all: seq<string>, done: seq<string>, keys: set<string>, key: string)
    requires all == done + Ascending(keys) && IsLeast(ByteOrder.Precedes, keys, key)
    ensures all == (done + [key]) + Ascending(keys - {key})
  {
    AscendingFrom(keys, key);
  }

  lemma AscendingDone(all: seq<string>, done: seq<string>)
    requires all == done + Ascending({})
    ensures done == all
  {
  }

  /** The next key of the ordered set. */
  method Least(keys: set<string>) returns (key: string)
    requires keys != {}
    ensures IsLeast(ByteOrder.Precedes, keys, key) && key in keys
  {
    OneLeast(keys);
    key :| key in keys && IsLeast(ByteOrder.Precedes, keys, key);
  }
}
