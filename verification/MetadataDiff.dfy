/** The recursive metadata diff: changes as JSON Pointers (RFC 6901) with the values before and
    after. A document is a tree; the printed values of a change are the trees themselves. */
module MetadataDiff {
  import opened Wrappers
  import opened JsonTree
  import Orders

  type Pointer = seq<string>

  datatype Change = Change(at: Pointer, before: Option<Json>, after: Option<Json>)

  /** A change as it is reported, its pointer rendered. */
  datatype TextChange = TextChange(pointer: string, before: Option<Json>, after: Option<Json>)

  // ----- Pointers: sections 3 and 4 of RFC 6901

  function EscapeChar(c: char): string {
    if c == '~' then "~0" else if c == '/' then "~1" else [c]
  }

  function Escape(token: string): string {
    if token == "" then "" else EscapeChar(token[0]) + Escape(token[1..])
  }

  function Unescape(text: string): string {
    if text == "" then ""
    else if text[0] == '~' && |text| > 1 && text[1] == '0' then "~" + Unescape(text[2..])
    else if text[0] == '~' && |text| > 1 && text[1] == '1' then "/" + Unescape(text[2..])
    else [text[0]] + Unescape(text[1..])
  }

  function Render(at: Pointer): string {
    if at == [] then "" else "/" + Escape(at[0]) + Render(at[1..])
  }

  /** The text up to the next slash. */
  function Head(text: string): (head: string)
    ensures head <= text && '/' !in head
  {
    if text == "" || text[0] == '/' then "" else [text[0]] + Head(text[1..])
  }

  /** Reading a pointer back: `None` where the text is no pointer. */
  function Parse(text: string): Option<Pointer>
    decreases |text|
  {
    if text == "" then Some([])
    else if text[0] != '/' then None
    else
      var head := Head(text[1..]);
      var rest := Parse(text[1 + |head|..]);
      if rest == None then None else Some([Unescape(head)] + rest.value)
  }

  lemma {:induction false} UnescapeEscape(token: string)
    ensures Unescape(Escape(token)) == token
  {
    if token != "" {
      var text := Escape(token);
      if token[0] == '~' || token[0] == '/' {
        assert text[2..] == Escape(token[1..]);
      } else {
        assert text[1..] == Escape(token[1..]);
      }
      UnescapeEscape(token[1..]);
    }
  }

  /** Section 3 of RFC 6901: a tilde becomes `~0`, a slash `~1`, and everything else stands for itself. */
  lemma EscapesAre(c: char)
    ensures Escape("~") == "~0" && Escape("/") == "~1" && (c != '~' && c != '/' ==> Escape([c]) == [c])
  {
    assert Escape("~") == EscapeChar('~') + Escape("") && Escape("/") == EscapeChar('/') + Escape("");
    assert Escape([c]) == EscapeChar(c) + Escape("");
  }

  lemma {:induction false} EscapeJoins(a: string, b: string)
    ensures Escape(a + b) == Escape(a) + Escape(b)
  {
    hide EscapeChar;
    if a == "" {
      assert a + b == b;
    } else {
      assert (a + b)[0] == a[0] && (a + b)[1..] == a[1..] + b;
      EscapeJoins(a[1..], b);
    }
  }

  lemma {:induction false} EscapeHasNoSlash(token: string)
    ensures '/' !in Escape(token)
  {
    if token != "" {
      EscapeHasNoSlash(token[1..]);
    }
  }

  lemma {:induction false} HeadOf(piece: string, rest: string)
    requires '/' !in piece && (rest == "" || rest[0] == '/')
    ensures Head(piece + rest) == piece
  {
    if piece == "" {
      assert piece + rest == rest;
    } else {
      assert (piece + rest)[1..] == piece[1..] + rest;
      HeadOf(piece[1..], rest);
    }
  }

  /** Every pointer decodes uniquely from its rendering. */
  lemma {:induction false} ParseRender(at: Pointer)
    ensures Parse(Render(at)) == Some(at)
  {
    hide Escape, Head, Unescape;
    if at != [] {
      var piece, rest := Escape(at[0]), Render(at[1..]);
      var text := Render(at);
      EscapeHasNoSlash(at[0]);
      HeadOf(piece, rest);
      UnescapeEscape(at[0]);
      ParseRender(at[1..]);
      assert text[1..] == piece + rest;
      assert text[1 + |piece|..] == rest;
      assert Head(text[1..]) == piece && [Unescape(piece)] + at[1..] == at;
    }
  }

  // ----- The diff, as a value

  ghost function Both(before: Option<Json>, after: Option<Json>): nat {
    if before.Some? && after.Some? then 1 else 0
  }

  ghost function Root(doc: Option<Json>): Json {
    if doc.Some? then doc.value else Null
  }

  ghost function Diff(before: Option<Json>, after: Option<Json>): seq<Change>
    decreases Both(before, after), Root(before), 1, 0
  {
    if before.Some? && after.Some? && before.value == after.value then []
    else if before.Some? && after.Some? && before.value.Object? && after.value.Object? then
      DiffKeys(before.value, after.value, Ascending(before.value.members.Keys + after.value.members.Keys))
    else [Change([], before, after)]
  }

  ghost function DiffKeys(before: Json, after: Json, keys: seq<string>): seq<Change>
    requires before.Object? && after.Object?
    decreases 1, before, 0, |keys|
  {
    if keys == [] then []
    else
      DiffKeys(before, after, keys[..|keys| - 1])
      + Under(keys[|keys| - 1], Diff(Child(before, keys[|keys| - 1]), Child(after, keys[|keys| - 1])))
  }

  /** The changes below a member, as changes of the object. */
  ghost function Under(key: string, changes: seq<Change>): (under: seq<Change>)
    ensures |under| == |changes|
    ensures forall i :: 0 <= i < |under| ==> under[i] == changes[i].(at := [key] + changes[i].at)
  {
    seq(|changes|, i requires 0 <= i < |changes| => changes[i].(at := [key] + changes[i].at))
  }

  // ----- Applying changes

  /** The document with the value at a pointer replaced; a missing value removes the member. */
  function Put(doc: Option<Json>, at: Pointer, value: Option<Json>): Option<Json>
    decreases |at|
  {
    if at == [] then value
    else if doc == None || !doc.value.Object? then doc
    else Some(WithChild(doc.value, at[0], Put(Child(doc.value, at[0]), at[1..], value)))
  }

  function WithChild(doc: Json, key: string, child: Option<Json>): (result: Json)
    requires doc.Object?
    ensures result.Object?
    ensures forall k :: Child(result, k) == if k == key then child else Child(doc, k)
  {
    if child.Some? then Object(doc.members[key := child.value]) else Object(doc.members - {key})
  }

  function Patch(doc: Option<Json>, changes: seq<Change>): Option<Json> {
    if changes == [] then doc
    else Put(Patch(doc, changes[..|changes| - 1]), changes[|changes| - 1].at, changes[|changes| - 1].after)
  }

  lemma {:induction false} PatchConcat(doc: Option<Json>, a: seq<Change>, b: seq<Change>)
    ensures Patch(doc, a + b) == Patch(Patch(doc, a), b)
  {
    if b == [] {
      assert a + b == a;
    } else {
      assert (a + b)[..|a + b| - 1] == a + b[..|b| - 1];
      PatchConcat(doc, a, b[..|b| - 1]);
    }
  }

  lemma SameChildren(a: Json, b: Json)
    requires a.Object? && b.Object? && forall k :: Child(a, k) == Child(b, k)
    ensures a == b
  {
    forall k
      ensures k in a.members <==> k in b.members
      ensures k in a.members && k in b.members ==> a.members[k] == b.members[k]
    {
      assert Child(a, k) == Child(b, k);
    }
    assert a.members == b.members;
  }

  /** Changes below a member work on that member alone. */
  lemma {:induction false} PatchUnder(doc: Json, key: string, changes: seq<Change>)
    requires doc.Object?
    ensures Patch(Some(doc), Under(key, changes)) == Some(WithChild(doc, key, Patch(Child(doc, key), changes)))
  {
    if changes == [] {
      SameChildren(doc, WithChild(doc, key, Child(doc, key)));
    } else {
      var fewer, last := changes[..|changes| - 1], changes[|changes| - 1];
      assert Under(key, changes)[..|changes| - 1] == Under(key, fewer);
      PatchUnder(doc, key, fewer);
      var middle := WithChild(doc, key, Patch(Child(doc, key), fewer));
      assert ([key] + last.at)[1..] == last.at;
      assert Put(Some(middle), [key] + last.at, last.after) == Some(WithChild(middle, key, Put(Child(middle, key), last.at, last.after)));
      SameChildren(WithChild(middle, key, Patch(Child(doc, key), changes)), WithChild(doc, key, Patch(Child(doc, key), changes)));
    }
  }

  /** Exact: the changes turn the document before into the document after. */
  lemma {:induction false} DiffPatches(before: Option<Json>, after: Option<Json>)
    ensures Patch(before, Diff(before, after)) == after
    decreases Both(before, after), Root(before), 1, 0
  {
    if before.Some? && after.Some? && before.value == after.value {
    } else if before.Some? && after.Some? && before.value.Object? && after.value.Object? {
      var keys := Ascending(before.value.members.Keys + after.value.members.Keys);
      var result := DiffKeysPatches(before.value, after.value, keys);
      SameChildren(result, after.value);
    } else {
      var one := Change([], before, after);
      assert [one][..0] == [];
      assert Patch(before, []) == before;
    }
  }

  lemma {:induction false} DiffKeysPatches(before: Json, after: Json, keys: seq<string>) returns (result: Json)
    requires before.Object? && after.Object?
    requires forall i, j :: 0 <= i < j < |keys| ==> keys[i] != keys[j]
    ensures result.Object? && Patch(Some(before), DiffKeys(before, after, keys)) == Some(result)
    ensures forall k :: Child(result, k) == if k in keys then Child(after, k) else Child(before, k)
    decreases 1, before, 0, |keys|
  {
    hide Diff, DiffKeys, Patch, Put, WithChild;
    if keys == [] {
      NoKeysPatched(before, after);
      return before;
    }
    var fewer, key := keys[..|keys| - 1], keys[|keys| - 1];
    var middle := DiffKeysPatches(before, after, fewer);
    LastKeyApart(keys);
    DiffPatches(Child(before, key), Child(after, key));
    MemberPatched(before, after, fewer, key, middle);
    result := WithChild(middle, key, Child(after, key));
  }

  lemma NoKeysPatched(before: Json, after: Json)
    requires before.Object? && after.Object?
    ensures Patch(Some(before), DiffKeys(before, after, [])) == Some(before)
  {
  }

  lemma LastKeyApart(keys: seq<string>)
    requires keys != [] && forall i, j :: 0 <= i < j < |keys| ==> keys[i] != keys[j]
    ensures keys == keys[..|keys| - 1] + [keys[|keys| - 1]] && keys[|keys| - 1] !in keys[..|keys| - 1]
    ensures forall k :: k in keys <==> k in keys[..|keys| - 1] || k == keys[|keys| - 1]
  {
  }

  lemma MemberPatched(before: Json, after: Json, keys: seq<string>, key: string, middle: Json)
    requires before.Object? && after.Object? && middle.Object?
    requires Patch(Some(before), DiffKeys(before, after, keys)) == Some(middle)
    requires Patch(Child(middle, key), Diff(Child(before, key), Child(after, key))) == Child(after, key)
    ensures Patch(Some(before), DiffKeys(before, after, keys + [key])) == Some(WithChild(middle, key, Child(after, key)))
  {
    hide Diff, Patch;
    var below := Diff(Child(before, key), Child(after, key));
    assert (keys + [key])[..|keys|] == keys;
    PatchConcat(Some(before), DiffKeys(before, after, keys), Under(key, below));
    PatchUnder(middle, key, below);
  }

  // ----- No change more than needed

  /** Nothing is reported exactly when the documents are equal. */
  lemma {:induction false} EmptyIffEqual(before: Json, after: Json)
    ensures Diff(Some(before), Some(after)) == [] <==> before == after
  {
    if Diff(Some(before), Some(after)) == [] {
      DiffPatches(Some(before), Some(after));
    }
  }

  function Lookup(doc: Option<Json>, at: Pointer): Option<Json>
    decreases |at|
  {
    if at == [] then doc
    else if doc == None || !doc.value.Object? then None
    else Lookup(Child(doc.value, at[0]), at[1..])
  }

  ghost predicate Reports(c: Change, before: Option<Json>, after: Option<Json>) {
    c.before == Lookup(before, c.at) && c.after == Lookup(after, c.at) && c.before != c.after
  }

  /** A change of an object's diff is one of the earlier keys' or one of the last key's. */
  lemma LastKey(before: Json, after: Json, keys: seq<string>, i: nat)
    requires before.Object? && after.Object? && keys != [] && i < |DiffKeys(before, after, keys)|
    ensures var fewer, key := keys[..|keys| - 1], keys[|keys| - 1];
      var n := |DiffKeys(before, after, fewer)|;
      if i < n then DiffKeys(before, after, keys)[i] == DiffKeys(before, after, fewer)[i]
      else
        var below := Diff(Child(before, key), Child(after, key));
        i - n < |below| && DiffKeys(before, after, keys)[i] == below[i - n].(at := [key] + below[i - n].at)
  {
    hide Diff, Child, Under;
    var earlier, last := DiffKeys(before, after, keys[..|keys| - 1]), keys[|keys| - 1];
    var below := Under(last, Diff(Child(before, last), Child(after, last)));
    assert DiffKeys(before, after, keys) == earlier + below;
  }

  /** Every change states the two documents' own values at its pointer, and they differ. */
  lemma {:induction false} DiffReports(before: Option<Json>, after: Option<Json>, i: nat)
    requires (before.Some? || after.Some?) && i < |Diff(before, after)|
    ensures Reports(Diff(before, after)[i], before, after)
    decreases Both(before, after), Root(before), 1, 0
  {
    if before.Some? && after.Some? && before.value.Object? && after.value.Object? {
      DiffKeysReports(before.value, after.value, Ascending(before.value.members.Keys + after.value.members.Keys), i);
    }
  }

  lemma {:induction false} DiffKeysReports(before: Json, after: Json, keys: seq<string>, i: nat)
    requires before.Object? && after.Object? && i < |DiffKeys(before, after, keys)|
    requires forall k :: k in keys ==> k in before.members || k in after.members
    ensures Reports(DiffKeys(before, after, keys)[i], Some(before), Some(after))
    decreases 1, before, 0, |keys|
  {
    hide Diff;
    var fewer, key := keys[..|keys| - 1], keys[|keys| - 1];
    var n := |DiffKeys(before, after, fewer)|;
    LastKey(before, after, keys, i);
    if i < n {
      DiffKeysReports(before, after, fewer, i);
    } else {
      DiffReports(Child(before, key), Child(after, key), i - n);
      var c := Diff(Child(before, key), Child(after, key))[i - n];
      assert ([key] + c.at)[1..] == c.at;
    }
  }

  /** Neither pointer lies at or below the other. */
  ghost predicate Incomparable(p: Pointer, q: Pointer) {
    !(p <= q) && !(q <= p)
  }

  /** No pointer of a diff lies at or below another. */
  lemma {:induction false} PointersPrefixFree(before: Option<Json>, after: Option<Json>, i: nat, j: nat)
    requires i < j < |Diff(before, after)|
    ensures Incomparable(Diff(before, after)[i].at, Diff(before, after)[j].at)
    decreases Both(before, after), Root(before), 1, 0
  {
    DiffKeysPrefixFree(before.value, after.value, Ascending(before.value.members.Keys + after.value.members.Keys), i, j);
  }

  lemma {:induction false} DiffKeysHeads(before: Json, after: Json, keys: seq<string>, i: nat)
    requires before.Object? && after.Object? && i < |DiffKeys(before, after, keys)|
    ensures var at := DiffKeys(before, after, keys)[i].at; at != [] && at[0] in keys
    decreases |keys|
  {
    hide Diff;
    LastKey(before, after, keys, i);
    var fewer := keys[..|keys| - 1];
    if i < |DiffKeys(before, after, fewer)| {
      DiffKeysHeads(before, after, fewer, i);
    }
  }

  lemma {:induction false} DiffKeysPrefixFree(before: Json, after: Json, keys: seq<string>, i: nat, j: nat)
    requires before.Object? && after.Object? && i < j < |DiffKeys(before, after, keys)|
    requires forall i, j :: 0 <= i < j < |keys| ==> keys[i] != keys[j]
    ensures Incomparable(DiffKeys(before, after, keys)[i].at, DiffKeys(before, after, keys)[j].at)
    decreases 1, before, 0, |keys|
  {
    hide Diff, Incomparable;
    var fewer, key := keys[..|keys| - 1], keys[|keys| - 1];
    var n := |DiffKeys(before, after, fewer)|;
    LastKey(before, after, keys, i);
    LastKey(before, after, keys, j);
    if j < n {
      DiffKeysPrefixFree(before, after, fewer, i, j);
    } else {
      var below := Diff(Child(before, key), Child(after, key));
      if i < n {
        DiffKeysHeads(before, after, fewer, i);
        assert key !in fewer;
        OtherHeads(DiffKeys(before, after, fewer)[i].at, [key] + below[j - n].at);
      } else {
        PointersPrefixFree(Child(before, key), Child(after, key), i - n, j - n);
        UnderIncomparable(key, below[i - n].at, below[j - n].at);
      }
    }
  }

  lemma OtherHeads(p: Pointer, q: Pointer)
    requires p != [] && q != [] && p[0] != q[0]
    ensures Incomparable(p, q)
  {
  }

  lemma UnderIncomparable(key: string, p: Pointer, q: Pointer)
    requires Incomparable(p, q)
    ensures Incomparable([key] + p, [key] + q)
  {
    assert ([key] + p)[1..] == p && ([key] + q)[1..] == q;
    assert [key] + p <= [key] + q ==> p <= q;
    assert [key] + q <= [key] + p ==> q <= p;
  }

  /** The values above the pointer's end are objects. */
  predicate Reachable(doc: Option<Json>, at: Pointer)
    decreases |at|
  {
    at == [] || (doc.Some? && doc.value.Object? && Reachable(Child(doc.value, at[0]), at[1..]))
  }

  /** A change sets the value at its pointer, and no value at a pointer that neither leads to it nor on from it. */
  lemma {:induction false} PutSets(doc: Option<Json>, at: Pointer, value: Option<Json>)
    requires Reachable(doc, at)
    ensures Lookup(Put(doc, at, value), at) == value
    decreases |at|
  {
    if at != [] {
      PutSets(Child(doc.value, at[0]), at[1..], value);
    }
  }

  lemma {:induction false} PutKeeps(doc: Option<Json>, at: Pointer, value: Option<Json>, other: Pointer)
    requires Incomparable(at, other)
    ensures Lookup(Put(doc, at, value), other) == Lookup(doc, other)
    decreases |at|
  {
    if at != [] && other != [] && at[0] == other[0] && doc.Some? && doc.value.Object? {
      assert at == [at[0]] + at[1..] && other == [other[0]] + other[1..];
      PutKeeps(Child(doc.value, at[0]), at[1..], value, other[1..]);
    }
  }

  /** Changes at incomparable pointers commute, so the order of the report does not matter. */
  lemma {:induction false} PutsCommute(doc: Option<Json>, p: Pointer, x: Option<Json>, q: Pointer, y: Option<Json>)
    requires Incomparable(p, q)
    ensures Put(Put(doc, p, x), q, y) == Put(Put(doc, q, y), p, x)
    decreases |p|
  {
    if doc.Some? && doc.value.Object? {
      var d := doc.value;
      if p[0] == q[0] {
        assert p == [p[0]] + p[1..] && q == [q[0]] + q[1..];
        PutsCommute(Child(d, p[0]), p[1..], x, q[1..], y);
        PutTwice(d, p, x, q, y);
        PutTwice(d, q, y, p, x);
      } else {
        ChildrenCommute(d, p[0], Put(Child(d, p[0]), p[1..], x), q[0], Put(Child(d, q[0]), q[1..], y));
      }
    }
  }

  lemma PutTwice(d: Json, p: Pointer, x: Option<Json>, q: Pointer, y: Option<Json>)
    requires d.Object? && p != [] && q != [] && p[0] == q[0]
    ensures Put(Put(Some(d), p, x), q, y) == Some(WithChild(d, p[0], Put(Put(Child(d, p[0]), p[1..], x), q[1..], y)))
  {
    hide WithChild;
    var once := Put(Child(d, p[0]), p[1..], x);
    var twice := Put(once, q[1..], y);
    SameChildren(WithChild(WithChild(d, p[0], once), p[0], twice), WithChild(d, p[0], twice));
  }

  lemma ChildrenCommute(d: Json, k: string, x: Option<Json>, l: string, y: Option<Json>)
    requires d.Object? && k != l
    ensures WithChild(WithChild(d, k, x), l, y) == WithChild(WithChild(d, l, y), k, x)
  {
    hide WithChild;
    SameChildren(WithChild(WithChild(d, k, x), l, y), WithChild(WithChild(d, l, y), k, x));
  }

  // ----- The way back

  function Inverted(changes: seq<Change>): (inverted: seq<Change>)
    ensures |inverted| == |changes|
  {
    seq(|changes|, i requires 0 <= i < |changes| => Change(changes[i].at, changes[i].after, changes[i].before))
  }

  /** The diff the other way is the same list with each pair of values exchanged. */
  lemma {:induction false} DiffInverts(before: Option<Json>, after: Option<Json>)
    ensures Diff(after, before) == Inverted(Diff(before, after))
    decreases Both(before, after), Root(before), 1, 0
  {
    if before.Some? && after.Some? && before.value != after.value && before.value.Object? && after.value.Object? {
      var b, a := before.value.members.Keys, after.value.members.Keys;
      assert b + a == a + b;
      DiffKeysInvert(before.value, after.value, Ascending(b + a));
    }
  }

  lemma {:induction false} DiffKeysInvert(before: Json, after: Json, keys: seq<string>)
    requires before.Object? && after.Object?
    ensures DiffKeys(after, before, keys) == Inverted(DiffKeys(before, after, keys))
    decreases 1, before, 0, |keys|
  {
    if keys != [] {
      DiffKeysInvert(before, after, keys[..|keys| - 1]);
      DiffInverts(Child(before, keys[|keys| - 1]), Child(after, keys[|keys| - 1]));
    }
  }

  lemma BackAgain(before: Option<Json>, after: Option<Json>)
    ensures Patch(after, Inverted(Diff(before, after))) == before
  {
    DiffInverts(before, after);
    DiffPatches(after, before);
  }

  // ----- The code: recursion appending to an output list

  lemma EscapeEnds(token: string)
    ensures "" + Escape(token[0..]) == Escape(token) && Escape(token[|token|..]) == ""
  {
    assert token[0..] == token;
  }

  lemma EscapeNext(result: string, token: string, i: nat)
    requires i < |token|
    ensures (result + EscapeChar(token[i])) + Escape(token[i + 1..]) == result + Escape(token[i..])
  {
    assert token[i..][1..] == token[i + 1..];
  }

  method PointerToken(token: string) returns (result: string)
    ensures result == Escape(token)
  {
    hide Escape;
    result := "";
    var i := 0;
    EscapeEnds(token);
    while i < |token|
      invariant 0 <= i <= |token|
      invariant result + Escape(token[i..]) == Escape(token)
    {
      EscapeNext(result, token, i);
      var c := token[i];
      result := result + if c == '~' then "~0" else if c == '/' then "~1" else [c];
      i := i + 1;
    }
  }

  ghost function Rendered(path: string, changes: seq<Change>): (out: seq<TextChange>)
    ensures |out| == |changes|
  {
    seq(|changes|, i requires 0 <= i < |changes| => TextChange(path + Render(changes[i].at), changes[i].before, changes[i].after))
  }

  method Differences(before: Option<Json>, after: Option<Json>, path: string, out: seq<TextChange>)
    returns (out': seq<TextChange>)
    ensures out' == out + Rendered(path, Diff(before, after))
    decreases Both(before, after), Root(before), 1, 0
  {
    if before.Some? && after.Some? && before.value == after.value {
      return out;
    }
    if before.Some? && after.Some? && before.value.Object? && after.value.Object? {
      out' := MemberDifferences(before.value, after.value, path, out);
    } else {
      assert path + Render([]) == path;
      out' := out + [TextChange(path, before, after)];
    }
  }

  method MemberDifferences(before: Json, after: Json, path: string, out: seq<TextChange>) returns (out': seq<TextChange>)
    requires before.Object? && after.Object?
    ensures out' == out + Rendered(path, DiffKeys(before, after, Ascending(before.members.Keys + after.members.Keys)))
    decreases 1, before, 0, 0
  {
    hide Diff, DiffKeys, Rendered, Ascending, Child, Both, Root, Escape, Orders.IsLeast;
    var keys := before.members.Keys + after.members.Keys;
    ghost var all, done: seq<string> := Ascending(keys), [];
    out' := out;
    RenderedNothing(before, after, path, out);
    assert [] + all == all;
    while keys != {}
      invariant all == done + Ascending(keys)
      invariant out' == out + Rendered(path, DiffKeys(before, after, done))
      decreases keys
    {
      var key := Least(keys);
      AscendingStep(all, done, keys, key);
      ChildSmaller(before, after, key);
      var token := PointerToken(key);
      ghost var was := out';
      out' := Differences(Child(before, key), Child(after, key), path + "/" + token, out');
      RenderedNext(before, after, path, done, key, out, was);
      done, keys := done + [key], keys - {key};
    }
    AscendingDone(all, done);
  }

  lemma RenderedNothing(before: Json, after: Json, path: string, out: seq<TextChange>)
    requires before.Object? && after.Object?
    ensures out + Rendered(path, DiffKeys(before, after, [])) == out
  {
  }

  lemma RenderedNext(before: Json, after: Json, path: string, done: seq<string>, key: string,
                     out: seq<TextChange>, was: seq<TextChange>)
    requires before.Object? && after.Object? && was == out + Rendered(path, DiffKeys(before, after, done))
    ensures was + Rendered(path + "/" + Escape(key), Diff(Child(before, key), Child(after, key)))
      == out + Rendered(path, DiffKeys(before, after, done + [key]))
  {
    hide Rendered, Diff, Under;
    var earlier, below := DiffKeys(before, after, done), Diff(Child(before, key), Child(after, key));
    assert (done + [key])[..|done|] == done;
    RenderedUnder(path, key, below);
    RenderedConcat(path, earlier, Under(key, below));
  }

  lemma RenderedConcat(path: string, a: seq<Change>, b: seq<Change>)
    ensures Rendered(path, a + b) == Rendered(path, a) + Rendered(path, b)
  {
  }

  lemma RenderBelow(path: string, key: string, at: Pointer)
    ensures path + Render([key] + at) == path + "/" + Escape(key) + Render(at)
  {
    assert ([key] + at)[1..] == at;
  }

  lemma RenderedUnder(path: string, key: string, below: seq<Change>)
    ensures Rendered(path, Under(key, below)) == Rendered(path + "/" + Escape(key), below)
  {
    hide Render;
    forall i | 0 <= i < |below|
      ensures path + Render([key] + below[i].at) == path + "/" + Escape(key) + Render(below[i].at)
    {
      RenderBelow(path, key, below[i].at);
    }
  }

  lemma ChildSmaller(before: Json, after: Json, key: string)
    requires before.Object? && after.Object?
    ensures Both(Child(before, key), Child(after, key)) <= 1
    ensures Both(Child(before, key), Child(after, key)) == 1 ==> Root(Child(before, key)) < before
  {
  }

  /** `metadataChanges`: an absent document counts as the empty object. */
  method MetadataChanges(before: Option<Json>, after: Option<Json>) returns (changes: seq<TextChange>, ghost diff: seq<Change>)
    ensures var b, a := before.GetOr(Object(map[])), after.GetOr(Object(map[]));
      && Patch(Some(b), diff) == Some(a) && Patch(Some(a), Inverted(diff)) == Some(b)
      && (changes == [] <==> b == a)
    ensures |changes| == |diff|
    ensures forall i :: 0 <= i < |changes| ==>
      Parse(changes[i].pointer) == Some(diff[i].at) && changes[i].before == diff[i].before && changes[i].after == diff[i].after
    ensures forall i, j :: 0 <= i < j < |diff| ==> Incomparable(diff[i].at, diff[j].at)
  {
    hide Diff, Patch, Parse, Render, Inverted, Incomparable;
    var b, a := before.GetOr(Object(map[])), after.GetOr(Object(map[]));
    diff := Diff(Some(b), Some(a));
    changes := Differences(Some(b), Some(a), "", []);
    DiffPatches(Some(b), Some(a));
    BackAgain(Some(b), Some(a));
    EmptyIffEqual(b, a);
    forall i | 0 <= i < |diff|
      ensures Parse(changes[i].pointer) == Some(diff[i].at)
    {
      ParseRender(diff[i].at);
      assert "" + Render(diff[i].at) == Render(diff[i].at);
    }
    forall i, j | 0 <= i < j < |diff|
      ensures Incomparable(diff[i].at, diff[j].at)
    {
      PointersPrefixFree(Some(b), Some(a), i, j);
    }
  }
}
