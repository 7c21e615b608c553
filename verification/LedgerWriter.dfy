/** The hand-written printer. It appends fixed pieces and quoted values; what it produces is
    exactly the library's text of the ledger's document. */
module LedgerWriter {
  import opened Decimals
  import opened LedgerModel
  import opened JsonTree
  import opened JsonText
  import ByteOrder
  import Orders

  // ----- Keys in order

  ghost predicate Increasing(list: seq<string>) {
    forall i :: 0 <= i < |list| - 1 ==> ByteOrder.Less(list[i], list[i + 1])
  }

  lemma {:induction false} FirstIsLeast(list: seq<string>, j: nat)
    requires Increasing(list) && 0 < j < |list|
    ensures ByteOrder.Less(list[0], list[j])
  {
    if j == 1 {
      assert ByteOrder.Less(list[0], list[0 + 1]);
    } else {
      FirstIsLeast(list, j - 1);
      assert ByteOrder.Less(list[j - 1], list[j - 1 + 1]);
      ByteOrder.Transitive(list[0], list[j - 1], list[j]);
    }
  }

  lemma {:induction false} AscendingOf(list: seq<string>, keys: set<string>)
    requires Increasing(list) && keys == set k | k in list
    ensures Ascending(keys) == list
  {
    hide ByteOrder.Less, Increasing;
    if list == [] {
      assert keys == {};
    } else {
      var key, more := list[0], list[1..];
      ListLeast(list, keys);
      AscendingFrom(keys, key);
      ListRest(list, keys);
      AscendingOf(more, keys - {key});
    }
  }

  lemma ListLeast(list: seq<string>, keys: set<string>)
    requires list != [] && Increasing(list) && keys == set k | k in list
    ensures Orders.IsLeast(ByteOrder.Precedes, keys, list[0])
  {
    forall k | k in keys && k != list[0]
      ensures ByteOrder.Less(list[0], k)
    {
      var j :| 0 <= j < |list| && list[j] == k;
      FirstIsLeast(list, j);
    }
  }

  lemma ListRest(list: seq<string>, keys: set<string>)
    requires list != [] && Increasing(list) && keys == set k | k in list
    ensures Increasing(list[1..]) && keys - {list[0]} == set k | k in list[1..]
  {
    var key, more := list[0], list[1..];
    forall k
      ensures k in keys - {key} <==> k in more
    {
      if k in more {
        var j :| 0 <= j < |more| && more[j] == k;
        FirstIsLeast(list, j + 1);
        ByteOrder.Irreflexive(key);
      }
    }
    forall i | 0 <= i < |more| - 1
      ensures ByteOrder.Less(more[i], more[i + 1])
    {
      assert ByteOrder.Less(list[i + 1], list[i + 1 + 1]);
    }
  }

  predicate Plain(s: string) {
    forall i :: 0 <= i < |s| ==> s[i] >= ' ' && s[i] != '"' && s[i] != '\\'
  }

  lemma {:induction false} PlainQuote(s: string)
    requires Plain(s)
    ensures QuoteChars(s) == s
  {
    if s != "" {
      PlainQuote(s[1..]);
    }
  }

  // ----- Growing an object's text member by member

  /** The text of an object whose first members, those of `keys`, are written. */
  ghost predicate Written(next: string, start: string, v: Json, keys: seq<string>) {
    && v.Object? && keys != [] && (forall k :: k in keys ==> k in v.members)
    && next == start + ("{" + PrintMembers(v, keys))
  }

  lemma FirstMember(start: string, v: Json, key: string)
    requires v.Object? && key in v.members && Plain(key)
    ensures Written(start + ("{\"" + key + "\":") + Print(v.members[key]), start, v, [key])
  {
    hide Print, Plain, QuoteChars;
    PlainQuote(key);
    var t := Print(v.members[key]);
    assert PrintMembers(v, [key]) == PrintMember(v, key) == "\"" + key + "\"" + ":" + t;
    MemberOpened(start, key, t);
  }

  lemma MemberOpened(start: string, key: string, t: string)
    ensures start + ("{\"" + key + "\":") + t == start + ("{" + ("\"" + key + "\"" + ":" + t))
  {
    var piece := "{\"" + key + "\":";
    assert piece + t == "{" + ("\"" + key + "\"" + ":" + t);
    Closed(start, piece, t);
  }

  lemma NextMember(next: string, start: string, v: Json, keys: seq<string>, key: string)
    requires Written(next, start, v, keys) && key in v.members && Plain(key)
    ensures Written(next + (",\"" + key + "\":") + Print(v.members[key]), start, v, keys + [key])
  {
    hide Print, PrintMembers, Plain, QuoteChars;
    PlainQuote(key);
    MembersSnoc(v, keys, key);
    MemberAppended(start, PrintMembers(v, keys), key, Print(v.members[key]));
  }

  lemma MemberAppended(start: string, members: string, key: string, t: string)
    ensures (start + ("{" + members)) + (",\"" + key + "\":") + t == start + ("{" + (members + "," + ("\"" + key + "\"" + ":" + t)))
  {
    var piece, member := ",\"" + key + "\":", "\"" + key + "\"" + ":" + t;
    assert piece + t == "," + member;
    Reassociate(start, "{" + members, piece, t);
    Regroup("{", members, ",", member);
  }

  lemma Regroup(a: string, b: string, c: string, d: string)
    ensures (a + b) + (c + d) == a + (b + c + d)
  {
  }

  lemma Reassociate(a: string, b: string, c: string, d: string)
    ensures (a + b) + c + d == a + (b + (c + d))
  {
    assert (a + b) + c + d == (a + b) + (c + d);
  }

  lemma {:induction false} MembersSnoc(v: Json, keys: seq<string>, key: string)
    requires v.Object? && keys != [] && key in v.members && forall k :: k in keys ==> k in v.members
    ensures PrintMembers(v, keys + [key]) == PrintMembers(v, keys) + "," + PrintMember(v, key)
  {
    hide PrintMember;
    assert keys == [keys[0]] + keys[1..];
    if |keys| == 1 {
      assert (keys + [key])[1..] == [key];
    } else {
      assert (keys + [key])[1..] == keys[1..] + [key];
      MembersSnoc(v, keys[1..], key);
      Commas(PrintMember(v, keys[0]), PrintMembers(v, keys[1..]), PrintMember(v, key));
    }
  }

  lemma Commas(a: string, b: string, c: string)
    ensures a + "," + (b + "," + c) == a + "," + b + "," + c
  {
  }

  lemma ObjectDone(next: string, start: string, v: Json, keys: seq<string>)
    requires Written(next, start, v, keys) && Increasing(keys) && v.members.Keys == set k | k in keys
    ensures next + "}" == start + Print(v)
  {
    AscendingOf(keys, v.members.Keys);
    Closed(start, "{" + PrintMembers(v, keys), "}");
  }

  lemma Closed(a: string, b: string, c: string)
    ensures (a + b) + c == a + (b + c)
  {
  }

  // ----- Growing an array's text element by element

  /** What an array's loop has still to append before its element `n`, comma included. */
  ghost function ItemsRest(v: Json, n: nat): string
    requires v.Array? && n <= |v.items|
  {
    if n == 0 || n == |v.items| then PrintItems(v, n) else "," + PrintItems(v, n)
  }

  lemma ItemsStep(next: string, v: Json, n: nat)
    requires v.Array? && n < |v.items|
    ensures next + ItemsRest(v, n) == (next + (if n > 0 then "," else "") + Print(v.items[n])) + ItemsRest(v, n + 1)
  {
    hide Print;
    var comma, item, more := if n > 0 then "," else "", Print(v.items[n]), ItemsRest(v, n + 1);
    assert PrintItems(v, n) == item + more;
    assert ItemsRest(v, n) == comma + (item + more);
    Gathered(next, comma, item, more);
  }

  lemma Gathered(a: string, b: string, c: string, d: string)
    ensures a + (b + (c + d)) == (a + b + c) + d
  {
    assert (a + b + c) + d == (a + b) + (c + d);
  }

  lemma ArrayDone(next: string, start: string, v: Json)
    requires v.Array? && next + ItemsRest(v, |v.items|) == start + "[" + PrintItems(v, 0)
    ensures next + "]" == start + Print(v)
  {
    assert ItemsRest(v, |v.items|) == "";
    Gathered(start, "[", PrintItems(v, 0), "]");
    assert Print(v) == "[" + (PrintItems(v, 0) + "]");
  }

  // ----- The appending code

  method Quoted(start: string, value: string) returns (next: string)
    ensures next == start + Quote(value)
  {
    hide QuoteChar, QuoteChars;
    next := start + "\"";
    var i := 0;
    QuoteBegins(next, value);
    while i < |value|
      invariant 0 <= i <= |value|
      invariant next + QuoteChars(value[i..]) == start + "\"" + QuoteChars(value)
    {
      QuoteStep(next, value, i);
      next := next + QuoteChar(value[i]);
      i := i + 1;
    }
    QuoteEnds(next, value);
    Gathered(start, "\"", QuoteChars(value), "\"");
    assert Quote(value) == "\"" + (QuoteChars(value) + "\"");
    next := next + "\"";
  }

  lemma QuoteBegins(next: string, value: string)
    ensures next + QuoteChars(value[0..]) == next + QuoteChars(value)
  {
    assert value[0..] == value;
  }

  lemma QuoteStep(next: string, value: string, i: nat)
    requires i < |value|
    ensures next + QuoteChars(value[i..]) == (next + QuoteChar(value[i])) + QuoteChars(value[i + 1..])
  {
    hide QuoteChar;
    assert value[i..][1..] == value[i + 1..];
  }

  lemma QuoteEnds(next: string, value: string)
    ensures next + QuoteChars(value[|value|..]) == next
  {
  }

  method NullableText(start: string, value: string) returns (next: string)
    ensures next == start + Print(Nullable(value))
  {
    if value == "" {
      next := start + "null";
    } else {
      next := Quoted(start, value);
    }
  }

  method AuthorText(start: string, r: Record) returns (next: string)
    ensures next == start + Print(AuthorTree(r))
  {
    hide Print, PrintMembers, Written;
    ghost var v, keys := AuthorTree(r), ["author"];
    AuthorMembers(r);
    AuthorLiterals();
    next := start + "{\"author\":" + Print(r.profile);
    FirstMember(start, v, "author");
    ghost var was := next;
    next := Quoted(next + ",\"firstChangedAt\":", r.first);
    NextMember(was, start, v, keys, "firstChangedAt");
    keys, was := keys + ["firstChangedAt"], next;
    next := Quoted(next + ",\"key\":", r.key);
    NextMember(was, start, v, keys, "key");
    keys, was := keys + ["key"], next;
    next := Quoted(next + ",\"lastChangedAt\":", r.last);
    NextMember(was, start, v, keys, "lastChangedAt");
    keys := keys + ["lastChangedAt"];
    AuthorKeysInOrder(keys);
    ObjectDone(next, start, v, keys);
    next := next + "}";
  }

  lemma AuthorMembers(r: Record)
    ensures var m := AuthorTree(r).members;
      && "author" in m && Print(m["author"]) == Print(r.profile)
      && "firstChangedAt" in m && Print(m["firstChangedAt"]) == Quote(r.first)
      && "key" in m && Print(m["key"]) == Quote(r.key)
      && "lastChangedAt" in m && Print(m["lastChangedAt"]) == Quote(r.last)
  {
  }

  lemma AuthorLiterals()
    ensures "{\"author\":" == "{\"" + "author" + "\":" && ",\"firstChangedAt\":" == ",\"" + "firstChangedAt" + "\":"
    ensures ",\"key\":" == ",\"" + "key" + "\":" && ",\"lastChangedAt\":" == ",\"" + "lastChangedAt" + "\":"
  {
  }

  lemma AuthorKeysInOrder(keys: seq<string>)
    requires keys == ["author", "firstChangedAt", "key", "lastChangedAt"]
    ensures Increasing(keys)
    ensures forall r: Record :: AuthorTree(r).members.Keys == set k | k in keys
  {
  }

  method AuthorsText(start: string, authors: seq<Record>) returns (next: string)
    ensures next == start + Print(Array(AuthorTrees(authors)))
  {
    hide Print, PrintItems, ItemsRest;
    ghost var v := Array(AuthorTrees(authors));
    next := start + "[";
    ItemsStart(next, v);
    var i := 0;
    while i < |authors|
      invariant 0 <= i <= |authors|
      invariant next + ItemsRest(v, i) == start + "[" + PrintItems(v, 0)
    {
      ItemsStep(next, v, i);
      if i > 0 {
        next := next + ",";
      }
      next := AuthorText(next, authors[i]);
      i := i + 1;
    }
    ArrayDone(next, start, v);
    next := next + "]";
  }

  lemma ItemsStart(next: string, v: Json)
    requires v.Array?
    ensures next + ItemsRest(v, 0) == next + PrintItems(v, 0)
  {
  }

  method LinkText(start: string, l: Link) returns (next: string)
    ensures next == start + Print(LinkTree(l))
  {
    hide Print, PrintMembers, Written;
    ghost var v, keys := LinkTree(l), ["name"];
    LinkMembers(l);
    next := Quoted(start + "{\"name\":", l.name);
    FirstMember(start, v, "name");
    ghost var was := next;
    next := Quoted(next + ",\"url\":", l.url);
    NextMember(was, start, v, keys, "url");
    keys := keys + ["url"];
    ObjectDone(next, start, v, keys);
    next := next + "}";
  }

  lemma LinkMembers(l: Link)
    ensures var m := LinkTree(l).members;
      "name" in m && Print(m["name"]) == Quote(l.name) && "url" in m && Print(m["url"]) == Quote(l.url)
    ensures "{\"name\":" == "{\"" + "name" + "\":" && ",\"url\":" == ",\"" + "url" + "\":"
    ensures Increasing(["name", "url"]) && LinkTree(l).members.Keys == set k | k in ["name", "url"]
  {
  }

  method LinksText(start: string, links: seq<Link>) returns (next: string)
    ensures next == start + Print(Array(LinkTrees(links)))
  {
    hide Print, PrintItems, ItemsRest;
    ghost var v := Array(LinkTrees(links));
    next := start + "[";
    ItemsStart(next, v);
    var i := 0;
    while i < |links|
      invariant 0 <= i <= |links|
      invariant next + ItemsRest(v, i) == start + "[" + PrintItems(v, 0)
    {
      ItemsStep(next, v, i);
      if i > 0 {
        next := next + ",";
      }
      next := LinkText(next, links[i]);
      i := i + 1;
    }
    ArrayDone(next, start, v);
    next := next + "]";
  }

  method ParticipantsText(start: string, authors: seq<Record>) returns (next: string)
    ensures next == start + Print(Array(ParticipantTrees(authors)))
  {
    hide PrintItems, ItemsRest;
    ghost var v := Array(ParticipantTrees(authors));
    next := start + "[";
    ItemsStart(next, v);
    var i := 1;
    while i < |authors|
      invariant 1 <= i && i - 1 <= |v.items| && (i < |authors| || i - 1 == |v.items|)
      invariant next + ItemsRest(v, i - 1) == start + "[" + PrintItems(v, 0)
    {
      ItemsStep(next, v, i - 1);
      if i > 1 {
        next := next + ",";
      }
      next := Quoted(next, authors[i].key);
      i := i + 1;
    }
    ArrayDone(next, start, v);
    next := next + "]";
  }

  /** `rebuildDump` up to its size check: the library's text of the ledger's document. */
  method BuildText(s: State) returns (next: string)
    ensures next == Print(Tree(s))
  {
    hide Print, PrintMembers, Written, Tree, Nullable, Increasing, Plain, Quote, Shortest;
    ghost var v, keys := Tree(s), ["authors", "firstEditor", "lastAuthor", "links"];
    TreeMembers(s);
    LastLiterals();
    next := FirstHalf(s);
    ghost var was := next;
    next := NullableText(next + ",\"modifiedAt\":", s.modifiedAt);
    NextMember(was, "", v, keys, "modifiedAt");
    keys, was := keys + ["modifiedAt"], next;
    next := ParticipantsText(next + ",\"participants\":", s.authors);
    NextMember(was, "", v, keys, "participants");
    keys, was := keys + ["participants"], next;
    next := Quoted(next + ",\"revision\":", Shortest(s.revision));
    NextMember(was, "", v, keys, "revision");
    keys, was := keys + ["revision"], next;
    next := next + ",\"schemaVersion\":" + "3";
    NextMember(was, "", v, keys, "schemaVersion");
    keys := keys + ["schemaVersion"];
    TreeKeysInOrder(s, keys);
    ObjectDone(next, "", v, keys);
    next := next + "}";
  }

  method FirstHalf(s: State) returns (next: string)
    ensures Written(next, "", Tree(s), ["authors", "firstEditor", "lastAuthor", "links"])
  {
    hide Print, PrintMembers, Written, Tree, Nullable, Plain, Quote;
    ghost var v, keys := Tree(s), ["authors"];
    TreeMembers(s);
    FirstLiterals();
    next := AuthorsText("" + "{\"authors\":", s.authors);
    FirstMember("", v, "authors");
    ghost var was := next;
    next := NullableText(next + ",\"firstEditor\":", if s.authors == [] then "" else s.authors[0].key);
    NextMember(was, "", v, keys, "firstEditor");
    keys, was := keys + ["firstEditor"], next;
    next := NullableText(next + ",\"lastAuthor\":", s.lastAuthor);
    NextMember(was, "", v, keys, "lastAuthor");
    keys, was := keys + ["lastAuthor"], next;
    next := LinksText(next + ",\"links\":", s.links);
    NextMember(was, "", v, keys, "links");
    assert keys + ["links"] == ["authors", "firstEditor", "lastAuthor", "links"];
  }

  lemma TreeMembers(s: State)
    ensures Tree(s).Object?
    ensures var m := Tree(s).members;
      && "authors" in m && m["authors"] == Array(AuthorTrees(s.authors))
      && "firstEditor" in m && m["firstEditor"] == Nullable(if s.authors == [] then "" else s.authors[0].key)
      && "lastAuthor" in m && m["lastAuthor"] == Nullable(s.lastAuthor)
      && "links" in m && m["links"] == Array(LinkTrees(s.links))
      && "modifiedAt" in m && m["modifiedAt"] == Nullable(s.modifiedAt)
      && "participants" in m && m["participants"] == Array(ParticipantTrees(s.authors))
      && "revision" in m && Print(m["revision"]) == Quote(Shortest(s.revision))
      && "schemaVersion" in m && Print(m["schemaVersion"]) == "3"
  {
    hide AuthorTrees, LinkTrees, ParticipantTrees, Nullable;
    Three();
  }

  lemma Three()
    ensures Print(Json.Number(3)) == "3"
  {
  }

  lemma FirstLiterals()
    ensures "{\"authors\":" == "{\"" + "authors" + "\":" && ",\"firstEditor\":" == ",\"" + "firstEditor" + "\":"
    ensures ",\"lastAuthor\":" == ",\"" + "lastAuthor" + "\":" && ",\"links\":" == ",\"" + "links" + "\":"
    ensures Plain("authors") && Plain("firstEditor") && Plain("lastAuthor") && Plain("links")
  {
  }

  lemma LastLiterals()
    ensures ",\"modifiedAt\":" == ",\"" + "modifiedAt" + "\":" && ",\"participants\":" == ",\"" + "participants" + "\":"
    ensures ",\"revision\":" == ",\"" + "revision" + "\":" && ",\"schemaVersion\":" == ",\"" + "schemaVersion" + "\":"
    ensures Plain("modifiedAt") && Plain("participants") && Plain("revision") && Plain("schemaVersion")
  {
    hide Plain;
    PlainLast();
  }

  lemma PlainLast()
    ensures Plain("modifiedAt") && Plain("participants") && Plain("revision") && Plain("schemaVersion")
  {
  }

  lemma TreeKeysInOrder(s: State, keys: seq<string>)
    requires keys == ["authors", "firstEditor", "lastAuthor", "links", "modifiedAt", "participants", "revision", "schemaVersion"]
    ensures Increasing(keys) && Tree(s).Object? && Tree(s).members.Keys == set k | k in keys
  {
    hide AuthorTrees, LinkTrees, ParticipantTrees, FirstEditor, Nullable, Shortest;
  }

  /** No authors, no links, and a short time and revision. */
  predicate Bare(s: State) {
    s.authors == [] && s.links == [] && s.lastAuthor == "" && Plain(s.modifiedAt) && |s.modifiedAt| <= 40 && s.revision < 10
  }

  /** The text of a ledger that nobody has signed fits. */
  lemma BareFits(s: State)
    requires Bare(s)
    ensures |Print(Tree(s))| <= MAXIMUM_BYTES
  {
    hide Print, PrintMembers, Tree, Increasing, ShortMember, Bare;
    var keys := ["authors", "firstEditor", "lastAuthor", "links", "modifiedAt", "participants", "revision", "schemaVersion"];
    TreeKeysInOrder(s, keys);
    forall k | k in keys
      ensures k in Tree(s).members && ShortMember(Tree(s), k)
    {
      BareMember(s, k);
    }
    MembersBounded(Tree(s), keys);
    ObjectLength(Tree(s), keys);
  }

  /** The text of an unused ledger fits. */
  lemma EmptyFits()
    ensures |Print(Tree(Empty))| <= MAXIMUM_BYTES
  {
    BareFits(Empty);
  }

  predicate ShortMember(v: Json, key: string)
    requires v.Object? && key in v.members
  {
    Plain(key) && |key| <= 20 && |Print(v.members[key])| <= 50
  }

  lemma BareMember(s: State, key: string)
    requires Bare(s) && Tree(s).Object? && key in Tree(s).members
    ensures ShortMember(Tree(s), key)
  {
    hide Print, Plain, Nullable, FirstEditor, AuthorTrees, LinkTrees, ParticipantTrees, Decimals.Shortest;
    BareChildren(s);
    TreeMembers(s);
    FirstLiterals();
    LastLiterals();
  }

  lemma {:induction false} MembersBounded(v: Json, keys: seq<string>)
    requires v.Object? && forall k :: k in keys ==> k in v.members && ShortMember(v, k)
    ensures |PrintMembers(v, keys)| <= 80 * |keys|
  {
    hide Print;
    if keys != [] {
      assert keys[0] in keys && ShortMember(v, keys[0]);
      PlainQuote(keys[0]);
      MembersBounded(v, keys[1..]);
    }
  }

  lemma BareChildren(s: State)
    requires Bare(s)
    ensures |Print(Array(AuthorTrees([])))| == 2 && |Print(FirstEditor([]))| == 4 && |Print(Nullable(""))| == 4
    ensures |Print(Array(LinkTrees([])))| == 2 && |Print(Array(ParticipantTrees([])))| == 2
    ensures |Print(Nullable(s.modifiedAt))| <= 42 && |Quote(Decimals.Shortest(s.revision))| == 3 && |Print(Json.Number(3))| == 1
  {
    var digit := Decimals.Shortest(s.revision);
    assert |digit| == 1 && Plain(digit);
    PlainQuote(digit);
    PlainQuote(s.modifiedAt);
  }

  lemma ObjectLength(v: Json, keys: seq<string>)
    requires v.Object? && Increasing(keys) && v.members.Keys == set k | k in keys
    ensures |Print(v)| == |PrintMembers(v, keys)| + 2
  {
    hide PrintMembers;
    AscendingOf(keys, v.members.Keys);
  }
}
