/** The library's compact JSON text and its parser: integers, no white space, and `\u` escapes
    below the surrogates. */
module JsonText {
  import opened Wrappers
  import opened Decimals
  import opened JsonTree

  // ----- Printing

  function QuoteChar(c: char): string {
    if c == '"' then "\\\""
    else if c == '\\' then "\\\\"
    else if c == 8 as char then "\\b"
    else if c == 12 as char then "\\f"
    else if c == '\n' then "\\n"
    else if c == '\r' then "\\r"
    else if c == '\t' then "\\t"
    else if c < ' ' then "\\u00" + [HexDigit(c as int / 16), HexDigit(c as int % 16)]
    else [c]
  }

  function QuoteChars(s: string): string {
    if s == "" then "" else QuoteChar(s[0]) + QuoteChars(s[1..])
  }

  function Quote(s: string): string { "\"" + QuoteChars(s) + "\"" }

  function PrintNumber(n: int): string {
    if n < 0 then "-" + Shortest(-n) else Shortest(n)
  }

  function Print(v: Json): string
    decreases v, 1, 0
  {
    match v
    case Null => "null"
    case Bool(b) => if b then "true" else "false"
    case Number(n) => PrintNumber(n)
    case Text(s) => Quote(s)
    case Array(items) => "[" + PrintItems(v, 0) + "]"
    case Object(members) => "{" + PrintMembers(v, Ascending(members.Keys)) + "}"
  }

  /** The elements from the `n`th on. */
  function PrintItems(v: Json, n: nat): string
    requires v.Array? && n <= |v.items|
    decreases v, 0, |v.items| - n
  {
    if n == |v.items| then ""
    else if n == |v.items| - 1 then Print(v.items[n])
    else Print(v.items[n]) + "," + PrintItems(v, n + 1)
  }

  function PrintMembers(v: Json, keys: seq<string>): string
    requires v.Object? && forall k :: k in keys ==> k in v.members
    decreases v, 0, |keys|
  {
    if keys == [] then ""
    else if |keys| == 1 then PrintMember(v, keys[0])
    else PrintMember(v, keys[0]) + "," + PrintMembers(v, keys[1..])
  }

  function PrintMember(v: Json, key: string): string
    requires v.Object? && key in v.members
    decreases v, 0, 0
  {
    Quote(key) + ":" + Print(v.members[key])
  }

  // ----- Parsing

  datatype Parsed<T> = Parsed(value: T, rest: string)

  function HexValue(c: char): Option<nat> {
    if '0' <= c <= '9' then Some(c as int - '0' as int)
    else if 'a' <= c <= 'f' then Some(c as int - 'a' as int + 10)
    else if 'A' <= c <= 'F' then Some(c as int - 'A' as int + 10)
    else None
  }

  /** Four hexadecimal digits of a character that is no surrogate. */
  function ParseHex(t: string): Option<char>
    requires |t| == 4
  {
    var a, b, c, d := HexValue(t[0]), HexValue(t[1]), HexValue(t[2]), HexValue(t[3]);
    if a == None || b == None || c == None || d == None then None
    else
      var n := ((a.value * 16 + b.value) * 16 + c.value) * 16 + d.value;
      if n < 0xD800 then Some(n as char) else None
  }

  function Escaped(c: char): Option<char> {
    if c == '"' || c == '\\' || c == '/' then Some(c)
    else if c == 'b' then Some(8 as char)
    else if c == 'f' then Some(12 as char)
    else if c == 'n' then Some('\n')
    else if c == 'r' then Some('\r')
    else if c == 't' then Some('\t')
    else None
  }

  /** One character of a quoted text, and how much of the input it took. */
  function ParseChar(t: string): (c: Option<Parsed<char>>)
    ensures c.Some? ==> |c.value.rest| < |t|
  {
    if t == "" || t[0] < ' ' || t[0] == '"' then None
    else if t[0] != '\\' then Some(Parsed(t[0], t[1..]))
    else if |t| < 2 then None
    else if t[1] == 'u' then
      if |t| < 6 then None
      else
        var c := ParseHex(t[2..6]);
        if c == None then None else Some(Parsed(c.value, t[6..]))
    else
      var c := Escaped(t[1]);
      if c == None then None else Some(Parsed(c.value, t[2..]))
  }

  /** The rest of a quoted text, up to and including its closing quote. */
  function ParseChars(t: string): (s: Option<Parsed<string>>)
    ensures s.Some? ==> |s.value.rest| < |t|
    decreases |t|
  {
    if t != "" && t[0] == '"' then Some(Parsed("", t[1..]))
    else
      var c := ParseChar(t);
      if c == None then None
      else
        var s := ParseChars(c.value.rest);
        if s == None then None else Some(Parsed([c.value.value] + s.value.value, s.value.rest))
  }

  function LeadingDigits(t: string): (n: nat)
    ensures n <= |t| && Digits(t[..n]) && (n < |t| ==> !IsDigit(t[n]))
  {
    if t == "" || !IsDigit(t[0]) then 0
    else
      var n := LeadingDigits(t[1..]);
      assert t[..n + 1] == [t[0]] + t[1..][..n];
      n + 1
  }

  function ParseNatural(t: string): (n: Option<Parsed<nat>>)
    ensures n.Some? ==> |n.value.rest| < |t|
  {
    var count := LeadingDigits(t);
    if count == 0 || (count > 1 && t[0] == '0') then None else Some(Parsed(Decimals.Number(t[..count]), t[count..]))
  }

  function ParseNumber(t: string): (n: Option<Parsed<Json>>)
    requires t != ""
    ensures n.Some? ==> |n.value.rest| < |t|
  {
    var n := ParseNatural(if t[0] == '-' then t[1..] else t);
    if n == None then None
    else
      var m: int := n.value.value;
      Some(Parsed(Json.Number(if t[0] == '-' then -m else m), n.value.rest))
  }

  function ParseValue(t: string): (v: Option<Parsed<Json>>)
    ensures v.Some? ==> |v.value.rest| < |t|
    decreases |t|, 0
  {
    if t == "" then None
    else if t[0] == '"' then
      var s := ParseChars(t[1..]);
      if s == None then None else Some(Parsed(Text(s.value.value), s.value.rest))
    else if t[0] == '[' then
      if |t| > 1 && t[1] == ']' then Some(Parsed(Array([]), t[2..]))
      else
        var items := ParseItems(t[1..]);
        if items == None then None else Some(Parsed(Array(items.value.value), items.value.rest))
    else if t[0] == '{' then
      if |t| > 1 && t[1] == '}' then Some(Parsed(Object(map[]), t[2..]))
      else
        var members := ParseMembers(t[1..]);
        if members == None then None else Some(Parsed(Object(members.value.value), members.value.rest))
    else if t[0] == 'n' then if |t| >= 4 && t[..4] == "null" then Some(Parsed(Null, t[4..])) else None
    else if t[0] == 't' then if |t| >= 4 && t[..4] == "true" then Some(Parsed(Bool(true), t[4..])) else None
    else if t[0] == 'f' then if |t| >= 5 && t[..5] == "false" then Some(Parsed(Bool(false), t[5..])) else None
    else ParseNumber(t)
  }

  /** At least one element, up to and including the closing bracket. */
  function ParseItems(t: string): (items: Option<Parsed<seq<Json>>>)
    ensures items.Some? ==> |items.value.rest| < |t|
    decreases |t|, 1
  {
    var v := ParseValue(t);
    if v == None || v.value.rest == "" then None
    else
      var rest := v.value.rest[1..];
      if v.value.rest[0] == ']' then Some(Parsed([v.value.value], rest))
      else if v.value.rest[0] == ',' then
        var more := ParseItems(rest);
        if more == None then None else Some(Parsed([v.value.value] + more.value.value, more.value.rest))
      else None
  }

  /** At least one member, up to and including the closing brace; the last of a repeated key counts. */
  function ParseMembers(t: string): (members: Option<Parsed<map<string, Json>>>)
    ensures members.Some? ==> |members.value.rest| < |t|
    decreases |t|, 1
  {
    if t == "" || t[0] != '"' then None
    else
      var key := ParseChars(t[1..]);
      if key == None || key.value.rest == "" || key.value.rest[0] != ':' then None
      else
        var v := ParseValue(key.value.rest[1..]);
        if v == None || v.value.rest == "" then None
        else
          var rest := v.value.rest[1..];
          if v.value.rest[0] == '}' then Some(Parsed(map[key.value.value := v.value.value], rest))
          else if v.value.rest[0] == ',' then
            var more := ParseMembers(rest);
            if more == None then None
            else Some(Parsed(map[key.value.value := v.value.value] + more.value.value, more.value.rest))
          else None
  }

  /** The whole text is one document. */
  function Parse(t: string): Option<Json> {
    var v := ParseValue(t);
    if v == None || v.value.rest != "" then None else Some(v.value.value)
  }

  // ----- Reading back what was printed

  lemma HexBack(d: nat)
    requires d < 16
    ensures HexValue(HexDigit(d)) == Some(d)
  {
  }

  lemma QuoteCharBack(c: char, rest: string)
    ensures ParseChar(QuoteChar(c) + rest) == Some(Parsed(c, rest))
  {
    hide HexDigit;
    var q := QuoteChar(c);
    var t := q + rest;
    assert t[|q|..] == rest;
    if |q| == 6 {
      HexBack(0);
      HexBack(c as int / 16);
      HexBack(c as int % 16);
      assert t[2..6] == q[2..6];
    }
  }

  lemma {:induction false} QuoteCharsBack(s: string, rest: string)
    ensures ParseChars(QuoteChars(s) + ("\"" + rest)) == Some(Parsed(s, rest))
  {
    hide QuoteChar, ParseChar;
    var close := "\"" + rest;
    assert close[1..] == rest;
    if s == "" {
      assert QuoteChars(s) + close == close;
    } else {
      var tail := QuoteChars(s[1..]) + close;
      assert QuoteChars(s) + close == QuoteChar(s[0]) + tail;
      QuoteCharBack(s[0], tail);
      QuoteStart(s[0], tail);
      QuoteCharsBack(s[1..], rest);
      OneChar(s[0], QuoteChar(s[0]) + tail, tail, s[1..], rest);
      assert s == [s[0]] + s[1..];
    }
  }

  lemma OneChar(c: char, t: string, tail: string, others: string, rest: string)
    requires t != "" && t[0] != '"' && ParseChar(t) == Some(Parsed(c, tail))
    requires ParseChars(tail) == Some(Parsed(others, rest))
    ensures ParseChars(t) == Some(Parsed([c] + others, rest))
  {
    hide ParseChar;
  }

  lemma QuoteStart(c: char, tail: string)
    ensures QuoteChar(c) + tail != "" && (QuoteChar(c) + tail)[0] != '"'
  {
  }

  /** What may follow a value inside a document, or at its end. */
  predicate Delimited(rest: string) {
    rest == "" || rest[0] == ',' || rest[0] == ']' || rest[0] == '}'
  }

  lemma {:induction false} LeadingDigitsOf(digits: string, rest: string)
    requires Digits(digits) && (rest == "" || !IsDigit(rest[0]))
    ensures LeadingDigits(digits + rest) == |digits|
  {
    if digits == "" {
      assert digits + rest == rest;
    } else {
      assert (digits + rest)[1..] == digits[1..] + rest;
      LeadingDigitsOf(digits[1..], rest);
    }
  }

  lemma NaturalBack(n: nat, rest: string)
    requires Delimited(rest)
    ensures ParseNatural(Shortest(n) + rest) == Some(Parsed(n, rest))
  {
    var digits := Shortest(n);
    LeadingDigitsOf(digits, rest);
    NumberPadded(n, 1);
    assert (digits + rest)[..|digits|] == digits && (digits + rest)[|digits|..] == rest;
    if n > 0 {
      NoLeadingZero(n);
    }
  }

  lemma NumberBack(n: int, rest: string)
    requires Delimited(rest)
    ensures ParseValue(PrintNumber(n) + rest) == Some(Parsed(Json.Number(n), rest))
  {
    hide ParseNatural;
    var m := if n < 0 then -n else n;
    NaturalBack(m, rest);
    var t := PrintNumber(n) + rest;
    if n < 0 {
      assert t[1..] == Shortest(m) + rest;
    }
    assert t[0] == '-' || IsDigit(t[0]);
  }

  lemma TextBack(s: string, rest: string)
    ensures ParseValue(Quote(s) + rest) == Some(Parsed(Text(s), rest))
  {
    hide ParseChars;
    QuoteCharsBack(s, rest);
    assert (Quote(s) + rest)[1..] == QuoteChars(s) + ("\"" + rest);
  }

  lemma WordsBack(rest: string)
    ensures ParseValue("null" + rest) == Some(Parsed(Null, rest))
    ensures ParseValue("true" + rest) == Some(Parsed(Bool(true), rest))
    ensures ParseValue("false" + rest) == Some(Parsed(Bool(false), rest))
  {
    assert ("null" + rest)[..4] == "null" && ("null" + rest)[4..] == rest;
    assert ("true" + rest)[..4] == "true" && ("true" + rest)[4..] == rest;
    assert ("false" + rest)[..5] == "false" && ("false" + rest)[5..] == rest;
  }

  /** A value never starts like the end of its container. */
  lemma PrintStart(v: Json)
    ensures Print(v) != "" && Print(v)[0] != ']' && Print(v)[0] != '}'
  {
    if v.Number? {
      assert IsDigit(Shortest(if v.n < 0 then -v.n else v.n)[0]);
    }
  }

  /** Parsing undoes printing: the value, and whatever followed it. */
  lemma {:induction false} ValueBack(v: Json, rest: string)
    requires Delimited(rest)
    ensures ParseValue(Print(v) + rest) == Some(Parsed(v, rest))
    decreases v, 1, 0
  {
    match v
    case Null => WordsBack(rest);
    case Bool(b) => WordsBack(rest);
    case Number(n) => NumberBack(n, rest);
    case Text(s) => TextBack(s, rest);
    case Array(items) =>
      if items == [] {
        assert ("[]" + rest)[2..] == rest;
      } else {
        ItemsBack(v, 0, rest);
        ItemsStart(v);
        BracketsBack(v, rest);
      }
    case Object(members) =>
      var keys := Ascending(members.Keys);
      if keys == [] {
        EmptyBack(v, rest);
      } else {
        MembersBack(v, keys, rest);
        BracesBack(v, keys, rest);
      }
  }

  lemma ItemsStart(v: Json)
    requires v.Array? && v.items != []
    ensures PrintItems(v, 0) != "" && PrintItems(v, 0)[0] != ']'
  {
    PrintStart(v.items[0]);
  }

  lemma BracketsBack(v: Json, rest: string)
    requires v.Array? && v.items != [] && PrintItems(v, 0) != "" && PrintItems(v, 0)[0] != ']'
    requires ParseItems(PrintItems(v, 0) + "]" + rest) == Some(Parsed(v.items[0..], rest))
    ensures ParseValue(Print(v) + rest) == Some(Parsed(v, rest))
  {
    hide ParseItems, PrintItems;
    assert (Print(v) + rest)[1..] == PrintItems(v, 0) + "]" + rest;
    assert v.items[0..] == v.items;
  }

  lemma {:induction false} ItemsBack(v: Json, n: nat, rest: string)
    requires v.Array? && n < |v.items|
    ensures ParseItems(PrintItems(v, n) + "]" + rest) == Some(Parsed(v.items[n..], rest))
    decreases v, 0, |v.items| - n
  {
    hide ParseValue, ParseItems, Print;
    var item := Print(v.items[n]);
    assert v.items[n..] == [v.items[n]] + v.items[n + 1..];
    if n == |v.items| - 1 {
      var after := "]" + rest;
      assert PrintItems(v, n) + "]" + rest == item + after;
      ValueBack(v.items[n], after);
      assert after[1..] == rest && v.items[n..] == [v.items[n]];
      LastItem(v.items[n], item + after, after);
    } else {
      ItemsBack(v, n + 1, rest);
      var more := PrintItems(v, n + 1) + "]" + rest;
      assert PrintItems(v, n) + "]" + rest == item + ("," + more);
      ValueBack(v.items[n], "," + more);
      OneItem(v.items[n], item + ("," + more), more, v.items[n + 1..], rest);
    }
  }

  lemma LastItem(v: Json, t: string, after: string)
    requires ParseValue(t) == Some(Parsed(v, after)) && after != "" && after[0] == ']'
    ensures ParseItems(t) == Some(Parsed([v], after[1..]))
  {
    hide ParseValue;
  }

  lemma OneItem(v: Json, t: string, more: string, others: seq<Json>, rest: string)
    requires ParseValue(t) == Some(Parsed(v, "," + more)) && ParseItems(more) == Some(Parsed(others, rest))
    ensures ParseItems(t) == Some(Parsed([v] + others, rest))
  {
    hide ParseValue;
    assert ("," + more)[1..] == more;
  }

  lemma EmptyBack(v: Json, rest: string)
    requires v.Object? && Ascending(v.members.Keys) == []
    ensures ParseValue(Print(v) + rest) == Some(Parsed(v, rest))
  {
    forall k
      ensures k !in v.members
    {
      assert k in Ascending(v.members.Keys) <==> k in v.members.Keys;
    }
    assert v.members == map[];
    assert ("{}" + rest)[2..] == rest;
  }

  function Restrict(members: map<string, Json>, keys: seq<string>): map<string, Json>
    requires forall k :: k in keys ==> k in members
  {
    map k | k in keys :: members[k]
  }

  lemma BracesBack(v: Json, keys: seq<string>, rest: string)
    requires v.Object? && keys != [] && keys == Ascending(v.members.Keys)
    requires ParseMembers(PrintMembers(v, keys) + "}" + rest) == Some(Parsed(Restrict(v.members, keys), rest))
    ensures ParseValue(Print(v) + rest) == Some(Parsed(v, rest))
  {
    hide ParseMembers, PrintMembers, PrintMember;
    MembersStart(v, keys);
    assert Print(v) == "{" + PrintMembers(v, keys) + "}";
    assert (Print(v) + rest)[1..] == PrintMembers(v, keys) + "}" + rest;
    assert Restrict(v.members, keys) == v.members;
  }

  lemma MembersStart(v: Json, keys: seq<string>)
    requires v.Object? && keys != [] && forall k :: k in keys ==> k in v.members
    ensures PrintMembers(v, keys) != "" && PrintMembers(v, keys)[0] == '"'
  {
  }

  lemma {:induction false} MembersBack(v: Json, keys: seq<string>, rest: string)
    requires v.Object? && keys != [] && forall k :: k in keys ==> k in v.members
    requires forall i, j :: 0 <= i < j < |keys| ==> keys[i] != keys[j]
    ensures ParseMembers(PrintMembers(v, keys) + "}" + rest) == Some(Parsed(Restrict(v.members, keys), rest))
    decreases v, 0, |keys|
  {
    hide ParseValue, ParseMembers, Print, PrintMember, Restrict;
    var key := keys[0];
    RestrictFirst(v.members, keys);
    if |keys| == 1 {
      ValueBack(v.members[key], "}" + rest);
      LastMember(v, key, "}" + rest);
      MembersJoined(v, keys, rest);
    } else {
      MembersBack(v, keys[1..], rest);
      var more := PrintMembers(v, keys[1..]) + "}" + rest;
      ValueBack(v.members[key], "," + more);
      OneMember(v, key, more, Restrict(v.members, keys[1..]), rest);
      MembersJoined(v, keys, rest);
    }
  }

  lemma MembersJoined(v: Json, keys: seq<string>, rest: string)
    requires v.Object? && keys != [] && forall k :: k in keys ==> k in v.members
    ensures PrintMembers(v, keys) + "}" + rest == PrintMember(v, keys[0])
      + if |keys| == 1 then "}" + rest else "," + (PrintMembers(v, keys[1..]) + "}" + rest)
  {
    hide PrintMember;
  }

  lemma RestrictFirst(members: map<string, Json>, keys: seq<string>)
    requires keys != [] && forall k :: k in keys ==> k in members
    ensures Restrict(members, keys) == map[keys[0] := members[keys[0]]] + Restrict(members, keys[1..])
    ensures |keys| == 1 ==> Restrict(members, keys) == map[keys[0] := members[keys[0]]]
  {
    assert keys == [keys[0]] + keys[1..];
  }

  lemma LastMember(v: Json, key: string, after: string)
    requires v.Object? && key in v.members && after != "" && after[0] == '}'
    requires ParseValue(Print(v.members[key]) + after) == Some(Parsed(v.members[key], after))
    ensures ParseMembers(PrintMember(v, key) + after) == Some(Parsed(map[key := v.members[key]], after[1..]))
  {
    hide ParseValue, ParseChars, Print;
    MemberPieces(v, key, after);
  }

  lemma OneMember(v: Json, key: string, more: string, others: map<string, Json>, rest: string)
    requires v.Object? && key in v.members
    requires ParseValue(Print(v.members[key]) + ("," + more)) == Some(Parsed(v.members[key], "," + more))
    requires ParseMembers(more) == Some(Parsed(others, rest))
    ensures ParseMembers(PrintMember(v, key) + ("," + more)) == Some(Parsed(map[key := v.members[key]] + others, rest))
  {
    hide ParseValue, ParseChars, Print;
    MemberPieces(v, key, "," + more);
    assert ("," + more)[1..] == more;
  }

  lemma MemberPieces(v: Json, key: string, after: string)
    requires v.Object? && key in v.members
    ensures var t := PrintMember(v, key) + after; var value := Print(v.members[key]) + after;
      && t != "" && t[0] == '"' && ParseChars(t[1..]) == Some(Parsed(key, ":" + value)) && (":" + value)[1..] == value
  {
    hide ParseChars, Print, QuoteChars;
    var value := Print(v.members[key]) + after;
    QuoteCharsBack(key, ":" + value);
    MemberText(QuoteChars(key), Print(v.members[key]), after);
  }

  lemma MemberText(q: string, p: string, after: string)
    ensures var t := "\"" + q + "\"" + ":" + p + after; t[0] == '"' && t[1..] == q + ("\"" + (":" + (p + after)))
    ensures (":" + (p + after))[1..] == p + after
  {
    assert "\"" + q + "\"" + ":" + p + after == "\"" + (q + ("\"" + (":" + (p + after))));
  }

  lemma {:induction false} QuoteJoins(a: string, b: string)
    ensures QuoteChars(a + b) == QuoteChars(a) + QuoteChars(b)
  {
    if a == "" {
      assert a + b == b;
    } else {
      assert (a + b)[0] == a[0] && (a + b)[1..] == a[1..] + b;
      QuoteJoins(a[1..], b);
    }
  }

  lemma QuoteOne(c: char)
    ensures QuoteChars([c]) == QuoteChar(c)
  {
    assert [c] == [c] + "" && QuoteChars("") == "";
  }

  /** Section 7 of RFC 8259: the escapes are those of the standard, and only what it requires is escaped. */
  lemma EscapesAre(c: char)
    ensures QuoteChars("\"") == "\\\"" && QuoteChars("\\") == "\\\\"
    ensures QuoteChars("\n") == "\\n" && QuoteChars("\r") == "\\r" && QuoteChars("\t") == "\\t"
    ensures QuoteChars([8 as char]) == "\\b" && QuoteChars([12 as char]) == "\\f"
    ensures c >= ' ' && c != '"' && c != '\\' ==> QuoteChars([c]) == [c]
  {
    QuoteOne('"');
    QuoteOne('\\');
    QuoteOne('\n');
    QuoteOne('\r');
    QuoteOne('\t');
    QuoteOne(8 as char);
    QuoteOne(12 as char);
    QuoteOne(c);
  }

  /** Every document is read back from its text. */
  lemma ParsePrint(v: Json)
    ensures Parse(Print(v)) == Some(v)
  {
    ValueBack(v, "");
    assert Print(v) + "" == Print(v);
  }
}
