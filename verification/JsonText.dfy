/**
 The text cJSON_PrintUnformatted produces, and the one property of a JSON parser the firmware's
 protocols lean on: an object whose braces are not closed is not an object. Strings are C strings,
 printed with cJSON's escapes.
 */
module JsonText {
  import opened Lines

  datatype Json =
    | Number(literal: string)
    | Text(value: string)
    | Bool(flag: bool)
    | Array(items: seq<Json>)
    | Object(members: seq<Member>)

  datatype Member = Member(key: string, value: Json)

  // ---------------------------------------------------------------- printing

  function HexDigit(n: nat): char
    requires n < 16
  {
    "0123456789abcdef"[n]
  }

  /** print_string_ptr on one character. */
  function EscapeChar(c: char): string {
    if c == '\"' then "\\\""
    else if c == '\\' then "\\\\"
    else if c == 8 as char then "\\b"
    else if c == 12 as char then "\\f"
    else if c == '\n' then "\\n"
    else if c == '\r' then "\\r"
    else if c == '\t' then "\\t"
    else if c as int < 32 then "\\u00" + [HexDigit(c as int / 16), HexDigit(c as int % 16)]
    else [c]
  }

  function Escape(s: string): string {
    if s == "" then "" else Escape(s[..|s| - 1]) + EscapeChar(s[|s| - 1])
  }

  function Quote(s: string): string {
    "\"" + Escape(s) + "\""
  }

  function Print(v: Json): string
    decreases v, 1
  {
    match v
    case Number(literal) => literal
    case Text(value) => Quote(value)
    case Bool(flag) => if flag then "true" else "false"
    case Array(items) => "[" + PrintItems(items) + "]"
    case Object(members) => "{" + PrintMembers(members) + "}"
  }

  function PrintItems(items: seq<Json>): string
    decreases items, 0
  {
    if items == [] then ""
    else if |items| == 1 then Print(items[0])
    else Print(items[0]) + "," + PrintItems(items[1..])
  }

  function PrintMember(m: Member): string
    decreases m, 0
  {
    Quote(m.key) + ":" + Print(m.value)
  }

  function PrintMembers(members: seq<Member>): string
    decreases members, 0
  {
    if members == [] then ""
    else if |members| == 1 then PrintMember(members[0])
    else PrintMember(members[0]) + "," + PrintMembers(members[1..])
  }

  /** A character of a number literal or of plain text: not a quote, escape, bracket or control character. */
  predicate PlainChar(c: char) {
    c as int >= 32 && c != '\"' && c != '\\' && c != '{' && c != '}' && c != '[' && c != ']'
  }

  predicate Plain(s: string) {
    forall i :: 0 <= i < |s| ==> PlainChar(s[i])
  }

  /** Every number literal in the value is plain. */
  predicate PlainNumbers(v: Json)
    decreases v
  {
    match v
    case Number(literal) => Plain(literal)
    case Text(_) => true
    case Bool(_) => true
    case Array(items) => forall i <- items :: PlainNumbers(i)
    case Object(members) => forall m <- members :: PlainNumbers(m.value)
  }

  // ---------------------------------------------------------------- scanning

  /** How far a parser is into nested brackets, and whether it is inside a string or behind a backslash. */
  datatype Scan = Scan(depth: int, inString: bool, escaped: bool)

  function Outside(depth: int): Scan { Scan(depth, false, false) }
  function Inside(depth: int): Scan { Scan(depth, true, false) }

  function ReadChar(s: Scan, c: char): Scan {
    if s.inString then
      if s.escaped then s.(escaped := false)
      else if c == '\\' then s.(escaped := true)
      else if c == '\"' then s.(inString := false)
      else s
    else if c == '\"' then s.(inString := true)
    else if c == '{' || c == '[' then s.(depth := s.depth + 1)
    else if c == '}' || c == ']' then s.(depth := s.depth - 1)
    else s
  }

  function ReadText(s: Scan, text: string): Scan {
    if text == "" then s else ReadChar(ReadText(s, text[..|text| - 1]), text[|text| - 1])
  }

  /** Some prefix of the text is an object with all its brackets closed. A text that lacks this
      cannot be parsed as an object, whatever else a parser checks. */
  predicate ClosesObject(text: string) {
    text != "" && text[0] == '{' && exists n :: 0 < n <= |text| && ReadText(Outside(0), text[..n]) == Outside(0)
  }

  lemma {:induction false} ReadAppend(s: Scan, a: string, b: string)
    ensures ReadText(s, a + b) == ReadText(ReadText(s, a), b)
  {
    if b == "" {
      assert a + b == a;
    } else {
      assert (a + b)[..|a + b| - 1] == a + b[..|b| - 1];
      ReadAppend(s, a, b[..|b| - 1]);
    }
  }

  /** Reading `text` from depth `d` never goes below it and ends where it began. */
  ghost predicate Balanced(text: string, d: int) {
    && ReadText(Outside(d), text) == Outside(d)
    && forall n :: 0 <= n <= |text| ==> ReadText(Outside(d), text[..n]).depth >= d
  }

  lemma BalancedAppend(a: string, b: string, d: int)
    requires Balanced(a, d) && Balanced(b, d)
    ensures Balanced(a + b, d)
  {
    ReadAppend(Outside(d), a, b);
    forall n | 0 <= n <= |a + b|
      ensures ReadText(Outside(d), (a + b)[..n]).depth >= d
    {
      if n <= |a| {
        assert (a + b)[..n] == a[..n];
      } else {
        assert (a + b)[..n] == a + b[..n - |a|];
        ReadAppend(Outside(d), a, b[..n - |a|]);
      }
    }
  }

  lemma {:induction false} PlainIsBalanced(text: string, d: int)
    requires Plain(text)
    ensures Balanced(text, d)
  {
    if text == "" {
    } else {
      var n := |text| - 1;
      PlainIsBalanced(text[..n], d);
      forall k | 0 <= k <= |text|
        ensures ReadText(Outside(d), text[..k]).depth >= d
      {
        if k <= n {
          assert text[..k] == text[..n][..k];
        } else {
          assert text[..k] == text;
        }
      }
    }
  }

  /** Inside a string no printed character can end it. */
  lemma EscapedCharStaysInside(c: char, d: int)
    ensures ReadText(Inside(d), EscapeChar(c)) == Inside(d)
    ensures forall n :: 0 <= n <= |EscapeChar(c)| ==> ReadText(Inside(d), EscapeChar(c)[..n]).depth == d
  {
    var e := EscapeChar(c);
    assert e[..0] == "";
    if |e| == 1 {
      assert e[..1] == e;
    } else {
      assert e[0] == '\\' && e[..1][..0] == "";
      assert ReadText(Inside(d), e[..1]) == Scan(d, true, true);
      assert e[..2][..1] == e[..1];
      assert ReadText(Inside(d), e[..2]) == Inside(d);
      if |e| > 2 {
        assert e[..3][..2] == e[..2] && e[..4][..3] == e[..3] && e[..5][..4] == e[..4] && e[..6][..5] == e[..5];
        assert ReadText(Inside(d), e[..3]) == Inside(d);
        assert ReadText(Inside(d), e[..4]) == Inside(d);
        assert ReadText(Inside(d), e[..5]) == Inside(d);
        assert ReadText(Inside(d), e[..6]) == Inside(d);
        assert e[..6] == e;
      } else {
        assert e[..2] == e;
      }
    }
  }

  lemma {:induction false} EscapedTextStaysInside(s: string, d: int, n: nat)
    requires n <= |Escape(s)|
    ensures ReadText(Inside(d), Escape(s)) == Inside(d)
    ensures ReadText(Inside(d), Escape(s)[..n]).depth == d
  {
    if s == "" {
    } else {
      var a, e := Escape(s[..|s| - 1]), EscapeChar(s[|s| - 1]);
      EscapedTextStaysInside(s[..|s| - 1], d, if n <= |a| then n else |a|);
      EscapedCharStaysInside(s[|s| - 1], d);
      ReadAppend(Inside(d), a, e);
      if n <= |a| {
        assert Escape(s)[..n] == a[..n];
      } else {
        assert Escape(s)[..n] == a + e[..n - |a|];
        ReadAppend(Inside(d), a, e[..n - |a|]);
      }
    }
  }

  lemma QuoteIsBalanced(s: string, d: int)
    ensures Balanced(Quote(s), d)
  {
    var q, e := Quote(s), Escape(s);
    hide Escape;
    var open := "\"";
    assert open[..0] == "" && ReadText(Outside(d), open) == Inside(d);
    ReadAppend(Outside(d), open, e);
    EscapedTextStaysInside(s, d, |e|);
    ReadAppend(Outside(d), open + e, open);
    assert ReadText(Inside(d), open) == Outside(d);
    forall n | 0 <= n <= |q|
      ensures ReadText(Outside(d), q[..n]).depth >= d
    {
      if n == 0 {
      } else if n <= 1 + |e| {
        assert q[..n] == open + e[..n - 1];
        ReadAppend(Outside(d), open, e[..n - 1]);
        EscapedTextStaysInside(s, d, n - 1);
      } else {
        assert q[..n] == q;
      }
    }
  }

  /** Brackets around balanced text: the depth stays above `d` until the closing bracket is read. */
  lemma BracketsAreBalanced(open: char, inner: string, close: char, d: int)
    requires open == '{' || open == '['
    requires close == '}' || close == ']'
    requires Balanced(inner, d + 1)
    ensures Balanced([open] + inner + [close], d)
    ensures forall n :: 0 < n < |inner| + 2 ==> ReadText(Outside(d), ([open] + inner + [close])[..n]).depth > d
  {
    var text := [open] + inner + [close];
    assert [open][..0] == "" && [close][..0] == "";
    assert ReadText(Outside(d), [open]) == Outside(d + 1);
    ReadAppend(Outside(d), [open], inner);
    ReadAppend(Outside(d), [open] + inner, [close]);
    forall n | 0 < n < |text|
      ensures ReadText(Outside(d), text[..n]).depth > d
    {
      assert text[..n] == [open] + inner[..n - 1];
      ReadAppend(Outside(d), [open], inner[..n - 1]);
    }
    assert text[..0] == "" && text[..|text|] == text;
  }

  lemma {:induction false} PrintIsBalanced(v: Json, d: int)
    requires PlainNumbers(v)
    ensures Balanced(Print(v), d)
    decreases v, 1
  {
    match v
    case Number(literal) => PlainIsBalanced(literal, d);
    case Text(value) => QuoteIsBalanced(value, d);
    case Bool(flag) => PlainIsBalanced(Print(v), d);
    case Array(items) =>
      ItemsAreBalanced(items, d + 1);
      BracketsAreBalanced('[', PrintItems(items), ']', d);
    case Object(members) =>
      MembersAreBalanced(members, d + 1);
      BracketsAreBalanced('{', PrintMembers(members), '}', d);
  }

  lemma {:induction false} ItemsAreBalanced(items: seq<Json>, d: int)
    requires forall i <- items :: PlainNumbers(i)
    ensures Balanced(PrintItems(items), d)
    decreases items, 0
  {
    hide Balanced;
    if items == [] {
      PlainIsBalanced("", d);
    } else {
      PrintIsBalanced(items[0], d);
      if |items| > 1 {
        ItemsAreBalanced(items[1..], d);
        PlainIsBalanced(",", d);
        BalancedAppend(Print(items[0]), ",", d);
        BalancedAppend(Print(items[0]) + ",", PrintItems(items[1..]), d);
      }
    }
  }

  lemma {:induction false} MemberIsBalanced(m: Member, d: int)
    requires PlainNumbers(m.value)
    ensures Balanced(PrintMember(m), d)
    decreases m, 0
  {
    hide Balanced;
    QuoteIsBalanced(m.key, d);
    PlainIsBalanced(":", d);
    PrintIsBalanced(m.value, d);
    BalancedAppend(Quote(m.key), ":", d);
    BalancedAppend(Quote(m.key) + ":", Print(m.value), d);
  }

  lemma {:induction false} MembersAreBalanced(members: seq<Member>, d: int)
    requires forall m <- members :: PlainNumbers(m.value)
    ensures Balanced(PrintMembers(members), d)
    decreases members, 0
  {
    hide Balanced;
    if members == [] {
      PlainIsBalanced("", d);
    } else {
      MemberIsBalanced(members[0], d);
      if |members| > 1 {
        MembersAreBalanced(members[1..], d);
        PlainIsBalanced(",", d);
        BalancedAppend(PrintMember(members[0]), ",", d);
        BalancedAppend(PrintMember(members[0]) + ",", PrintMembers(members[1..]), d);
      }
    }
  }

  /** The first `n` bytes of a printed object are an object exactly when they are all of it. */
  lemma PrefixClosesIffWhole(members: seq<Member>, n: nat)
    requires PlainNumbers(Object(members)) && n <= |Print(Object(members))|
    ensures ClosesObject(Print(Object(members))[..n]) <==> n == |Print(Object(members))|
  {
    var inner := PrintMembers(members);
    var text := Print(Object(members));
    MembersAreBalanced(members, 1);
    BracketsAreBalanced('{', inner, '}', 0);
    assert text == ['{'] + inner + ['}'];
    if n == |text| {
      assert text[..n] == text && text[..n][..n] == text;
    } else {
      forall k | 0 < k <= n
        ensures ReadText(Outside(0), text[..n][..k]) != Outside(0)
      {
        assert text[..n][..k] == text[..k];
      }
    }
  }

  // ---------------------------------------------------------------- plain text and control characters

  lemma EscapeOfPlainChar(c: char)
    requires PlainChar(c)
    ensures EscapeChar(c) == [c]
  {
  }

  lemma {:induction false} EscapeOfPlain(s: string)
    requires Plain(s)
    ensures Escape(s) == s
  {
    if s != "" {
      EscapeOfPlain(s[..|s| - 1]);
      assert PlainChar(s[|s| - 1]);
      EscapeOfPlainChar(s[|s| - 1]);
      hide EscapeChar, PlainChar;
      assert s == s[..|s| - 1] + [s[|s| - 1]];
    }
  }

  predicate Printable(s: string) {
    forall i :: 0 <= i < |s| ==> s[i] as int >= 32
  }

  lemma {:induction false} EscapeIsPrintable(s: string)
    ensures Printable(Escape(s))
  {
    if s != "" {
      EscapeIsPrintable(s[..|s| - 1]);
    }
  }

  lemma {:induction false} PrintIsPrintable(v: Json)
    requires PlainNumbers(v)
    ensures Printable(Print(v))
    decreases v, 1
  {
    match v
    case Number(literal) =>
    case Text(value) => EscapeIsPrintable(value);
    case Bool(flag) =>
    case Array(items) => ItemsArePrintable(items);
    case Object(members) => MembersArePrintable(members);
  }

  lemma {:induction false} ItemsArePrintable(items: seq<Json>)
    requires forall i <- items :: PlainNumbers(i)
    ensures Printable(PrintItems(items))
    decreases items, 0
  {
    if items != [] {
      PrintIsPrintable(items[0]);
      ItemsArePrintable(items[1..]);
    }
  }

  lemma {:induction false} MembersArePrintable(members: seq<Member>)
    requires forall m <- members :: PlainNumbers(m.value)
    ensures Printable(PrintMembers(members))
    decreases members, 0
  {
    if members != [] {
      EscapeIsPrintable(members[0].key);
      PrintIsPrintable(members[0].value);
      MembersArePrintable(members[1..]);
    }
  }

  /** Every printed object can be stored as one line of a JSONL file. */
  lemma PrintedObjectIsStorable(members: seq<Member>)
    requires PlainNumbers(Object(members))
    ensures Storable(Print(Object(members)))
  {
    PrintIsPrintable(Object(members));
    var text := Print(Object(members));
    assert text[0] == '{';
    assert forall i :: 0 <= i < |text| ==> text[i] as int >= 32;
    assert NEWLINE as int < 32 && NUL as int < 32;
  }

  // ---------------------------------------------------------------- escapes read back

  function HexDigitValue(c: char): nat {
    if '0' <= c <= '9' then c as nat - '0' as nat
    else if 'a' <= c <= 'f' then c as nat - 'a' as nat + 10
    else 0
  }

  /** What a two-character escape stands for. */
  function EscapedChar(c: char): char {
    if c == 'b' then 8 as char
    else if c == 'f' then 12 as char
    else if c == 'n' then '\n'
    else if c == 'r' then '\r'
    else if c == 't' then '\t'
    else c
  }

  /** A JSON string read back. */
  function Unescape(s: string): string {
    if s == "" then ""
    else if s[0] != '\\' then [s[0]] + Unescape(s[1..])
    else if |s| >= 6 && s[1] == 'u' then
      [(16 * HexDigitValue(s[4]) + HexDigitValue(s[5])) as char] + Unescape(s[6..])
    else if |s| >= 2 then [EscapedChar(s[1])] + Unescape(s[2..])
    else ""
  }

  lemma EscapeCharReadsBack(c: char, rest: string)
    ensures Unescape(EscapeChar(c) + rest) == [c] + Unescape(rest)
  {
    var s := EscapeChar(c) + rest;
    if c as int < 32 && |EscapeChar(c)| == 6 {
      var hi, lo := HexDigit(c as int / 16), HexDigit(c as int % 16);
      HexReadsBack(c as int / 16);
      HexReadsBack(c as int % 16);
      assert s == "\\u00" + [hi, lo] + rest;
      assert s[0] == '\\' && s[1] == 'u' && s[4] == hi && s[5] == lo && s[6..] == rest;
      assert 16 * HexDigitValue(s[4]) + HexDigitValue(s[5]) == c as int;
    } else if |EscapeChar(c)| == 2 {
      assert s[0] == '\\' && s[1] != 'u' && s[2..] == rest;
    } else {
      assert s == [c] + rest && s[1..] == rest;
    }
  }

  lemma HexReadsBack(n: nat)
    requires n < 16
    ensures HexDigitValue(HexDigit(n)) == n
  {
  }

  lemma EscapeLast(s: string)
    requires s != ""
    ensures Escape(s) == Escape(s[..|s| - 1]) + EscapeChar(s[|s| - 1])
  {
  }

  lemma Regroup(a: string, b: string, c: string)
    ensures a + b + c == a + (b + c)
  {
  }

  lemma {:induction false} EscapeFollowedBy(s: string, rest: string)
    ensures Unescape(Escape(s) + rest) == s + Unescape(rest)
    decreases |s|
  {
    if s == "" {
      assert Escape(s) + rest == rest;
    } else {
      var init, c := s[..|s| - 1], s[|s| - 1];
      assert init + [c] == s;
      EscapeLast(s);
      hide *;
      Regroup(Escape(init), EscapeChar(c), rest);
      EscapeFollowedBy(init, EscapeChar(c) + rest);
      EscapeCharReadsBack(c, rest);
      Regroup(init, [c], Unescape(rest));
    }
  }

  /** Reading a printed string back gives the string, whatever characters it holds. */
  lemma UnescapeInvertsEscape(s: string)
    ensures Unescape(Escape(s)) == s
  {
    EscapeFollowedBy(s, "");
    assert Escape(s) + "" == Escape(s) && s + Unescape("") == s;
  }

  // ---------------------------------------------------------------- printed objects spelt out

  /** Texts one after the other, commas between them. */
  function Commas(texts: seq<string>): string {
    if texts == [] then "" else if |texts| == 1 then texts[0] else texts[0] + "," + Commas(texts[1..])
  }

  lemma {:induction false} MembersAreCommas(ms: seq<Member>, texts: seq<string>)
    requires |ms| == |texts| && forall i :: 0 <= i < |ms| ==> PrintMember(ms[i]) == texts[i]
    ensures PrintMembers(ms) == Commas(texts)
  {
    hide PrintMember;
    if |ms| > 1 {
      MembersAreCommas(ms[1..], texts[1..]);
    }
  }

  /** A member as it is printed, if its key needs no escaping. */
  function Named(key: string, text: string): string {
    "\"" + key + "\":" + text
  }

  lemma MemberText(key: string, v: Json)
    requires Plain(key)
    ensures PrintMember(Member(key, v)) == Named(key, Print(v))
  {
    EscapeOfPlain(key);
    assert "\"" + key + "\"" + ":" == "\"" + key + "\":";
  }


  lemma {:induction false} EscapeAppend(a: string, b: string)
    ensures Escape(a + b) == Escape(a) + Escape(b)
  {
    hide EscapeChar;
    if b == "" {
      assert a + b == a;
    } else {
      assert (a + b)[..|a + b| - 1] == a + b[..|b| - 1];
      EscapeAppend(a, b[..|b| - 1]);
    }
  }

  lemma EscapeOne(c: char)
    ensures Escape([c]) == EscapeChar(c)
  {
    assert [c][..0] == "";
  }

  lemma ObjectText(members: seq<Member>)
    ensures Print(Object(members)) == "{" + PrintMembers(members) + "}"
  {
  }
}
