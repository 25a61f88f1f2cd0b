/** JSON text as RFC 8259 defines it in sections 2 to 7: trees, a reader for any JSON text, and
    the compact text this program writes. */
module Json {
  import opened Prelude
  import opened Text
  import opened Decimal

  // ---- numbers (section 6) ----

  /** The first index from `i` on that does not hold a digit. */
  function DigitsEnd(s: string, i: nat): (e: nat)
    requires i <= |s|
    ensures i <= e <= |s| && forall k :: i <= k < e ==> IsDigit(s[k])
    ensures e < |s| ==> !IsDigit(s[e])
    decreases |s| - i
  {
    if i < |s| && IsDigit(s[i]) then DigitsEnd(s, i + 1) else i
  }

  /** [ frac ]: nothing, or a point and at least one digit. */
  function FractionEnd(s: string, i: nat): (e: Option<nat>)
    requires i <= |s|
    ensures e.Some? ==> i <= e.value <= |s|
  {
    if i == |s| || s[i] != '.' then Some(i)
    else if DigitsEnd(s, i + 1) == i + 1 then None
    else Some(DigitsEnd(s, i + 1))
  }

  /** [ exp ]: nothing, or e / E, an optional sign and at least one digit. */
  function ExponentEnd(s: string, i: nat): (e: Option<nat>)
    requires i <= |s|
    ensures e.Some? ==> i <= e.value <= |s|
  {
    if i == |s| || (s[i] != 'e' && s[i] != 'E') then Some(i)
    else
      var first := if i + 1 < |s| && (s[i + 1] == '+' || s[i + 1] == '-') then i + 2 else i + 1;
      if DigitsEnd(s, first) == first then None else Some(DigitsEnd(s, first))
  }

  /** [ minus ] int [ frac ] [ exp ], where int has no leading zero: the length of the number at
      the start of s. */
  function NumberEnd(s: string): (e: Option<nat>)
    ensures e.Some? ==> 0 < e.value <= |s| && (s[0] == '-' || IsDigit(s[0]))
  {
    var first := if |s| > 0 && s[0] == '-' then 1 else 0;
    var whole := DigitsEnd(s, first);
    if whole == first || (s[first] == '0' && whole > first + 1) then None
    else
      match FractionEnd(s, whole)
      case None => None
      case Some(f) => ExponentEnd(s, f)
  }

  type Numeral = s: string | NumberEnd(s) == Some(|s|) witness "0"

  /** No number goes on with the first character of s. */
  predicate Stops(s: string) {
    |s| > 0 ==> !IsDigit(s[0]) && s[0] !in ".eE+-"
  }

  /** s goes on after t with something that is not part of a number. */
  ghost predicate Continues(s: string, t: string) {
    && |t| <= |s|
    && (forall k :: 0 <= k < |t| ==> s[k] == t[k])
    && (|t| < |s| ==> !IsDigit(s[|t|]) && s[|t|] !in ".eE+-")
  }

  lemma SameDigits(s: string, t: string, i: nat)
    requires Continues(s, t) && i <= |t|
    ensures DigitsEnd(s, i) == DigitsEnd(t, i)
  {
  }

  lemma SameFraction(s: string, t: string, i: nat)
    requires Continues(s, t) && i <= |t|
    ensures FractionEnd(s, i) == FractionEnd(t, i)
  {
    hide DigitsEnd;
    if i < |t| {
      SameDigits(s, t, i + 1);
    }
  }

  lemma SameExponent(s: string, t: string, i: nat)
    requires Continues(s, t) && i <= |t|
    ensures ExponentEnd(s, i) == ExponentEnd(t, i)
  {
    hide DigitsEnd;
    if i + 1 < |t| {
      SameDigits(s, t, i + 2);
    }
    if i < |t| {
      SameDigits(s, t, i + 1);
    }
  }

  /** What is a number stays one whatever follows it, as long as that does not look like more of it. */
  lemma NumeralThenRest(t: Numeral, rest: string)
    requires Stops(rest)
    ensures NumberEnd(t + rest) == Some(|t|)
  {
    var s := t + rest;
    assert Continues(s, t);
    hide DigitsEnd, FractionEnd, ExponentEnd, Continues;
    assert s[0] == t[0];
    var first := if t[0] == '-' then 1 else 0;
    assert first < |t| ==> s[first] == t[first];
    SameDigits(s, t, first);
    var whole := DigitsEnd(t, first);
    SameFraction(s, t, whole);
    SameExponent(s, t, FractionEnd(t, whole).value);
  }

  lemma CutDigits(s: string, n: nat, i: nat)
    requires i <= n <= |s| && DigitsEnd(s, i) <= n
    ensures DigitsEnd(s[..n], i) == DigitsEnd(s, i)
  {
  }

  lemma CutFraction(s: string, n: nat, i: nat)
    requires i <= n <= |s| && FractionEnd(s, i).Some? && FractionEnd(s, i).value <= n
    ensures FractionEnd(s[..n], i) == FractionEnd(s, i)
  {
    hide DigitsEnd;
    if i < n && s[i] == '.' {
      CutDigits(s, n, i + 1);
    }
  }

  lemma CutExponent(s: string, i: nat)
    requires i <= |s| && ExponentEnd(s, i).Some?
    ensures ExponentEnd(s[..ExponentEnd(s, i).value], i) == ExponentEnd(s, i)
  {
    hide DigitsEnd;
    var n := ExponentEnd(s, i).value;
    if i < n {
      var first := if i + 1 < |s| && (s[i + 1] == '+' || s[i + 1] == '-') then i + 2 else i + 1;
      CutDigits(s, n, first);
    }
  }

  /** The number found at the start of a text is a number by itself. */
  lemma NumeralAtStart(s: string)
    requires NumberEnd(s).Some?
    ensures NumberEnd(s[..NumberEnd(s).value]) == Some(NumberEnd(s).value)
  {
    hide DigitsEnd, FractionEnd, ExponentEnd;
    var n := NumberEnd(s).value;
    var first := if s[0] == '-' then 1 else 0;
    var whole := DigitsEnd(s, first);
    CutDigits(s, n, first);
    CutFraction(s, n, whole);
    CutExponent(s, FractionEnd(s, whole).value);
  }

  // ---- strings (section 7) ----

  datatype Parsed<+T> = Fail | Got(value: T, rest: string)

  function HexDigit(d: nat): char
    requires d < 16
  {
    if d < 10 then '0' + d as char else 'a' + (d - 10) as char
  }

  function HexValue(c: char): (d: Option<nat>)
    ensures d.Some? ==> d.value < 16
  {
    if '0' <= c <= '9' then Some(c as nat - '0' as nat)
    else if 'a' <= c <= 'f' then Some(c as nat - 'a' as nat + 10)
    else if 'A' <= c <= 'F' then Some(c as nat - 'A' as nat + 10)
    else None
  }

  function ReadHex(s: string, digits: nat): (r: Option<nat>)
    ensures r.Some? ==> digits <= |s| && r.value < Pow16(digits)
    decreases digits
  {
    if digits == 0 then Some(0)
    else if digits > |s| then None
    else
      match (ReadHex(s, digits - 1), HexValue(s[digits - 1]))
      case (Some(high), Some(low)) => Some(high * 16 + low)
      case _ => None
  }

  function Pow16(d: nat): nat {
    if d == 0 then 1 else 16 * Pow16(d - 1)
  }

  /** What follows a backslash. Two escaped surrogates make one character; one alone is refused,
      since no character is denoted. */
  function ReadEscape(s: string): (r: Parsed<char>)
    ensures r.Got? ==> |r.rest| < |s|
  {
    if |s| == 0 then Fail
    else if s[0] in "\"\\/" then Got(s[0], s[1..])
    else if s[0] == 'b' then Got('\U{08}', s[1..])
    else if s[0] == 'f' then Got('\U{0C}', s[1..])
    else if s[0] == 'n' then Got('\n', s[1..])
    else if s[0] == 'r' then Got('\r', s[1..])
    else if s[0] == 't' then Got('\t', s[1..])
    else if s[0] != 'u' then Fail
    else
      var high := ReadHex(s[1..], 4);
      if high.None? then Fail
      else if high.value < 0xD800 || 0xE000 <= high.value < 0x10000 then Got(high.value as char, s[5..])
      else if high.value >= 0xDC00 || |s| < 7 || s[5] != '\\' || s[6] != 'u' then Fail
      else
        var low := ReadHex(s[7..], 4);
        if low.None? || !(0xDC00 <= low.value < 0xE000) then Fail
        else Got((0x10000 + (high.value - 0xD800) * 0x400 + (low.value - 0xDC00)) as char, s[11..])
  }

  /** One character of a string; control characters must be escaped. */
  function ReadChar(s: string): (r: Parsed<char>)
    ensures r.Got? ==> |r.rest| < |s|
  {
    if |s| == 0 || s[0] < ' ' then Fail
    else if s[0] == '\\' then ReadEscape(s[1..])
    else Got(s[0], s[1..])
  }

  /** The rest of a string, up to and including the closing quotation mark. */
  function ReadChars(s: string): (r: Parsed<string>)
    ensures r.Got? ==> |r.rest| < |s|
    decreases |s|
  {
    if |s| > 0 && s[0] == '"' then Got("", s[1..])
    else
      match ReadChar(s)
      case Fail => Fail
      case Got(c, t) =>
        match ReadChars(t)
        case Fail => Fail
        case Got(cs, u) => Got([c] + cs, u)
  }

  function Escape(c: char): string {
    if c == '"' then "\\\""
    else if c == '\\' then "\\\\"
    else if c == '\n' then "\\n"
    else if c == '\r' then "\\r"
    else if c == '\t' then "\\t"
    else if c < ' ' then "\\u00" + [HexDigit(c as nat / 16), HexDigit(c as nat % 16)]
    else [c]
  }

  function EscapeAll(s: string): string {
    if |s| == 0 then "" else EscapeAll(Front(s)) + Escape(Last(s))
  }

  function Quote(s: string): string {
    "\"" + EscapeAll(s) + "\""
  }

  lemma HexReads(n: nat, rest: string)
    requires n < 0x20
    ensures ReadHex("00" + [HexDigit(n / 16), HexDigit(n % 16)] + rest, 4) == Some(n)
  {
    var s := "00" + [HexDigit(n / 16), HexDigit(n % 16)] + rest;
    assert s[0] == '0' && s[1] == '0' && s[2] == HexDigit(n / 16) && s[3] == HexDigit(n % 16);
    assert ReadHex(s, 1) == Some(0);
    assert ReadHex(s, 2) == Some(0);
    assert ReadHex(s, 3) == Some(n / 16);
  }

  lemma ControlReads(c: char, rest: string)
    requires c < ' ' && c !in "\n\r\t"
    ensures ReadChar(Escape(c) + rest) == Got(c, rest)
  {
    hide ReadHex, HexDigit;
    var hex := "00" + [HexDigit(c as nat / 16), HexDigit(c as nat % 16)];
    var s, t := Escape(c) + rest, "u" + hex + rest;
    HexReads(c as nat, rest);
    assert s[1..] == t && t[1..] == hex + rest && t[5..] == rest;
  }

  lemma EscapeReads(c: char, rest: string)
    ensures ReadChar(Escape(c) + rest) == Got(c, rest)
    ensures |Escape(c)| > 0 && Escape(c)[0] != '"'
  {
    hide ReadHex, HexDigit;
    var s := Escape(c) + rest;
    if c < ' ' && c !in "\n\r\t" {
      ControlReads(c, rest);
    } else if |Escape(c)| == 2 {
      var e := [Escape(c)[1]];
      assert s[1..] == e + rest && (e + rest)[1..] == rest;
    } else {
      assert s[1..] == rest;
    }
  }

  lemma {:induction false} EscapeAllCons(s: string)
    requires |s| > 0
    ensures EscapeAll(s) == Escape(s[0]) + EscapeAll(s[1..])
  {
    if |s| > 1 {
      EscapeAllCons(Front(s));
      assert Front(s)[0] == s[0] && Front(s)[1..] == Front(s[1..]) && Last(s[1..]) == Last(s);
    } else {
      assert Front(s) == s[1..] == "";
    }
  }

  lemma CharThenRest(e: string, t: string, c: char, cs: string, rest: string)
    requires |e| > 0 && e[0] != '"' && ReadChar(e + t) == Got(c, t) && ReadChars(t) == Got(cs, rest)
    ensures ReadChars(e + t) == Got([c] + cs, rest)
  {
    hide ReadChar;
    assert (e + t)[0] == e[0];
  }

  lemma Regrouped(a: string, b: string, c: string, d: string)
    ensures (a + b) + c + d == a + (b + c + d)
  {
  }

  /** Unescaping an escaped string gives the string back, whatever characters it holds. */
  lemma {:induction false} QuotedReads(s: string, rest: string)
    ensures ReadChars(EscapeAll(s) + "\"" + rest) == Got(s, rest)
  {
    if |s| == 0 {
      var t := EscapeAll(s) + "\"" + rest;
      assert t == "\"" + rest && t[1..] == rest;
    } else {
      hide EscapeAll, Escape, ReadChar, ReadChars;
      var t := EscapeAll(s[1..]) + "\"" + rest;
      EscapeReads(s[0], t);
      QuotedReads(s[1..], rest);
      CharThenRest(Escape(s[0]), t, s[0], s[1..], rest);
      EscapeAllCons(s);
      Regrouped(Escape(s[0]), EscapeAll(s[1..]), "\"", rest);
      assert [s[0]] + s[1..] == s;
    }
  }

  lemma {:induction false} EscapedIsPrintable(s: string)
    ensures forall i :: 0 <= i < |EscapeAll(s)| ==> EscapeAll(s)[i] >= ' '
  {
    if |s| > 0 {
      EscapedIsPrintable(Front(s));
    }
  }

  /** No escape is needed. */
  predicate IsPlain(c: char) {
    c >= ' ' && c != '"' && c != '\\'
  }

  lemma {:induction false} PlainText(s: string)
    requires forall i :: 0 <= i < |s| ==> IsPlain(s[i])
    ensures EscapeAll(s) == s
  {
    if |s| > 0 {
      assert IsPlain(Last(s));
      assert Escape(Last(s)) == [Last(s)];
      hide Escape, IsPlain;
      PlainText(Front(s));
      assert Front(s) + [Last(s)] == s;
    }
  }

  // ---- values (sections 2 to 5) ----

  datatype Json =
    | Null
    | Bool(b: bool)
    | Num(numeral: Numeral)
    | Str(text: string)
    | Arr(items: seq<Json>)
    | Obj(members: seq<Member>)

  datatype Member = Member(name: string, value: Json)

  /** ws: space, tab, line feed, carriage return. */
  function Skip(s: string): (r: string)
    ensures |r| <= |s|
  {
    if |s| > 0 && s[0] in " \t\n\r" then Skip(s[1..]) else s
  }

  predicate Begins(s: string, c: char) {
    |s| > 0 && s[0] == c
  }

  function ReadNumber(s: string): (r: Parsed<Json>)
    ensures r.Got? ==> |r.rest| < |s|
  {
    if NumberEnd(s).None? then Fail
    else
      NumeralAtStart(s);
      var n := NumberEnd(s).value;
      Got(Num(s[..n]), s[n..])
  }

  function ReadLiteral(s: string): (r: Parsed<Json>)
    ensures r.Got? ==> |r.rest| < |s|
  {
    if StripPrefix(s, "null").Some? then Got(Null, s[4..])
    else if StripPrefix(s, "true").Some? then Got(Bool(true), s[4..])
    else if StripPrefix(s, "false").Some? then Got(Bool(false), s[5..])
    else Fail
  }

  function ReadValue(s: string): (r: Parsed<Json>)
    ensures r.Got? ==> |r.rest| < |s|
    decreases |s|, 2
  {
    if Begins(s, '{') then ReadObject(s)
    else if Begins(s, '[') then ReadArray(s)
    else if Begins(s, '"') then
      match ReadChars(s[1..])
      case Fail => Fail
      case Got(text, t) => Got(Str(text), t)
    else if ReadNumber(s).Got? then ReadNumber(s)
    else ReadLiteral(s)
  }

  function ReadArray(s: string): (r: Parsed<Json>)
    requires Begins(s, '[')
    ensures r.Got? ==> |r.rest| < |s|
    decreases |s|, 1
  {
    var t := Skip(s[1..]);
    if Begins(t, ']') then Got(Arr([]), t[1..])
    else
      match ReadValue(t)
      case Fail => Fail
      case Got(j, u) =>
        match ReadMoreItems(Skip(u))
        case Fail => Fail
        case Got(js, v) => Got(Arr([j] + js), v)
  }

  function ReadObject(s: string): (r: Parsed<Json>)
    requires Begins(s, '{')
    ensures r.Got? ==> |r.rest| < |s|
    decreases |s|, 1
  {
    var t := Skip(s[1..]);
    if Begins(t, '}') then Got(Obj([]), t[1..])
    else
      match ReadMember(t)
      case Fail => Fail
      case Got(m, u) =>
        match ReadMoreMembers(Skip(u))
        case Fail => Fail
        case Got(ms, v) => Got(Obj([m] + ms), v)
  }

  /** name ":" value */
  function ReadMember(s: string): (r: Parsed<Member>)
    ensures r.Got? ==> |r.rest| < |s|
    decreases |s|, 3
  {
    if !Begins(s, '"') then Fail
    else
      match ReadChars(s[1..])
      case Fail => Fail
      case Got(name, t) =>
        var u := Skip(t);
        if !Begins(u, ':') then Fail
        else
          match ReadValue(Skip(u[1..]))
          case Fail => Fail
          case Got(j, v) => Got(Member(name, j), v)
  }

  /** Zero or more of "," member, then "}". */
  function ReadMoreMembers(s: string): (r: Parsed<seq<Member>>)
    ensures r.Got? ==> |r.rest| < |s|
    decreases |s|, 1
  {
    if Begins(s, '}') then Got([], s[1..])
    else if !Begins(s, ',') then Fail
    else
      match ReadMember(Skip(s[1..]))
      case Fail => Fail
      case Got(m, t) =>
        match ReadMoreMembers(Skip(t))
        case Fail => Fail
        case Got(ms, u) => Got([m] + ms, u)
  }

  /** Zero or more of "," value, then "]". */
  function ReadMoreItems(s: string): (r: Parsed<seq<Json>>)
    ensures r.Got? ==> |r.rest| < |s|
    decreases |s|, 1
  {
    if Begins(s, ']') then Got([], s[1..])
    else if !Begins(s, ',') then Fail
    else
      match ReadValue(Skip(s[1..]))
      case Fail => Fail
      case Got(j, t) =>
        match ReadMoreItems(Skip(t))
        case Fail => Fail
        case Got(js, u) => Got([j] + js, u)
  }

  /** A JSON text: one value, and nothing but white space around it. */
  function ReadText(s: string): Option<Json> {
    match ReadValue(Skip(s))
    case Fail => None
    case Got(j, t) => if Skip(t) == "" then Some(j) else None
  }

  // ---- the compact text of a value ----

  function Print(j: Json): string
    decreases j, 1, 0
  {
    match j
    case Null => "null"
    case Bool(b) => if b then "true" else "false"
    case Num(t) => t
    case Str(s) => Quote(s)
    case Arr(_) => "[" + ItemsFrom(j, 0)
    case Obj(_) => "{" + MembersFrom(j, 0)
  }

  /** The items from `k` on, each but the first after a comma, and the closing bracket. */
  function ItemsFrom(j: Json, k: nat): string
    requires j.Arr? && k <= |j.items|
    decreases j, 0, |j.items| - k
  {
    if k == |j.items| then "]" else Comma(k) + Print(j.items[k]) + ItemsFrom(j, k + 1)
  }

  function MembersFrom(j: Json, k: nat): string
    requires j.Obj? && k <= |j.members|
    decreases j, 0, |j.members| - k
  {
    if k == |j.members| then "}"
    else Comma(k) + Quote(j.members[k].name) + ":" + Print(j.members[k].value) + MembersFrom(j, k + 1)
  }

  function Comma(k: nat): string {
    if k == 0 then "" else ","
  }

  // ---- reading what was printed ----

  predicate StartsValue(s: string) {
    |s| > 0 && s[0] !in " \t\n\r]},:"
  }

  lemma PrintStarts(j: Json)
    ensures StartsValue(Print(j))
  {
    if j.Num? {
      assert NumberEnd(j.numeral) == Some(|j.numeral|);
    }
  }

  lemma TailStops(j: Json, k: nat, rest: string)
    ensures j.Arr? && 0 < k <= |j.items| ==>
              var t := ItemsFrom(j, k) + rest; Stops(t) && Skip(t) == t
    ensures j.Obj? && 0 < k <= |j.members| ==>
              var t := MembersFrom(j, k) + rest; Stops(t) && Skip(t) == t
  {
  }

  lemma SkipNothing(s: string, rest: string)
    requires StartsValue(s)
    ensures StartsValue(s + rest) && Skip(s + rest) == s + rest
  {
  }

  lemma CommaThenItem(p: string, tail: string, item: Json, items: seq<Json>, rest: string)
    requires StartsValue(p) && ReadValue(p + tail) == Got(item, tail) && Skip(tail) == tail
    requires ReadMoreItems(tail) == Got(items, rest)
    ensures ReadMoreItems("," + p + tail) == Got([item] + items, rest)
  {
    hide ReadValue;
    var t := "," + p + tail;
    SkipNothing(p, tail);
    assert t[1..] == p + tail;
  }

  lemma BracketThenItem(p: string, tail: string, item: Json, items: seq<Json>, rest: string)
    requires StartsValue(p) && ReadValue(p + tail) == Got(item, tail) && Skip(tail) == tail
    requires ReadMoreItems(tail) == Got(items, rest)
    ensures ReadArray("[" + p + tail) == Got(Arr([item] + items), rest)
  {
    hide Skip, ReadMoreItems, ReadValue;
    SkipNothing(p, tail);
    assert ("[" + p + tail)[1..] == p + tail;
  }

  lemma MemberReads(name: string, p: string, tail: string, value: Json)
    requires StartsValue(p) && ReadValue(p + tail) == Got(value, tail)
    ensures ReadMember(Quote(name) + ":" + p + tail) == Got(Member(name, value), tail)
  {
    hide ReadValue, EscapeAll, ReadChars;
    var s, t := Quote(name) + ":" + p + tail, ":" + p + tail;
    QuotedReads(name, t);
    assert s[1..] == EscapeAll(name) + "\"" + t;
    SkipNothing(p, tail);
    assert t[1..] == p + tail;
  }

  lemma CommaThenMember(p: string, tail: string, m: Member, ms: seq<Member>, rest: string)
    requires Begins(p, '"') && ReadMember(p + tail) == Got(m, tail) && Skip(tail) == tail
    requires ReadMoreMembers(tail) == Got(ms, rest)
    ensures ReadMoreMembers("," + p + tail) == Got([m] + ms, rest)
  {
    hide ReadMember;
    var t := "," + p + tail;
    SkipNothing(p, tail);
    assert t[1..] == p + tail;
  }

  lemma BraceThenMember(p: string, tail: string, m: Member, ms: seq<Member>, rest: string)
    requires Begins(p, '"') && ReadMember(p + tail) == Got(m, tail) && Skip(tail) == tail
    requires ReadMoreMembers(tail) == Got(ms, rest)
    ensures ReadObject("{" + p + tail) == Got(Obj([m] + ms), rest)
  {
    hide Skip, ReadMoreMembers, ReadMember;
    SkipNothing(p, tail);
    assert ("{" + p + tail)[1..] == p + tail;
  }

  /** The first character decides. */
  lemma Dispatch(s: string)
    ensures Begins(s, '[') ==> ReadValue(s) == ReadArray(s)
    ensures Begins(s, '{') ==> ReadValue(s) == ReadObject(s)
  {
    hide ReadArray, ReadObject;
  }

  lemma EmptyReads(rest: string)
    ensures ReadValue("[]" + rest) == Got(Arr([]), rest) && ReadValue("{}" + rest) == Got(Obj([]), rest)
    ensures ReadMoreItems("]" + rest) == Got([], rest) && ReadMoreMembers("}" + rest) == Got([], rest)
  {
    assert ("]" + rest)[1..] == rest && ("}" + rest)[1..] == rest;
    assert ("[]" + rest)[1..] == "]" + rest && ("{}" + rest)[1..] == "}" + rest;
  }

  lemma LiteralReads(j: Json, rest: string)
    requires j.Null? || j.Bool?
    ensures ReadValue(Print(j) + rest) == Got(j, rest)
  {
    var p := Print(j);
    var s := p + rest;
    assert s[0] == p[0] && s[..|p|] == p && s[|p|..] == rest;
    assert NumberEnd(s) == None;
    if p == "true" {
      assert s[..4][0] == 't';
    }
    if p == "false" {
      assert s[..4][0] == 'f';
    }
  }

  lemma NumberReads(t: Numeral, rest: string)
    requires Stops(rest)
    ensures ReadValue(t + rest) == Got(Num(t), rest)
  {
    NumeralThenRest(t, rest);
    hide NumberEnd;
    var s := t + rest;
    assert s[..|t|] == t && s[|t|..] == rest;
  }

  lemma StringReads(text: string, rest: string)
    ensures ReadValue(Quote(text) + rest) == Got(Str(text), rest)
  {
    hide EscapeAll, ReadChars;
    var s := Quote(text) + rest;
    QuotedReads(text, rest);
    assert s[1..] == EscapeAll(text) + "\"" + rest;
  }

  /** Reading undoes printing, whatever comes after the printed value. */
  lemma {:induction false} ReadPrinted(j: Json, rest: string)
    requires Stops(rest)
    ensures ReadValue(Print(j) + rest) == Got(j, rest)
    decreases j, 1, 0
  {
    hide ReadValue, Quote;
    match j {
      case Null => LiteralReads(j, rest);
      case Bool(_) => LiteralReads(j, rest);
      case Num(t) => NumberReads(t, rest);
      case Str(text) => StringReads(text, rest);
      case Arr(_) => ArrayReads(j, rest);
      case Obj(_) => ObjectReads(j, rest);
    }
  }

  lemma {:induction false} ArrayReads(j: Json, rest: string)
    requires j.Arr? && Stops(rest)
    ensures ReadValue(Print(j) + rest) == Got(j, rest)
    decreases j, 0, |j.items| + 1
  {
    hide ReadValue, ReadMoreItems, Skip, Stops, StartsValue, Print, ItemsFrom, ReadArray;
    ArrayText(j, rest);
    if |j.items| == 0 {
      EmptyReads(rest);
      assert j == Arr([]);
    } else {
      var p, tail := Print(j.items[0]), ItemsFrom(j, 1) + rest;
      TailStops(j, 1, rest);
      PrintStarts(j.items[0]);
      ReadPrinted(j.items[0], tail);
      ItemsRead(j, 1, rest);
      BracketThenItem(p, tail, j.items[0], j.items[1..], rest);
      Dispatch("[" + p + tail);
      assert [j.items[0]] + j.items[1..] == j.items;
    }
  }

  lemma ArrayText(j: Json, rest: string)
    requires j.Arr?
    ensures |j.items| == 0 ==> Print(j) + rest == "[]" + rest
    ensures |j.items| > 0 ==> Print(j) + rest == "[" + Print(j.items[0]) + (ItemsFrom(j, 1) + rest)
  {
    if |j.items| > 0 {
      assert ItemsFrom(j, 0) == "" + Print(j.items[0]) + ItemsFrom(j, 1);
    } else {
      assert ItemsFrom(j, 0) == "]";
    }
  }

  lemma {:induction false} ItemsRead(j: Json, k: nat, rest: string)
    requires j.Arr? && 0 < k <= |j.items|
    ensures ReadMoreItems(ItemsFrom(j, k) + rest) == Got(j.items[k..], rest)
    decreases j, 0, |j.items| - k
  {
    hide ReadValue, ReadMoreItems, Skip, Stops, StartsValue, Print;
    if k == |j.items| {
      EmptyReads(rest);
      assert ItemsFrom(j, k) == "]" && j.items[k..] == [];
    } else {
      var p, tail := Print(j.items[k]), ItemsFrom(j, k + 1) + rest;
      TailStops(j, k + 1, rest);
      PrintStarts(j.items[k]);
      ReadPrinted(j.items[k], tail);
      ItemsRead(j, k + 1, rest);
      CommaThenItem(p, tail, j.items[k], j.items[k + 1..], rest);
      assert ItemsFrom(j, k) + rest == "," + p + tail;
      assert [j.items[k]] + j.items[k + 1..] == j.items[k..];
    }
  }

  lemma {:induction false} ObjectReads(j: Json, rest: string)
    requires j.Obj? && Stops(rest)
    ensures ReadValue(Print(j) + rest) == Got(j, rest)
    decreases j, 0, |j.members| + 1
  {
    hide ReadValue, ReadMember, ReadMoreMembers, Skip, Stops, StartsValue, Quote, Print, MembersFrom, ReadObject;
    ObjectText(j, rest);
    if |j.members| == 0 {
      EmptyReads(rest);
      assert j == Obj([]);
    } else {
      var m, tail := j.members[0], MembersFrom(j, 1) + rest;
      var p := Quote(m.name) + ":" + Print(m.value);
      TailStops(j, 1, rest);
      PrintStarts(m.value);
      ReadPrinted(m.value, tail);
      MemberReads(m.name, Print(m.value), tail, m.value);
      assert p + tail == Quote(m.name) + ":" + Print(m.value) + tail;
      MembersRead(j, 1, rest);
      QuoteBegins(m.name, ":" + Print(m.value));
      BraceThenMember(p, tail, m, j.members[1..], rest);
      Dispatch("{" + p + tail);
      assert [m] + j.members[1..] == j.members;
    }
  }

  lemma ObjectText(j: Json, rest: string)
    requires j.Obj?
    ensures |j.members| == 0 ==> Print(j) + rest == "{}" + rest
    ensures |j.members| > 0 ==>
              var m := j.members[0];
              Print(j) + rest == "{" + (Quote(m.name) + ":" + Print(m.value)) + (MembersFrom(j, 1) + rest)
  {
    hide Quote;
    if |j.members| > 0 {
      var m := j.members[0];
      assert MembersFrom(j, 0) == "" + Quote(m.name) + ":" + Print(m.value) + MembersFrom(j, 1);
    } else {
      assert MembersFrom(j, 0) == "}";
    }
  }

  lemma QuoteBegins(name: string, rest: string)
    ensures Begins(Quote(name) + rest, '"')
  {
  }

  lemma {:induction false} MembersRead(j: Json, k: nat, rest: string)
    requires j.Obj? && 0 < k <= |j.members|
    ensures ReadMoreMembers(MembersFrom(j, k) + rest) == Got(j.members[k..], rest)
    decreases j, 0, |j.members| - k
  {
    hide ReadValue, ReadMember, ReadMoreMembers, Skip, Stops, StartsValue, Quote, Print;
    if k == |j.members| {
      EmptyReads(rest);
      assert MembersFrom(j, k) == "}" && j.members[k..] == [];
    } else {
      var m, tail := j.members[k], MembersFrom(j, k + 1) + rest;
      var p := Quote(m.name) + ":" + Print(m.value);
      TailStops(j, k + 1, rest);
      PrintStarts(m.value);
      ReadPrinted(m.value, tail);
      MemberReads(m.name, Print(m.value), tail, m.value);
      assert p + tail == Quote(m.name) + ":" + Print(m.value) + tail;
      MembersRead(j, k + 1, rest);
      QuoteBegins(m.name, ":" + Print(m.value));
      CommaThenMember(p, tail, m, j.members[k + 1..], rest);
      assert MembersFrom(j, k) + rest == "," + p + tail;
      assert [m] + j.members[k + 1..] == j.members[k..];
    }
  }

  /** Every tree survives being written and read. */
  lemma TextRoundTrip(j: Json)
    ensures ReadText(Print(j)) == Some(j)
  {
    hide ReadValue, Print, StartsValue;
    PrintStarts(j);
    SkipNothing(Print(j), "");
    assert Print(j) + "" == Print(j);
    ReadPrinted(j, "");
  }

  // ---- one line of text ----

  ghost predicate Printable(s: string) {
    forall i :: 0 <= i < |s| ==> s[i] >= ' '
  }

  lemma NumeralIsPrintable(t: Numeral)
    ensures Printable(t)
  {
    var first := if t[0] == '-' then 1 else 0;
    var whole := DigitsEnd(t, first);
    var f := FractionEnd(t, whole).value;
    assert forall i :: 0 <= i < f ==> t[i] >= ' ';
    assert ExponentEnd(t, f) == Some(|t|);
  }

  lemma QuoteIsPrintable(s: string)
    ensures Printable(Quote(s))
  {
    EscapedIsPrintable(s);
  }

  /** Printed JSON holds no control character, so no line break. */
  lemma {:induction false} PrintIsPrintable(j: Json)
    ensures Printable(Print(j))
    decreases j, 1, 0
  {
    hide Quote;
    match j {
      case Null =>
      case Bool(_) =>
      case Num(t) => NumeralIsPrintable(t);
      case Str(text) => QuoteIsPrintable(text);
      case Arr(_) => ItemsArePrintable(j, 0);
      case Obj(_) => MembersArePrintable(j, 0);
    }
  }

  lemma {:induction false} ItemsArePrintable(j: Json, k: nat)
    requires j.Arr? && k <= |j.items|
    ensures Printable(ItemsFrom(j, k))
    decreases j, 0, |j.items| - k
  {
    if k < |j.items| {
      hide Print;
      PrintIsPrintable(j.items[k]);
      ItemsArePrintable(j, k + 1);
    }
  }

  lemma {:induction false} MembersArePrintable(j: Json, k: nat)
    requires j.Obj? && k <= |j.members|
    ensures Printable(MembersFrom(j, k))
    decreases j, 0, |j.members| - k
  {
    if k < |j.members| {
      hide Print, Quote;
      var m := j.members[k];
      QuoteIsPrintable(m.name);
      PrintIsPrintable(m.value);
      MembersArePrintable(j, k + 1);
      assert Printable(Comma(k) + Quote(m.name));
      assert Printable(Comma(k) + Quote(m.name) + ":" + Print(m.value));
    }
  }
}
