/** The string operations the parsers are built from, on sequences of characters. */
module Text {
  import opened Prelude

  // ---- white space ----

  /** `char::is_ascii_whitespace`: space, tab, line feed, form feed, carriage return. */
  predicate AsciiSpace(c: char) {
    c == ' ' || c == '\t' || c == '\n' || c == '\U{0C}' || c == '\r'
  }

  /** `char::is_whitespace`: the Unicode White_Space property. */
  predicate Space(c: char) {
    || '\t' <= c <= '\r' || c == ' ' || c == '\U{85}' || c == '\U{A0}' || c == '\U{1680}'
    || '\U{2000}' <= c <= '\U{200A}' || c == '\U{2028}' || c == '\U{2029}' || c == '\U{202F}'
    || c == '\U{205F}' || c == '\U{3000}'
  }

  /** The 25 characters of that property. */
  const WHITE_SPACE: set<char> := {
    '\U{09}', '\U{0A}', '\U{0B}', '\U{0C}', '\U{0D}', '\U{20}', '\U{85}', '\U{A0}', '\U{1680}',
    '\U{2000}', '\U{2001}', '\U{2002}', '\U{2003}', '\U{2004}', '\U{2005}', '\U{2006}', '\U{2007}', '\U{2008}',
    '\U{2009}', '\U{200A}', '\U{2028}', '\U{2029}', '\U{202F}', '\U{205F}', '\U{3000}'}

  /** A character trims exactly if it is one of the 25, and separates words exactly if it is one of
      the five of them in ASCII, the vertical tab not being among these. */
  lemma WhiteSpace(c: char)
    ensures Space(c) <==> c in WHITE_SPACE
    ensures AsciiSpace(c) <==> c in WHITE_SPACE && c < '\U{80}' && c != '\U{0B}'
  {
  }

  function TrimStart(s: string): string {
    if |s| > 0 && Space(s[0]) then TrimStart(s[1..]) else s
  }

  function TrimEnd(s: string): string {
    if |s| > 0 && Space(Last(s)) then TrimEnd(Front(s)) else s
  }

  function Trim(s: string): string {
    TrimEnd(TrimStart(s))
  }

  ghost predicate Free(s: string, c: char) {
    forall i :: 0 <= i < |s| ==> s[i] != c
  }

  /** Nothing to trim at either end. */
  predicate Tight(s: string) {
    |s| > 0 ==> !Space(s[0]) && !Space(Last(s))
  }

  lemma TrimTight(s: string)
    requires Tight(s)
    ensures Trim(s) == s
  {
  }

  lemma TrimTrailingSpace(s: string)
    requires Tight(s) && |s| > 0
    ensures Trim(s + " ") == s
  {
    assert TrimStart(s + " ") == s + " ";
    assert Front(s + " ") == s && Space(Last(s + " "));
    assert TrimEnd(s + " ") == TrimEnd(s) == s;
  }

  // ---- words ----

  /** Length of the first word. */
  function WordLength(s: string): (n: nat)
    ensures n <= |s|
    ensures forall i :: 0 <= i < n ==> !AsciiSpace(s[i])
    ensures n < |s| ==> AsciiSpace(s[n])
  {
    if |s| == 0 || AsciiSpace(s[0]) then 0 else 1 + WordLength(s[1..])
  }

  /** `split_ascii_whitespace`. */
  function Words(s: string): seq<string>
    decreases |s|
  {
    if |s| == 0 then []
    else if AsciiSpace(s[0]) then Words(s[1..])
    else [s[..WordLength(s)]] + Words(s[WordLength(s)..])
  }

  ghost predicate IsWord(s: string) {
    |s| > 0 && forall i :: 0 <= i < |s| ==> !AsciiSpace(s[i])
  }

  lemma {:induction false} WordLengthIs(w: string, rest: string)
    requires forall i :: 0 <= i < |w| ==> !AsciiSpace(w[i])
    requires |rest| > 0 ==> AsciiSpace(rest[0])
    ensures WordLength(w + rest) == |w|
  {
    if |w| > 0 {
      WordLengthIs(w[1..], rest);
      assert (w + rest)[1..] == w[1..] + rest;
    } else {
      assert w + rest == rest;
    }
  }

  lemma FirstWord(w: string, rest: string)
    requires IsWord(w) && (|rest| > 0 ==> AsciiSpace(rest[0]))
    ensures Words(w + rest) == [w] + Words(rest)
  {
    WordLengthIs(w, rest);
    assert (w + rest)[..|w|] == w && (w + rest)[|w|..] == rest;
  }

  /** Words with one space before each. */
  function Spaced(ws: seq<string>): string {
    if |ws| == 0 then "" else " " + ws[0] + Spaced(ws[1..])
  }

  lemma {:induction false} SpacedIsFree(ws: seq<string>, c: char)
    requires c != ' ' && forall i :: 0 <= i < |ws| ==> Free(ws[i], c)
    ensures Free(Spaced(ws), c)
  {
    if |ws| > 0 {
      SpacedIsFree(ws[1..], c);
    }
  }

  lemma SkipSpace(s: string)
    ensures Words(" " + s) == Words(s)
  {
    assert (" " + s)[1..] == s;
  }

  lemma {:induction false} WordsOfSpaced(ws: seq<string>, rest: string)
    requires forall i :: 0 <= i < |ws| ==> IsWord(ws[i])
    requires |rest| > 0 ==> AsciiSpace(rest[0])
    ensures Words(Spaced(ws) + rest) == ws + Words(rest)
  {
    if |ws| == 0 {
      assert Spaced(ws) + rest == rest;
    } else {
      hide Words, IsWord, Spaced;
      WordsOfSpaced(ws[1..], rest);
      SpacedStart(ws[1..], rest);
      FirstWord(ws[0], Spaced(ws[1..]) + rest);
      SkipSpace(ws[0] + (Spaced(ws[1..]) + rest));
      SpacedCons(ws, rest);
      FirstThenRest(ws, Words(rest));
    }
  }

  lemma FirstThenRest(ws: seq<string>, more: seq<string>)
    requires |ws| > 0
    ensures [ws[0]] + (ws[1..] + more) == ws + more
  {
  }

  lemma SpacedCons(ws: seq<string>, rest: string)
    requires |ws| > 0
    ensures Spaced(ws) + rest == " " + (ws[0] + (Spaced(ws[1..]) + rest))
  {
  }

  lemma SpacedStart(ws: seq<string>, rest: string)
    requires |rest| > 0 ==> AsciiSpace(rest[0])
    ensures |Spaced(ws) + rest| > 0 ==> AsciiSpace((Spaced(ws) + rest)[0])
  {
  }

  /** A run of ASCII white space. */
  ghost predicate Blanks(s: string) {
    forall i :: 0 <= i < |s| ==> s[i] in " \t\n\U{0C}\r"
  }

  /** Words with a gap before each. */
  function Apart(ws: seq<string>, gaps: seq<string>): string
    requires |gaps| == |ws|
  {
    if |ws| == 0 then "" else gaps[0] + ws[0] + Apart(ws[1..], gaps[1..])
  }

  lemma {:induction false} SkipBlanks(gap: string, s: string)
    requires Blanks(gap)
    ensures Words(gap + s) == Words(s)
  {
    if |gap| > 0 {
      SkipBlanks(gap[1..], s);
      assert gap[0] in " \t\n\U{0C}\r";
      assert (gap + s)[1..] == gap[1..] + s;
    } else {
      assert gap + s == s;
    }
  }

  lemma ApartStart(ws: seq<string>, gaps: seq<string>, rest: string)
    requires |gaps| == |ws| && forall i :: 0 <= i < |ws| ==> |gaps[i]| > 0 && Blanks(gaps[i])
    requires |rest| > 0 ==> AsciiSpace(rest[0])
    ensures |Apart(ws, gaps) + rest| > 0 ==> AsciiSpace((Apart(ws, gaps) + rest)[0])
  {
    if |ws| > 0 {
      assert gaps[0][0] in " \t\n\U{0C}\r";
    }
  }

  lemma ApartCons(ws: seq<string>, gaps: seq<string>, rest: string)
    requires |gaps| == |ws| > 0
    ensures Apart(ws, gaps) + rest == gaps[0] + (ws[0] + (Apart(ws[1..], gaps[1..]) + rest))
  {
  }

  /** However wide the gaps, splitting finds the words. */
  lemma {:induction false} WordsOfApart(ws: seq<string>, gaps: seq<string>, rest: string)
    requires |gaps| == |ws| && forall i :: 0 <= i < |ws| ==> IsWord(ws[i]) && |gaps[i]| > 0 && Blanks(gaps[i])
    requires |rest| > 0 ==> AsciiSpace(rest[0])
    ensures Words(Apart(ws, gaps) + rest) == ws + Words(rest)
  {
    if |ws| == 0 {
      assert Apart(ws, gaps) + rest == rest;
    } else {
      hide Words, IsWord, Apart, Blanks;
      WordsOfApart(ws[1..], gaps[1..], rest);
      ApartStart(ws[1..], gaps[1..], rest);
      FirstWord(ws[0], Apart(ws[1..], gaps[1..]) + rest);
      SkipBlanks(gaps[0], ws[0] + (Apart(ws[1..], gaps[1..]) + rest));
      ApartCons(ws, gaps, rest);
      FirstThenRest(ws, Words(rest));
    }
  }

  lemma {:induction false} ApartIsFree(ws: seq<string>, gaps: seq<string>, c: char)
    requires |gaps| == |ws| && forall i :: 0 <= i < |ws| ==> Free(ws[i], c) && Free(gaps[i], c)
    ensures Free(Apart(ws, gaps), c)
  {
    if |ws| > 0 {
      ApartIsFree(ws[1..], gaps[1..], c);
    }
  }

  lemma {:induction false} ApartEnd(ws: seq<string>, gaps: seq<string>)
    requires |gaps| == |ws| > 0 && |Last(ws)| > 0
    ensures |Apart(ws, gaps)| > 0 && Last(Apart(ws, gaps)) == Last(Last(ws))
  {
    if |ws| > 1 {
      ApartEnd(ws[1..], gaps[1..]);
      assert Last(ws[1..]) == Last(ws);
    } else {
      assert Apart(ws[1..], gaps[1..]) == "";
    }
  }

  // ---- trimming ----

  lemma {:induction false} TrimStartBlanks(lead: string, s: string)
    requires Blanks(lead) && (|s| > 0 ==> !Space(s[0]))
    ensures TrimStart(lead + s) == s
  {
    if |lead| > 0 {
      TrimStartBlanks(lead[1..], s);
      assert lead[0] in " \t\n\U{0C}\r";
      assert (lead + s)[1..] == lead[1..] + s;
    } else {
      assert lead + s == s;
    }
  }

  lemma {:induction false} TrimEndBlanks(s: string, trail: string)
    requires Blanks(trail) && (|s| > 0 ==> !Space(Last(s)))
    ensures TrimEnd(s + trail) == s
  {
    if |trail| > 0 {
      TrimEndBlanks(s, Front(trail));
      assert Last(trail) in " \t\n\U{0C}\r";
      assert Front(s + trail) == s + Front(trail);
    } else {
      assert s + trail == s;
    }
  }

  lemma TrimBlanks(lead: string, s: string, trail: string)
    requires Blanks(lead) && Blanks(trail) && Tight(s) && |s| > 0
    ensures Trim(lead + s + trail) == s
  {
    hide Blanks, TrimStart, TrimEnd;
    assert lead + s + trail == lead + (s + trail) && (s + trail)[0] == s[0];
    TrimStartBlanks(lead, s + trail);
    TrimEndBlanks(s, trail);
  }

  /** Only white space is trimmed away altogether. */
  lemma {:induction false} TrimmedAway(s: string)
    ensures TrimStart(s) == "" <==> forall i :: 0 <= i < |s| ==> Space(s[i])
    ensures Trim(s) == "" <==> forall i :: 0 <= i < |s| ==> Space(s[i])
  {
    if |s| > 0 && Space(s[0]) {
      TrimmedAway(s[1..]);
      assert forall i :: 0 < i < |s| ==> s[i] == s[1..][i - 1];
    } else if |s| > 0 {
      KeepsFirst(s);
    }
  }

  lemma {:induction false} KeepsFirst(s: string)
    requires |s| > 0 && !Space(s[0])
    ensures |TrimEnd(s)| > 0
  {
    if Space(Last(s)) {
      KeepsFirst(Front(s));
    }
  }

  // ---- searching ----

  /** `find`: the first occurrence. */
  function Find(s: string, c: char): (r: Option<nat>)
    ensures r.Some? ==> r.value < |s| && s[r.value] == c && forall i :: 0 <= i < r.value ==> s[i] != c
    ensures r.None? ==> Free(s, c)
  {
    if |s| == 0 then None
    else if s[0] == c then Some(0)
    else
      match Find(s[1..], c)
      case None => None
      case Some(i) => Some(i + 1)
  }

  lemma FindIs(s: string, c: char, i: nat)
    requires i < |s| && s[i] == c && forall k :: 0 <= k < i ==> s[k] != c
    ensures Find(s, c) == Some(i)
  {
  }

  /** `rfind`: the last occurrence. */
  function FindLast(s: string, c: char): (r: Option<nat>)
    ensures r.Some? ==> r.value < |s| && s[r.value] == c && forall i :: r.value < i < |s| ==> s[i] != c
    ensures r.None? ==> Free(s, c)
  {
    if |s| == 0 then None
    else if Last(s) == c then Some(|s| - 1)
    else FindLast(Front(s), c)
  }

  lemma FindLastIs(s: string, c: char, i: nat)
    requires i < |s| && s[i] == c && forall k :: i < k < |s| ==> s[k] != c
    ensures FindLast(s, c) == Some(i)
  {
  }

  function StripPrefix(s: string, p: string): Option<string> {
    if |p| <= |s| && s[..|p|] == p then Some(s[|p|..]) else None
  }

  function StripSuffix(s: string, p: string): Option<string> {
    if |p| <= |s| && s[|s| - |p|..] == p then Some(s[..|s| - |p|]) else None
  }

  /** `split(c).next()`: everything before the first occurrence. */
  function Before(s: string, c: char): string {
    match Find(s, c)
    case None => s
    case Some(i) => s[..i]
  }

  // ---- lines ----

  /** `lines`: split after each line feed; a carriage return before it is dropped with it, and
      an empty last piece is not a line. */
  function Lines(s: string): seq<string>
    decreases |s|
  {
    if |s| == 0 then []
    else
      match Find(s, '\n')
      case None => [s]
      case Some(i) => [DropCr(s[..i])] + Lines(s[i + 1..])
  }

  function DropCr(s: string): string {
    if |s| > 0 && Last(s) == '\r' then Front(s) else s
  }

  ghost predicate EndsLine(s: string) {
    |s| == 0 || Last(s) == '\n'
  }

  lemma {:induction false} LinesConcat(a: string, b: string)
    requires EndsLine(a)
    ensures Lines(a + b) == Lines(a) + Lines(b)
    decreases |a|
  {
    if |a| == 0 {
      assert a + b == b;
    } else {
      var i := Find(a, '\n').value;
      FindIs(a + b, '\n', i);
      assert (a + b)[..i] == a[..i] && (a + b)[i + 1..] == a[i + 1..] + b;
      LinesConcat(a[i + 1..], b);
    }
  }

  lemma OneLine(s: string)
    requires Free(s, '\n') && (|s| > 0 ==> Last(s) != '\r')
    ensures Lines(s + "\n") == [s]
  {
    var t := s + "\n";
    FindIs(t, '\n', |s|);
    assert t[..|s|] == s && t[|s| + 1..] == "";
  }

  lemma OneLineCrLf(s: string)
    requires Free(s, '\n')
    ensures Lines(s + "\r\n") == [s]
  {
    var t := s + "\r\n";
    FindIs(t, '\n', |s| + 1);
    assert t[..|s| + 1] == s + "\r" && t[|s| + 2..] == "";
    assert Front(s + "\r") == s;
  }

  function Ending(crlf: bool): string {
    if crlf then "\r\n" else "\n"
  }

  /** Lines, each with its own ending: a line feed, or a carriage return and a line feed. */
  function Ended(ls: seq<string>, crlf: seq<bool>): (s: string)
    requires |crlf| == |ls|
    ensures EndsLine(s)
  {
    if |ls| == 0 then "" else (ls[0] + Ending(crlf[0])) + Ended(ls[1..], crlf[1..])
  }

  ghost predicate IsLine(s: string) {
    Free(s, '\n') && (|s| > 0 ==> Last(s) != '\r')
  }

  lemma OneEnding(l: string, crlf: bool)
    requires IsLine(l)
    ensures Lines(l + Ending(crlf)) == [l] && EndsLine(l + Ending(crlf))
  {
    hide Lines;
    OneLine(l);
    OneLineCrLf(l);
  }

  lemma {:induction false} EndedLines(ls: seq<string>, crlf: seq<bool>)
    requires |crlf| == |ls| && forall i :: 0 <= i < |ls| ==> IsLine(ls[i])
    ensures Lines(Ended(ls, crlf)) == ls
  {
    if |ls| > 0 {
      EndedStep(ls, crlf);
      hide Lines, Ended, Ending, IsLine, EndsLine;
      EndedLines(ls[1..], crlf[1..]);
      OneEnding(ls[0], crlf[0]);
      LinesConcat(ls[0] + Ending(crlf[0]), Ended(ls[1..], crlf[1..]));
      assert [ls[0]] + ls[1..] == ls;
    }
  }

  lemma EndedStep(ls: seq<string>, crlf: seq<bool>)
    requires |crlf| == |ls| > 0
    ensures Ended(ls, crlf) == (ls[0] + Ending(crlf[0])) + Ended(ls[1..], crlf[1..])
  {
  }

  /** Whatever the endings, and with or without one after the last line, the lines are found. */
  lemma LineEndings(ls: seq<string>, crlf: seq<bool>, last: string)
    requires |crlf| == |ls| && forall i :: 0 <= i < |ls| ==> IsLine(ls[i])
    requires Free(last, '\n')
    ensures Lines(Ended(ls, crlf) + last) == ls + if last == "" then [] else [last]
  {
    hide Lines, Ended, IsLine;
    EndedLines(ls, crlf);
    LinesConcat(Ended(ls, crlf), last);
    LastLine(last);
  }

  lemma LastLine(s: string)
    requires Free(s, '\n')
    ensures Lines(s) == if s == "" then [] else [s]
  {
  }
}
