/** `/proc/stat` (src/procfs.rs): the line loop, and the file format of proc(5) it undoes. */
module ProcStatText {
  import opened Prelude
  import opened Procfs
  import opened Text
  import opened Decimal

  // ---- the parser ----

  function OrZero(n: Option<nat>): nat {
    if n.Some? then n.value else 0
  }

  function Column(words: seq<string>, i: nat): nat {
    if i < |words| then OrZero(ParseUnsigned(words[i], U64_MAX)) else 0
  }

  function ParseCpuLine(rest: string): CpuTimes {
    var w := Words(rest);
    CpuTimes(Column(w, 0), Column(w, 1), Column(w, 2), Column(w, 3), Column(w, 4),
             Column(w, 5), Column(w, 6), Column(w, 7), Column(w, 8), Column(w, 9))
  }

  function DropDigits(s: string): string {
    if |s| > 0 && IsDigit(s[0]) then DropDigits(s[1..]) else s
  }

  function ParseCount(s: string): nat {
    OrZero(ParseUnsigned(Trim(s), U64_MAX))
  }

  const NOTHING := StatFile(CpuTimes(0, 0, 0, 0, 0, 0, 0, 0, 0, 0), [], 0, 0, 0)

  /** What one line changes. */
  function WithLine(f: StatFile, line: string): StatFile {
    var cpu := StripPrefix(line, "cpu");
    var ctxt := StripPrefix(line, "ctxt ");
    var running := StripPrefix(line, "procs_running ");
    var blocked := StripPrefix(line, "procs_blocked ");
    if cpu.Some? then
      if |cpu.value| > 0 && AsciiSpace(cpu.value[0]) then f.(total := ParseCpuLine(cpu.value))
      else if |cpu.value| > 0 && IsDigit(cpu.value[0]) then
        f.(perCpu := f.perCpu + [ParseCpuLine(DropDigits(cpu.value))])
      else f
    else if ctxt.Some? then f.(ctxt := ParseCount(ctxt.value))
    else if running.Some? then f.(procsRunning := ParseCount(running.value))
    else if blocked.Some? then f.(procsBlocked := ParseCount(blocked.value))
    else f
  }

  function WithLines(lines: seq<string>): StatFile {
    if |lines| == 0 then NOTHING else WithLine(WithLines(Front(lines)), Last(lines))
  }

  method ParseProcStat(s: string) returns (out: StatFile)
    ensures out == WithLines(Lines(s))
  {
    out := NOTHING;
    var lines := Lines(s);
    assert WithLines(lines[..0]) == NOTHING;
    for i := 0 to |lines|
      invariant out == WithLines(lines[..i])
    {
      assert Front(lines[..i + 1]) == lines[..i];
      var line := lines[i];
      var cpu := StripPrefix(line, "cpu");
      if cpu.Some? {
        var rest := cpu.value;
        if |rest| > 0 && AsciiSpace(rest[0]) {
          out := out.(total := ParseCpuLine(rest));
        } else if |rest| > 0 && IsDigit(rest[0]) {
          out := out.(perCpu := out.perCpu + [ParseCpuLine(DropDigits(rest))]);
        }
      } else if StripPrefix(line, "ctxt ").Some? {
        out := out.(ctxt := ParseCount(StripPrefix(line, "ctxt ").value));
      } else if StripPrefix(line, "procs_running ").Some? {
        out := out.(procsRunning := ParseCount(StripPrefix(line, "procs_running ").value));
      } else if StripPrefix(line, "procs_blocked ").Some? {
        out := out.(procsBlocked := ParseCount(StripPrefix(line, "procs_blocked ").value));
      }
    }
    assert lines[..|lines|] == lines;
  }

  // ---- the format ----

  /** What may stand where a counter is expected: a number of any size, or anything else. */
  datatype Cell = Figure(n: nat) | Junk(text: string)
  {
    function Text(): string {
      match this
      case Figure(n) => NatText(n)
      case Junk(t) => t
    }

    /** A number that fits 64 bits counts, everything else is zero. */
    function Worth(): nat {
      match this
      case Figure(n) => if n <= 0xffff_ffff_ffff_ffff then n else 0
      case Junk(_) => 0
    }

    ghost predicate Valid() {
      match this
      case Figure(_) => true
      case Junk(t) => IsWord(t) && Tight(t) && exists i :: 0 <= i < |t| && !IsDigit(t[i]) && !(i == 0 && t[0] == '+')
    }
  }

  ghost predicate Padding(s: string) {
    forall i :: 0 <= i < |s| ==> s[i] == ' ' || s[i] == '\t'
  }

  /** A counter with white space around it. */
  datatype Count = Count(lead: string, cell: Cell, trail: string)
  {
    function Text(): string {
      lead + cell.Text() + trail
    }

    ghost predicate Valid() {
      Padding(lead) && Padding(trail) && cell.Valid()
    }
  }

  /** One line of the file. A kernel may write any number of columns of processor time, and lines
      this program does not know. */
  datatype StatLine =
    | Aggregate(columns: seq<Cell>)
    | Core(index: nat, columns: seq<Cell>)
    | Ctxt(count: Count)
    | Running(count: Count)
    | Blocked(count: Count)
    | Other(text: string)

  function At(columns: seq<Cell>, i: nat): nat {
    if i < |columns| then columns[i].Worth() else 0
  }

  /** The first ten columns; those an older kernel leaves out are zero. */
  function Times(c: seq<Cell>): CpuTimes {
    CpuTimes(At(c, 0), At(c, 1), At(c, 2), At(c, 3), At(c, 4), At(c, 5), At(c, 6), At(c, 7), At(c, 8), At(c, 9))
  }

  predicate Known(text: string) {
    || (StripPrefix(text, "cpu").Some? && |text| > 3 && (AsciiSpace(text[3]) || IsDigit(text[3])))
    || StripPrefix(text, "ctxt ").Some?
    || StripPrefix(text, "procs_running ").Some?
    || StripPrefix(text, "procs_blocked ").Some?
  }

  ghost predicate ValidCells(c: seq<Cell>) {
    forall i :: 0 <= i < |c| ==> c[i].Valid()
  }

  /** An unknown line is one line and not a known one. */
  ghost predicate InFormat(l: StatLine) {
    match l
    case Aggregate(c) => ValidCells(c)
    case Core(_, c) => ValidCells(c)
    case Other(t) => !Known(t) && Free(t, '\n') && (|t| > 0 ==> Last(t) != '\r')
    case _ => l.count.Valid()
  }

  function Texts(columns: seq<Cell>): (ws: seq<string>)
    ensures |ws| == |columns| && forall i :: 0 <= i < |ws| ==> ws[i] == columns[i].Text()
  {
    seq(|columns|, i requires 0 <= i < |columns| => columns[i].Text())
  }

  function LineText(l: StatLine): string {
    match l
    case Aggregate(c) => "cpu" + (" " + Spaced(Texts(c)))
    case Core(i, c) => "cpu" + (NatText(i) + Spaced(Texts(c)))
    case Ctxt(n) => "ctxt " + n.Text()
    case Running(n) => "procs_running " + n.Text()
    case Blocked(n) => "procs_blocked " + n.Text()
    case Other(t) => t
  }

  /** What a line says. */
  function Meaning(ls: seq<StatLine>): StatFile {
    if |ls| == 0 then NOTHING
    else
      var f := Meaning(Front(ls));
      match Last(ls)
      case Aggregate(c) => f.(total := Times(c))
      case Core(_, c) => f.(perCpu := f.perCpu + [Times(c)])
      case Ctxt(n) => f.(ctxt := n.cell.Worth())
      case Running(n) => f.(procsRunning := n.cell.Worth())
      case Blocked(n) => f.(procsBlocked := n.cell.Worth())
      case Other(_) => f
  }

  function Rendered(ls: seq<StatLine>): (text: string)
    ensures EndsLine(text)
  {
    if |ls| == 0 then "" else Rendered(Front(ls)) + (LineText(Last(ls)) + "\n")
  }

  // ---- round trip ----

  lemma PrefixStripped(p: string, s: string)
    ensures StripPrefix(p + s, p) == Some(s)
  {
  }

  lemma OtherStart(s: string, p: string)
    requires |s| > 0 && |p| > 0 && s[0] != p[0]
    ensures StripPrefix(s, p) == None
  {
    if |p| <= |s| {
      assert s[..|p|][0] == s[0];
    }
  }

  lemma CellIsWord(c: Cell)
    requires c.Valid()
    ensures IsWord(c.Text()) && Tight(c.Text())
  {
    if c.Figure? {
      NumberIsWord(NatText(c.n));
    }
  }

  lemma CellParses(c: Cell)
    requires c.Valid()
    ensures OrZero(ParseUnsigned(c.Text(), U64_MAX)) == c.Worth()
  {
    hide NatText, ParseUnsigned, IsWord, Tight;
    match c
    case Figure(n) => ParseUnsignedText(n, U64_MAX);
    case Junk(t) =>
      var i :| 0 <= i < |t| && !IsDigit(t[i]) && !(i == 0 && t[0] == '+');
      NotUnsigned(t, U64_MAX, i);
  }

  lemma TextsAreWords(c: seq<Cell>)
    requires ValidCells(c)
    ensures forall i :: 0 <= i < |c| ==> IsWord(Texts(c)[i])
  {
    forall i | 0 <= i < |c| ensures IsWord(Texts(c)[i]) {
      CellIsWord(c[i]);
    }
  }

  lemma ColumnOfTexts(c: seq<Cell>, i: nat)
    requires ValidCells(c)
    ensures Column(Texts(c), i) == At(c, i)
  {
    hide Cell.Text, Cell.Worth, ParseUnsigned, OrZero;
    if i < |c| {
      CellParses(c[i]);
    }
  }

  lemma CpuLineParses(c: seq<Cell>)
    requires ValidCells(c)
    ensures ParseCpuLine(Spaced(Texts(c))) == Times(c) && ParseCpuLine(" " + Spaced(Texts(c))) == Times(c)
  {
    assert Words("") == [];
    hide Words, Spaced, Column, At, IsWord;
    var w := Texts(c);
    TextsAreWords(c);
    WordsOfSpaced(w, "");
    assert Spaced(w) + "" == Spaced(w) && w + [] == w;
    SkipSpace(Spaced(w));
    forall i: nat ensures Column(w, i) == At(c, i) {
      ColumnOfTexts(c, i);
    }
  }

  lemma {:induction false} IndexDropped(d: string, rest: string)
    requires AllDigits(d) && (|rest| > 0 ==> !IsDigit(rest[0]))
    ensures DropDigits(d + rest) == rest
  {
    if |d| > 0 {
      IndexDropped(d[1..], rest);
      assert (d + rest)[1..] == d[1..] + rest;
    } else {
      assert d + rest == rest;
    }
  }

  lemma PaddingIsBlank(s: string)
    requires Padding(s)
    ensures Blanks(s) && Free(s, '\n') && Free(s, '\r')
  {
    assert ' ' in " \t\n\U{0C}\r" && '\t' in " \t\n\U{0C}\r" by {
      assert " \t\n\U{0C}\r"[0] == ' ' && " \t\n\U{0C}\r"[1] == '\t';
    }
  }

  lemma CountParses(c: Count)
    requires c.Valid()
    ensures ParseCount(c.Text()) == c.cell.Worth()
  {
    hide ParseUnsigned, Cell.Text, Cell.Worth, Cell.Valid, Trim, OrZero, Blanks, Tight, Padding, IsWord;
    CellIsWord(c.cell);
    NotEmpty(c.cell.Text());
    PaddingIsBlank(c.lead);
    PaddingIsBlank(c.trail);
    TrimBlanks(c.lead, c.cell.Text(), c.trail);
    CellParses(c.cell);
  }

  lemma NotEmpty(w: string)
    requires IsWord(w)
    ensures |w| > 0
  {
  }

  lemma AggregateParses(f: StatFile, c: seq<Cell>)
    requires ValidCells(c)
    ensures WithLine(f, LineText(Aggregate(c))) == f.(total := Times(c))
  {
    hide ParseCpuLine, Spaced, Times;
    PrefixStripped("cpu", " " + Spaced(Texts(c)));
    CpuLineParses(c);
  }

  lemma CoreParses(f: StatFile, index: nat, c: seq<Cell>)
    requires ValidCells(c)
    ensures WithLine(f, LineText(Core(index, c))) == f.(perCpu := f.perCpu + [Times(c)])
  {
    hide ParseCpuLine, Times, NatText, DropDigits;
    PrefixStripped("cpu", NatText(index) + Spaced(Texts(c)));
    IndexDropped(NatText(index), Spaced(Texts(c)));
    CpuLineParses(c);
  }

  lemma CountLineParses(f: StatFile, l: StatLine)
    requires (l.Ctxt? || l.Running? || l.Blocked?) && InFormat(l)
    ensures WithLine(f, LineText(l)) ==
            match l {
              case Ctxt(n) => f.(ctxt := n.cell.Worth())
              case Running(n) => f.(procsRunning := n.cell.Worth())
              case _ => f.(procsBlocked := l.count.cell.Worth())
            }
  {
    hide ParseCount, ParseCpuLine, StripPrefix, Count.Text, Count.Valid, Cell.Worth;
    var t, s := l.count.Text(), LineText(l);
    CountParses(l.count);
    match l {
      case Ctxt(_) =>
        PrefixStripped("ctxt ", t);
        NotCpu(s);
      case Running(_) =>
        OtherStart(s, "cpu");
        OtherStart(s, "ctxt ");
        PrefixStripped("procs_running ", t);
      case Blocked(_) =>
        OtherStart(s, "cpu");
        OtherStart(s, "ctxt ");
        NotRunning(s);
        PrefixStripped("procs_blocked ", t);
    }
  }

  lemma NotCpu(s: string)
    requires |s| > 1 && s[1] == 't'
    ensures StripPrefix(s, "cpu") == None
  {
    if |s| >= 3 {
      assert s[..3][1] == s[1];
    }
  }

  lemma NotRunning(s: string)
    requires |s| > 6 && s[6] == 'b'
    ensures StripPrefix(s, "procs_running ") == None
  {
    if |s| >= 14 {
      assert s[..14][6] == s[6];
    }
  }

  lemma OtherIgnored(f: StatFile, t: string)
    requires !Known(t)
    ensures WithLine(f, t) == f
  {
    hide ParseCpuLine, ParseCount;
    var cpu := StripPrefix(t, "cpu");
    if cpu.Some? && |cpu.value| > 0 {
      assert cpu.value[0] == t[3];
    }
  }

  lemma LineParses(ls: seq<StatLine>)
    requires |ls| > 0 && InFormat(Last(ls))
    ensures WithLine(Meaning(Front(ls)), LineText(Last(ls))) == Meaning(ls)
  {
    hide WithLine, LineText, Times, Count.Text, Count.Valid, Cell.Worth, ValidCells;
    var f := Meaning(Front(ls));
    match Last(ls) {
      case Aggregate(c) => AggregateParses(f, c);
      case Core(i, c) => CoreParses(f, i, c);
      case Other(t) => OtherIgnored(f, t); OtherText(t);
      case _ => CountLineParses(f, Last(ls));
    }
  }

  lemma OtherText(t: string)
    ensures LineText(Other(t)) == t
  {
  }

  lemma WordIsOneLine(w: string)
    requires IsWord(w)
    ensures Free(w, '\n') && Free(w, '\r')
  {
    assert AsciiSpace('\n') && AsciiSpace('\r');
  }

  lemma CountIsOneLine(c: Count)
    requires c.Valid()
    ensures Free(c.Text(), '\n') && Free(c.Text(), '\r')
  {
    hide Cell.Text, Cell.Valid, IsWord, Tight, Padding;
    CellIsWord(c.cell);
    WordIsOneLine(c.cell.Text());
    PaddingIsBlank(c.lead);
    PaddingIsBlank(c.trail);
  }

  lemma SpacedTextsEnd(c: seq<Cell>)
    requires ValidCells(c)
    ensures Free(Spaced(Texts(c)), '\n') && Free(Spaced(Texts(c)), '\r')
  {
    forall i | 0 <= i < |c| ensures Free(Texts(c)[i], '\n') && Free(Texts(c)[i], '\r') {
      CellIsWord(c[i]);
      WordIsOneLine(Texts(c)[i]);
    }
    SpacedIsFree(Texts(c), '\n');
    SpacedIsFree(Texts(c), '\r');
  }

  lemma LineTextIsOneLine(l: StatLine)
    requires InFormat(l)
    ensures Lines(LineText(l) + "\n") == [LineText(l)]
  {
    hide Lines, Spaced, NatText, Known, Cell.Text, Cell.Valid, Count.Text, Count.Valid, IsWord, ValidCells;
    if l.Aggregate? || l.Core? {
      SpacedTextsEnd(l.columns);
    } else if !l.Other? {
      CountIsOneLine(l.count);
    }
    OneLine(LineText(l));
  }

  lemma {:induction false} LinesParse(ls: seq<StatLine>)
    requires forall i :: 0 <= i < |ls| ==> InFormat(ls[i])
    ensures WithLines(Lines(Rendered(ls))) == Meaning(ls)
  {
    if |ls| == 0 {
      assert Lines("") == [];
    } else {
      hide Lines, LineText, WithLine, Meaning, InFormat;
      var line := LineText(Last(ls));
      LinesParse(Front(ls));
      LineTextIsOneLine(Last(ls));
      LinesConcat(Rendered(Front(ls)), line + "\n");
      LineParses(ls);
      assert Front(Lines(Rendered(Front(ls))) + [line]) == Lines(Rendered(Front(ls)));
    }
  }
}
