/** The rule file (src/rules.rs): one rule per line, comments from `#`, and no line that can
    spoil another. */
module RuleText {
  import opened Prelude
  import opened Rules
  import opened Text
  import opened Decimal
  import opened Units

  // ---- one line ----

  function ParseMetric(s: string): Option<Metric> {
    if s == "cpu_pct" || s == "cpu" then Some(CpuPct)
    else if s == "mem_pct" then Some(MemPct)
    else if s == "rss" || s == "rss_bytes" || s == "mem" then Some(Rss)
    else if s == "read_bps" then Some(ReadBps)
    else if s == "write_bps" then Some(WriteBps)
    else if s == "net_rx_bps" then Some(NetRxBps)
    else if s == "net_tx_bps" then Some(NetTxBps)
    else if s == "threads" then Some(Threads)
    else if s == "proc_count" then Some(ProcCount)
    else None
  }

  function MetricName(m: Metric): string {
    match m
    case CpuPct => "cpu_pct"
    case MemPct => "mem_pct"
    case Rss => "rss"
    case ReadBps => "read_bps"
    case WriteBps => "write_bps"
    case NetRxBps => "net_rx_bps"
    case NetTxBps => "net_tx_bps"
    case Threads => "threads"
    case ProcCount => "proc_count"
  }

  function ParseTarget(s: string): Option<Target> {
    if s == "system" then Some(System)
    else
      match StripPrefix(s, "process:")
      case None => None
      case Some(p) => Some(Process(p))
  }

  function ParseOp(s: string): Option<Op> {
    if s == ">" then Some(Gt) else if s == "<" then Some(Lt) else None
  }

  /** Byte metrics take a size first, truncated to whole bytes, and a plain number otherwise. */
  function ParseValue(tok: string, m: Metric): Option<real> {
    if m.IsBytes() && ParseSize(tok).Some? then Some(ParseSize(tok).value as real) else ParseReal(tok)
  }

  datatype Reason =
    | NotAnAlert | TooFewFields | EmptyPattern | BadTarget | UnknownMetric | SystemOnlyMetric | BadOperator
    | BadThreshold | MissingFor | BadDuration | TrailingTokens | BadClear | ClearOnWrongSide

  datatype Verdict = Blank | Accepted(rule: Rule) | Rejected(reason: Reason)

  /** The optional `clear <value>`, and the check that keeps the alert from latching on. */
  function ParseClear(t: seq<string>, rule: Rule): Verdict {
    if |t| <= 8 then Accepted(rule)
    else if t[8] != "clear" || |t| < 10 then Rejected(TrailingTokens)
    else
      match ParseValue(t[9], rule.metric)
      case None => Rejected(BadClear)
      case Some(c) =>
        var r := rule.(clear := c);
        if r.Sane() then Accepted(r) else Rejected(ClearOnWrongSide)
  }

  function ParseTokens(t: seq<string>): Verdict {
    if |t| == 0 || t[0] != "alert" then Rejected(NotAnAlert)
    else if |t| < 8 then Rejected(TooFewFields)
    else
      match ParseTarget(t[2])
      case None => Rejected(BadTarget)
      case Some(target) =>
        if target == Process("") then Rejected(EmptyPattern)
        else
          match ParseMetric(t[3])
          case None => Rejected(UnknownMetric)
          case Some(metric) =>
            if target.Process? && !metric.AppliesToProcess() then Rejected(SystemOnlyMetric)
            else
              match ParseOp(t[4])
              case None => Rejected(BadOperator)
              case Some(op) =>
                match ParseValue(t[5], metric)
                case None => Rejected(BadThreshold)
                case Some(threshold) =>
                  if t[6] != "for" then Rejected(MissingFor)
                  else
                    match ParseDuration(t[7])
                    case None => Rejected(BadDuration)
                    case Some(sustain) =>
                      ParseClear(t, Rule(t[1], target, metric, op, threshold, sustain, threshold))
  }

  function ParseLine(raw: string): Verdict {
    var line := Trim(Text.Before(raw, '#'));
    if line == "" then Blank else ParseTokens(Words(line))
  }

  // ---- the whole file ----

  datatype ParseError = ParseError(lineNo: nat, line: string, reason: Reason)

  function RulesIn(lines: seq<string>): seq<Rule> {
    if |lines| == 0 then []
    else
      var v := ParseLine(Last(lines));
      RulesIn(Front(lines)) + if v.Accepted? then [v.rule] else []
  }

  /** Errors carry the number of their line; `first` is the number of the first line. */
  function ErrorsIn(lines: seq<string>, first: nat): seq<ParseError> {
    if |lines| == 0 then []
    else
      var v := ParseLine(Last(lines));
      ErrorsIn(Front(lines), first) +
      if v.Rejected? then [ParseError(first + |lines| - 1, Last(lines), v.reason)] else []
  }

  method ParseRules(text: string) returns (rules: seq<Rule>, errs: seq<ParseError>)
    ensures rules == RulesIn(Lines(text)) && errs == ErrorsIn(Lines(text), 1)
    ensures forall r :: r in rules ==> r.Sane()
  {
    rules, errs := [], [];
    var lines := Lines(text);
    for i := 0 to |lines|
      invariant rules == RulesIn(lines[..i]) && errs == ErrorsIn(lines[..i], 1)
      invariant forall r :: r in rules ==> r.Sane()
    {
      assert Front(lines[..i + 1]) == lines[..i];
      match ParseLine(lines[i]) {
        case Blank =>
        case Accepted(rule) =>
          AcceptedIsSane(lines[i]);
          rules := rules + [rule];
        case Rejected(reason) =>
          errs := errs + [ParseError(i + 1, lines[i], reason)];
      }
    }
    assert lines[..|lines|] == lines;
  }

  /** The errors are exactly these: the number, the text and the reason of each refused line. */
  lemma {:induction false} ErrorsPointAtTheirLines(lines: seq<string>, e: ParseError)
    ensures e in ErrorsIn(lines, 1) <==>
            && 1 <= e.lineNo <= |lines| && lines[e.lineNo - 1] == e.line
            && ParseLine(e.line) == Rejected(e.reason)
  {
    hide ParseLine;
    if |lines| > 0 {
      ErrorsPointAtTheirLines(Front(lines), e);
    }
  }

  // ---- what an accepted line is worth ----

  lemma ClearIsSane(t: seq<string>, rule: Rule)
    requires rule.clear == rule.threshold && ParseClear(t, rule).Accepted?
    ensures ParseClear(t, rule).rule.Sane()
  {
    hide ParseValue;
  }

  lemma TokensAreSane(t: seq<string>)
    requires ParseTokens(t).Accepted?
    ensures ParseTokens(t).rule.Sane()
  {
    hide ParseValue, ParseDuration, ParseTarget, ParseMetric, ParseOp, ParseClear;
    var rule := Rule(t[1], ParseTarget(t[2]).value, ParseMetric(t[3]).value, ParseOp(t[4]).value,
                     ParseValue(t[5], ParseMetric(t[3]).value).value, ParseDuration(t[7]).value,
                     ParseValue(t[5], ParseMetric(t[3]).value).value);
    ClearIsSane(t, rule);
  }

  /** Every accepted rule has its deadband on the right side, so breaching implies still active:
      exactly what the firing theorem asks of a rule. */
  lemma AcceptedIsSane(raw: string)
    requires ParseLine(raw).Accepted?
    ensures ParseLine(raw).rule.Sane()
    ensures forall v: real :: ParseLine(raw).rule.Breaching(v) ==> ParseLine(raw).rule.StillActive(v)
  {
    hide ParseTokens, Words, Trim, Text.Before;
    TokensAreSane(Words(Trim(Text.Before(raw, '#'))));
  }

  /** The tokens after the eight fields of an accepted line are all ignored but the first two, and
      those are refused as trailing exactly when they are not `clear` and something after it. */
  lemma ExtraTokens(t: seq<string>, more: seq<string>)
    requires |t| == 8 && ParseTokens(t).Accepted?
    ensures |more| >= 2 ==> ParseTokens(t + more) == ParseTokens(t + more[..2])
    ensures ParseTokens(t + more) == Rejected(TrailingTokens) <==> |more| > 0 && (more[0] != "clear" || |more| == 1)
  {
    hide ParseTokens, ParseClear;
    var rule := ParseTokens(t).rule;
    FieldsDecide(t, more);
    FieldsDecide(t, more[..Min(2, |more|)]);
    ClearDecides(t, more, rule);
  }

  /** Nothing after the tenth token is looked at, whatever became of the first ten. */
  lemma TokensBeyondTen(t: seq<string>, more: seq<string>)
    requires |t| >= 10
    ensures ParseTokens(t + more) == ParseTokens(t)
  {
    hide ParseTarget, ParseMetric, ParseOp, ParseValue, ParseDuration;
    assert forall i :: 0 <= i < 10 ==> (t + more)[i] == t[i];
  }

  /** The eight fields fix everything but the clear clause. */
  lemma FieldsDecide(t: seq<string>, more: seq<string>)
    requires |t| == 8 && ParseTokens(t).Accepted?
    ensures ParseTokens(t + more) == ParseClear(t + more, ParseTokens(t).rule)
  {
    hide ParseTarget, ParseMetric, ParseOp, ParseValue, ParseDuration;
    assert forall i :: 0 <= i < 8 ==> (t + more)[i] == t[i];
  }

  lemma ClearDecides(t: seq<string>, more: seq<string>, rule: Rule)
    requires |t| == 8
    ensures |more| >= 2 ==> ParseClear(t + more, rule) == ParseClear(t + more[..2], rule)
    ensures ParseClear(t + more, rule) == Rejected(TrailingTokens) <==>
            |more| > 0 && (more[0] != "clear" || |more| == 1)
  {
    hide ParseValue;
    assert forall i :: 0 <= i < |more| ==> (t + more)[8 + i] == more[i];
    assert forall i :: 0 <= i < Min(2, |more|) ==> (t + more[..Min(2, |more|)])[8 + i] == more[i];
  }

  // ---- which defect is reported ----

  function Token(t: seq<string>, i: nat): string {
    if i < |t| then t[i] else ""
  }

  const METRIC_WORDS: set<string> := {"cpu_pct", "cpu", "mem_pct", "rss", "rss_bytes", "mem", "read_bps", "write_bps",
    "net_rx_bps", "net_tx_bps", "threads", "proc_count"}
  const PROCESS_WORDS: set<string> := {"cpu_pct", "cpu", "rss", "rss_bytes", "mem", "read_bps", "write_bps", "threads"}

  /** The value of a token where the value of the line's metric stands. */
  function ValueAt(t: seq<string>, i: nat): Option<real> {
    match ParseMetric(Token(t, 3))
    case None => None
    case Some(m) => ParseValue(Token(t, i), m)
  }

  /** The demands on a line, in the order they are made. */
  predicate Meets(t: seq<string>, demand: nat) {
    match demand
    case 0 => Token(t, 0) == "alert"
    case 1 => |t| >= 8
    case 2 => Token(t, 2) != "process:"
    case 3 => Token(t, 2) == "system" || "process:" <= Token(t, 2)
    case 4 => Token(t, 3) in METRIC_WORDS
    case 5 => Token(t, 2) == "system" || Token(t, 3) in PROCESS_WORDS
    case 6 => Token(t, 4) == ">" || Token(t, 4) == "<"
    case 7 => ValueAt(t, 5).Some?
    case 8 => Token(t, 6) == "for"
    case 9 => ParseDuration(Token(t, 7)).Some?
    case 10 => |t| == 8 || (|t| >= 10 && Token(t, 8) == "clear")
    case 11 => |t| == 8 || ValueAt(t, 9).Some?
    case 12 =>
      |t| == 8 || ValueAt(t, 5).None? || ValueAt(t, 9).None? ||
      if Token(t, 4) == ">" then ValueAt(t, 9).value <= ValueAt(t, 5).value
      else ValueAt(t, 9).value >= ValueAt(t, 5).value
    case _ => true
  }

  const DEFECTS := [NotAnAlert, TooFewFields, EmptyPattern, BadTarget, UnknownMetric, SystemOnlyMetric, BadOperator,
    BadThreshold, MissingFor, BadDuration, TrailingTokens, BadClear, ClearOnWrongSide]

  lemma MetricIsWord(s: string)
    ensures ParseMetric(s).Some? <==> s in METRIC_WORDS
    ensures ParseMetric(s).Some? && ParseMetric(s).value.AppliesToProcess() <==> s in PROCESS_WORDS
  {
  }

  lemma TargetIsKnown(s: string)
    ensures ParseTarget(s).Some? <==> s == "system" || "process:" <= s
    ensures ParseTarget(s) == Some(Process("")) <==> s == "process:"
    ensures ParseTarget(s).Some? && ParseTarget(s).value.System? <==> s == "system"
  {
    if "process:" <= s {
      assert s[0] == 'p' && "system"[0] == 's';
      assert s == "process:" + s[8..];
    }
  }

  /** A line is accepted when it meets all thirteen demands, and otherwise refused for the first it
      does not meet. */
  lemma FirstDefectIsReported(t: seq<string>) returns (k: nat)
    ensures k <= 13 && forall j :: 0 <= j < k ==> Meets(t, j)
    ensures k == 13 ==> ParseTokens(t).Accepted?
    ensures k < 13 ==> !Meets(t, k) && ParseTokens(t) == Rejected(DEFECTS[k])
  {
    hide ParseTarget, ParseMetric, ParseValue, ParseDuration;
    TargetIsKnown(Token(t, 2));
    MetricIsWord(Token(t, 3));
    if Token(t, 0) != "alert" {
      k := 0;
    } else if |t| < 8 {
      k := 1;
    } else if !Meets(t, 2) {
      k := 2;
    } else if !Meets(t, 3) {
      k := 3;
    } else if !Meets(t, 4) {
      k := 4;
    } else if !Meets(t, 5) {
      k := 5;
    } else if !Meets(t, 6) {
      k := 6;
    } else if !Meets(t, 7) {
      k := 7;
    } else if !Meets(t, 8) {
      k := 8;
    } else if !Meets(t, 9) {
      k := 9;
    } else if !Meets(t, 10) {
      k := 10;
    } else if !Meets(t, 11) {
      k := 11;
    } else if !Meets(t, 12) {
      k := 12;
    } else {
      k := 13;
    }
  }

  /** Blank lines are those with nothing but white space before the first comment mark, if any. */
  lemma BlankLines(raw: string)
    ensures ParseLine(raw) == Blank <==>
            forall i :: 0 <= i < |raw| && (forall k :: 0 <= k <= i ==> raw[k] != '#') ==> Space(raw[i])
  {
    hide ParseTokens, Trim, TrimStart, TrimEnd, Words, Space;
    var before := Text.Before(raw, '#');
    TrimmedAway(before);
    assert forall i :: 0 <= i < |before| ==> before[i] == raw[i] && raw[i] != '#';
    if Trim(before) != "" {
      TokensAreNotBlank(Words(Trim(before)));
    }
  }

  lemma TokensAreNotBlank(t: seq<string>)
    ensures !ParseTokens(t).Blank?
  {
    hide ParseTarget, ParseMetric, ParseOp, ParseValue, ParseDuration;
  }

  // ---- line by line ----

  function CountLines(lines: seq<string>): nat {
    if |lines| == 0 then 0 else CountLines(Front(lines)) + if ParseLine(Last(lines)).Blank? then 0 else 1
  }

  /** Every line that is not blank and not a comment yields one rule or one error, and nothing else does. */
  lemma {:induction false} EveryLineCountsOnce(lines: seq<string>, first: nat)
    ensures |RulesIn(lines)| + |ErrorsIn(lines, first)| == CountLines(lines)
  {
    if |lines| > 0 {
      EveryLineCountsOnce(Front(lines), first);
    }
  }

  lemma {:induction false} LinesAreIndependent(a: seq<string>, b: seq<string>, first: nat)
    ensures RulesIn(a + b) == RulesIn(a) + RulesIn(b)
    ensures ErrorsIn(a + b, first) == ErrorsIn(a, first) + ErrorsIn(b, first + |a|)
  {
    hide ParseLine;
    if |b| == 0 {
      assert a + b == a;
    } else {
      LinesAreIndependent(a, Front(b), first);
      assert Front(a + b) == a + Front(b) && Last(a + b) == Last(b);
    }
  }

  /** Two files one after the other parse like the two files, with the second's errors renumbered. */
  lemma FilesConcatenate(a: string, b: string)
    requires EndsLine(a)
    ensures RulesIn(Lines(a + b)) == RulesIn(Lines(a)) + RulesIn(Lines(b))
    ensures ErrorsIn(Lines(a + b), 1) == ErrorsIn(Lines(a), 1) + ErrorsIn(Lines(b), 1 + |Lines(a)|)
  {
    hide ParseLine, Lines, RulesIn, ErrorsIn;
    LinesConcat(a, b);
    LinesAreIndependent(Lines(a), Lines(b), 1);
  }

  // ---- printing a rule ----

  /** A number where a value stands, with a size suffix or none. */
  datatype Quantity = Quantity(n: Number, suffix: string)
  {
    function Text(): string {
      n.Text() + suffix
    }
  }

  /** The metrics whose values are byte counts or rates. */
  predicate CountsBytes(m: Metric) {
    m in {Rss, ReadBps, WriteBps, NetRxBps, NetTxBps}
  }

  /** What it means there: for a metric in bytes a size, rounded down to whole bytes, but a negative
      number only as it stands; for any other metric the number, which takes no suffix. */
  function Meant(q: Quantity, m: Metric): Option<real> {
    if CountsBytes(m) && q.n.m >= 0 then
      Some(SizeOf(q.n, q.suffix) as real)
    else if q.suffix == "" then Some(q.n.Value())
    else None
  }

  /** A duration as it may be written. */
  datatype Span = Span(n: Number, suffix: string)
  {
    function Text(): string {
      n.Text() + suffix
    }

    function Nanoseconds(): nat {
      MillisecondsOf(n, suffix) * 1_000_000
    }
  }

  /** The words a metric goes by. */
  function Spellings(m: Metric): set<string> {
    match m
    case CpuPct => {"cpu_pct", "cpu"}
    case MemPct => {"mem_pct"}
    case Rss => {"rss", "rss_bytes", "mem"}
    case ReadBps => {"read_bps"}
    case WriteBps => {"write_bps"}
    case NetRxBps => {"net_rx_bps"}
    case NetTxBps => {"net_tx_bps"}
    case Threads => {"threads"}
    case ProcCount => {"proc_count"}
  }

  /** A rule together with one of the many ways to write it. */
  datatype Printable = Printable(
    rule: Rule, metricWord: string, threshold: Quantity, sustain: Span, clear: Option<Quantity>)

  ghost predicate Faithful(p: Printable) {
    var r := p.rule;
    && p.metricWord in Spellings(r.metric)
    && p.threshold.suffix in SIZE_SUFFIXES && Meant(p.threshold, r.metric) == Some(r.threshold)
    && p.sustain.suffix in TIME_SUFFIXES && p.sustain.n.m >= 0 && p.sustain.Nanoseconds() == r.sustain
    && (match p.clear
        case None => r.clear == r.threshold
        case Some(c) => c.suffix in SIZE_SUFFIXES && Meant(c, r.metric) == Some(r.clear))
    && IsWord(r.name) && Free(r.name, '#')
    && (r.target.Process? ==>
          IsWord(r.target.pattern) && Free(r.target.pattern, '#') && r.metric.AppliesToProcess())
  }

  function TargetText(t: Target): string {
    match t
    case System => "system"
    case Process(p) => "process:" + p
  }

  function OpText(op: Op): string {
    match op
    case Gt => ">"
    case Lt => "<"
  }

  function ClearWords(p: Printable): seq<string> {
    match p.clear
    case None => []
    case Some(c) => ["clear", c.Text()]
  }

  function RuleWords(p: Printable): seq<string> {
    [p.rule.name, TargetText(p.rule.target), p.metricWord, OpText(p.rule.op), p.threshold.Text(),
     "for", p.sustain.Text()] + ClearWords(p)
  }

  function RuleLine(p: Printable): string {
    "alert" + Spaced(RuleWords(p))
  }

  // ---- round trip ----

  lemma SuffixedIsNoNumber(n: Number, suffix: string)
    requires suffix in SIZE_SUFFIXES && suffix != ""
    ensures ParseReal(n.Text() + suffix) == None
  {
    hide ParseReal, Number.Text;
    var t := n.Text();
    NumberTextIsWord(n);
    assert Last(t + suffix) == Last(suffix) && (t + suffix)[0] == t[0];
    BadEnding(t + suffix);
  }

  lemma QuantityParses(q: Quantity, m: Metric)
    requires q.suffix in SIZE_SUFFIXES
    ensures ParseValue(q.Text(), m) == Meant(q, m)
  {
    hide ParseReal, ParseSize, Number.Text, Number.Value, CountsBytes, Metric.IsBytes, SizeOf;
    SizeMeaning(q.n, q.suffix);
    NumberTextIsWord(q.n);
    assert q.n.Text() + "" == q.n.Text();
    if q.suffix != "" {
      SuffixedIsNoNumber(q.n, q.suffix);
    }
    ByteMetrics(m);
  }

  lemma ByteMetrics(m: Metric)
    ensures m.IsBytes() <==> CountsBytes(m)
  {
  }

  lemma TargetParses(t: Target)
    ensures ParseTarget(TargetText(t)) == Some(t)
  {
    if t.Process? {
      var s := "process:" + t.pattern;
      assert s[..8] == "process:" && s[8..] == t.pattern;
      assert s[0] == 'p' && "system"[0] == 's';
    }
  }

  lemma MetricParses(m: Metric, word: string)
    requires word in Spellings(m)
    ensures ParseMetric(word) == Some(m)
  {
  }

  lemma ClearParses(p: Printable, t: seq<string>, r: Rule)
    requires Faithful(p) && p.rule.Sane() && r == p.rule.(clear := p.rule.threshold)
    requires |t| >= 8 && t[8..] == ClearWords(p)
    ensures ParseClear(t, r) == Accepted(p.rule)
  {
    hide ParseValue, Quantity.Text, Meant;
    if p.clear.Some? {
      QuantityParses(p.clear.value, r.metric);
      assert t[8] == t[8..][0] && t[9] == t[8..][1];
    }
  }

  lemma TokenPositions(p: Printable)
    ensures var t := ["alert"] + RuleWords(p);
            && |t| == 8 + |ClearWords(p)| && t[8..] == ClearWords(p)
            && t[0] == "alert" && t[1] == p.rule.name && t[2] == TargetText(p.rule.target)
            && t[3] == p.metricWord && t[4] == OpText(p.rule.op) && t[5] == p.threshold.Text()
            && t[6] == "for" && t[7] == p.sustain.Text()
  {
    hide TargetText, OpText, Quantity.Text, Span.Text, ClearWords;
  }

  lemma OpParses(op: Op)
    ensures ParseOp(OpText(op)) == Some(op)
  {
  }

  /** Eight good tokens leave only the clear clause to decide. */
  lemma EightTokens(t: seq<string>, r: Rule)
    requires |t| >= 8 && t[0] == "alert" && t[6] == "for"
    requires t[1] == r.name && ParseTarget(t[2]) == Some(r.target) && r.target != Process("")
    requires ParseMetric(t[3]) == Some(r.metric) && (r.target.Process? ==> r.metric.AppliesToProcess())
    requires ParseOp(t[4]) == Some(r.op) && ParseValue(t[5], r.metric) == Some(r.threshold)
    requires ParseDuration(t[7]) == Some(r.sustain) && r.clear == r.threshold
    ensures ParseTokens(t) == ParseClear(t, r)
  {
    hide ParseTarget, ParseMetric, ParseOp, ParseValue, ParseDuration, ParseClear;
  }

  lemma WordsParse(p: Printable)
    requires Faithful(p) && p.rule.Sane()
    ensures ParseTokens(["alert"] + RuleWords(p)) == Accepted(p.rule)
  {
    hide ParseTarget, ParseMetric, ParseOp, ParseValue, ParseDuration, ParseClear, ParseTokens, TargetText, Spellings,
      OpText, Number.Text, Number.Value, ClearWords, RuleWords, Meant, MillisecondsOf;
    var r, t := p.rule, ["alert"] + RuleWords(p);
    TargetParses(r.target);
    MetricParses(r.metric, p.metricWord);
    OpParses(r.op);
    QuantityParses(p.threshold, r.metric);
    DurationMeaning(p.sustain.n, p.sustain.suffix);
    assert r.target != Process("");
    TokenPositions(p);
    EightTokens(t, r.(clear := r.threshold));
    ClearParses(p, t, r.(clear := r.threshold));
  }

  lemma SuffixedIsWord(n: Number, suffix: string)
    requires suffix in SIZE_SUFFIXES || suffix in TIME_SUFFIXES
    ensures var s := n.Text() + suffix; IsWord(s) && Free(s, '#') && !Space(Last(s))
  {
    hide Number.Text;
    var t := n.Text();
    NumberTextIsWord(n);
    SuffixIsLetters(suffix);
    if suffix == "" {
      assert t + suffix == t;
    } else {
      assert Last(t + suffix) == Last(suffix);
    }
  }

  lemma SuffixIsLetters(suffix: string)
    requires suffix in SIZE_SUFFIXES || suffix in TIME_SUFFIXES
    ensures forall i :: 0 <= i < |suffix| ==> 'A' <= suffix[i] <= 'Z' || 'a' <= suffix[i] <= 'z'
  {
  }

  /** Lower-case letters and underscores. */
  ghost predicate IsIdentifier(s: string) {
    |s| > 0 && forall i :: 0 <= i < |s| ==> 'a' <= s[i] <= 'z' || s[i] == '_'
  }

  lemma MetricWordIsIdentifier(m: Metric, word: string)
    requires word in Spellings(m)
    ensures IsIdentifier(word)
  {
  }

  lemma MetricWordIsWord(m: Metric, word: string)
    requires word in Spellings(m)
    ensures IsWord(word) && Free(word, '#')
  {
    hide Spellings;
    MetricWordIsIdentifier(m, word);
  }

  lemma TargetTextIsWord(t: Target)
    requires t.Process? ==> IsWord(t.pattern) && Free(t.pattern, '#')
    ensures IsWord(TargetText(t)) && Free(TargetText(t), '#')
  {
  }

  lemma FixedWords()
    ensures IsWord("alert") && IsWord("for") && IsWord("clear") && Free("for", '#') && Free("clear", '#')
    ensures forall op :: IsWord(OpText(op)) && Free(OpText(op), '#')
  {
  }

  lemma RuleWordsAreWords(p: Printable)
    requires Faithful(p)
    ensures forall i :: 0 <= i < |RuleWords(p)| ==> IsWord(RuleWords(p)[i]) && Free(RuleWords(p)[i], '#')
    ensures |RuleWords(p)| > 0 && |Last(RuleWords(p))| > 0 && !Space(Last(Last(RuleWords(p))))
  {
    hide Number.Text, Number.Value, Meant, IsWord, Free, TargetText, OpText, Spellings, Space, Span.Nanoseconds;
    SuffixedIsWord(p.threshold.n, p.threshold.suffix);
    SuffixedIsWord(p.sustain.n, p.sustain.suffix);
    MetricWordIsWord(p.rule.metric, p.metricWord);
    TargetTextIsWord(p.rule.target);
    if p.clear.Some? {
      SuffixedIsWord(p.clear.value.n, p.clear.value.suffix);
    }
    FixedWords();
    WordIsNotEmpty(Last(RuleWords(p)));
  }

  lemma WordIsNotEmpty(w: string)
    ensures IsWord(w) ==> |w| > 0
  {
  }

  lemma NoComment(s: string)
    requires Free(s, '#') && Tight(s)
    ensures Trim(Text.Before(s, '#')) == s
  {
    TrimTight(s);
  }

  lemma {:induction false} SpacedEnd(ws: seq<string>)
    requires |ws| > 0 && |Last(ws)| > 0
    ensures |Spaced(ws)| > 0 && Last(Spaced(ws)) == Last(Last(ws))
  {
    if |ws| > 1 {
      SpacedEnd(ws[1..]);
      assert Last(ws[1..]) == Last(ws);
    } else {
      assert Spaced(ws[1..]) == "";
    }
  }

  lemma SplitAlert(rest: string)
    requires |rest| > 0 ==> AsciiSpace(rest[0])
    ensures Words("alert" + rest) == ["alert"] + Words(rest)
  {
    FixedWords();
    hide Words, IsWord;
    FirstWord("alert", rest);
  }

  lemma WordsOfLine(ws: seq<string>)
    requires forall i :: 0 <= i < |ws| ==> IsWord(ws[i])
    ensures Words("alert" + Spaced(ws)) == ["alert"] + ws
  {
    assert Words("") == [];
    hide Spaced, Words, IsWord;
    SpacedStart(ws, "");
    assert Spaced(ws) + "" == Spaced(ws);
    WordsOfSpaced(ws, "");
    assert ws + [] == ws;
    SplitAlert(Spaced(ws));
  }

  lemma LineIsClean(ws: seq<string>)
    requires |ws| > 0 && forall i :: 0 <= i < |ws| ==> Free(ws[i], '#')
    requires |Last(ws)| > 0 && !Space(Last(Last(ws)))
    ensures Trim(Text.Before("alert" + Spaced(ws), '#')) == "alert" + Spaced(ws)
  {
    hide Spaced, Trim, Text.Before;
    var line := "alert" + Spaced(ws);
    SpacedIsFree(ws, '#');
    SpacedEnd(ws);
    assert Tight(line) by { assert line[0] == 'a' && Last(line) == Last(Spaced(ws)); }
    NoComment(line);
  }

  lemma LineOfWords(ws: seq<string>)
    requires |ws| > 0 && forall i :: 0 <= i < |ws| ==> IsWord(ws[i]) && Free(ws[i], '#')
    requires |Last(ws)| > 0 && !Space(Last(Last(ws)))
    ensures ParseLine("alert" + Spaced(ws)) == ParseTokens(["alert"] + ws)
  {
    hide ParseTokens, Spaced, Words, Trim, Text.Before, IsWord, Free;
    WordsOfLine(ws);
    LineIsClean(ws);
  }

  lemma CommentCut(s: string, comment: string)
    requires Free(s, '#') && (comment == "" || comment[0] == '#')
    ensures Text.Before(s + comment, '#') == s
  {
    var t := s + comment;
    if comment != "" {
      assert forall k :: 0 <= k < |s| ==> t[k] == s[k];
      FindIs(t, '#', |s|);
    } else {
      assert t == s;
    }
  }

  lemma BlanksAreFree(s: string)
    requires Blanks(s)
    ensures Free(s, '#')
  {
    forall i | 0 <= i < |s| ensures s[i] != '#' {
      assert s[i] in " \t\n\U{0C}\r";
    }
  }

  /** The words of a line and nothing else decide: not the width of the gaps between them, not white
      space around them, not a comment after them. */
  lemma LayoutDoesNotMatter(first: string, ws: seq<string>, gaps: seq<string>,
                            lead: string, trail: string, comment: string)
    requires IsWord(first) && Free(first, '#') && !Space(first[0])
    requires |gaps| == |ws| && forall i :: 0 <= i < |ws| ==> IsWord(ws[i]) && Free(ws[i], '#')
    requires forall i :: 0 <= i < |gaps| ==> |gaps[i]| > 0 && Blanks(gaps[i])
    requires var last := if |ws| > 0 then Last(ws) else first; |last| > 0 && !Space(Last(last))
    requires Blanks(lead) && Blanks(trail) && (comment == "" || comment[0] == '#')
    ensures ParseLine((lead + (first + Apart(ws, gaps)) + trail) + comment) == ParseTokens([first] + ws)
  {
    hide ParseTokens, Words, Trim, Text.Before, Apart, IsWord, Blanks, Space;
    var body := first + Apart(ws, gaps);
    BodyIsTight(first, ws, gaps);
    forall i | 0 <= i < |gaps| ensures Free(gaps[i], '#') {
      BlanksAreFree(gaps[i]);
    }
    BlanksAreFree(lead);
    BlanksAreFree(trail);
    ApartIsFree(ws, gaps, '#');
    CommentCut(lead + body + trail, comment);
    TrimBlanks(lead, body, trail);
    WordsOfBody(first, ws, gaps);
  }

  lemma BodyIsTight(first: string, ws: seq<string>, gaps: seq<string>)
    requires IsWord(first) && !Space(first[0]) && |gaps| == |ws|
    requires var last := if |ws| > 0 then Last(ws) else first; |last| > 0 && !Space(Last(last))
    ensures var body := first + Apart(ws, gaps); |body| > 0 && Tight(body)
  {
    hide Apart, Space;
    var body := first + Apart(ws, gaps);
    assert body[0] == first[0];
    if |ws| > 0 {
      ApartEnd(ws, gaps);
      assert Last(body) == Last(Apart(ws, gaps));
    } else {
      NothingApart(ws, gaps);
      assert body == first;
    }
  }

  lemma NothingApart(ws: seq<string>, gaps: seq<string>)
    requires |ws| == |gaps| == 0
    ensures Apart(ws, gaps) == ""
  {
  }

  lemma WordsOfBody(first: string, ws: seq<string>, gaps: seq<string>)
    requires IsWord(first) && |gaps| == |ws| && forall i :: 0 <= i < |ws| ==> IsWord(ws[i])
    requires forall i :: 0 <= i < |gaps| ==> |gaps[i]| > 0 && Blanks(gaps[i])
    ensures Words(first + Apart(ws, gaps)) == [first] + ws
  {
    assert Words("") == [];
    hide Words, Apart, IsWord, Blanks;
    ApartStart(ws, gaps, "");
    WordsOfApart(ws, gaps, "");
    assert Apart(ws, gaps) + "" == Apart(ws, gaps) && ws + [] == ws;
    FirstWord(first, Apart(ws, gaps));
  }

  /** However it is laid out, whichever of its spellings, units and suffixes are used, and whatever
      comment follows, a line that says a sane rule is accepted as that rule. */
  lemma LaidOutRule(p: Printable, gaps: seq<string>, lead: string, trail: string, comment: string)
    requires Faithful(p) && p.rule.Sane()
    requires |gaps| == |RuleWords(p)| && forall i :: 0 <= i < |gaps| ==> |gaps[i]| > 0 && Blanks(gaps[i])
    requires Blanks(lead) && Blanks(trail) && (comment == "" || comment[0] == '#')
    ensures ParseLine((lead + ("alert" + Apart(RuleWords(p), gaps)) + trail) + comment) == Accepted(p.rule)
  {
    FixedWords();
    assert !Space("alert"[0]) && Free("alert", '#');
    hide ParseTokens, ParseLine, RuleWords, Apart, Faithful, IsWord, Free, Blanks, Space;
    RuleWordsAreWords(p);
    LayoutDoesNotMatter("alert", RuleWords(p), gaps, lead, trail, comment);
    WordsParse(p);
  }

  /** Printing a sane rule and parsing the line gives the rule back. */
  lemma RuleRoundTrip(p: Printable)
    requires Faithful(p) && p.rule.Sane()
    ensures ParseLine(RuleLine(p)) == Accepted(p.rule)
  {
    hide ParseTokens, ParseLine, RuleWords, Spaced, Faithful, IsWord, Free;
    RuleWordsAreWords(p);
    LineOfWords(RuleWords(p));
    WordsParse(p);
  }

  // ---- whole files ----

  function FileText(ps: seq<Printable>): (s: string)
    ensures EndsLine(s)
  {
    if |ps| == 0 then "" else FileText(Front(ps)) + (RuleLine(Last(ps)) + "\n")
  }

  function RulesOf(ps: seq<Printable>): (rules: seq<Rule>)
    ensures |rules| == |ps| && forall i :: 0 <= i < |ps| ==> rules[i] == ps[i].rule
  {
    seq(|ps|, i requires 0 <= i < |ps| => ps[i].rule)
  }

  lemma {:induction false} SpacedHasNoBreaks(ws: seq<string>, c: char)
    requires c == '\n' || c == '\r'
    requires forall i :: 0 <= i < |ws| ==> IsWord(ws[i])
    ensures Free(Spaced(ws), c)
  {
    forall i | 0 <= i < |ws| ensures Free(ws[i], c) {
      assert IsWord(ws[i]);
    }
    SpacedIsFree(ws, c);
  }

  lemma RuleLineIsOneLine(p: Printable)
    requires Faithful(p)
    ensures Lines(RuleLine(p) + "\n") == [RuleLine(p)]
  {
    hide RuleWords, Faithful, Lines;
    RuleWordsAreWords(p);
    SpacedHasNoBreaks(RuleWords(p), '\n');
    SpacedHasNoBreaks(RuleWords(p), '\r');
    OneLine(RuleLine(p));
  }

  lemma OneRule(p: Printable)
    requires Faithful(p) && p.rule.Sane()
    ensures RulesIn([RuleLine(p)]) == [p.rule] && forall n :: ErrorsIn([RuleLine(p)], n) == []
  {
    hide RuleLine, ParseLine;
    RuleRoundTrip(p);
    assert Front([RuleLine(p)]) == [];
    assert RulesIn([]) == [] && forall n :: ErrorsIn([], n) == [];
  }

  lemma RulesOfLast(ps: seq<Printable>)
    requires |ps| > 0
    ensures RulesOf(ps) == RulesOf(Front(ps)) + [Last(ps).rule]
  {
  }

  /** A printed file of sane rules parses to those rules, in order, with no error. */
  lemma {:induction false} FileRoundTrip(ps: seq<Printable>)
    requires forall i :: 0 <= i < |ps| ==> Faithful(ps[i]) && ps[i].rule.Sane()
    ensures RulesIn(Lines(FileText(ps))) == RulesOf(ps) && ErrorsIn(Lines(FileText(ps)), 1) == []
  {
    if |ps| == 0 {
      assert Lines("") == [];
    } else {
      hide RuleLine, Lines, RulesIn, ErrorsIn, Faithful, RulesOf;
      var front, line := FileText(Front(ps)), RuleLine(Last(ps)) + "\n";
      FileRoundTrip(Front(ps));
      RuleLineIsOneLine(Last(ps));
      OneRule(Last(ps));
      FilesConcatenate(front, line);
      RulesOfLast(ps);
    }
  }
}
