/** Printing reaches every rule the parser can produce: the printable sane rules are exactly the
    rules that some line is accepted as. */
module RulePrinting {
  import opened Prelude
  import opened Rules
  import opened Text
  import opened Decimal
  import opened Units
  import opened RuleText
  import opened EngineTheorems

  // ---- words of a line ----

  lemma {:induction false} TrimIsFree(s: string, c: char)
    requires Free(s, c)
    ensures Free(TrimStart(s), c) && Free(TrimEnd(s), c)
    decreases |s|
  {
    if |s| > 0 {
      TrimIsFree(s[1..], c);
      TrimIsFree(Front(s), c);
    }
  }

  lemma {:induction false} WordsAreWords(s: string, c: char)
    requires Free(s, c)
    ensures forall w :: w in Words(s) ==> IsWord(w) && Free(w, c)
    decreases |s|
  {
    if |s| > 0 {
      if AsciiSpace(s[0]) {
        WordsAreWords(s[1..], c);
      } else {
        WordsAreWords(s[WordLength(s)..], c);
      }
    }
  }

  lemma LineWords(raw: string)
    ensures forall w :: w in Words(Trim(Text.Before(raw, '#'))) ==> IsWord(w) && Free(w, '#')
  {
    hide Words, TrimStart, TrimEnd;
    var s := Text.Before(raw, '#');
    TrimIsFree(s, '#');
    TrimIsFree(TrimStart(s), '#');
    WordsAreWords(Trim(s), '#');
  }

  // ---- what a parsed number looks like ----

  lemma {:induction false} Pow10Sum(a: nat, b: nat)
    ensures Pow10(a + b) == Pow10(a) * Pow10(b)
  {
    if a > 0 {
      Pow10Sum(a - 1, b);
      assert Pow10(a + b) == 10 * (Pow10(a - 1) * Pow10(b)) == (10 * Pow10(a - 1)) * Pow10(b);
    }
  }

  lemma {:induction false} PowRealIsPow10(e: nat)
    ensures PowReal(e) == Pow10(e) as real && PowReal(0 - e) == 1.0 / Pow10(e) as real
  {
    if e > 0 {
      PowRealIsPow10(e - 1);
      OneMoreTenth(Pow10(e - 1) as real);
    }
  }

  lemma OneMoreTenth(p: real)
    requires p > 0.0
    ensures (1.0 / p) / 10.0 == 1.0 / (10.0 * p)
  {
    var q := 1.0 / p;
    assert q * p == 1.0;
    assert (q / 10.0) * (10.0 * p) == q * p;
  }

  lemma Cancelled(y: real, p: real)
    requires p > 0.0
    ensures (y * p) / p == y
  {
  }

  lemma Restored(m: real, p: real)
    requires p > 0.0
    ensures (m / p) * p == m
  {
  }

  lemma Reordered(x: real, p: real, q: real)
    ensures (x * p) * q == (x * q) * p
  {
  }

  /** Scaling the numerator scales the quotient. */
  lemma QuotientUp(m: real, p: real, q: real, mq: real)
    requires p > 0.0 && mq == m * q
    ensures mq / p == (m / p) * q
  {
    var x := m / p;
    Restored(m, p);
    Reordered(x, p, q);
    Cancelled(x * q, p);
  }

  lemma Ungrouped(y: real, q: real, p: real)
    ensures (y * q) * p == y * (p * q)
  {
  }

  /** Scaling the denominator divides the quotient. */
  lemma QuotientDown(m: real, p: real, q: real, pq: real)
    requires p > 0.0 && q > 0.0 && pq > 0.0 && pq == p * q
    ensures m / pq == (m / p) * (1.0 / q)
  {
    var x, y := m / p, (m / p) * (1.0 / q);
    Restored(m, p);
    Inverted(x, q);
    Ungrouped(y, q, p);
    Cancelled(y, pq);
  }

  lemma Inverted(x: real, q: real)
    requires q > 0.0
    ensures (x * (1.0 / q)) * q == x
  {
    Restored(1.0, q);
    Ungrouped(x, 1.0 / q, q);
  }

  lemma CastProduct(a: int, b: int)
    ensures (a * b) as real == a as real * b as real
  {
  }

  /** m / p, for p a power of ten. */
  function Over(m: int, p: nat): real
    requires p > 0
  {
    m as real / p as real
  }

  lemma OverTimes(m: int, p: nat, q: nat)
    requires p > 0
    ensures Over(m * q, p) == Over(m, p) * q as real
  {
    CastProduct(m, q);
    QuotientUp(m as real, p as real, q as real, (m * q) as real);
  }

  lemma OverDivided(m: int, p: nat, q: nat, pq: nat)
    requires p > 0 && q > 0 && pq > 0 && pq == p * q
    ensures Over(m, pq) == Over(m, p) * (1.0 / q as real)
  {
    CastProduct(p, q);
    QuotientDown(m as real, p as real, q as real, pq as real);
  }

  lemma ValueIsOver(n: Number)
    ensures n.Value() == Over(n.m, Pow10(n.d))
  {
    hide Pow10;
  }

  /** m / 10^k * 10^e as one decimal fraction. */
  lemma ScaledNumber(m: int, k: nat, e: int) returns (n: Number)
    ensures n.Value() == Shifted(Over(m, Pow10(k)), e)
  {
    hide PowReal, Pow10, Number.Value, Over;
    if e >= 0 {
      n := Number(m * Pow10(e), k);
      ValueIsOver(n);
      PowRealIsPow10(e);
      OverTimes(m, Pow10(k), Pow10(e));
    } else {
      var f: nat := -e;
      n := Number(m, k + f);
      ValueIsOver(n);
      PowRealIsPow10(f);
      Pow10Sum(k, f);
      OverDivided(m, Pow10(k), Pow10(f), Pow10(k + f));
    }
  }

  lemma MantissaIsNumber(s: string) returns (m: nat, k: nat)
    requires ParseMantissa(s).Some?
    ensures ParseMantissa(s).value == Over(m, Pow10(k))
  {
    hide Pow10, DigitsValue;
    var dot := Find(s, '.');
    var whole := if dot.Some? then s[..dot.value] else s;
    var frac := if dot.Some? then s[dot.value + 1..] else "";
    m, k := DigitsValue(whole + frac), |frac|;
  }

  lemma Negation(n: Number) returns (r: Number)
    ensures r.Value() == -n.Value()
  {
    hide Pow10;
    r := Number(-n.m, n.d);
    NegatedQuotient(n.m as real, Pow10(n.d) as real);
    assert (-n.m) as real == -(n.m as real);
  }

  /** Every number the parser accepts is a terminating decimal. */
  lemma RealIsNumber(s: string) returns (n: Number)
    requires ParseReal(s).Some?
    ensures n.Value() == ParseReal(s).value
  {
    hide ParseMantissa, Shifted, Pow10, Over, Number.Value, ParseExponent, ExponentAt;
    var body := if |s| > 0 && (s[0] == '+' || s[0] == '-') then s[1..] else s;
    var e := ExponentAt(body);
    var mantissa := if e.Some? then body[..e.value] else body;
    var exponent := if e.Some? then ParseExponent(body[e.value + 1..]) else Some(0);
    var m, k := MantissaIsNumber(mantissa);
    n := ScaledNumber(m, k, exponent.value);
    if |s| > 0 && s[0] == '-' {
      n := Negation(n);
    }
  }

  // ---- other ways to write a number ----

  lemma PlainMantissa(n: Number)
    requires n.m >= 0
    ensures var t := n.Text();
            && ParseMantissa(t) == Some(n.Value()) && |t| > 0 && IsDigit(t[0]) && Free(t, 'e') && Free(t, 'E')
  {
    hide ParseMantissa;
    MantissaOfFixed(n.m, n.d);
    FixedTextShape(n.m, n.d);
  }

  lemma ExponentParses(k: int)
    ensures ParseExponent(IntText(k)) == Some(k) && (k >= 0 ==> ParseExponent("+" + IntText(k)) == Some(k))
  {
    hide NatText, DigitsValue;
    NatTextValue(if k < 0 then -k else k);
    if k < 0 {
      assert IntText(k)[1..] == NatText(-k);
    } else {
      assert ("+" + IntText(k))[1..] == IntText(k);
    }
  }

  lemma ExponentFound(t: string, mark: char, rest: string)
    requires |t| > 0 && IsDigit(t[0]) && Free(t, 'e') && Free(t, 'E') && (mark == 'e' || mark == 'E')
    requires Free(rest, 'e') && Free(rest, 'E')
    ensures var s := t + [mark] + rest;
            ExponentAt(s) == Some(|t|) && s[..|t|] == t && s[|t| + 1..] == rest && s[0] == t[0]
  {
    var s := t + [mark] + rest;
    FindIs(s, mark, |t|);
    if mark == 'e' {
      FindNone(s, 'E');
    } else {
      FindNone(s, 'e');
    }
    assert s[..|t|] == t && s[|t| + 1..] == rest;
  }

  lemma FindNone(s: string, c: char)
    requires Free(s, c)
    ensures Find(s, c) == None
  {
  }

  /** A plus sign changes nothing, and an exponent, after either letter, with or without a plus,
      moves the point. */
  lemma ScientificNotation(n: Number, mark: char, k: int, plus: bool)
    requires n.m >= 0 && (mark == 'e' || mark == 'E') && (plus ==> k >= 0)
    ensures ParseReal("+" + n.Text()) == Some(n.Value())
    ensures var r := ParseReal(n.Text() + [mark] + ((if plus then "+" else "") + IntText(k)));
            && r.Some?
            && r.value == if k >= 0 then n.Value() * Pow10(k) as real else n.Value() * (1.0 / Pow10(-k) as real)
  {
    hide ParseReal, ParseMantissa, ParseExponent, Number.Value, Number.Text, IntText, Shifted, Pow10;
    var t := n.Text();
    PlainMantissa(n);
    PlusIsIgnored(t, n.Value());
    ExponentParses(k);
    IntTextIsFree(k);
    assert "" + IntText(k) == IntText(k);
    var e := (if plus then "+" else "") + IntText(k);
    ExponentApplies(t, n.Value(), mark, e, k);
    ShiftedByTens(n.Value(), k);
  }

  lemma PlusIsIgnored(t: string, v: real)
    requires ParseMantissa(t) == Some(v) && Free(t, 'e') && Free(t, 'E')
    ensures ParseReal("+" + t) == Some(v)
  {
    hide ParseMantissa, ExponentAt, Shifted;
    var s := "+" + t;
    assert s[1..] == t;
    NoExponent(t);
    ShiftedByNothing(v);
  }

  lemma ExponentApplies(t: string, v: real, mark: char, e: string, k: int)
    requires ParseMantissa(t) == Some(v) && ParseExponent(e) == Some(k) && (mark == 'e' || mark == 'E')
    requires |t| > 0 && IsDigit(t[0]) && Free(t, 'e') && Free(t, 'E') && Free(e, 'e') && Free(e, 'E')
    ensures ParseReal(t + [mark] + e) == Some(Shifted(v, k))
  {
    hide ParseMantissa, ParseExponent, ExponentAt, Shifted;
    ExponentFound(t, mark, e);
    var s := t + [mark] + e;
    var w := Shifted(v, k);
    assert ParseReal(s) == Some(w);
  }

  lemma NoExponent(t: string)
    requires Free(t, 'e') && Free(t, 'E')
    ensures ExponentAt(t) == None
  {
  }

  lemma ShiftedByNothing(v: real)
    ensures Shifted(v, 0) == v
  {
  }

  lemma ShiftedByTens(v: real, k: int)
    ensures Shifted(v, k) == if k >= 0 then v * Pow10(k) as real else v * (1.0 / Pow10(-k) as real)
  {
    hide Pow10, PowReal;
    PowRealIsPow10(if k >= 0 then k else -k);
  }

  /** The digits after the point may be missing, */
  lemma TrailingPoint(n: nat)
    ensures ParseReal(NatText(n) + ".") == Some(n as real) && ParseReal(".") == None
  {
    hide NatText, DigitsValue, Pow10, ParseReal, ParseMantissa;
    var whole := NatText(n);
    NatTextValue(n);
    PointedMantissa(whole, "");
    assert whole + "" == whole && whole + "." + "" == whole + ".";
    PowOfNone();
    ParseRealPointed(whole + ".", n as real);
    NoMantissa();
  }

  /** or those before it, though not both. */
  lemma LeadingPoint(n: nat, d: Positive)
    requires n < Pow10(d)
    ensures ParseReal("." + FractionText(n, d)) == Some(Number(n, d).Value())
  {
    hide FractionText, DigitsValue, Pow10, Whole, ParseReal, ParseMantissa;
    var frac := FractionText(n, d);
    FractionTextValue(n, d);
    TimesAtLeast(Whole(n, d), Pow10(d));
    PointedMantissa("", frac);
    assert "" + frac == frac && "" + "." + frac == "." + frac;
    ParseRealPointed("." + frac, n as real / Pow10(d) as real);
  }

  lemma PowOfNone()
    ensures Pow10(0) == 1
  {
  }

  lemma NoMantissa()
    ensures ParseReal(".") == None
  {
    assert Find(".", '.') == Some(0);
    assert Find(".", 'e') == None && Find(".", 'E') == None;
  }

  lemma TimesAtLeast(w: nat, p: nat)
    ensures w == 0 || w * p >= p
  {
    if w > 0 {
      assert (w - 1) * p >= 0;
    }
  }

  lemma PointedMantissa(a: string, b: string)
    requires AllDigits(a) && AllDigits(b) && |a| + |b| > 0
    ensures ParseMantissa(a + "." + b) == Some(DigitsValue(a + b) as real / Pow10(|b|) as real)
  {
    hide DigitsValue, Pow10;
    var s := a + "." + b;
    NoDotInDigits(a, b);
    assert s[..|a|] == a && s[|a| + 1..] == b;
  }

  lemma ParseRealPointed(t: string, v: real)
    requires |t| > 0 && (forall i :: 0 <= i < |t| ==> t[i] == '.' || IsDigit(t[i])) && ParseMantissa(t) == Some(v)
    ensures ParseReal(t) == Some(v)
  {
    hide ParseMantissa, ExponentAt, Shifted;
    NoExponent(t);
    ShiftedByNothing(v);
  }

  lemma IntTextIsFree(k: int)
    ensures Free(IntText(k), 'e') && Free(IntText(k), 'E')
    ensures Free("+" + IntText(k), 'e') && Free("+" + IntText(k), 'E')
  {
    hide NatText;
  }

  predicate EndsLikeNumber(s: string) {
    |s| > 0 && (IsDigit(Last(s)) || Last(s) == '.')
  }

  lemma MantissaShape(s: string)
    requires ParseMantissa(s).Some?
    ensures |s| > 0 && EndsLikeNumber(s) && (IsDigit(s[0]) || s[0] == '.')
  {
    hide DigitsValue, Pow10;
    var dot := Find(s, '.');
    if dot.Some? {
      var frac := s[dot.value + 1..];
      if |frac| > 0 {
        assert IsDigit(Last(frac)) && Last(frac) == Last(s);
      }
      if dot.value > 0 {
        assert IsDigit(s[..dot.value][0]);
      }
    }
  }

  lemma ExponentShape(s: string)
    requires ParseExponent(s).Some?
    ensures EndsLikeNumber(s)
  {
    hide DigitsValue;
    var digits := if |s| > 0 && (s[0] == '+' || s[0] == '-') then s[1..] else s;
    assert IsDigit(Last(digits));
  }

  /** What remains of an accepted number without its sign. */
  function Unsigned(s: string): string {
    if |s| > 0 && (s[0] == '+' || s[0] == '-') then s[1..] else s
  }

  lemma RealParts(s: string)
    requires ParseReal(s).Some?
    ensures var e := ExponentAt(Unsigned(s));
            && ParseMantissa(if e.Some? then Unsigned(s)[..e.value] else Unsigned(s)).Some?
            && (e.Some? ==> ParseExponent(Unsigned(s)[e.value + 1..]).Some?)
  {
    hide ParseMantissa, Shifted, ParseExponent, ExponentAt;
  }

  lemma RealShape(s: string)
    requires ParseReal(s).Some?
    ensures EndsLikeNumber(s) && Tight(s)
  {
    hide ParseReal, ParseMantissa, ParseExponent, ExponentAt, EndsLikeNumber;
    RealParts(s);
    var body := Unsigned(s);
    var e := ExponentAt(body);
    if e.Some? {
      MantissaShape(body[..e.value]);
      ExponentShape(body[e.value + 1..]);
      SuffixEnd(s, body[e.value + 1..]);
    } else {
      MantissaShape(body);
      SuffixEnd(s, body);
    }
  }

  lemma SuffixEnd(s: string, t: string)
    requires EndsLikeNumber(t) && |t| <= |s| && s[|s| - |t|..] == t
    ensures EndsLikeNumber(s) && !Space(Last(s))
  {
    assert Last(s) == Last(t);
  }

  // ---- the values of an accepted rule ----

  lemma NoSizeSuffix(t: string)
    requires EndsLikeNumber(t)
    ensures SplitSize(t) == (t, 1)
  {
    hide StripSuffix;
    OtherEnding(t, "GB");
    OtherEnding(t, "G");
    OtherEnding(t, "MB");
    OtherEnding(t, "M");
    OtherEnding(t, "KB");
    OtherEnding(t, "K");
    OtherEnding(t, "B");
  }

  lemma WholeNumber(k: nat)
    ensures Number(k, 0).Value() == k as real
  {
    assert Pow10(0) == 1;
  }

  lemma WholeBytes(k: nat)
    requires k <= U64_MAX
    ensures SizeOf(Number(k, 0), "") == k
  {
    hide Number.Value;
    WholeNumber(k);
  }

  lemma WholeMilliseconds(k: nat)
    requires k <= U64_MAX
    ensures MillisecondsOf(Number(k, 0), "ms") == k
  {
    hide Number.Value;
    WholeNumber(k);
  }

  /** In the value position of a metric, whatever is accepted can be written down. */
  lemma ValueIsNumber(tok: string, m: Metric) returns (q: Quantity)
    requires ParseValue(tok, m).Some?
    ensures q.suffix in SIZE_SUFFIXES && Meant(q, m) == ParseValue(tok, m)
  {
    hide ParseReal, Number.Value, SplitSize, EndsLikeNumber, Trim, SizeOf, CountsBytes, Metric.IsBytes;
    ByteMetrics(m);
    if m.IsBytes() && ParseSize(tok).Some? {
      q := Quantity(Number(ParseSize(tok).value, 0), "");
      WholeBytes(ParseSize(tok).value);
    } else {
      var n := RealIsNumber(tok);
      NumberSign(n);
      q := Quantity(n, "");
      if m.IsBytes() {
        RealShape(tok);
        TrimTight(tok);
        NoSizeSuffix(tok);
      }
    }
  }

  lemma ClearIsNumber(t: seq<string>, rule: Rule) returns (clear: Option<Quantity>)
    requires rule.clear == rule.threshold && ParseClear(t, rule).Accepted?
    ensures var r := ParseClear(t, rule).rule;
            && r == rule.(clear := r.clear)
            && match clear
               case None => r.clear == r.threshold
               case Some(c) => c.suffix in SIZE_SUFFIXES && Meant(c, r.metric) == Some(r.clear)
  {
    hide ParseValue, Meant;
    if |t| <= 8 {
      clear := None;
    } else {
      var c := ValueIsNumber(t[9], rule.metric);
      clear := Some(c);
    }
  }

  lemma DurationIsMilliseconds(s: string) returns (ms: nat)
    requires ParseDuration(s).Some?
    ensures ParseDuration(s).value == ms * 1_000_000 && ms <= U64_MAX
  {
    hide ParseReal, Trim, SplitDuration;
    var (num, scale) := SplitDuration(Trim(s));
    ms := ToU64(Times(ParseReal(Trim(num)).value, scale));
  }

  lemma TargetIsWord(s: string, t: Target)
    requires ParseTarget(s) == Some(t) && t != Process("") && IsWord(s) && Free(s, '#')
    ensures t.Process? ==> IsWord(t.pattern) && Free(t.pattern, '#')
  {
  }

  /** The rule a line is accepted as, up to the clear clause. */
  function EightFields(t: seq<string>): Rule
    requires ParseTokens(t).Accepted?
  {
    var threshold := ParseValue(t[5], ParseMetric(t[3]).value).value;
    Rule(t[1], ParseTarget(t[2]).value, ParseMetric(t[3]).value, ParseOp(t[4]).value, threshold,
         ParseDuration(t[7]).value, threshold)
  }

  lemma AcceptedFields(t: seq<string>)
    requires ParseTokens(t).Accepted?
    ensures |t| >= 8 && ParseTokens(t) == ParseClear(t, EightFields(t))
    ensures ParseTarget(t[2]).Some? && ParseMetric(t[3]).Some? && ParseDuration(t[7]).Some?
    ensures ParseValue(t[5], ParseMetric(t[3]).value).Some?
    ensures var r := EightFields(t);
            r.target != Process("") && (r.target.Process? ==> r.metric.AppliesToProcess())
  {
    hide ParseTarget, ParseMetric, ParseOp, ParseValue, ParseDuration, ParseClear;
  }

  lemma NameIsSpelling(m: Metric)
    ensures MetricName(m) in Spellings(m)
  {
  }

  /** Whatever rule the words of a line are accepted as can be printed. */
  lemma AcceptedIsPrintable(t: seq<string>) returns (p: Printable)
    requires ParseTokens(t).Accepted? && forall w :: w in t ==> IsWord(w) && Free(w, '#')
    ensures p.rule == ParseTokens(t).rule && Faithful(p)
  {
    hide ParseTokens, ParseTarget, ParseMetric, ParseOp, ParseValue, ParseDuration, ParseClear, IsWord, Free,
      Meant, MillisecondsOf, Spellings;
    AcceptedFields(t);
    var r := EightFields(t);
    var threshold := ValueIsNumber(t[5], r.metric);
    var ms := DurationIsMilliseconds(t[7]);
    var clear := ClearIsNumber(t, r);
    TargetIsWord(t[2], r.target);
    WholeMilliseconds(ms);
    NameIsSpelling(r.metric);
    p := Printable(ParseTokens(t).rule, MetricName(r.metric), threshold, Span(Number(ms, 0), "ms"), clear);
  }

  /** A rule can be read from some line exactly when it is sane and can be printed, and then the
      printed line gives it back: printing and parsing are inverse on everything the parser accepts. */
  lemma PrintingIsComplete(rule: Rule)
    ensures (exists raw :: ParseLine(raw) == Accepted(rule)) <==>
            (exists p: Printable :: p.rule == rule && Faithful(p) && rule.Sane())
    ensures forall p: Printable :: p.rule == rule && Faithful(p) && rule.Sane() ==>
              ParseLine(RuleLine(p)) == Accepted(rule)
  {
    hide ParseLine, RuleLine, Faithful;
    forall p: Printable | p.rule == rule && Faithful(p) && rule.Sane()
      ensures ParseLine(RuleLine(p)) == Accepted(rule)
    {
      RuleRoundTrip(p);
    }
    if raw :| ParseLine(raw) == Accepted(rule) {
      AcceptedIsSane(raw);
      var p := PrintableOf(raw);
      assert p.rule == rule;
    }
  }

  lemma PrintableOf(raw: string) returns (p: Printable)
    requires ParseLine(raw).Accepted?
    ensures p.rule == ParseLine(raw).rule && Faithful(p)
  {
    hide ParseTokens, Words, Trim, Text.Before, IsWord, Free, Faithful;
    LineWords(raw);
    p := AcceptedIsPrintable(Words(Trim(Text.Before(raw, '#'))));
  }

  // ---- accepted, but never evaluated ----

  /** The parser checks that a metric exists for a process, but not that it exists for the system:
      among the rules it accepts, the system rules on process metrics are the ones never evaluated. */
  lemma AcceptedButNeverShown(raw: string)
    requires ParseLine(raw).Accepted?
    ensures var rule := ParseLine(raw).rule;
            NeverShown(rule) <==> rule.target.System? && rule.metric in {Rss, ReadBps, WriteBps, Threads}
  {
    hide ParseLine, Faithful, NeverShown;
    var p := PrintableOf(raw);
    WhoIsNeverShown(p.rule);
    PrintableMetric(p);
    if p.rule.target.System? {
      SystemSources(p.rule);
    }
  }

  lemma SystemSources(rule: Rule)
    requires rule.target.System?
    ensures HasASource(rule) <==> rule.metric !in {Rss, ReadBps, WriteBps, Threads}
  {
    match rule.metric {
      case CpuPct => case MemPct => case Rss => case ReadBps => case WriteBps =>
      case NetRxBps => case NetTxBps => case Threads => case ProcCount =>
    }
  }

  lemma PrintableMetric(p: Printable)
    requires Faithful(p)
    ensures p.rule.target.Process? ==> p.rule.metric.AppliesToProcess()
  {
    hide Meant, IsWord, Free, Spellings;
  }

  /** One such line. */
  lemma SuchARuleExists()
    ensures exists raw :: ParseLine(raw).Accepted? && NeverShown(ParseLine(raw).rule)
  {
    var rule := Rule("busy", System, Threads, Gt, 1.0, 0, 1.0);
    var p := Printable(rule, "threads", Quantity(Number(1, 0), ""), Span(Number(0, 0), "ms"), None);
    WholeNumber(1);
    WholeMilliseconds(0);
    assert Faithful(p);
    hide ParseLine, RuleLine, NeverShown;
    RuleRoundTrip(p);
    WhoIsNeverShown(rule);
    assert ParseLine(RuleLine(p)).Accepted?;
  }
}
