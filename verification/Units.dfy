/** Byte sizes and durations as text (src/units.rs), in exact decimal arithmetic. */
module Units {
  import opened Prelude
  import opened Text
  import opened Decimal

  const UNITS := ["B", "K", "M", "G", "T", "P"]

  // ---- printing ----

  /** To the nearest integer, ties to even: how Rust prints with a fixed number of decimals. */
  function Round(x: real): (n: nat)
    requires x >= 0.0
    ensures -0.5 <= n as real - x <= 0.5
    ensures n as real - x == 0.5 || n as real - x == -0.5 ==> n % 2 == 0
  {
    var f: nat := x.Floor;
    var d := x - f as real;
    if d < 0.5 || (d == 0.5 && f % 2 == 0) then f else f + 1
  }

  /** Divides by 1024 until the value is below 1024 or the units run out. */
  function Scale(v: real, i: nat): (real, nat)
    requires i <= 5
    decreases 5 - i
  {
    if v >= 1024.0 && i < 5 then Scale(v / 1024.0, i + 1) else (v, i)
  }

  function ScaledText(v: real): string
    requires v >= 0.0
  {
    if v >= 100.0 then FixedText(Round(v), 0) else FixedText(Round(v * 10.0), 1)
  }

  lemma ScaleBounds(v: real, i: nat)
    requires v >= 0.0 && i <= 5
    ensures var (w, j) := Scale(v, i); w >= 0.0 && i <= j <= 5
    decreases 5 - i
  {
  }

  function HumanText(n: nat): string {
    if n < 1024 then NatText(n) + "B"
    else
      ScaleBounds(n as real, 0);
      var (v, i) := Scale(n as real, 0);
      ScaledText(v) + UNITS[i]
  }

  method HumanBytes(n: nat) returns (s: string)
    ensures s == HumanText(n)
  {
    if n < 1024 {
      return NatText(n) + "B";
    }
    var v := n as real;
    var i := 0;
    while v >= 1024.0 && i < 5
      invariant 0 <= i <= 5 && v >= 0.0
      invariant Scale(v, i) == Scale(n as real, 0)
    {
      v := v / 1024.0;
      i := i + 1;
    }
    if v >= 100.0 {
      s := FixedText(Round(v), 0) + UNITS[i];
    } else {
      s := FixedText(Round(v * 10.0), 1) + UNITS[i];
    }
  }

  // ---- parsing ----

  /** The number and the multiplier: the longest matching suffix of GB, G, MB, M, KB, K, B. */
  function SplitSize(s: string): (string, nat) {
    var gb, g, mb, m, kb, k, b := StripSuffix(s, "GB"), StripSuffix(s, "G"), StripSuffix(s, "MB"),
                                  StripSuffix(s, "M"), StripSuffix(s, "KB"), StripSuffix(s, "K"), StripSuffix(s, "B");
    if gb.Some? then (gb.value, 0x4000_0000)
    else if g.Some? then (g.value, 0x4000_0000)
    else if mb.Some? then (mb.value, 0x10_0000)
    else if m.Some? then (m.value, 0x10_0000)
    else if kb.Some? then (kb.value, 0x400)
    else if k.Some? then (k.value, 0x400)
    else if b.Some? then (b.value, 1)
    else (s, 1)
  }

  /** `as u64`: towards zero, saturating. */
  function ToU64(x: real): nat
    requires x >= 0.0
  {
    if x.Floor > U64_MAX then U64_MAX else x.Floor
  }

  function Times(v: real, k: nat): (x: real)
    ensures v >= 0.0 ==> x >= 0.0
  {
    v * k as real
  }

  function ParseSize(s: string): Option<nat> {
    var (num, mult) := SplitSize(Trim(s));
    var v := ParseReal(Trim(num));
    if v.None? || v.value < 0.0 then None else Some(ToU64(Times(v.value, mult)))
  }

  /** Milliseconds, from `500ms`, `5s`, `2m`, `1h` or a bare number of seconds. */
  function SplitDuration(s: string): (string, nat) {
    var ms, sec, min, hour := StripSuffix(s, "ms"), StripSuffix(s, "s"), StripSuffix(s, "m"), StripSuffix(s, "h");
    if ms.Some? then (ms.value, 1)
    else if sec.Some? then (sec.value, 1000)
    else if min.Some? then (min.value, 60_000)
    else if hour.Some? then (hour.value, 3_600_000)
    else (s, 1000)
  }

  /** A duration in nanoseconds. */
  function ParseDuration(s: string): Option<nat> {
    var (num, scale) := SplitDuration(Trim(s));
    var v := ParseReal(Trim(num));
    if v.None? || v.value < 0.0 then None else Some(ToU64(Times(v.value, scale)) * 1_000_000)
  }

  // ---- the suffix of a printed number ----

  /** Digits and points, starting with a digit and ending in one. */
  ghost predicate Plain(t: string) {
    && |t| > 0 && IsDigit(t[0]) && IsDigit(Last(t))
    && forall i :: 0 <= i < |t| ==> t[i] == '.' || IsDigit(t[i])
  }

  lemma FixedIsPlain(m: nat, d: nat)
    ensures Plain(FixedText(m, d))
  {
    FixedTextShape(m, d);
  }

  lemma SplitPlain(t: string, c: char)
    requires Plain(t) && c in {'B', 'K', 'M', 'G', 'T', 'P'}
    ensures Tight(t + [c]) && Tight(t)
    ensures SplitSize(t + [c]) ==
            if c == 'B' then (t, 1) else if c == 'K' then (t, 0x400) else if c == 'M' then (t, 0x10_0000)
            else if c == 'G' then (t, 0x4000_0000) else (t + [c], 1)
  {
    var s := t + [c];
    assert s[..|s| - 1] == t && s[|s| - 1..] == [c];
    assert s[|s| - 2..] == [Last(t), c];
  }

  /** The multiplier of a unit letter. */
  function Multiplier(c: char): nat {
    if c == 'K' then 0x400 else if c == 'M' then 0x10_0000 else if c == 'G' then 0x4000_0000 else 1
  }

  lemma ParseSizePlain(m: nat, d: nat, c: char, r: real)
    requires c in {'B', 'K', 'M', 'G'} && r == m as real / Pow10(d) as real
    ensures r >= 0.0
    ensures var x := Times(r, Multiplier(c)); x >= 0.0 && ParseSize(FixedText(m, d) + [c]) == Some(ToU64(x))
  {
    hide ParseReal, Pow10, ToU64, SplitSize, FixedText, Trim, Times;
    var t := FixedText(m, d);
    FixedIsPlain(m, d);
    SplitPlain(t, c);
    TrimTight(t + [c]);
    TrimTight(t);
    assert SignedText(m, d) == t;
    ParseRealText(m, d);
  }

  lemma NotANumber(t: string, c: char)
    requires Plain(t) && (c == 'T' || c == 'P')
    ensures ParseReal(t + [c]) == None
  {
    hide ParseReal;
    var s := t + [c];
    assert Last(s) == c && s[0] == t[0];
    BadEnding(s);
  }

  /** Terabytes and petabytes are printed but not parsed. */
  lemma NoBigUnits(t: string, c: char)
    requires Plain(t) && (c == 'T' || c == 'P')
    ensures ParseSize(t + [c]) == None
  {
    hide ParseReal, SplitSize, Trim;
    SplitPlain(t, c);
    TrimTight(t + [c]);
    NotANumber(t, c);
  }

  // ---- the error of a round trip ----

  /** Which unit a size is printed in, and how much of it. */
  lemma ScaleCases(n: nat)
    requires 1024 <= n
    ensures n < 0x10_0000 ==> Scale(n as real, 0) == (n as real / 1024.0, 1)
    ensures 0x10_0000 <= n < 0x4000_0000 ==> Scale(n as real, 0) == (n as real / 1048576.0, 2)
    ensures 0x4000_0000 <= n < 0x100_0000_0000 ==> Scale(n as real, 0) == (n as real / 1073741824.0, 3)
    ensures 0x100_0000_0000 <= n < 0x4_0000_0000_0000 ==> Scale(n as real, 0) == (n as real / 1099511627776.0, 4)
    ensures 0x4_0000_0000_0000 <= n ==> Scale(n as real, 0) == (n as real / 1125899906842624.0, 5)
  {
    var v := n as real;
    assert Scale(v, 0) == Scale(v / 1024.0, 1);
    if n >= 0x10_0000 {
      assert Scale(v / 1024.0, 1) == Scale(v / 1048576.0, 2);
      if n >= 0x4000_0000 {
        assert Scale(v / 1048576.0, 2) == Scale(v / 1073741824.0, 3);
        if n >= 0x100_0000_0000 {
          assert Scale(v / 1073741824.0, 3) == Scale(v / 1099511627776.0, 4);
          if n >= 0x4_0000_0000_0000 {
            assert Scale(v / 1099511627776.0, 4) == Scale(v / 1125899906842624.0, 5);
          }
        }
      }
    }
  }

  /** n counted in units of u: whole units from a hundred on, tenths of one below. */
  function InUnits(n: nat, u: Positive, letter: string): string {
    if n >= 100 * u then FixedText(Round(n as real / u as real), 0) + letter
    else FixedText(Round(n as real / u as real * 10.0), 1) + letter
  }

  lemma InUnitsIs(n: nat, u: Positive, letter: string, v: real)
    requires v == n as real / u as real
    ensures v >= 0.0 && InUnits(n, u, letter) == ScaledText(v) + letter
  {
    hide FixedText, Round;
    assert v * u as real == n as real;
    assert v >= 100.0 <==> n >= 100 * u by {
      HundredUnits(n, u, v);
    }
  }

  lemma HundredUnits(n: nat, u: Positive, v: real)
    requires v * u as real == n as real
    ensures v >= 100.0 <==> n >= 100 * u
  {
    Compared(v, 100.0, u as real);
    assert (100 * u) as real == 100.0 * u as real;
  }

  lemma Compared(v: real, w: real, u: real)
    requires u > 0.0
    ensures v >= w <==> v * u >= w * u
  {
    if v >= w {
      assert (v - w) * u >= 0.0;
    } else {
      assert (w - v) * u > 0.0;
    }
  }

  /** The text of every size: the unit is the largest power of 1024, up to the fifth, not above it. */
  lemma HumanTextForm(n: nat)
    ensures n < 1024 ==> HumanText(n) == NatText(n) + "B"
    ensures 1024 <= n < 0x10_0000 ==> HumanText(n) == InUnits(n, 0x400, "K")
    ensures 0x10_0000 <= n < 0x4000_0000 ==> HumanText(n) == InUnits(n, 0x10_0000, "M")
    ensures 0x4000_0000 <= n < 0x100_0000_0000 ==> HumanText(n) == InUnits(n, 0x4000_0000, "G")
    ensures 0x100_0000_0000 <= n < 0x4_0000_0000_0000 ==> HumanText(n) == InUnits(n, 0x100_0000_0000, "T")
    ensures 0x4_0000_0000_0000 <= n ==> HumanText(n) == InUnits(n, 0x4_0000_0000_0000, "P")
  {
    hide ScaledText, InUnits, Scale, NatText;
    if n >= 1024 {
      ScaleCases(n);
      InUnitsIs(n, 0x400, "K", n as real / 1024.0);
      InUnitsIs(n, 0x10_0000, "M", n as real / 1048576.0);
      InUnitsIs(n, 0x4000_0000, "G", n as real / 1073741824.0);
      InUnitsIs(n, 0x100_0000_0000, "T", n as real / 1099511627776.0);
      InUnitsIs(n, 0x4_0000_0000_0000, "P", n as real / 1125899906842624.0);
    }
  }

  /** p is within n/20 + 1 of n. */
  predicate Close(p: nat, n: nat) {
    20 * (p - n) <= n + 20 && 20 * (n - p) <= n + 20
  }

  /** Rounded to a tenth, or to a unit when there are at least a hundred of them. */
  lemma RoundedIsClose(n: nat, u: nat, v: real, r: real)
    requires u in {0x400, 0x10_0000, 0x4000_0000} && n < 0x100_0000_0000
    requires v * u as real == n as real && v >= 1.0
    requires -0.05 <= r - v <= 0.05 || (v >= 100.0 && -0.5 <= r - v <= 0.5)
    ensures Times(r, u) >= 0.0 && Close(ToU64(Times(r, u)), n)
  {
    var x := r * u as real;
    assert -0.05 * u as real <= x - n as real <= 0.05 * u as real
           || (100.0 * u as real <= n as real && -0.5 * u as real <= x - n as real <= 0.5 * u as real);
    assert u as real <= n as real;
  }

  lemma TenthsAndUnits(v: real)
    requires v >= 0.0
    ensures -0.5 <= Round(v) as real / Pow10(0) as real - v <= 0.5
    ensures -0.05 <= Round(v * 10.0) as real / Pow10(1) as real - v <= 0.05
  {
    hide Round;
    assert Pow10(0) == 1 && Pow10(1) == 10;
  }

  lemma ScaledTextParses(n: nat, v: real, c: char)
    requires c in {'K', 'M', 'G'} && n < 0x100_0000_0000
    requires v * Multiplier(c) as real == n as real && v >= 1.0
    ensures var p := ParseSize(ScaledText(v) + [c]); p.Some? && Close(p.value, n)
  {
    hide ParseSize, FixedText, Round, Pow10, ToU64, Close, Times;
    TenthsAndUnits(v);
    var r;
    if v >= 100.0 {
      r := Round(v) as real / Pow10(0) as real;
      ParseSizePlain(Round(v), 0, c, r);
    } else {
      r := Round(v * 10.0) as real / Pow10(1) as real;
      ParseSizePlain(Round(v * 10.0), 1, c, r);
    }
    RoundedIsClose(n, Multiplier(c), v, r);
  }

  /** Printing a size and parsing it back succeeds exactly below 2^40, and then loses at most a
      twentieth and one byte. */
  lemma SizeRoundTrip(n: nat)
    ensures ParseSize(HumanText(n)).Some? <==> n < 0x100_0000_0000
    ensures n < 0x100_0000_0000 ==> Close(ParseSize(HumanText(n)).value, n)
  {
    hide ParseSize, ScaledText;
    if n < 1024 {
      SmallSize(n);
    } else {
      ScaleCases(n);
      var (v, i) := Scale(n as real, 0);
      if n < 0x10_0000 {
        ScaledTextParses(n, v, 'K');
      } else if n < 0x4000_0000 {
        ScaledTextParses(n, v, 'M');
      } else if n < 0x100_0000_0000 {
        ScaledTextParses(n, v, 'G');
      } else {
        BigSize(v, if i == 4 then 'T' else 'P');
      }
    }
  }

  lemma SmallSize(n: nat)
    requires n < 1024
    ensures ParseSize(NatText(n) + "B") == Some(n)
  {
    hide ParseSize, NatText;
    assert Pow10(0) == 1 && Whole(n, 0) == n;
    ParseSizePlain(n, 0, 'B', n as real);
    assert FixedText(n, 0) == NatText(n) + "" == NatText(n);
  }

  lemma BigSize(v: real, c: char)
    requires v >= 0.0 && (c == 'T' || c == 'P')
    ensures ParseSize(ScaledText(v) + [c]) == None
  {
    hide ParseSize;
    if v >= 100.0 {
      FixedIsPlain(Round(v), 0);
    } else {
      FixedIsPlain(Round(v * 10.0), 1);
    }
    NoBigUnits(ScaledText(v), c);
  }

  // ---- what a suffix means ----

  const SIZE_SUFFIXES: set<string> := {"", "B", "K", "KB", "M", "MB", "G", "GB"}

  function SizeFactor(suffix: string): nat {
    if suffix in {"K", "KB"} then 1024
    else if suffix in {"M", "MB"} then 1024 * 1024
    else if suffix in {"G", "GB"} then 1024 * 1024 * 1024
    else 1
  }

  const TIME_SUFFIXES: set<string> := {"ms", "s", "", "m", "h"}

  /** Milliseconds; a bare number is in seconds. */
  function TimeFactor(suffix: string): nat {
    if suffix == "ms" then 1
    else if suffix == "m" then 60 * 1000
    else if suffix == "h" then 60 * 60 * 1000
    else 1000
  }

  /** Rounded down, and no more than 64 bits hold. */
  function Capped(x: real): nat {
    Max(0, Min(x.Floor, 0xffff_ffff_ffff_ffff))
  }

  /** The bytes a written size stands for: its number times its unit, of 1024 bytes and its powers. */
  function SizeOf(n: Number, suffix: string): nat {
    Capped(n.Value() * SizeFactor(suffix) as real)
  }

  /** The milliseconds a written duration stands for. */
  function MillisecondsOf(n: Number, suffix: string): nat {
    Capped(n.Value() * TimeFactor(suffix) as real)
  }

  lemma OtherEnding(s: string, p: string)
    requires |s| > 0 && |p| > 0 && Last(s) != Last(p)
    ensures StripSuffix(s, p) == None
  {
    if |p| <= |s| {
      assert s[|s| - |p|..][|p| - 1] == Last(s);
    }
  }

  lemma OtherEnding2(s: string, p: string)
    requires |s| > 1 && |p| == 2 && s[|s| - 2] != p[0]
    ensures StripSuffix(s, p) == None
  {
    assert s[|s| - 2..][0] == s[|s| - 2];
  }

  lemma SuffixStripped(t: string, p: string)
    ensures StripSuffix(t + p, p) == Some(t)
  {
    assert (t + p)[|t|..] == p && (t + p)[..|t|] == t;
  }

  /** Not a letter a unit is written with. */
  predicate NoUnit(c: char) {
    c !in {'B', 'K', 'M', 'G', 'm', 's', 'h'}
  }

  lemma SizeSplits(t: string, suffix: string)
    requires |t| > 0 && NoUnit(Last(t)) && suffix in SIZE_SUFFIXES
    ensures SplitSize(t + suffix) == (t, SizeFactor(suffix))
  {
    hide StripSuffix;
    var s := t + suffix;
    SuffixStripped(t, suffix);
    if suffix == "" {
      assert s == t;
    }
    if |suffix| == 1 {
      assert s[|s| - 2] == Last(t);
    }
    if Last(s) == 'B' {
      OtherEnding(s, "G");
      OtherEnding(s, "M");
      OtherEnding(s, "K");
      if suffix != "GB" { OtherEnding2(s, "GB"); }
      if suffix != "MB" { OtherEnding2(s, "MB"); }
      if suffix != "KB" { OtherEnding2(s, "KB"); }
    } else {
      OtherEnding(s, "GB");
      OtherEnding(s, "MB");
      OtherEnding(s, "KB");
      OtherEnding(s, "B");
      if suffix != "G" { OtherEnding(s, "G"); }
      if suffix != "M" { OtherEnding(s, "M"); }
      if suffix != "K" { OtherEnding(s, "K"); }
    }
  }

  lemma TimeSplits(t: string, suffix: string)
    requires |t| > 0 && NoUnit(Last(t)) && suffix in TIME_SUFFIXES
    ensures SplitDuration(t + suffix) == (t, TimeFactor(suffix))
  {
    hide StripSuffix;
    var s := t + suffix;
    SuffixStripped(t, suffix);
    if suffix == "" {
      assert s == t;
    }
    if |suffix| == 1 {
      assert s[|s| - 2] == Last(t);
      OtherEnding2(s, "ms");
    }
    if Last(s) != 's' {
      OtherEnding(s, "ms");
      OtherEnding(s, "s");
    }
    if suffix != "m" { OtherEnding(s, "m"); }
    if suffix != "h" { OtherEnding(s, "h"); }
  }

  lemma SuffixedIsTight(t: string, suffix: string)
    requires |t| > 0 && Tight(t) && (suffix in SIZE_SUFFIXES || suffix in TIME_SUFFIXES)
    ensures Tight(t + suffix)
  {
    var s := t + suffix;
    assert s[0] == t[0];
    if |suffix| > 0 {
      assert Last(s) == Last(suffix);
    } else {
      assert s == t;
    }
  }

  lemma CappedIs(v: real, k: nat)
    requires v >= 0.0
    ensures ToU64(Times(v, k)) == Capped(v * k as real)
  {
  }

  /** A size means its number times its unit, of 1024 bytes and its powers, rounded down to bytes
      and capped; and no size is negative. */
  lemma SizeMeaning(n: Number, suffix: string)
    requires suffix in SIZE_SUFFIXES
    ensures ParseSize(n.Text() + suffix) ==
            if n.m < 0 then None else Some(SizeOf(n, suffix))
  {
    hide SplitSize, Number.Value, Number.Text, ParseReal, Trim, ToU64, Times;
    var t := n.Text();
    NumberTextIsWord(n);
    SizeSplits(t, suffix);
    SuffixedIsTight(t, suffix);
    TrimTight(t + suffix);
    TrimTight(t);
    NumberSign(n);
    if n.m >= 0 {
      CappedIs(n.Value(), SizeFactor(suffix));
    }
  }

  /** A duration means its number times its unit, rounded down to milliseconds and capped: `s` and
      a bare number are seconds, `ms` thousandths of one, `m` minutes and `h` hours. */
  lemma DurationMeaning(n: Number, suffix: string)
    requires suffix in TIME_SUFFIXES
    ensures ParseDuration(n.Text() + suffix) ==
            if n.m < 0 then None else Some(MillisecondsOf(n, suffix) * 1_000_000)
  {
    hide SplitDuration, Number.Value, Number.Text, ParseReal, Trim, ToU64, Times;
    var t := n.Text();
    NumberTextIsWord(n);
    TimeSplits(t, suffix);
    SuffixedIsTight(t, suffix);
    TrimTight(t + suffix);
    TrimTight(t);
    NumberSign(n);
    if n.m >= 0 {
      CappedIs(n.Value(), TimeFactor(suffix));
    }
  }

  /** White space before, after and between the number and its unit is ignored. */
  lemma SpacingDoesNotMatter(n: Number, suffix: string, lead: string, gap: string, trail: string)
    requires Blanks(lead) && Blanks(gap) && Blanks(trail) && (suffix == "" ==> gap == "")
    ensures suffix in SIZE_SUFFIXES ==>
              ParseSize(lead + (n.Text() + gap + suffix) + trail) == ParseSize(n.Text() + suffix)
    ensures suffix in TIME_SUFFIXES ==>
              ParseDuration(lead + (n.Text() + gap + suffix) + trail) == ParseDuration(n.Text() + suffix)
  {
    hide SplitSize, SplitDuration, Number.Text, ParseReal, Trim, ToU64, Times, Blanks, Tight;
    var t := n.Text();
    NumberTextIsWord(n);
    TrimTight(t);
    TrimTrailing(t, gap);
    BlankEnd(t, gap);
    if suffix in SIZE_SUFFIXES {
      PaddedIsTrimmed(t, gap, suffix, lead, trail);
      SizeSplits(t + gap, suffix);
      SizeSplits(t, suffix);
    }
    if suffix in TIME_SUFFIXES {
      PaddedIsTrimmed(t, gap, suffix, lead, trail);
      TimeSplits(t + gap, suffix);
      TimeSplits(t, suffix);
    }
  }

  lemma TrimTrailing(t: string, gap: string)
    requires Blanks(gap) && Tight(t) && |t| > 0
    ensures Trim(t + gap) == t
  {
    hide Trim;
    assert Blanks("");
    TrimBlanks("", t, gap);
    assert "" + t + gap == t + gap;
  }

  lemma BlankEnd(t: string, gap: string)
    requires |t| > 0 && IsDigit(Last(t)) && Blanks(gap)
    ensures NoUnit(Last(t)) && |t + gap| > 0 && NoUnit(Last(t + gap))
  {
    if |gap| > 0 {
      assert Last(gap) in " \t\n\U{0C}\r";
      assert Last(t + gap) == Last(gap);
    } else {
      assert t + gap == t;
    }
  }

  lemma PaddedIsTrimmed(t: string, gap: string, suffix: string, lead: string, trail: string)
    requires |t| > 0 && Tight(t) && (suffix in SIZE_SUFFIXES || suffix in TIME_SUFFIXES)
    requires Blanks(lead) && Blanks(trail) && (suffix == "" ==> gap == "")
    ensures Trim(lead + (t + gap + suffix) + trail) == t + gap + suffix && Trim(t + suffix) == t + suffix
  {
    hide Trim, Blanks;
    SuffixedIsTight(t, suffix);
    TrimTight(t + suffix);
    if suffix == "" {
      assert t + gap + suffix == t;
    }
    var body := t + gap + suffix;
    assert body[0] == t[0] && (|suffix| > 0 ==> Last(body) == Last(suffix) == Last(t + suffix));
    TrimBlanks(lead, body, trail);
  }
}
