/** `/proc/[pid]/stat` (src/procfs.rs): the parser, and the line format of proc(5) it undoes. */
module PidStatLine {
  import opened Prelude
  import opened Procfs
  import opened Text
  import opened Decimal

  const I32_MIN := -0x8000_0000
  const I32_MAX := 0x7fff_ffff
  const I64_MIN := -0x8000_0000_0000_0000
  const I64_MAX := 0x7fff_ffff_ffff_ffff

  // ---- the parser ----

  function Field(rest: seq<string>, i: nat): string {
    if i < |rest| then rest[i] else ""
  }

  /** The fixed fields after the name: index i is field i + 3 of proc(5). A missing field reads
      as an empty word, which no number is. */
  function ParseFields(pid: int, comm: string, rest: seq<string>): Option<PidStat> {
    var state := Field(rest, 0);
    var ppid := ParseSigned(Field(rest, 1), I32_MIN, I32_MAX);
    var utime := ParseUnsigned(Field(rest, 11), U64_MAX);
    var stime := ParseUnsigned(Field(rest, 12), U64_MAX);
    var numThreads := ParseSigned(Field(rest, 17), I64_MIN, I64_MAX);
    var starttime := ParseUnsigned(Field(rest, 19), U64_MAX);
    var vsize := ParseUnsigned(Field(rest, 20), U64_MAX);
    var rssPages := ParseSigned(Field(rest, 21), I64_MIN, I64_MAX);
    if |state| > 0 && ppid.Some? && utime.Some? && stime.Some? && numThreads.Some? && starttime.Some?
       && vsize.Some? && rssPages.Some?
    then
      Some(PidStat(pid, comm, state[0], ppid.value, utime.value, stime.value,
                   numThreads.value, starttime.value, vsize.value, rssPages.value))
    else None
  }

  /** The name is everything between the first `(` and the last `)`. */
  function ParsePidStat(s: string): Option<PidStat> {
    var open := Find(s, '(');
    var close := FindLast(s, ')');
    if open.None? || close.None? || close.value < open.value then None
    else
      var pid := ParseSigned(Trim(s[..open.value]), I32_MIN, I32_MAX);
      if pid.None? then None
      else ParseFields(pid.value, s[open.value + 1..close.value], Words(s[close.value + 1..]))
  }

  // ---- the format ----

  /** Values that fit the types they are parsed into, and a state that is one visible character. */
  predicate InRange(p: PidStat) {
    && -2147483648 <= p.pid < 2147483648 && -2147483648 <= p.ppid < 2147483648
    && p.utime < 18446744073709551616 && p.stime < 18446744073709551616
    && p.starttime < 18446744073709551616 && p.vsize < 18446744073709551616
    && -9223372036854775808 <= p.numThreads < 9223372036854775808
    && -9223372036854775808 <= p.rssPages < 9223372036854775808
    && !AsciiSpace(p.state) && p.state != ')'
  }

  /** The fields this program does not read: nine after ppid, four after stime, one after the
      thread count. Any words will do, as long as none holds a closing parenthesis. */
  ghost predicate Fillers(other: seq<string>) {
    && |other| == 14
    && forall i :: 0 <= i < |other| ==> IsWord(other[i]) && Free(other[i], ')')
  }

  function Fields(p: PidStat, other: seq<string>): seq<string>
    requires |other| == 14
  {
    [[p.state], IntText(p.ppid),
     other[0], other[1], other[2], other[3], other[4], other[5], other[6], other[7], other[8],
     NatText(p.utime), NatText(p.stime), other[9], other[10], other[11], other[12],
     IntText(p.numThreads), other[13], NatText(p.starttime), NatText(p.vsize), IntText(p.rssPages)]
  }

  /** A line as the kernel writes it, whatever follows the fields read here. */
  function Line(p: PidStat, other: seq<string>, tail: string): string
    requires |other| == 14
  {
    (IntText(p.pid) + " ") + "(" + p.comm + ")" + (Spaced(Fields(p, other)) + tail)
  }

  // ---- the parts of a line ----

  lemma FieldsAreWords(p: PidStat, other: seq<string>)
    requires InRange(p) && Fillers(other)
    ensures |Fields(p, other)| == 22
    ensures forall i :: 0 <= i < 22 ==> IsWord(Fields(p, other)[i]) && Free(Fields(p, other)[i], ')')
  {
    NumberIsWord(IntText(p.ppid));
    NumberIsWord(NatText(p.utime));
    NumberIsWord(NatText(p.stime));
    NumberIsWord(IntText(p.numThreads));
    NumberIsWord(NatText(p.starttime));
    NumberIsWord(NatText(p.vsize));
    NumberIsWord(IntText(p.rssPages));
    hide NatText, IntText;
  }

  lemma ExtraFieldsIgnored(pid: int, comm: string, f: seq<string>, more: seq<string>)
    requires |f| == 22
    ensures ParseFields(pid, comm, f + more) == ParseFields(pid, comm, f)
  {
    hide ParseSigned, ParseUnsigned;
    assert forall i :: 0 <= i < 22 ==> Field(f + more, i) == f[i];
  }

  lemma FieldPositions(p: PidStat, other: seq<string>)
    requires |other| == 14
    ensures var f := Fields(p, other);
            && Field(f, 0) == [p.state] && Field(f, 1) == IntText(p.ppid)
            && Field(f, 11) == NatText(p.utime) && Field(f, 12) == NatText(p.stime)
            && Field(f, 17) == IntText(p.numThreads) && Field(f, 19) == NatText(p.starttime)
            && Field(f, 20) == NatText(p.vsize) && Field(f, 21) == IntText(p.rssPages)
  {
    hide NatText, IntText;
  }

  lemma FieldsParse(p: PidStat, other: seq<string>)
    requires InRange(p) && |other| == 14
    ensures ParseFields(p.pid, p.comm, Fields(p, other)) == Some(p)
  {
    ParseSignedText(p.ppid, I32_MIN, I32_MAX);
    ParseUnsignedText(p.utime, U64_MAX);
    ParseUnsignedText(p.stime, U64_MAX);
    ParseSignedText(p.numThreads, I64_MIN, I64_MAX);
    ParseUnsignedText(p.starttime, U64_MAX);
    ParseUnsignedText(p.vsize, U64_MAX);
    ParseSignedText(p.rssPages, I64_MIN, I64_MAX);
    hide ParseSigned, ParseUnsigned, NatText, IntText, Fields, Field;
    FieldPositions(p, other);
  }

  lemma PidPart(pid: int)
    requires I32_MIN <= pid <= I32_MAX
    ensures Free(IntText(pid) + " ", '(')
    ensures ParseSigned(Trim(IntText(pid) + " "), I32_MIN, I32_MAX) == Some(pid)
  {
    NumberIsWord(IntText(pid));
    TrimTrailingSpace(IntText(pid));
    ParseSignedText(pid, I32_MIN, I32_MAX);
  }

  /** Cutting at the first `(` and the last `)` finds the three parts of a line. */
  lemma Cut(head: string, comm: string, rest: string)
    requires Free(head, '(') && Free(rest, ')')
    ensures var s := head + "(" + comm + ")" + rest;
            && Find(s, '(') == Some(|head|) && FindLast(s, ')') == Some(|head| + 1 + |comm|)
            && s[..|head|] == head && s[|head| + 1..|head| + 1 + |comm|] == comm
            && s[|head| + 2 + |comm|..] == rest
  {
    var s := head + "(" + comm + ")" + rest;
    assert s[|head|] == '(' && s[|head| + 1 + |comm|] == ')';
    FindIs(s, '(', |head|);
    forall k | |head| + 1 + |comm| < k < |s| ensures s[k] != ')' {
      assert s[k] == rest[k - |head| - 2 - |comm|];
    }
    FindLastIs(s, ')', |head| + 1 + |comm|);
  }

  lemma ParseParts(head: string, pid: int, comm: string, rest: string)
    requires Free(head, '(') && Free(rest, ')')
    requires ParseSigned(Trim(head), I32_MIN, I32_MAX) == Some(pid)
    ensures ParsePidStat(head + "(" + comm + ")" + rest) == ParseFields(pid, comm, Words(rest))
  {
    hide Words, Trim, ParseSigned, ParseFields, Find, FindLast;
    Cut(head, comm, rest);
  }

  // ---- what is accepted ----

  ghost predicate Splits(s: string, head: string, comm: string, rest: string) {
    s == head + "(" + comm + ")" + rest && Free(head, '(') && Free(rest, ')')
  }

  /** The fields that are read are there and are numbers of their types. */
  predicate Complete(f: seq<string>) {
    && |f| >= 22
    && ParseSigned(f[1], -2147483648, 2147483647).Some?
    && ParseUnsigned(f[11], 18446744073709551615).Some? && ParseUnsigned(f[12], 18446744073709551615).Some?
    && ParseSigned(f[17], -9223372036854775808, 9223372036854775807).Some?
    && ParseUnsigned(f[19], 18446744073709551615).Some? && ParseUnsigned(f[20], 18446744073709551615).Some?
    && ParseSigned(f[21], -9223372036854775808, 9223372036854775807).Some?
  }

  lemma {:induction false} FirstWordIsNotEmpty(s: string)
    ensures |Words(s)| > 0 ==> |Words(s)[0]| > 0
    decreases |s|
  {
    if |s| > 0 && AsciiSpace(s[0]) {
      FirstWordIsNotEmpty(s[1..]);
    }
  }

  lemma FieldsAccepted(pid: int, comm: string, f: seq<string>)
    requires |f| > 0 ==> |f[0]| > 0
    ensures ParseFields(pid, comm, f).Some? <==> Complete(f)
  {
    assert ParseSigned("", I64_MIN, I64_MAX) == None;
    hide ParseSigned, ParseUnsigned;
  }

  lemma PartsOfAccepted(s: string) returns (head: string, comm: string, rest: string)
    requires ParsePidStat(s).Some?
    ensures Splits(s, head, comm, rest)
  {
    hide Words, Trim, ParseSigned, ParseFields, Find, FindLast;
    var open, close := Find(s, '(').value, FindLast(s, ')').value;
    head, comm, rest := s[..open], s[open + 1..close], s[close + 1..];
    assert s == head + "(" + comm + ")" + rest;
  }

  /** Accepted are exactly the texts that fall into a number, a name in parentheses and at least 22
      words, those that are read being numbers of their types. */
  lemma AcceptedExactly(s: string)
    ensures ParsePidStat(s).Some? <==>
            exists head, comm, rest :: Splits(s, head, comm, rest)
                                       && ParseSigned(Trim(head), -2147483648, 2147483647).Some?
                                       && Complete(Words(rest))
  {
    hide Words, Trim, ParseSigned, ParseFields, ParsePidStat, Complete;
    if ParsePidStat(s).Some? {
      var head, comm, rest := PartsOfAccepted(s);
      PidIsRead(head, comm, rest);
      FirstWordIsNotEmpty(rest);
      FieldsAccepted(ParseSigned(Trim(head), I32_MIN, I32_MAX).value, comm, Words(rest));
      ParseParts(head, ParseSigned(Trim(head), I32_MIN, I32_MAX).value, comm, rest);
    }
    forall head, comm, rest | Splits(s, head, comm, rest)
                              && ParseSigned(Trim(head), I32_MIN, I32_MAX).Some? && Complete(Words(rest))
      ensures ParsePidStat(s).Some?
    {
      var pid := ParseSigned(Trim(head), I32_MIN, I32_MAX).value;
      FirstWordIsNotEmpty(rest);
      FieldsAccepted(pid, comm, Words(rest));
      ParseParts(head, pid, comm, rest);
    }
  }

  lemma PidIsRead(head: string, comm: string, rest: string)
    requires Free(head, '(') && Free(rest, ')') && ParsePidStat(head + "(" + comm + ")" + rest).Some?
    ensures ParseSigned(Trim(head), I32_MIN, I32_MAX).Some?
  {
    hide Words, Trim, ParseSigned, ParseFields, Find, FindLast;
    Cut(head, comm, rest);
  }

  // ---- round trip of a line ----

  /** Parsing undoes printing: for every record in range and every name, spaces and parentheses
      included, and whatever follows on the line that holds no closing parenthesis. */
  lemma PidStatRoundTrip(p: PidStat, other: seq<string>, tail: string)
    requires InRange(p) && Fillers(other)
    requires Free(tail, ')') && (|tail| > 0 ==> AsciiSpace(tail[0]))
    ensures ParsePidStat(Line(p, other, tail)) == Some(p)
  {
    hide Words, Spaced, Trim, ParseSigned, ParseFields, Fields, IntText, ParsePidStat, IsWord;
    var fields, rest := Fields(p, other), Spaced(Fields(p, other)) + tail;
    FieldsAreWords(p, other);
    SpacedIsFree(fields, ')');
    assert Free(rest, ')');
    PidPart(p.pid);
    ParseParts(IntText(p.pid) + " ", p.pid, p.comm, rest);
    WordsOfSpaced(fields, tail);
    ExtraFieldsIgnored(p.pid, p.comm, fields, Words(tail));
    FieldsParse(p, other);
  }
}
