/** The machine-readable report (src/bin/vitals.rs): one JSON object on one line. */
module Report {
  import opened Prelude
  import opened Procfs
  import opened Delta
  import opened SnapshotMeaning
  import opened Text
  import opened Decimal
  import opened Units
  import opened Json
  import opened AlertEngine
  import opened Rules
  import RuleText
  import Sampler

  // ---- strings ----

  lemma EscapeAllNext(s: string, i: nat)
    requires i < |s|
    ensures "\"" + EscapeAll(s[..i + 1]) == "\"" + EscapeAll(s[..i]) + Escape(s[i])
  {
    hide Escape;
    assert Front(s[..i + 1]) == s[..i];
  }

  method JStr(s: string) returns (o: string)
    ensures o == Quote(s)
  {
    o := "\"";
    assert EscapeAll(s[..0]) == "";
    hide EscapeAll;
    for i := 0 to |s|
      invariant o == "\"" + EscapeAll(s[..i])
    {
      EscapeAllNext(s, i);
      var c := s[i];
      if c == '"' {
        o := o + "\\\"";
      } else if c == '\\' {
        o := o + "\\\\";
      } else if c == '\n' {
        o := o + "\\n";
      } else if c == '\r' {
        o := o + "\\r";
      } else if c == '\t' {
        o := o + "\\t";
      } else if c < ' ' {
        o := o + ("\\u00" + [HexDigit(c as nat / 16), HexDigit(c as nat % 16)]);
      } else {
        o := o + [c];
      }
    }
    assert s[..|s|] == s;
    o := o + "\"";
  }

  // ---- numbers ----

  /** A floating-point number: its exact value, or an infinity or not-a-number. */
  datatype Float = Finite(v: real) | NotFinite

  function Sign(negative: bool): string {
    if negative then "-" else ""
  }

  function Thousandths(v: real): nat {
    Round(AbsReal(v) * 1000.0)
  }

  function JNum(v: Float): string {
    match v
    case Finite(x) => Sign(x < 0.0) + FixedText(Thousandths(x), 3)
    case NotFinite => "null"
  }

  lemma DigitsEndIs(s: string, i: nat, e: nat)
    requires i <= e <= |s| && (forall k :: i <= k < e ==> IsDigit(s[k])) && (e < |s| ==> !IsDigit(s[e]))
    ensures DigitsEnd(s, i) == e
  {
  }

  lemma {:induction false} NoLeadingZero(n: nat)
    ensures NatText(n)[0] == '0' ==> |NatText(n)| == 1
    ensures n > 0 ==> NatText(n)[0] != '0'
  {
    if n >= 10 {
      NoLeadingZero(n / 10);
    }
  }

  /** Every decimal this program prints is a number of RFC 8259. */
  lemma DecimalIsNumeral(negative: bool, m: nat, d: nat)
    ensures var s := Sign(negative) + FixedText(m, d); NumberEnd(s) == Some(|s|)
  {
    var whole, frac := NatText(Whole(m, d)), FractionText(m, d);
    var s, first := Sign(negative) + FixedText(m, d), |Sign(negative)|;
    NoLeadingZero(Whole(m, d));
    hide NatText, FractionText, Whole, DigitsEnd;
    assert forall k :: 0 <= k < |whole| ==> s[first + k] == whole[k];
    DigitsEndIs(s, first, first + |whole|);
    assert s[0] == if negative then '-' else whole[0];
    if d > 0 {
      var point := first + |whole|;
      assert s[point] == '.';
      assert forall k :: 0 <= k < d ==> s[point + 1 + k] == frac[k];
      DigitsEndIs(s, point + 1, |s|);
    }
  }

  function NumTree(v: Float): (j: Json)
    ensures Print(j) == JNum(v)
  {
    match v
    case Finite(x) =>
      DecimalIsNumeral(x < 0.0, Thousandths(x), 3);
      Num(JNum(v))
    case NotFinite => Null
  }

  function IntTree(n: int): (j: Json)
    ensures Print(j) == IntText(n)
  {
    DecimalIsNumeral(n < 0, if n < 0 then -n else n, 0);
    IntIsDecimal(n);
    Num(IntText(n))
  }

  lemma IntIsDecimal(n: int)
    ensures IntText(n) == Sign(n < 0) + FixedText(if n < 0 then -n else n, 0) == SignedText(n, 0)
  {
    var t := NatText(if n < 0 then -n else n);
    assert t + "" == t && "" + t == t;
  }

  /** What a reader of the report takes a number for. */
  function NumberValue(j: Json): Option<real> {
    if j.Num? then ParseReal(j.numeral) else None
  }

  lemma IntSurvives(n: int)
    ensures NumberValue(IntTree(n)) == Some(n as real)
  {
    hide ParseReal, SignedText, Pow10, IntText, FixedText, NatText;
    IntIsDecimal(n);
    ParseRealText(n, 0);
    WholeValue(n as real);
  }

  lemma WholeValue(x: real)
    ensures x / Pow10(0) as real == x
  {
  }

  /** Three decimals are worth half a thousandth. */
  lemma NumberSurvives(x: real)
    ensures var r := NumberValue(NumTree(Finite(x)));
            r.Some? && -0.0005 <= r.value - x <= 0.0005
  {
    hide ParseReal, FixedText, Round;
    var m := Thousandths(x);
    MantissaOfFixed(m, 3);
    FixedTextShape(m, 3);
    assert Pow10(3) == 1000 by {
      assert Pow10(1) == 10 && Pow10(2) == 100;
    }
    ParseRealPlain(FixedText(m, 3), m as real / 1000.0);
    assert "" + FixedText(m, 3) == FixedText(m, 3);
  }

  /** A number is printed as the nearest thousandth, with three digits after the point. */
  lemma ThreeDecimals(x: real) returns (whole: string, frac: string)
    ensures JNum(Finite(x)) == (if x < 0.0 then "-" else "") + whole + "." + frac
    ensures |whole| > 0 && |frac| == 3 && AllDigits(whole) && AllDigits(frac)
    ensures DigitsValue(whole + frac) == Round((if x < 0.0 then -x else x) * 1000.0)
  {
    hide NatText, FractionText, Whole, DigitsValue, Round;
    var m := Thousandths(x);
    whole, frac := NatText(Whole(m, 3)), FractionText(m, 3);
    DigitsOfFixed(m, 3);
    var sign := if x < 0.0 then "-" else "";
    assert sign + (whole + ("." + frac)) == sign + whole + "." + frac;
  }

  // ---- the report ----

  function Shown(snap: Snapshot, top: nat): seq<ProcRate> {
    snap.procs[..Min(top, |snap.procs|)]
  }

  function RateTree(r: Option<real>): Json {
    match r
    case None => Null
    case Some(v) => NumTree(Finite(v))
  }

  function SystemTree(sys: SystemRate): Json {
    Obj([
      Member("cpu_pct", NumTree(Finite(sys.cpuPct))),
      Member("mem_pct", NumTree(Finite(sys.mem.UsedPct()))),
      Member("mem_used", IntTree(sys.mem.Used())),
      Member("mem_total", IntTree(sys.mem.total)),
      Member("net_rx_bps", NumTree(Finite(sys.netRxBps))),
      Member("net_tx_bps", NumTree(Finite(sys.netTxBps))),
      Member("proc_count", IntTree(sys.procCount)),
      Member("vanished", IntTree(sys.vanished)),
      Member("scan_micros", IntTree(sys.scanTime / 1000))])
  }

  function ProcTree(p: ProcRate): Json {
    Obj([
      Member("pid", IntTree(p.pid)),
      Member("ppid", IntTree(p.ppid)),
      Member("comm", Str(p.comm)),
      Member("cpu_pct", NumTree(Finite(p.cpuPct))),
      Member("rss", IntTree(p.rssBytes)),
      Member("threads", IntTree(p.threads)),
      Member("read_bps", RateTree(p.readBps)),
      Member("write_bps", RateTree(p.writeBps))])
  }

  function HeldSeconds(a: Sampler.ActiveAlert): real {
    a.held as real / 1000000000.0
  }

  function AlertTree(a: Sampler.ActiveAlert): Json {
    Obj([
      Member("rule", Str(a.rule)),
      Member("subject", Str(a.subject)),
      Member("firing_secs", NumTree(Finite(HeldSeconds(a))))])
  }

  function ProcTrees(procs: seq<ProcRate>): (js: seq<Json>)
    ensures |js| == |procs| && forall i :: 0 <= i < |js| ==> js[i] == ProcTree(procs[i])
  {
    seq(|procs|, i requires 0 <= i < |procs| => ProcTree(procs[i]))
  }

  function AlertTrees(alerts: seq<Sampler.ActiveAlert>): (js: seq<Json>)
    ensures |js| == |alerts| && forall i :: 0 <= i < |js| ==> js[i] == AlertTree(alerts[i])
  {
    seq(|alerts|, i requires 0 <= i < |alerts| => AlertTree(alerts[i]))
  }

  function ReportTree(snap: Snapshot, alerts: seq<Sampler.ActiveAlert>, top: nat): Json {
    Obj([
      Member("system", SystemTree(snap.system)),
      Member("procs", Arr(ProcTrees(Shown(snap, top)))),
      Member("alerts", Arr(AlertTrees(alerts)))])
  }

  /** A member as it is written: a comma unless it is the first, the name, a colon, the value. */
  function Field(k: nat, name: string, text: string): string {
    Comma(k) + ("\"" + name + "\"") + ":" + text
  }

  ghost predicate Plain(s: string) {
    forall i :: 0 <= i < |s| ==> IsPlain(s[i])
  }

  lemma FieldIsMember(k: nat, name: string, text: string)
    requires Plain(name)
    ensures Field(k, name, text) == Comma(k) + Quote(name) + ":" + text
  {
    PlainText(name);
    hide EscapeAll, Comma;
  }

  lemma Moved(s: string, f: string, rest: string, tail: string)
    ensures s + (f + rest) + tail == (s + f) + rest + tail
  {
  }

  /** `s` is the beginning of `whole`, and what is missing is the members of `j` from `k` on, then `tail`. */
  ghost predicate Owes(s: string, j: Json, k: nat, tail: string, whole: string)
    requires j.Obj? && k <= |j.members|
  {
    s + MembersFrom(j, k) + tail == whole
  }

  ghost predicate OwesItems(s: string, j: Json, k: nat, tail: string, whole: string)
    requires j.Arr? && k <= |j.items|
  {
    s + ItemsFrom(j, k) + tail == whole
  }

  lemma ObjectOpened(j: Json)
    requires j.Obj?
    ensures Owes("{", j, 0, "", Print(j))
  {
    assert Print(j) + "" == Print(j);
  }

  lemma ObjectClosed(s: string, j: Json, tail: string, whole: string)
    requires j.Obj? && Owes(s, j, |j.members|, tail, whole)
    ensures s + "}" + tail == whole
  {
  }

  /** Writes one member. */
  method Put(s: string, ghost j: Json, k: nat, name: string, text: string, ghost tail: string, ghost whole: string)
    returns (r: string)
    requires j.Obj? && k < |j.members| && j.members[k].name == name && Print(j.members[k].value) == text
    requires Plain(name)
    requires Owes(s, j, k, tail, whole)
    ensures Owes(r, j, k + 1, tail, whole)
  {
    r := s + Field(k, name, text);
    hide Print, Comma, Quote, Field;
    FieldIsMember(k, name, text);
    Moved(s, Field(k, name, text), MembersFrom(j, k + 1), tail);
  }

  /** Writes the name of a member that is an array, and the opening bracket. */
  method Open(s: string, ghost j: Json, k: nat, name: string, ghost whole: string) returns (r: string)
    requires j.Obj? && k < |j.members| && j.members[k].name == name && j.members[k].value.Arr?
    requires Plain(name)
    requires Owes(s, j, k, "", whole)
    ensures OwesItems(r, j.members[k].value, 0, MembersFrom(j, k + 1), whole)
  {
    r := s + Field(k, name, "[");
    ghost var items, rest := ItemsFrom(j.members[k].value, 0), MembersFrom(j, k + 1);
    FieldIsMember(k, name, "[");
    assert MembersFrom(j, k) == Comma(k) + Quote(name) + ":" + ("[" + items) + rest;
    hide Comma, Quote, Field, MembersFrom, ItemsFrom;
    assert MembersFrom(j, k) == Field(k, name, "[") + items + rest;
    Regrouped(s, Field(k, name, "["), items, rest);
  }

  /** Writes one item. */
  method Append(s: string, ghost j: Json, k: nat, text: string, ghost tail: string, ghost whole: string)
    returns (r: string)
    requires j.Arr? && k < |j.items| && Print(j.items[k]) == text && OwesItems(s, j, k, tail, whole)
    ensures OwesItems(r, j, k + 1, tail, whole)
  {
    r := s;
    if k > 0 {
      r := r + ",";
    }
    r := r + text;
    hide Print;
    Moved(s, Comma(k) + text, ItemsFrom(j, k + 1), tail);
  }

  lemma ArrayClosed(s: string, j: Json, tail: string, whole: string)
    requires j.Arr? && OwesItems(s, j, |j.items|, tail, whole)
    ensures s + "]" + tail == whole
  {
  }

  function RateText(r: Option<real>): string {
    match r
    case None => "null"
    case Some(v) => JNum(Finite(v))
  }

  lemma SystemMembers(sys: SystemRate)
    ensures var j := SystemTree(sys);
            && j.Obj? && |j.members| == 9
            && j.members[0] == Member("cpu_pct", NumTree(Finite(sys.cpuPct)))
            && j.members[1] == Member("mem_pct", NumTree(Finite(sys.mem.UsedPct())))
            && j.members[2] == Member("mem_used", IntTree(sys.mem.Used()))
            && j.members[3] == Member("mem_total", IntTree(sys.mem.total))
            && j.members[4] == Member("net_rx_bps", NumTree(Finite(sys.netRxBps)))
            && j.members[5] == Member("net_tx_bps", NumTree(Finite(sys.netTxBps)))
            && j.members[6] == Member("proc_count", IntTree(sys.procCount))
            && j.members[7] == Member("vanished", IntTree(sys.vanished))
            && j.members[8] == Member("scan_micros", IntTree(sys.scanTime / 1000))
    ensures Plain("cpu_pct") && Plain("mem_pct") && Plain("mem_used") && Plain("mem_total")
    ensures Plain("net_rx_bps") && Plain("net_tx_bps") && Plain("proc_count")
    ensures Plain("vanished") && Plain("scan_micros")
  {
    PlainSystemNames();
    hide IntTree, NumTree, Print, JNum, IntText, MemInfo.UsedPct, MemInfo.Used, Plain;
  }

  lemma PlainSystemNames()
    ensures Plain("cpu_pct") && Plain("mem_pct") && Plain("mem_used") && Plain("mem_total")
    ensures Plain("net_rx_bps") && Plain("net_tx_bps") && Plain("proc_count")
    ensures Plain("vanished") && Plain("scan_micros")
  {
  }

  lemma ProcMembers(p: ProcRate)
    ensures var j := ProcTree(p);
            && j.Obj? && |j.members| == 8
            && j.members[0] == Member("pid", IntTree(p.pid))
            && j.members[1] == Member("ppid", IntTree(p.ppid))
            && j.members[2] == Member("comm", Str(p.comm))
            && j.members[3] == Member("cpu_pct", NumTree(Finite(p.cpuPct)))
            && j.members[4] == Member("rss", IntTree(p.rssBytes))
            && j.members[5] == Member("threads", IntTree(p.threads))
            && j.members[6] == Member("read_bps", RateTree(p.readBps))
            && j.members[7] == Member("write_bps", RateTree(p.writeBps))
    ensures Plain("pid") && Plain("ppid") && Plain("comm") && Plain("cpu_pct")
    ensures Plain("rss") && Plain("threads") && Plain("read_bps") && Plain("write_bps")
  {
    hide IntTree, NumTree, RateTree, Print, JNum, IntText;
  }

  lemma AlertMembers(a: Sampler.ActiveAlert)
    ensures var j := AlertTree(a);
            && j.Obj? && |j.members| == 3
            && j.members[0] == Member("rule", Str(a.rule))
            && j.members[1] == Member("subject", Str(a.subject))
            && j.members[2] == Member("firing_secs", NumTree(Finite(HeldSeconds(a))))
    ensures Plain("rule") && Plain("subject") && Plain("firing_secs")
  {
    hide IntTree, NumTree, Print, JNum, IntText;
  }

  lemma ReportMembers(snap: Snapshot, alerts: seq<Sampler.ActiveAlert>, top: nat)
    ensures var j := ReportTree(snap, alerts, top);
            && j.Obj? && |j.members| == 3
            && j.members[0] == Member("system", SystemTree(snap.system))
            && j.members[1] == Member("procs", Arr(ProcTrees(Shown(snap, top))))
            && j.members[2] == Member("alerts", Arr(AlertTrees(alerts)))
    ensures Plain("system") && Plain("procs") && Plain("alerts")
  {
    hide SystemTree, ProcTrees, AlertTrees, Shown;
  }

  method SystemText(sys: SystemRate) returns (s: string)
    ensures s == Print(SystemTree(sys))
  {
    hide Owes, Plain, Print, JNum, Quote, IntText, IntTree, NumTree, SystemTree;
    SystemMembers(sys);
    ghost var j, whole := SystemTree(sys), Print(SystemTree(sys));
    ObjectOpened(j);
    s := "{";
    s := Put(s, j, 0, "cpu_pct", JNum(Finite(sys.cpuPct)), "", whole);
    s := Put(s, j, 1, "mem_pct", JNum(Finite(sys.mem.UsedPct())), "", whole);
    s := Put(s, j, 2, "mem_used", IntText(sys.mem.Used()), "", whole);
    s := Put(s, j, 3, "mem_total", IntText(sys.mem.total), "", whole);
    s := Put(s, j, 4, "net_rx_bps", JNum(Finite(sys.netRxBps)), "", whole);
    s := Put(s, j, 5, "net_tx_bps", JNum(Finite(sys.netTxBps)), "", whole);
    s := Put(s, j, 6, "proc_count", IntText(sys.procCount), "", whole);
    s := Put(s, j, 7, "vanished", IntText(sys.vanished), "", whole);
    s := Put(s, j, 8, "scan_micros", IntText(sys.scanTime / 1000), "", whole);
    ObjectClosed(s, j, "", whole);
    s := s + "}";
  }

  method ProcText(p: ProcRate) returns (s: string)
    ensures s == Print(ProcTree(p))
  {
    hide Owes, Plain, Print, JNum, Quote, IntText, IntTree, NumTree, RateText, RateTree, ProcTree;
    ProcMembers(p);
    ghost var j, whole := ProcTree(p), Print(ProcTree(p));
    var comm := JStr(p.comm);
    RateIsText(p.readBps);
    RateIsText(p.writeBps);
    ObjectOpened(j);
    StringIsText(p.comm);
    s := "{";
    s := Put(s, j, 0, "pid", IntText(p.pid), "", whole);
    s := Put(s, j, 1, "ppid", IntText(p.ppid), "", whole);
    s := Put(s, j, 2, "comm", comm, "", whole);
    s := Put(s, j, 3, "cpu_pct", JNum(Finite(p.cpuPct)), "", whole);
    s := Put(s, j, 4, "rss", IntText(p.rssBytes), "", whole);
    s := Put(s, j, 5, "threads", IntText(p.threads), "", whole);
    s := Put(s, j, 6, "read_bps", RateText(p.readBps), "", whole);
    s := Put(s, j, 7, "write_bps", RateText(p.writeBps), "", whole);
    ObjectClosed(s, j, "", whole);
    s := s + "}";
  }

  lemma StringIsText(s: string)
    ensures Print(Str(s)) == Quote(s)
  {
  }

  lemma RateIsText(r: Option<real>)
    ensures Print(RateTree(r)) == RateText(r)
  {
  }

  method AlertText(a: Sampler.ActiveAlert) returns (s: string)
    ensures s == Print(AlertTree(a))
  {
    hide Owes, Plain, Print, JNum, Quote, NumTree, AlertTree;
    AlertMembers(a);
    ghost var j, whole := AlertTree(a), Print(AlertTree(a));
    var rule := JStr(a.rule);
    var subject := JStr(a.subject);
    ObjectOpened(j);
    StringIsText(a.rule);
    StringIsText(a.subject);
    s := "{";
    s := Put(s, j, 0, "rule", rule, "", whole);
    s := Put(s, j, 1, "subject", subject, "", whole);
    s := Put(s, j, 2, "firing_secs", JNum(Finite(HeldSeconds(a))), "", whole);
    ObjectClosed(s, j, "", whole);
    s := s + "}";
  }

  /** The whole report (`render_json`). */
  method RenderJson(snap: Snapshot, shared: Sampler.Shared, top: nat) returns (s: string)
    ensures s == Print(ReportTree(snap, shared.active, top))
  {
    hide Owes, OwesItems, Plain, Print, Quote, MembersFrom, ItemsFrom, ProcTree, AlertTree, SystemTree, ReportTree;
    ghost var alerts := shared.active;
    ReportMembers(snap, alerts, top);
    ghost var j := ReportTree(snap, alerts, top);
    ghost var whole, tail := Print(j), MembersFrom(j, 2);
    ghost var rows, list := Arr(ProcTrees(Shown(snap, top))), Arr(AlertTrees(alerts));
    ObjectOpened(j);
    TailAfterItems(j);
    s := "{";
    var system := SystemText(snap.system);
    s := Put(s, j, 0, "system", system, "", whole);
    s := Open(s, j, 1, "procs", whole);
    for i := 0 to Min(top, |snap.procs|)
      invariant OwesItems(s, rows, i, tail, whole)
    {
      var text := ProcText(snap.procs[i]);
      s := Append(s, rows, i, text, tail, whole);
    }
    ArrayClosed(s, rows, tail, whole);
    s := s + "]";
    OwesRest(s, j, 2, whole);
    s := Open(s, j, 2, "alerts", whole);
    for i := 0 to |shared.active|
      invariant OwesItems(s, list, i, "}", whole)
    {
      var text := AlertText(shared.active[i]);
      s := Append(s, list, i, text, "}", whole);
    }
    ArrayClosed(s, list, "}", whole);
    s := s + "]" + "}";
  }

  lemma TailAfterItems(j: Json)
    requires j.Obj? && |j.members| == 3
    ensures MembersFrom(j, 3) == "}"
  {
  }

  lemma OwesRest(s: string, j: Json, k: nat, whole: string)
    requires j.Obj? && k <= |j.members| && s + MembersFrom(j, k) == whole
    ensures Owes(s, j, k, "", whole)
  {
    assert s + MembersFrom(j, k) + "" == whole;
  }

  // ---- what a reader of the report learns ----

  /** The object has exactly one member of this name, with this value. */
  ghost predicate Has(j: Json, name: string, value: Json) {
    j.Obj? && Member(name, value) in j.members &&
    forall m :: m in j.members && m.name == name ==> m.value == value
  }

  ghost predicate HasInt(j: Json, name: string, n: int) {
    exists v :: Has(j, name, v) && NumberValue(v) == Some(n as real)
  }

  ghost predicate HasReal(j: Json, name: string, x: real) {
    exists v :: Has(j, name, v) && NumberValue(v).Some? && -0.0005 <= NumberValue(v).value - x <= 0.0005
  }

  ghost predicate HasRate(j: Json, name: string, r: Option<real>) {
    match r
    case None => Has(j, name, Null)
    case Some(x) => HasReal(j, name, x)
  }

  ghost predicate ShowsProcess(j: Json, p: ProcRate) {
    && HasInt(j, "pid", p.pid) && HasInt(j, "ppid", p.ppid) && Has(j, "comm", Str(p.comm))
    && HasReal(j, "cpu_pct", p.cpuPct) && HasInt(j, "rss", p.rssBytes) && HasInt(j, "threads", p.threads)
    && HasRate(j, "read_bps", p.readBps) && HasRate(j, "write_bps", p.writeBps)
  }

  ghost predicate ShowsAlert(j: Json, a: Sampler.ActiveAlert) {
    && Has(j, "rule", Str(a.rule)) && Has(j, "subject", Str(a.subject))
    && HasReal(j, "firing_secs", a.held as real / 1000000000.0)
  }

  ghost predicate ShowsSystem(j: Json, sys: SystemRate) {
    && HasReal(j, "cpu_pct", sys.cpuPct)
    && (exists pct :: IsMemShare(pct, sys.mem) && HasReal(j, "mem_pct", pct))
    && HasInt(j, "mem_used", MemInUse(sys.mem)) && HasInt(j, "mem_total", sys.mem.total)
    && HasReal(j, "net_rx_bps", sys.netRxBps) && HasReal(j, "net_tx_bps", sys.netTxBps)
    && HasInt(j, "proc_count", sys.procCount) && HasInt(j, "vanished", sys.vanished)
    && HasInt(j, "scan_micros", sys.scanTime / 1000)
  }

  ghost predicate DistinctNames(j: Json) {
    j.Obj? && forall a, b :: 0 <= a < b < |j.members| ==> j.members[a].name != j.members[b].name
  }

  lemma MemberIsFound(j: Json, k: nat)
    requires DistinctNames(j) && k < |j.members|
    ensures Has(j, j.members[k].name, j.members[k].value)
  {
  }

  lemma IntIsFound(j: Json, name: string, n: int)
    requires Has(j, name, IntTree(n))
    ensures HasInt(j, name, n)
  {
    IntSurvives(n);
  }

  lemma RealIsFound(j: Json, name: string, x: real)
    requires Has(j, name, NumTree(Finite(x)))
    ensures HasReal(j, name, x)
  {
    NumberSurvives(x);
  }

  lemma SystemNames(sys: SystemRate)
    ensures DistinctNames(SystemTree(sys))
  {
    hide SystemTree, Plain, IntTree, NumTree, Print, JNum, IntText;
    SystemMembers(sys);
  }

  lemma ProcNames(p: ProcRate)
    ensures DistinctNames(ProcTree(p))
  {
    hide ProcTree, Plain, IntTree, NumTree, RateTree, Print, JNum, IntText;
    ProcMembers(p);
  }

  lemma AlertNames(a: Sampler.ActiveAlert)
    ensures DistinctNames(AlertTree(a))
  {
    hide AlertTree, Plain, NumTree, Print, JNum;
    AlertMembers(a);
  }

  lemma ReportNames(snap: Snapshot, alerts: seq<Sampler.ActiveAlert>, top: nat)
    ensures DistinctNames(ReportTree(snap, alerts, top))
  {
    hide ReportTree, SystemTree, ProcTree, AlertTree, ProcTrees, AlertTrees, Shown, Plain;
    ReportMembers(snap, alerts, top);
  }

  lemma MembersAreFound(j: Json)
    requires DistinctNames(j)
    ensures forall k :: 0 <= k < |j.members| ==> Has(j, j.members[k].name, j.members[k].value)
  {
    hide Has;
    forall k | 0 <= k < |j.members| ensures Has(j, j.members[k].name, j.members[k].value) {
      MemberIsFound(j, k);
    }
  }

  lemma SystemIsShown(sys: SystemRate)
    ensures ShowsSystem(SystemTree(sys), sys)
  {
    hide SystemTree, Plain, IntTree, NumTree, Print, JNum, IntText, Has, HasInt, HasReal, DistinctNames;
    var j := SystemTree(sys);
    UsedIsShare(sys.mem);
    SystemMembers(sys);
    SystemNames(sys);
    MembersAreFound(j);
    RealIsFound(j, "cpu_pct", sys.cpuPct);
    RealIsFound(j, "mem_pct", sys.mem.UsedPct());
    IntIsFound(j, "mem_used", sys.mem.Used());
    IntIsFound(j, "mem_total", sys.mem.total);
    RealIsFound(j, "net_rx_bps", sys.netRxBps);
    RealIsFound(j, "net_tx_bps", sys.netTxBps);
    IntIsFound(j, "proc_count", sys.procCount);
    IntIsFound(j, "vanished", sys.vanished);
    IntIsFound(j, "scan_micros", sys.scanTime / 1000);
  }

  lemma RateIsFound(j: Json, name: string, r: Option<real>)
    requires Has(j, name, RateTree(r))
    ensures HasRate(j, name, r)
  {
    if r.Some? {
      RealIsFound(j, name, r.value);
    }
  }

  lemma ProcessIsShown(p: ProcRate)
    ensures ShowsProcess(ProcTree(p), p)
  {
    hide ProcTree, Plain, IntTree, NumTree, RateTree, Print, JNum, IntText, Has, HasInt, HasReal, HasRate,
      DistinctNames;
    var j := ProcTree(p);
    ProcMembers(p);
    ProcNames(p);
    MembersAreFound(j);
    IntIsFound(j, "pid", p.pid);
    IntIsFound(j, "ppid", p.ppid);
    RealIsFound(j, "cpu_pct", p.cpuPct);
    IntIsFound(j, "rss", p.rssBytes);
    IntIsFound(j, "threads", p.threads);
    RateIsFound(j, "read_bps", p.readBps);
    RateIsFound(j, "write_bps", p.writeBps);
  }

  lemma AlertIsShown(a: Sampler.ActiveAlert)
    ensures ShowsAlert(AlertTree(a), a)
  {
    hide AlertTree, Plain, NumTree, Print, JNum, Has, HasReal, DistinctNames;
    var j := AlertTree(a);
    AlertMembers(a);
    AlertNames(a);
    MembersAreFound(j);
    RealIsFound(j, "firing_secs", HeldSeconds(a));
  }

  ghost predicate ShowsProcesses(rows: seq<Json>, procs: seq<ProcRate>) {
    |rows| == |procs| && forall i :: 0 <= i < |rows| ==> ShowsProcess(rows[i], procs[i])
  }

  ghost predicate ShowsAlerts(rows: seq<Json>, alerts: seq<Sampler.ActiveAlert>) {
    |rows| == |alerts| && forall i :: 0 <= i < |rows| ==> ShowsAlert(rows[i], alerts[i])
  }

  /** The document shows the system, the first `top` processes and every active alert, in order. */
  ghost predicate Shows(doc: Json, snap: Snapshot, alerts: seq<Sampler.ActiveAlert>, top: nat) {
    && (exists sys :: Has(doc, "system", sys) && ShowsSystem(sys, snap.system))
    && (exists rows :: Has(doc, "procs", Arr(rows)) && ShowsProcesses(rows, snap.procs[..Min(top, |snap.procs|)]))
    && (exists rows :: Has(doc, "alerts", Arr(rows)) && ShowsAlerts(rows, alerts))
  }

  lemma TreeShows(snap: Snapshot, alerts: seq<Sampler.ActiveAlert>, top: nat)
    ensures Shows(ReportTree(snap, alerts, top), snap, alerts, top)
  {
    hide ReportTree, SystemTree, ProcTree, AlertTree, Plain, Has, DistinctNames, ShowsSystem, ShowsProcess, ShowsAlert;
    var j := ReportTree(snap, alerts, top);
    ReportMembers(snap, alerts, top);
    ReportNames(snap, alerts, top);
    MembersAreFound(j);
    SystemIsShown(snap.system);
    var rows, list := ProcTrees(Shown(snap, top)), AlertTrees(alerts);
    forall i | 0 <= i < |rows| ensures ShowsProcess(rows[i], Shown(snap, top)[i]) {
      ProcessIsShown(Shown(snap, top)[i]);
    }
    forall i | 0 <= i < |list| ensures ShowsAlert(list[i], alerts[i]) {
      AlertIsShown(alerts[i]);
    }
    assert Has(j, "system", SystemTree(snap.system)) && Has(j, "procs", Arr(rows)) && Has(j, "alerts", Arr(list));
  }

  /** Whatever characters the names hold, the report is one JSON text on one line, and reading it
      recovers the system figures, each listed process and each alert. */
  lemma ReportIsReadable(snap: Snapshot, alerts: seq<Sampler.ActiveAlert>, top: nat, s: string)
    requires s == Print(ReportTree(snap, alerts, top))
    ensures Printable(s)
    ensures ReadText(s).Some? && Shows(ReadText(s).value, snap, alerts, top)
  {
    hide ReportTree, Print, Printable, Shows, ReadText;
    PrintIsPrintable(ReportTree(snap, alerts, top));
    TextRoundTrip(ReportTree(snap, alerts, top));
    TreeShows(snap, alerts, top);
  }

  // ---- the report and the rules speak of the same figures ----

  lemma IntIsReal(j: Json, name: string, n: int)
    requires HasInt(j, name, n)
    ensures HasReal(j, name, n as real)
  {
    hide Has, NumberValue;
  }

  lemma SystemFigure(sys: SystemRate, j: Json, m: Metric)
    requires ShowsSystem(j, sys) && SystemValue(m, sys).Some?
    ensures HasReal(j, RuleText.MetricName(m), SystemValue(m, sys).value)
  {
    hide HasInt, HasReal;
    if m == ProcCount {
      IntIsReal(j, "proc_count", sys.procCount);
    } else if m == MemPct {
      var pct :| IsMemShare(pct, sys.mem) && HasReal(j, "mem_pct", pct);
      UsedIsShare(sys.mem);
      OneMemShare(pct, sys.mem.UsedPct(), sys.mem);
    }
  }

  lemma ProcessFigure(p: ProcRate, j: Json, m: Metric)
    requires ShowsProcess(j, p) && ProcValue(m, p).Some?
    ensures HasReal(j, RuleText.MetricName(m), ProcValue(m, p).value)
  {
    hide HasInt, HasReal;
    if m == Rss {
      IntIsReal(j, "rss", p.rssBytes);
    } else if m == Threads {
      IntIsReal(j, "threads", p.threads);
    }
  }

  /** Reading the report recovers, under the name of each metric of the system, the value a system
      rule on that metric is evaluated on. */
  lemma SystemRulesMatchTheReport(snap: Snapshot, alerts: seq<Sampler.ActiveAlert>, top: nat, s: string, m: Metric)
    requires s == Print(ReportTree(snap, alerts, top)) && SystemValue(m, snap.system).Some?
    ensures ReadText(s).Some?
    ensures exists sys :: Has(ReadText(s).value, "system", sys)
                          && HasReal(sys, RuleText.MetricName(m), SystemValue(m, snap.system).value)
  {
    hide ReadText, ReportTree, Print, Has, HasReal, ShowsSystem, ShowsProcesses, ShowsAlerts, SystemValue;
    ReportIsReadable(snap, alerts, top, s);
    var doc := ReadText(s).value;
    var sys :| Has(doc, "system", sys) && ShowsSystem(sys, snap.system);
    SystemFigure(snap.system, sys, m);
  }

  /** And the same for each process it lists. */
  lemma ProcessRulesMatchTheReport(snap: Snapshot, alerts: seq<Sampler.ActiveAlert>, top: nat, s: string,
                                   i: nat, m: Metric)
    requires s == Print(ReportTree(snap, alerts, top))
    requires i < Min(top, |snap.procs|) && ProcValue(m, snap.procs[i]).Some?
    ensures ReadText(s).Some?
    ensures exists rows :: Has(ReadText(s).value, "procs", Arr(rows)) && i < |rows|
                           && HasReal(rows[i], RuleText.MetricName(m), ProcValue(m, snap.procs[i]).value)
  {
    hide ReadText, ReportTree, Print, Has, HasReal, ShowsSystem, ShowsProcess, ShowsAlerts, ProcValue;
    ReportIsReadable(snap, alerts, top, s);
    var doc, procs := ReadText(s).value, snap.procs[..Min(top, |snap.procs|)];
    var rows :| Has(doc, "procs", Arr(rows)) && ShowsProcesses(rows, procs);
    assert procs[i] == snap.procs[i];
    ProcessFigure(snap.procs[i], rows[i], m);
  }

  // ---- the report and the sampler ----

  /** A report made under the read lock, at any moment of any run: it shows the last snapshot of a
      whole number of turns of the engine, and the alerts that were on after those very turns. */
  lemma ReportsShowWholeCycles(cfg: Sampler.Config, moves: seq<Sampler.Move>, w: Sampler.World, top: nat, s: string)
    returns (n: nat)
    requires Sampler.IsExecution(cfg, moves, w) && w.lock != Sampler.Writing && w.shared.latest.Some?
    requires s == Print(ReportTree(w.shared.latest.value, w.shared.active, top))
    ensures 0 < n <= |w.turns| <= n + 1
    ensures ReadText(s).Some? && Shows(ReadText(s).value, w.turns[n - 1].snap, w.shared.active, top)
    ensures |w.published| > 0
            && Sampler.ShowsActive(cfg, w.turns[..n], w.samples, Last(w.published), w.shared.active)
  {
    hide Print, ReportTree, ReadText, Shows, Sampler.IsExecution, Sampler.ShowsActive, Sampler.Publish,
      Sampler.TellsTurns, Sampler.Describes;
    n := Sampler.ReadersSeeWholeCycles(cfg, moves, w);
    ReportIsReadable(w.shared.latest.value, w.shared.active, top, s);
  }
}
