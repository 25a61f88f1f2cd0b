/** What a snapshot says, field by field, in terms of the two samples it was computed from
    (src/delta.rs). */
module SnapshotMeaning {
  import opened Prelude
  import opened Procfs
  import opened Delta

  // ---- rates ----

  /** `rate` is what a counter gained per second between two readings `nanos` nanoseconds apart; a
      counter that went back and an empty interval give zero. */
  predicate IsRate(rate: real, before: nat, now: nat, nanos: int) {
    if nanos <= 0 || now <= before then rate == 0.0
    else rate * nanos as real == (now - before) as real * 1000000000.0
  }

  lemma RateIsRate(before: nat, now: nat, prev: Sample, cur: Sample)
    ensures IsRate(Rate(now, before, Seconds(prev, cur)), before, now, cur.at - prev.at)
  {
    var secs, rate := Seconds(prev, cur), Rate(now, before, Seconds(prev, cur));
    if prev.at < cur.at {
      assert rate * secs == SatSub(now, before) as real;
      assert (cur.at - prev.at) as real == secs * 1000000000.0;
      Associated(rate, secs, 1000000000.0);
    }
  }

  lemma Associated(a: real, b: real, c: real)
    ensures a * (b * c) == (a * b) * c
  {
  }

  // ---- the row of a process ----

  datatype Gauge = Cpu | Io(counter: IoCounter)

  /** CPU time is counted in clock ticks, in user and in kernel mode together. */
  function CounterOf(g: Gauge, s: Sample, key: ProcKey): Option<nat> {
    if key !in s.procs then None
    else
      var p := s.procs[key];
      match g
      case Cpu => Some(p.stat.utime + p.stat.stime)
      case Io(c) =>
        if p.io.None? then None
        else
          match c
          case RChar => Some(p.io.value.rchar)
          case WChar => Some(p.io.value.wchar)
          case ReadBytes => Some(p.io.value.readBytes)
          case WriteBytes => Some(p.io.value.writeBytes)
  }

  /** Clock ticks per second, from a percentage of one core. */
  function InTicks(k: SysConst, pct: real): real {
    pct * k.clkTck as real / 100.0
  }

  /** What a row says is consumed per second, in the unit of the counter: bytes, or clock ticks
      when the row gives a percentage of one core. */
  function PerSecond(k: SysConst, g: Gauge, row: ProcRate): Option<real> {
    match g
    case Cpu => Some(InTicks(k, row.cpuPct))
    case Io(ReadBytes) => row.readBps
    case Io(WriteBytes) => row.writeBps
    case Io(RChar) => row.rcharBps
    case Io(WChar) => row.wcharBps
  }

  /** There is a rate exactly when there is a counter now; with no counter before, it is zero. */
  ghost predicate GaugeTells(k: SysConst, g: Gauge, prev: Sample, cur: Sample, row: ProcRate) {
    match (CounterOf(g, prev, row.key), CounterOf(g, cur, row.key))
    case (_, None) => PerSecond(k, g, row) == None
    case (None, Some(_)) => PerSecond(k, g, row) == Some(0.0)
    case (Some(before), Some(now)) =>
      PerSecond(k, g, row).Some? && IsRate(PerSecond(k, g, row).value, before, now, cur.at - prev.at)
  }

  ghost predicate RowTells(k: SysConst, prev: Sample, cur: Sample, row: ProcRate) {
    && row.key in cur.procs
    && (var p := cur.procs[row.key];
        && row.pid == p.stat.pid && row.ppid == p.stat.ppid && row.comm == p.stat.comm && row.state == p.stat.state
        && row.threads == p.stat.numThreads && row.vsizeBytes == p.stat.vsize && row.sockets == p.sockets
        && row.rssBytes == if p.stat.rssPages > 0 then p.stat.rssPages * k.pageSize else 0)
    && (row.isNew <==> row.key !in prev.procs)
    && forall g: Gauge :: GaugeTells(k, g, prev, cur, row)
  }

  lemma ShareTellsTicks(k: SysConst, prev: Sample, cur: Sample, key: ProcKey)
    requires key in cur.procs
    ensures GaugeTells(k, Cpu, prev, cur, ProcRateOf(k, prev, cur, key))
  {
    hide IoRate, Rate;
    var row := ProcRateOf(k, prev, cur, key);
    var secs, hz := Seconds(prev, cur), k.clkTck as real;
    var nanos := cur.at - prev.at;
    if key in prev.procs && nanos > 0 {
      var before, now := CounterOf(Cpu, prev, key).value, CounterOf(Cpu, cur, key).value;
      assert nanos as real == secs * 1000000000.0;
      TicksPerSecond(SatSub(now, before) as real, hz, secs);
    }
  }

  lemma TicksPerSecond(ticks: real, hz: real, secs: real)
    requires hz > 0.0 && secs > 0.0 && ticks >= 0.0
    ensures var pct := ticks / (hz * secs) * 100.0;
            pct * hz / 100.0 * (secs * 1000000000.0) == ticks * 1000000000.0 && (ticks == 0.0 ==> pct == 0.0)
  {
    var q := ticks / (hz * secs);
    assert hz * secs > 0.0;
    assert q * (hz * secs) == ticks;
    assert (q * 100.0) * hz / 100.0 == q * hz;
    Associated(q, hz, secs);
    Associated(q * hz, secs, 1000000000.0);
  }

  lemma IoRateTellsBytes(k: SysConst, c: IoCounter, prev: Sample, cur: Sample, key: ProcKey)
    requires key in cur.procs
    ensures GaugeTells(k, Io(c), prev, cur, ProcRateOf(k, prev, cur, key))
  {
    hide IsRate, Rate, CpuShare, Seconds;
    var before, now := CounterOf(Io(c), prev, key), CounterOf(Io(c), cur, key);
    if before.Some? && now.Some? {
      RateIsRate(before.value, now.value, prev, cur);
    }
  }

  /** Every row of the table tells of its own process in the later sample, and of what it consumed
      since the earlier one. */
  lemma RowsTellTheSamples(k: SysConst, prev: Sample, cur: Sample, snap: Snapshot, row: ProcRate)
    requires IsDiff(k, prev, cur, snap) && row in snap.procs
    ensures RowTells(k, prev, cur, row)
  {
    hide GaugeTells, IoRate, CpuShare, Seconds;
    forall g: Gauge ensures GaugeTells(k, g, prev, cur, row) {
      match g
      case Cpu => ShareTellsTicks(k, prev, cur, row.key);
      case Io(c) => IoRateTellsBytes(k, c, prev, cur, row.key);
    }
  }

  // ---- the system ----

  /** Time spent working between two readings of a CPU line; guest time is part of user time. */
  function BusyDelta(p: CpuTimes, c: CpuTimes): int {
    c.user - p.user + c.nice - p.nice + c.system - p.system + c.irq - p.irq + c.softirq - p.softirq + c.steal - p.steal
  }

  function TotalDelta(p: CpuTimes, c: CpuTimes): int {
    BusyDelta(p, c) + c.idle - p.idle + c.iowait - p.iowait
  }

  /** `pct` per cent of `total` is `busy`. */
  predicate IsShare(pct: real, busy: int, total: int) {
    pct * total as real == 100.0 * busy as real
  }

  /** The share of busy time, whatever the counters did in between. */
  predicate IsCpuShare(pct: real, p: CpuTimes, c: CpuTimes) {
    var busy, total := BusyDelta(p, c), TotalDelta(p, c);
    if total <= 0 || busy <= 0 then pct == 0.0
    else if busy >= total then pct == 100.0
    else IsShare(pct, busy, total)
  }

  lemma RatioIsShare(p: CpuTimes, c: CpuTimes)
    ensures IsCpuShare(CpuRatio(p, c), p, c)
  {
    hide Pct, IsShare;
    var busy, total := SatSub(c.Busy(), p.Busy()), SatSub(c.Total(), p.Total());
    assert BusyDelta(p, c) == c.Busy() - p.Busy() && TotalDelta(p, c) == c.Total() - p.Total();
    PctMeaning(busy, total);
  }

  lemma PctMeaning(busy: nat, total: nat)
    ensures total == 0 || busy == 0 ==> Pct(busy, total) == 0.0
    ensures busy >= total > 0 ==> Pct(busy, total) == 100.0
    ensures 0 < busy < total ==> IsShare(Pct(busy, total), busy, total)
  {
    if total > 0 {
      var q := busy as real / total as real;
      assert q * total as real == busy as real;
      if busy >= total {
        assert q >= 1.0;
      } else {
        assert 0.0 <= q <= 1.0;
        assert (q * 100.0) * total as real == 100.0 * (q * total as real);
      }
    }
  }

  // ---- memory ----

  /** What is neither free nor reclaimable. */
  function MemInUse(mem: MemInfo): nat {
    if mem.total > mem.available then mem.total - mem.available else 0
  }

  predicate IsMemShare(pct: real, mem: MemInfo) {
    if mem.total == 0 then pct == 0.0 else IsShare(pct, MemInUse(mem), mem.total)
  }

  lemma UsedIsShare(mem: MemInfo)
    ensures mem.Used() == MemInUse(mem) && IsMemShare(mem.UsedPct(), mem)
  {
    if mem.total > 0 {
      var q := mem.Used() as real / mem.total as real;
      assert q * mem.total as real == mem.Used() as real;
    }
  }

  lemma OneMemShare(a: real, b: real, mem: MemInfo)
    requires IsMemShare(a, mem) && IsMemShare(b, mem)
    ensures a == b
  {
    if mem.total > 0 {
      Cancelled(a, b, mem.total as real);
    }
  }

  lemma Cancelled(a: real, b: real, t: real)
    requires t > 0.0 && a * t == b * t
    ensures a == b
  {
    assert (a - b) * t == 0.0;
  }

  // ---- counters that only move forward ----

  /** The eight counted fields have not gone backwards. */
  predicate Forward(p: CpuTimes, c: CpuTimes) {
    && p.user <= c.user && p.nice <= c.nice && p.system <= c.system && p.idle <= c.idle
    && p.iowait <= c.iowait && p.irq <= c.irq && p.softirq <= c.softirq && p.steal <= c.steal
  }

  /** The percentage is the quotient of the two plain differences. */
  predicate ExactShare(p: CpuTimes, c: CpuTimes, pct: real) {
    && 0 <= BusyDelta(p, c) <= TotalDelta(p, c)
    && IsShare(pct, BusyDelta(p, c), TotalDelta(p, c))
    && (TotalDelta(p, c) == 0 ==> pct == 0.0)
  }

  /** Counters that only move forward make every guard idle: the ratio is the plain quotient of
      plain differences, and idle and iowait are what separates the two. */
  lemma ForwardCpuIsExact(p: CpuTimes, c: CpuTimes)
    requires Forward(p, c)
    ensures ExactShare(p, c, CpuRatio(p, c))
  {
    hide CpuRatio;
    RatioIsShare(p, c);
  }

  /** The same for the aggregate line and for every core both samples have. */
  lemma ForwardSystemCpuIsExact(prev: Sample, cur: Sample)
    requires Forward(prev.cpu.total, cur.cpu.total)
    requires forall i :: 0 <= i < Min(|prev.cpu.perCpu|, |cur.cpu.perCpu|) ==>
               Forward(prev.cpu.perCpu[i], cur.cpu.perCpu[i])
    ensures var s := SystemRates(prev, cur);
            && ExactShare(prev.cpu.total, cur.cpu.total, s.cpuPct)
            && |s.perCpuPct| == Min(|prev.cpu.perCpu|, |cur.cpu.perCpu|)
            && forall i :: 0 <= i < |s.perCpuPct| ==>
                 ExactShare(prev.cpu.perCpu[i], cur.cpu.perCpu[i], s.perCpuPct[i])
  {
    hide CpuRatio, Rate, SumNet, ExactShare, Forward;
    ForwardCpuIsExact(prev.cpu.total, cur.cpu.total);
    var pcts := PerCpu(prev.cpu.perCpu, cur.cpu.perCpu);
    forall i | 0 <= i < |pcts| ensures ExactShare(prev.cpu.perCpu[i], cur.cpu.perCpu[i], pcts[i]) {
      ForwardCpuIsExact(prev.cpu.perCpu[i], cur.cpu.perCpu[i]);
    }
  }

  // ---- the host ----

  datatype NetCounter = RxBytes | TxBytes | RxErrs | TxErrs

  function NetCount(c: NetCounter, n: NetDev): nat {
    match c
    case RxBytes => n.rxBytes
    case TxBytes => n.txBytes
    case RxErrs => n.rxErrs
    case TxErrs => n.txErrs
  }

  /** The sum over every interface but the loopback. */
  function NetTotal(c: NetCounter, nets: seq<NetDev>): nat {
    if |nets| == 0 then 0
    else NetTotal(c, Front(nets)) + if Last(nets).name == "lo" then 0 else NetCount(c, Last(nets))
  }

  lemma {:induction false} SumNetIsTotal(nets: seq<NetDev>)
    ensures SumNet(nets) == NetSum(NetTotal(RxBytes, nets), NetTotal(TxBytes, nets),
                                   NetTotal(RxErrs, nets), NetTotal(TxErrs, nets))
  {
    if |nets| > 0 {
      SumNetIsTotal(Front(nets));
    }
  }

  datatype HostGauge = Received | Sent | Switches

  function HostCount(g: HostGauge, s: Sample): nat {
    match g
    case Received => NetTotal(RxBytes, s.nets)
    case Sent => NetTotal(TxBytes, s.nets)
    case Switches => s.cpu.ctxt
  }

  function HostRate(g: HostGauge, sys: SystemRate): real {
    match g
    case Received => sys.netRxBps
    case Sent => sys.netTxBps
    case Switches => sys.ctxtPerSec
  }

  ghost predicate HostTells(g: HostGauge, prev: Sample, cur: Sample, s: SystemRate) {
    IsRate(HostRate(g, s), HostCount(g, prev), HostCount(g, cur), cur.at - prev.at)
  }

  ghost predicate SystemTells(prev: Sample, cur: Sample, s: SystemRate) {
    && s.mem == cur.mem && s.procsRunning == cur.cpu.procsRunning && s.procsBlocked == cur.cpu.procsBlocked
    && s.procCount == |cur.procs| && s.vanished == cur.vanished && s.scanTime == cur.scanTime
    && s.interval == (if cur.at > prev.at then cur.at - prev.at else 0)
    && s.netRxErrs == NetTotal(RxErrs, cur.nets) && s.netTxErrs == NetTotal(TxErrs, cur.nets)
    && IsCpuShare(s.cpuPct, prev.cpu.total, cur.cpu.total)
    && |s.perCpuPct| == Min(|prev.cpu.perCpu|, |cur.cpu.perCpu|)
    && (forall i :: 0 <= i < |s.perCpuPct| ==> IsCpuShare(s.perCpuPct[i], prev.cpu.perCpu[i], cur.cpu.perCpu[i]))
    && forall g: HostGauge :: HostTells(g, prev, cur, s)
  }

  lemma HostRatesTell(g: HostGauge, prev: Sample, cur: Sample)
    ensures HostTells(g, prev, cur, SystemRates(prev, cur))
  {
    hide Rate, IsRate, Seconds, SumNet, NetTotal, CpuRatio;
    SumNetIsTotal(prev.nets);
    SumNetIsTotal(cur.nets);
    RateIsRate(HostCount(g, prev), HostCount(g, cur), prev, cur);
  }

  /** And so does the system part, of the host as a whole. */
  lemma SystemTellsTheSamples(prev: Sample, cur: Sample)
    ensures SystemTells(prev, cur, SystemRates(prev, cur))
  {
    hide IsCpuShare, CpuRatio, Rate, HostTells, SumNet, NetTotal, Seconds;
    var s := SystemRates(prev, cur);
    SumNetIsTotal(cur.nets);
    RatioIsShare(prev.cpu.total, cur.cpu.total);
    forall i | 0 <= i < |s.perCpuPct|
      ensures IsCpuShare(s.perCpuPct[i], prev.cpu.perCpu[i], cur.cpu.perCpu[i])
    {
      RatioIsShare(prev.cpu.perCpu[i], cur.cpu.perCpu[i]);
    }
    forall g: HostGauge ensures HostTells(g, prev, cur, s) {
      HostRatesTell(g, prev, cur);
    }
  }
}
