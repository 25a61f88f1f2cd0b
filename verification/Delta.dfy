/** Turning two samples into a snapshot of rates (src/delta.rs), in exact arithmetic. */
module Delta {
  import opened Prelude
  import opened Procfs

  datatype ProcRate = ProcRate(
    key: ProcKey, pid: int, ppid: int, comm: string, state: char, threads: int,
    cpuPct: real, rssBytes: nat, vsizeBytes: nat,
    readBps: Option<real>, writeBps: Option<real>, rcharBps: Option<real>, wcharBps: Option<real>,
    sockets: Option<nat>, isNew: bool)

  datatype SystemRate = SystemRate(
    cpuPct: real, perCpuPct: seq<real>, mem: MemInfo, netRxBps: real, netTxBps: real,
    netRxErrs: nat, netTxErrs: nat, ctxtPerSec: real, procsRunning: nat, procsBlocked: nat,
    procCount: nat, vanished: nat, scanTime: nat, interval: nat)

  datatype Snapshot = Snapshot(system: SystemRate, procs: seq<ProcRate>)

  // ---- the two quotients ----

  function Clamp(x: real, lo: real, hi: real): real {
    if x < lo then lo else if x > hi then hi else x
  }

  function Pct(busyDelta: nat, totalDelta: nat): real {
    if totalDelta == 0 then 0.0
    else Clamp(busyDelta as real / totalDelta as real * 100.0, 0.0, 100.0)
  }

  function Rate(cur: nat, prev: nat, secs: real): real {
    if secs <= 0.0 then 0.0 else SatSub(cur, prev) as real / secs
  }

  function Seconds(prev: Sample, cur: Sample): (secs: real)
    ensures secs >= 0.0
    ensures secs > 0.0 <==> prev.at < cur.at
  {
    SatSub(cur.at, prev.at) as real / 1000000000.0
  }

  // ---- the system part ----

  function CpuRatio(prev: CpuTimes, cur: CpuTimes): real {
    Pct(SatSub(cur.Busy(), prev.Busy()), SatSub(cur.Total(), prev.Total()))
  }

  function PerCpu(prev: seq<CpuTimes>, cur: seq<CpuTimes>): (pcts: seq<real>)
    ensures |pcts| == Min(|prev|, |cur|)
    ensures forall i :: 0 <= i < |pcts| ==> pcts[i] == CpuRatio(prev[i], cur[i])
  {
    seq(Min(|prev|, |cur|), i requires 0 <= i < Min(|prev|, |cur|) => CpuRatio(prev[i], cur[i]))
  }

  datatype NetSum = NetSum(rx: nat, tx: nat, rxErrs: nat, txErrs: nat)
  {
    function Add(n: NetDev): NetSum {
      NetSum(rx + n.rxBytes, tx + n.txBytes, rxErrs + n.rxErrs, txErrs + n.txErrs)
    }
  }

  /** Every interface but the loopback. */
  function External(nets: seq<NetDev>): seq<NetDev> {
    if |nets| == 0 then []
    else External(Front(nets)) + if Last(nets).name != "lo" then [Last(nets)] else []
  }

  function SumNet(nets: seq<NetDev>): NetSum {
    if |nets| == 0 then NetSum(0, 0, 0, 0)
    else if Last(nets).name != "lo" then SumNet(Front(nets)).Add(Last(nets))
    else SumNet(Front(nets))
  }

  function SystemRates(prev: Sample, cur: Sample): SystemRate {
    var secs := Seconds(prev, cur);
    var c := SumNet(cur.nets);
    var p := SumNet(prev.nets);
    SystemRate(
      CpuRatio(prev.cpu.total, cur.cpu.total),
      PerCpu(prev.cpu.perCpu, cur.cpu.perCpu),
      cur.mem,
      Rate(c.rx, p.rx, secs), Rate(c.tx, p.tx, secs), c.rxErrs, c.txErrs,
      Rate(cur.cpu.ctxt, prev.cpu.ctxt, secs),
      cur.cpu.procsRunning, cur.cpu.procsBlocked,
      |cur.procs|, cur.vanished, cur.scanTime, SatSub(cur.at, prev.at))
  }

  // ---- the per-process part ----

  function CpuShare(k: SysConst, prev: Option<ProcSample>, cur: ProcSample, secs: real): real {
    if prev.Some? && secs > 0.0 then
      SatSub(cur.stat.CpuTicks(), prev.value.stat.CpuTicks()) as real / (k.clkTck as real * secs) * 100.0
    else 0.0
  }

  /** The rate of one I/O counter: unreadable now or then gives nothing, a first sighting gives zero. */
  function IoRate(prev: Option<ProcSample>, cur: ProcSample, c: IoCounter, secs: real): Option<real> {
    match cur.io
    case None => None
    case Some(ci) =>
      if prev.Some? && prev.value.io.Some? then Some(Rate(ci.Count(c), prev.value.io.value.Count(c), secs))
      else Some(0.0)
  }

  function Lookup(procs: map<ProcKey, ProcSample>, key: ProcKey): Option<ProcSample> {
    if key in procs then Some(procs[key]) else None
  }

  function ProcRateOf(k: SysConst, prev: Sample, cur: Sample, key: ProcKey): ProcRate
    requires key in cur.procs
  {
    var secs := Seconds(prev, cur);
    var c := cur.procs[key];
    var p := Lookup(prev.procs, key);
    ProcRate(
      key, c.stat.pid, c.stat.ppid, c.stat.comm, c.stat.state, c.stat.numThreads,
      CpuShare(k, p, c, secs), c.stat.RssBytes(k), c.stat.vsize,
      IoRate(p, c, ReadBytes, secs),
      IoRate(p, c, WriteBytes, secs),
      IoRate(p, c, RChar, secs),
      IoRate(p, c, WChar, secs),
      c.sockets, p.None?)
  }

  // ---- order of the process table ----

  /** Descending CPU, then descending resident size. */
  predicate Before(a: ProcRate, b: ProcRate) {
    a.cpuPct > b.cpuPct || (a.cpuPct == b.cpuPct && a.rssBytes >= b.rssBytes)
  }

  ghost predicate Sorted(procs: seq<ProcRate>) {
    forall i, j :: 0 <= i < j < |procs| ==>
      procs[i].cpuPct > procs[j].cpuPct
      || (procs[i].cpuPct == procs[j].cpuPct && procs[i].rssBytes >= procs[j].rssBytes)
  }

  ghost predicate DistinctKeys(procs: seq<ProcRate>) {
    forall i, j :: 0 <= i < j < |procs| ==> procs[i].key != procs[j].key
  }

  ghost function KeysOf(procs: seq<ProcRate>): set<ProcKey> {
    set p | p in procs :: p.key
  }

  lemma SplicedIsSorted(pre: seq<ProcRate>, row: ProcRate, post: seq<ProcRate>)
    requires Sorted(pre + post)
    requires forall i :: 0 <= i < |pre| ==> Before(pre[i], row)
    requires forall i :: 0 <= i < |post| ==> Before(row, post[i])
    ensures Sorted(pre + [row] + post)
  {
    var r := pre + [row] + post;
    var s := pre + post;
    forall i, j | 0 <= i < j < |r|
      ensures r[i].cpuPct > r[j].cpuPct || (r[i].cpuPct == r[j].cpuPct && r[i].rssBytes >= r[j].rssBytes)
    {
      if i != |pre| && j != |pre| {
        var i' := if i < |pre| then i else i - 1;
        var j' := if j < |pre| then j else j - 1;
        assert r[i] == s[i'] && r[j] == s[j'];
      }
    }
  }

  lemma OutrankedByAll(procs: seq<ProcRate>, n: nat, row: ProcRate)
    requires Sorted(procs) && n <= |procs| && (n > 0 ==> Before(procs[n - 1], row))
    ensures forall i :: 0 <= i < n ==> Before(procs[i], row)
  {
    forall i | 0 <= i < n ensures Before(procs[i], row) {
      assert i < n - 1 ==> Before(procs[i], procs[n - 1]);
    }
  }

  /** Puts one row into a sorted table, after the rows it does not outrank. */
  method Insert(procs: seq<ProcRate>, row: ProcRate) returns (r: seq<ProcRate>)
    requires Sorted(procs)
    ensures Sorted(r) && multiset(r) == multiset(procs) + multiset{row}
  {
    hide Sorted;
    var n := |procs|;
    while n > 0 && !Before(procs[n - 1], row)
      invariant 0 <= n <= |procs|
      invariant forall i :: n <= i < |procs| ==> Before(row, procs[i])
    {
      n := n - 1;
    }
    OutrankedByAll(procs, n, row);
    assert procs == procs[..n] + procs[n..];
    SplicedIsSorted(procs[..n], row, procs[n..]);
    r := procs[..n] + [row] + procs[n..];
  }

  method SortRows(procs: seq<ProcRate>) returns (r: seq<ProcRate>)
    ensures Sorted(r) && multiset(r) == multiset(procs)
  {
    r := [];
    for n := 0 to |procs|
      invariant Sorted(r) && multiset(r) == multiset(procs[..n])
    {
      r := Insert(r, procs[n]);
      assert procs[..n + 1] == procs[..n] + [procs[n]];
    }
    assert procs[..|procs|] == procs;
  }

  lemma PermutationKeepsKeys(a: seq<ProcRate>, b: seq<ProcRate>)
    requires multiset(a) == multiset(b)
    ensures KeysOf(a) == KeysOf(b)
    ensures DistinctKeys(a) ==> DistinctKeys(b)
  {
    assert forall p :: p in a <==> p in multiset(a);
    assert forall p :: p in b <==> p in multiset(b);
    if DistinctKeys(a) {
      forall i, j | 0 <= i < j < |b| ensures b[i].key != b[j].key {
        if b[i].key == b[j].key {
          assert b[i] in multiset(b) && b[j] in multiset(b);
          assert b[i] == b[j];
          TwoOccurrences(b, i, j);
          DistinctMeansOnce(a, b[i]);
          assert false;
        }
      }
    }
  }

  lemma TwoOccurrences<T>(s: seq<T>, i: nat, j: nat)
    requires i < j < |s| && s[i] == s[j]
    ensures multiset(s)[s[i]] >= 2
  {
    assert s == s[..j] + [s[j]] + s[j + 1..];
    assert s[i] in multiset(s[..j]) by { assert s[..j][i] == s[i]; }
  }

  lemma {:induction false} DistinctMeansOnce(procs: seq<ProcRate>, p: ProcRate)
    requires DistinctKeys(procs)
    ensures multiset(procs)[p] <= 1
  {
    if |procs| > 0 {
      DistinctMeansOnce(Front(procs), p);
      assert procs == Front(procs) + [Last(procs)];
      if p == Last(procs) {
        assert p !in Front(procs);
      }
    }
  }

  // ---- diff ----

  /** One row for each of the given processes and no other, each holding its own rates. */
  ghost predicate RowsFor(k: SysConst, prev: Sample, cur: Sample, keys: set<ProcKey>, procs: seq<ProcRate>) {
    && keys <= cur.procs.Keys
    && DistinctKeys(procs)
    && KeysOf(procs) == keys
    && forall p :: p in procs ==> p.key in cur.procs && p == ProcRateOf(k, prev, cur, p.key)
  }

  /** What `diff` promises: one row for each process of the later sample, the table sorted, and
      the system rates. */
  ghost predicate IsDiff(k: SysConst, prev: Sample, cur: Sample, snap: Snapshot) {
    && snap.system == SystemRates(prev, cur)
    && RowsFor(k, prev, cur, cur.procs.Keys, snap.procs)
    && Sorted(snap.procs)
  }

  lemma OneMoreRow(k: SysConst, prev: Sample, cur: Sample, keys: set<ProcKey>, procs: seq<ProcRate>, key: ProcKey)
    requires RowsFor(k, prev, cur, keys, procs) && key in cur.procs && key !in keys
    ensures RowsFor(k, prev, cur, keys + {key}, procs + [ProcRateOf(k, prev, cur, key)])
  {
    var row := ProcRateOf(k, prev, cur, key);
    assert forall p :: p in procs + [row] <==> p in procs || p == row;
    forall i | 0 <= i < |procs| ensures procs[i].key != key {
      assert procs[i] in procs && procs[i].key in KeysOf(procs);
    }
  }

  lemma SameRowsReordered(k: SysConst, prev: Sample, cur: Sample, keys: set<ProcKey>,
                          a: seq<ProcRate>, b: seq<ProcRate>)
    requires RowsFor(k, prev, cur, keys, a) && multiset(a) == multiset(b)
    ensures RowsFor(k, prev, cur, keys, b)
  {
    PermutationKeepsKeys(a, b);
    forall p | p in b ensures p in a {
      assert p in multiset(b);
    }
  }

  method Diff(k: SysConst, prev: Sample, cur: Sample) returns (snap: Snapshot)
    ensures IsDiff(k, prev, cur, snap)
  {
    var procs: seq<ProcRate> := [];
    var todo := cur.procs.Keys;
    while todo != {}
      invariant todo <= cur.procs.Keys
      invariant RowsFor(k, prev, cur, cur.procs.Keys - todo, procs)
      decreases todo
    {
      var key :| key in todo;
      OneMoreRow(k, prev, cur, cur.procs.Keys - todo, procs, key);
      assert cur.procs.Keys - todo + {key} == cur.procs.Keys - (todo - {key});
      todo := todo - {key};
      procs := procs + [ProcRateOf(k, prev, cur, key)];
    }
    var sorted := SortRows(procs);
    SameRowsReordered(k, prev, cur, cur.procs.Keys, procs, sorted);
    snap := Snapshot(SystemRates(prev, cur), sorted);
  }

  lemma CpuShareIsNotNegative(k: SysConst, prev: Option<ProcSample>, cur: ProcSample, secs: real)
    ensures CpuShare(k, prev, cur, secs) >= 0.0
  {
    if prev.Some? && secs > 0.0 {
      assert k.clkTck as real * secs > 0.0;
    }
  }

  /** A row is new exactly when its (pid, starttime) was not in the earlier sample, and a new
      row claims no CPU and no I/O. */
  lemma NewMeansUnseen(k: SysConst, prev: Sample, cur: Sample, snap: Snapshot, p: ProcRate)
    requires IsDiff(k, prev, cur, snap) && p in snap.procs
    ensures p.isNew <==> p.key !in prev.procs
    ensures p.isNew ==> p.cpuPct == 0.0
    ensures p.isNew ==> (p.readBps.Some? ==> p.readBps.value == 0.0) && (p.writeBps.Some? ==> p.writeBps.value == 0.0)
    ensures p.cpuPct >= 0.0
  {
    assert p == ProcRateOf(k, prev, cur, p.key);
    CpuShareIsNotNegative(k, Lookup(prev.procs, p.key), cur.procs[p.key], Seconds(prev, cur));
  }

  // ---- looking a process up in the table ----

  function FindRow(procs: seq<ProcRate>, key: ProcKey): (r: Option<ProcRate>)
    ensures r.Some? ==> r.value in procs && r.value.key == key
    ensures r.None? ==> forall p :: p in procs ==> p.key != key
  {
    if |procs| == 0 then None
    else if procs[0].key == key then Some(procs[0])
    else FindRow(procs[1..], key)
  }

  lemma FindRowIsUnique(procs: seq<ProcRate>, p: ProcRate)
    requires DistinctKeys(procs) && p in procs
    ensures FindRow(procs, p.key) == Some(p)
  {
    var r := FindRow(procs, p.key);
    var i :| 0 <= i < |procs| && procs[i] == p;
    var j :| 0 <= j < |procs| && procs[j] == r.value;
  }

  lemma FindRowInDiff(k: SysConst, prev: Sample, cur: Sample, snap: Snapshot, key: ProcKey)
    requires IsDiff(k, prev, cur, snap)
    ensures FindRow(snap.procs, key) ==
            if key in cur.procs then Some(ProcRateOf(k, prev, cur, key)) else None
  {
    if key in cur.procs {
      assert key in KeysOf(snap.procs);
    }
  }

  lemma PctInRange(busyDelta: nat, totalDelta: nat)
    ensures 0.0 <= Pct(busyDelta, totalDelta) <= 100.0
  {
  }

  // ---- network ----

  lemma {:induction false} SumNetSkipsLoopback(nets: seq<NetDev>)
    ensures SumNet(nets) == SumNet(External(nets))
    ensures forall n :: n in External(nets) ==> n.name != "lo"
  {
    if |nets| > 0 {
      SumNetSkipsLoopback(Front(nets));
      var kept := External(Front(nets));
      if Last(nets).name != "lo" {
        assert Front(kept + [Last(nets)]) == kept;
      } else {
        assert kept + [] == kept;
      }
    }
  }

  lemma {:induction false} SumNetRemove(nets: seq<NetDev>, i: nat)
    requires i < |nets| && nets[i].name != "lo"
    ensures SumNet(nets) == SumNet(nets[..i] + nets[i + 1..]).Add(nets[i])
  {
    if i < |nets| - 1 {
      SumNetRemove(Front(nets), i);
      assert Front(nets[..i] + nets[i + 1..]) == Front(nets)[..i] + Front(nets)[i + 1..];
    } else {
      assert nets[..i] + nets[i + 1..] == Front(nets);
    }
  }

  lemma {:induction false} SumNetPermutes(a: seq<NetDev>, b: seq<NetDev>)
    requires multiset(a) == multiset(b)
    requires forall n :: n in a ==> n.name != "lo"
    ensures SumNet(a) == SumNet(b)
    decreases |a|
  {
    if |a| == 0 {
      assert |multiset(b)| == 0;
    } else {
      assert Last(a) in a;
      var i := PeelLast(a, b);
      SumNetPermutes(Front(a), b[..i] + b[i + 1..]);
      SumNetRemove(b, i);
    }
  }

  /** Nothing about the loopback, and nothing about the order of the interfaces, reaches a rate. */
  lemma NetRatesIgnoreLoopbackAndOrder(prev: Sample, cur: Sample, prev': Sample, cur': Sample)
    requires prev.at == prev'.at && cur.at == cur'.at
    requires multiset(External(prev.nets)) == multiset(External(prev'.nets))
    requires multiset(External(cur.nets)) == multiset(External(cur'.nets))
    ensures var s, s' := SystemRates(prev, cur), SystemRates(prev', cur');
            && s.netRxBps == s'.netRxBps && s.netTxBps == s'.netTxBps
            && s.netRxErrs == s'.netRxErrs && s.netTxErrs == s'.netTxErrs
  {
    SameExternalSameSum(prev.nets, prev'.nets);
    SameExternalSameSum(cur.nets, cur'.nets);
  }

  lemma SameExternalSameSum(a: seq<NetDev>, b: seq<NetDev>)
    requires multiset(External(a)) == multiset(External(b))
    ensures SumNet(a) == SumNet(b)
  {
    SumNetSkipsLoopback(a);
    SumNetSkipsLoopback(b);
    SumNetPermutes(External(a), External(b));
  }
}
