/** The records read from /proc (src/procfs.rs, src/sample.rs). Unsigned counters are naturals. */
module Procfs {
  import opened Prelude

  /** Clock ticks per second and bytes per page; `sys_const` never returns a zero. */
  datatype SysConst = SysConst(clkTck: Positive, pageSize: Positive)

  datatype CpuTimes = CpuTimes(
    user: nat, nice: nat, system: nat, idle: nat, iowait: nat,
    irq: nat, softirq: nat, steal: nat, guest: nat, guestNice: nat)
  {
    function Total(): nat {
      user + nice + system + idle + iowait + irq + softirq + steal
    }

    function Busy(): nat {
      Total() - idle - iowait
    }
  }

  datatype StatFile = StatFile(
    total: CpuTimes, perCpu: seq<CpuTimes>, ctxt: nat, procsRunning: nat, procsBlocked: nat)

  datatype ProcKey = ProcKey(pid: int, starttime: nat)

  datatype PidStat = PidStat(
    pid: int, comm: string, state: char, ppid: int, utime: nat, stime: nat,
    numThreads: int, starttime: nat, vsize: nat, rssPages: int)
  {
    function RssBytes(k: SysConst): nat {
      if rssPages <= 0 then 0 else rssPages * k.pageSize
    }

    function CpuTicks(): nat {
      utime + stime
    }
  }

  datatype IoCounter = RChar | WChar | ReadBytes | WriteBytes

  datatype PidIo = PidIo(rchar: nat, wchar: nat, readBytes: nat, writeBytes: nat)
  {
    function Count(c: IoCounter): nat {
      match c
      case RChar => rchar
      case WChar => wchar
      case ReadBytes => readBytes
      case WriteBytes => writeBytes
    }
  }

  datatype MemInfo = MemInfo(
    total: nat, free: nat, available: nat, buffers: nat, cached: nat, swapTotal: nat, swapFree: nat)
  {
    function Used(): nat {
      SatSub(total, available)
    }

    function UsedPct(): real {
      if total == 0 then 0.0 else Used() as real / total as real * 100.0
    }
  }

  datatype NetDev = NetDev(
    name: string, rxBytes: nat, rxPackets: nat, rxErrs: nat, rxDrop: nat,
    txBytes: nat, txPackets: nat, txErrs: nat, txDrop: nat)

  datatype ProcSample = ProcSample(stat: PidStat, io: Option<PidIo>, sockets: Option<nat>)

  /** One scan. `at` and `scanTime` are in nanoseconds of the monotonic clock. */
  datatype Sample = Sample(
    at: nat, cpu: StatFile, mem: MemInfo, nets: seq<NetDev>, procs: map<ProcKey, ProcSample>,
    vanished: nat, ioDenied: nat, scanTime: nat)
  {
    /** The collector files every process under its own key. */
    ghost predicate Valid() {
      forall key :: key in procs ==> procs[key].stat.pid == key.pid && procs[key].stat.starttime == key.starttime
    }
  }
}
