/** Alert rules as data (src/rules.rs). Values are exact reals; NaN and the infinities
    are not part of this model. */
module Rules {
  import opened Prelude

  datatype Metric =
    | CpuPct | MemPct | Rss | ReadBps | WriteBps | NetRxBps | NetTxBps | Threads | ProcCount
  {
    predicate IsBytes() {
      Rss? || ReadBps? || WriteBps? || NetRxBps? || NetTxBps?
    }

    predicate AppliesToProcess() {
      CpuPct? || Rss? || ReadBps? || WriteBps? || Threads?
    }
  }

  datatype Op = Gt | Lt

  datatype Target = System | Process(pattern: string)
  {
    predicate Matches(comm: string) {
      match this
      case System => false
      case Process(p) => p == "*" || p == comm
    }
  }

  /** `sustain` is a `Duration`, in nanoseconds. */
  datatype Rule = Rule(
    name: string, target: Target, metric: Metric, op: Op,
    threshold: real, sustain: nat, clear: real)
  {
    /** The value is strictly past the threshold. */
    predicate Breaching(v: real) {
      match op
      case Gt => v > threshold
      case Lt => v < threshold
    }

    /** The value is strictly past the clear boundary, so a firing alert stays on. */
    predicate StillActive(v: real) {
      match op
      case Gt => v > clear
      case Lt => v < clear
    }

    /** The clear boundary is on the right side of the threshold. */
    predicate Sane() {
      match op
      case Gt => clear <= threshold
      case Lt => clear >= threshold
    }

    /** Width of the deadband. */
    function Deadband(): real {
      AbsReal(threshold - clear)
    }
  }
}
