/** The four counters kept for every rule, and maps from rules to them. */
module Counts {

  datatype Field = Rx | Tx | Connections | Errors

  datatype Counts = Counts(rx: int, tx: int, connections: int, errors: int) {
    function Plus(c: Counts): Counts {
      Counts(rx + c.rx, tx + c.tx, connections + c.connections, errors + c.errors)
    }

    function Get(f: Field): int {
      match f
      case Rx => rx
      case Tx => tx
      case Connections => connections
      case Errors => errors
    }

    /** Only this field, the others zero. */
    function Only(f: Field): Counts {
      match f
      case Rx => Counts(rx, 0, 0, 0)
      case Tx => Counts(0, tx, 0, 0)
      case Connections => Counts(0, 0, connections, 0)
      case Errors => Counts(0, 0, 0, errors)
    }

    function Minus(c: Counts): Counts {
      Counts(rx - c.rx, tx - c.tx, connections - c.connections, errors - c.errors)
    }

    predicate NonNegative() { rx >= 0 && tx >= 0 && connections >= 0 && errors >= 0 }
  }

  const ZERO: Counts := Counts(0, 0, 0, 0)

  type Tally = map<int, Counts>

  function At(m: Tally, rule: int): Counts {
    if rule in m then m[rule] else ZERO
  }

  function Added(m: Tally, rule: int, c: Counts): Tally {
    m[rule := At(m, rule).Plus(c)]
  }

  /** One counter of one rule. */
  function Of(m: Tally, rule: int, f: Field): int {
    At(m, rule).Get(f)
  }

  lemma AddedOf(m: Tally, rule: int, c: Counts, r: int, f: Field)
    ensures Of(Added(m, rule, c), r, f) == Of(m, r, f) + if r == rule then c.Get(f) else 0
  {
  }
}
