/** The agent's per-rule traffic counters: drained for a report, restored when the report fails. */
module StatsCollector {
  import opened Prelude
  import opened Counts

  /** One line of a report. */
  datatype Snapshot = Snapshot(rule: int, counts: Counts)

  /** What a report says about a rule. */
  function Reported(lines: seq<Snapshot>, rule: int): Counts {
    if lines == [] then ZERO
    else
      var earlier := Reported(lines[..|lines| - 1], rule);
      var last := lines[|lines| - 1];
      if last.rule == rule then earlier.Plus(last.counts) else earlier
  }

  /** The counters after adding back a report; rules that are gone are created again. */
  function Restored(counters: Tally, lines: seq<Snapshot>): Tally {
    if lines == [] then counters
    else Added(Restored(counters, lines[..|lines| - 1]), lines[|lines| - 1].rule, lines[|lines| - 1].counts)
  }

  /** Making sure there is a counter and then adding to it is adding to it. */
  lemma EnsuredAndAdded(counters: Tally, lines: seq<Snapshot>, i: nat)
    requires i < |lines|
    ensures var (before, line) := (Restored(counters, lines[..i]), lines[i]);
            before[line.rule := At(before, line.rule)][line.rule := At(before, line.rule).Plus(line.counts)]
            == Restored(counters, lines[..i + 1])
  {
    assert lines[..i + 1][..i] == lines[..i];
  }

  class StatsCollector {
    var counters: Tally

    constructor ()
      ensures counters == map[]
    {
      counters := map[];
    }

    method Ensure(rule: int) returns (current: Counts)
      modifies this
      ensures current == At(old(counters), rule)
      ensures counters == old(counters)[rule := current]
    {
      if rule !in counters {
        counters := counters[rule := ZERO];
      }
      return counters[rule];
    }

    method Remove(rule: int)
      modifies this
      ensures counters == old(counters) - {rule}
    {
      counters := counters - {rule};
    }

    /** Keeps the counters of these rules untouched and drops all others. */
    method Retain(keep: set<int>)
      modifies this
      ensures counters == map r | r in old(counters) && r in keep :: old(counters)[r]
    {
      counters := map r | r in counters && r in keep :: counters[r];
    }

    /** Takes everything counted so far, rule by rule; rules with nothing counted are not in the report. */
    method DrainSnapshot() returns (lines: seq<Snapshot>)
      modifies this
      ensures counters.Keys == old(counters).Keys && forall r :: r in counters ==> counters[r] == ZERO
      ensures forall r :: r in old(counters) ==> Reported(lines, r) == old(counters)[r]
      ensures forall i :: 0 <= i < |lines| ==>
                lines[i].rule in old(counters) && lines[i].counts == old(counters)[lines[i].rule] != ZERO
      ensures forall i, j :: 0 <= i < j < |lines| ==> lines[i].rule != lines[j].rule
    {
      lines := [];
      var todo := counters.Keys;
      while todo != {}
        invariant todo <= counters.Keys == old(counters).Keys
        invariant forall r :: r in counters ==> counters[r] == if r in todo then old(counters)[r] else ZERO
        invariant forall r :: r in counters ==> Reported(lines, r) == if r in todo then ZERO else old(counters)[r]
        invariant forall i :: 0 <= i < |lines| ==>
                    lines[i].rule in counters && lines[i].rule !in todo
                    && lines[i].counts == old(counters)[lines[i].rule] != ZERO
        invariant forall i, j :: 0 <= i < j < |lines| ==> lines[i].rule != lines[j].rule
      {
        var r := Pick(todo);
        var c := counters[r];
        counters := counters[r := ZERO];
        if c != ZERO {
          assert (lines + [Snapshot(r, c)])[..|lines|] == lines;
          lines := lines + [Snapshot(r, c)];
        }
        todo := todo - {r};
      }
    }

    method Restore(lines: seq<Snapshot>)
      modifies this
      ensures counters == Restored(old(counters), lines)
    {
      var i := 0;
      while i < |lines|
        invariant 0 <= i <= |lines| && counters == Restored(old(counters), lines[..i])
      {
        EnsuredAndAdded(old(counters), lines, i);
        var current := Ensure(lines[i].rule);
        counters := counters[lines[i].rule := current.Plus(lines[i].counts)];
        i := i + 1;
      }
      assert lines[..i] == lines;
    }
  }

  lemma {:induction false} RestoreAddsReport(counters: Tally, lines: seq<Snapshot>, rule: int)
    ensures At(Restored(counters, lines), rule) == At(counters, rule).Plus(Reported(lines, rule))
  {
    if lines != [] {
      var earlier, last := lines[..|lines| - 1], lines[|lines| - 1];
      RestoreAddsReport(counters, earlier, rule);
      var before := Restored(counters, earlier);
      assert At(Restored(counters, lines), rule)
             == if last.rule == rule then At(before, rule).Plus(last.counts) else At(before, rule);
    }
  }

  lemma {:induction false} RestoreKeepsKnownRules(counters: Tally, lines: seq<Snapshot>)
    requires forall i :: 0 <= i < |lines| ==> lines[i].rule in counters
    ensures Restored(counters, lines).Keys == counters.Keys
  {
    if lines != [] {
      RestoreKeepsKnownRules(counters, lines[..|lines| - 1]);
    }
  }

  /** A failed report costs nothing: restoring what was drained gives back exactly the counters from before. */
  lemma RestoreUndoesDrain(before: Tally, drained: Tally, lines: seq<Snapshot>)
    requires drained.Keys == before.Keys && forall r :: r in drained ==> drained[r] == ZERO
    requires forall r :: r in before ==> Reported(lines, r) == before[r]
    requires forall i :: 0 <= i < |lines| ==> lines[i].rule in before
    ensures Restored(drained, lines) == before
  {
    var after := Restored(drained, lines);
    RestoreKeepsKnownRules(drained, lines);
    forall r | r in before ensures after[r] == before[r] {
      RestoreAddsReport(drained, lines, r);
      assert At(drained, r) == ZERO && ZERO.Plus(before[r]) == before[r];
    }
  }
}
