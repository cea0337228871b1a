/**
 * Where a counted byte can be: in the agent's counter, in a report under way, in the panel's books,
 * or, in the cases named here, nowhere any more or there twice. Counting, draining and restoring
 * touch one atomic counter at a time, so they interleave.
 */
module TrafficConservation {
  import opened Prelude
  import opened Counts
  import opened RuleAccounting

  /** A report's progress; `snap` holds what has been taken out of the counters and is not settled. */
  datatype Phase =
    | Idle
    | Draining(todo: set<(int, Field)>, snap: Tally)
    | Reporting(snap: Tally)
    | Restoring(snap: Tally)

  /**
   * One agent and the panel. `late` are the lines of reports that failed for the agent and that the
   * panel may still get to; `dropped` are the rules whose counter was once dropped, so that a relay
   * may still be counting on it. Four records: everything ever counted, what was lost with a dropped
   * counter, what the panel did not book, and what it booked although the agent had taken it back.
   */
  datatype World = World(
    counters: Tally, phase: Phase, books: Books, late: seq<StatRow>, dropped: set<int>,
    added: Tally, forgotten: Tally, refused: Tally, doubled: Tally)

  datatype Step =
    | Register(rule: int)
    | Count(rule: int, field: Field, n: nat)
    | CountOnDropped(rule: int, field: Field, n: nat)
    | Forget(rule: int)
    | Retain(keep: set<int>)
    | BeginDrain
    | Swap(rule: int, field: Field)
    | EndDrain
    | ReportOk(order: seq<int>, at: int, failing: set<int>)
    | ReportFails(order: seq<int>, at: int)
    | LandLate(line: nat, dbOk: bool)
    | LoseLate(line: nat)
    | RestoreOne(rule: int, field: Field)
    | EndRestore
    | InsertRule(rule: int, node: int)
    | DeleteRule(rule: int)

  function InFlight(phase: Phase, rule: int): Counts {
    if phase.Idle? then ZERO else At(phase.snap, rule)
  }

  predicate AllZero(m: Tally) {
    forall r :: r in m ==> m[r] == ZERO
  }

  predicate NonNegatives(m: Tally) {
    forall r :: r in m ==> m[r].NonNegative()
  }

  /** The lines of a report: every rule that something was counted for, once, in any order. */
  predicate IsReportOf(order: seq<int>, snap: Tally) {
    && NoDuplicates(order)
    && (forall r :: r in order ==> r in snap)
    && (forall r :: r in snap && snap[r] != ZERO ==> r in order)
  }

  predicate Enabled(w: World, step: Step) {
    match step
    case Register(_) => !w.phase.Draining?
    case Count(r, _, _) => r in w.counters
    case CountOnDropped(r, _, _) => r in w.dropped
    case Forget(_) => !w.phase.Draining?
    case Retain(_) => !w.phase.Draining?
    case BeginDrain => w.phase.Idle?
    case Swap(r, f) => w.phase.Draining? && (r, f) in w.phase.todo && r in w.counters
    case EndDrain => w.phase.Draining? && w.phase.todo == {}
    case ReportOk(order, _, _) => w.phase.Reporting? && IsReportOf(order, w.phase.snap)
    case ReportFails(order, _) => w.phase.Reporting? && IsReportOf(order, w.phase.snap)
    case LandLate(i, _) => i < |w.late|
    case LoseLate(i) => i < |w.late|
    case RestoreOne(r, _) => w.phase.Restoring? && r in w.phase.snap
    case EndRestore => w.phase.Restoring? && AllZero(w.phase.snap)
    case InsertRule(r, _) => r !in w.books.rules
    case DeleteRule(r) => r in w.books.rules
  }

  function Rows(order: seq<int>, snap: Tally, at: int): (rows: seq<StatRow>)
    ensures |rows| == |order|
  {
    seq(|order|, i requires 0 <= i < |order| => StatRow(order[i], at, At(snap, order[i])))
  }

  /** The lines as the panel meets them; the transactions about some rules fail. */
  function Lines(order: seq<int>, snap: Tally, at: int, failing: set<int>): seq<Bucket> {
    if order == [] then []
    else
      var last := order[|order| - 1];
      Lines(order[..|order| - 1], snap, at, failing) + [Bucket(StatRow(last, at, At(snap, last)), last !in failing)]
  }

  /**
   * Whether a report that arrives is booked for this rule: its time is usable, its transaction goes
   * through, the rule is the node's own.
   */
  predicate IsBooked(books: Books, node: int, at: int, failing: set<int>, r: int) {
    0 < at <= MAX_TIMESTAMP && r !in failing && Owned(books.rules, r, node)
  }

  function Refusals(refused: Tally, books: Books, node: int, snap: Tally, at: int, failing: set<int>): Tally {
    map r | r in refused.Keys + snap.Keys ::
      if IsBooked(books, node, at, failing, r) then At(refused, r) else At(refused, r).Plus(At(snap, r))
  }

  /** What goes with the counters of the rules that are not kept. */
  function Orphaned(forgotten: Tally, counters: Tally, keep: set<int>): Tally {
    map r | r in forgotten.Keys + counters.Keys ::
      if r in keep then At(forgotten, r) else At(forgotten, r).Plus(At(counters, r))
  }

  function After(w: World, step: Step, node: int): World
    requires Enabled(w, step)
  {
    match step
    case Register(r) => w.(counters := w.counters[r := At(w.counters, r)])
    case Count(r, f, n) =>
      var c := Counts(n, n, n, n).Only(f);
      w.(counters := Added(w.counters, r, c), added := Added(w.added, r, c))
    case CountOnDropped(r, f, n) =>
      var c := Counts(n, n, n, n).Only(f);
      w.(forgotten := Added(w.forgotten, r, c), added := Added(w.added, r, c))
    case Forget(r) =>
      w.(counters := w.counters - {r}, dropped := w.dropped + {r},
         forgotten := Added(w.forgotten, r, At(w.counters, r)))
    case Retain(keep) =>
      w.(counters := w.counters - (w.counters.Keys - keep), dropped := w.dropped + (w.counters.Keys - keep),
         forgotten := Orphaned(w.forgotten, w.counters, keep))
    case BeginDrain => w.(phase := Draining((set r, f: Field | r in w.counters :: (r, f)), map[]))
    case Swap(r, f) =>
      var c := w.counters[r].Only(f);
      w.(counters := w.counters[r := w.counters[r].Minus(c)],
         phase := Draining(w.phase.todo - {(r, f)}, Added(w.phase.snap, r, c)))
    case EndDrain => w.(phase := Reporting(w.phase.snap))
    case ReportOk(order, at, failing) =>
      w.(phase := Idle,
         books := AllPosted(w.books, node, Lines(order, w.phase.snap, at, failing)),
         refused := Refusals(w.refused, w.books, node, w.phase.snap, at, failing))
    case ReportFails(order, at) =>
      w.(phase := Restoring(w.phase.snap), late := w.late + Rows(order, w.phase.snap, at))
    case LandLate(i, dbOk) =>
      var row := w.late[i];
      var booked := WellFormed(row) && dbOk && Owned(w.books.rules, row.rule, node);
      w.(late := w.late[..i] + w.late[i + 1..], books := Posted(w.books, node, Bucket(row, dbOk)),
         doubled := if booked then Added(w.doubled, row.rule, row.counts) else w.doubled)
    case LoseLate(i) => w.(late := w.late[..i] + w.late[i + 1..])
    case RestoreOne(r, f) =>
      var c := w.phase.snap[r].Only(f);
      w.(counters := Added(w.counters, r, c), phase := Restoring(w.phase.snap[r := w.phase.snap[r].Minus(c)]))
    case EndRestore => w.(phase := Idle)
    case InsertRule(r, n) => w.(books := w.books.(rules := w.books.rules[r := RuleRow(n, false, 0, 0, 0)]))
    case DeleteRule(r) => w.(books := w.books.(rules := w.books.rules[r := w.books.rules[r].(deleted := true)]))
  }

  /** Some rules of the panel are known to the agent at the start; nothing has been counted. */
  function Start(owners: map<int, int>, known: set<int>): World {
    World(map r | r in known :: ZERO, Idle,
          Books(map r | r in owners :: RuleRow(owners[r], false, 0, 0, 0), []), [], {}, map[], map[], map[], map[])
  }

  /** The world after a run; steps that are not possible where they stand are skipped. */
  function Run(owners: map<int, int>, known: set<int>, steps: seq<Step>, node: int): World {
    if steps == [] then Start(owners, known)
    else
      var w := Run(owners, known, steps[..|steps| - 1], node);
      if Enabled(w, steps[|steps| - 1]) then After(w, steps[|steps| - 1], node) else w
  }

  // ---------- nothing is lost or made up ----------

  predicate Conserved(w: World, r: int, f: Field) {
    Of(w.added, r, f) + Of(w.doubled, r, f)
    == Of(w.counters, r, f) + InFlight(w.phase, r).Get(f) + SumOf(w.books.series, r).Get(f)
       + Of(w.refused, r, f) + Of(w.forgotten, r, f)
  }

  predicate NoNegatives(w: World) {
    && NonNegatives(w.counters) && NonNegatives(w.doubled)
    && (!w.phase.Idle? ==> NonNegatives(w.phase.snap))
    && forall row :: row in w.late ==> row.counts.NonNegative()
  }

  lemma {:induction false} LinesClaimSnapshot(order: seq<int>, snap: Tally, at: int, failing: set<int>, rule: int)
    requires NoDuplicates(order) && NonNegatives(snap)
    ensures Claimed(Lines(order, snap, at, failing), rule)
            == if rule in order && rule !in failing && 0 < at <= MAX_TIMESTAMP then ZERO.Plus(At(snap, rule)) else ZERO
  {
    if order != [] {
      var n := |order| - 1;
      LinesClaimSnapshot(order[..n], snap, at, failing, rule);
      assert order == order[..n] + [order[n]];
      var lines := Lines(order, snap, at, failing);
      assert lines[..|lines| - 1] == Lines(order[..n], snap, at, failing);
    }
  }

  /**
   * The panel books the whole report about a rule of the node, unless that transaction fails or the
   * report's time is useless, and of any other rule nothing.
   */
  lemma ReportIsBooked(books: Books, order: seq<int>, snap: Tally, at: int, failing: set<int>, node: int, r: int)
    requires IsReportOf(order, snap) && NonNegatives(snap)
    ensures SumOf(AllPosted(books, node, Lines(order, snap, at, failing)).series, r)
            == if IsBooked(books, node, at, failing, r) then SumOf(books.series, r).Plus(At(snap, r))
               else SumOf(books.series, r)
  {
    var lines := Lines(order, snap, at, failing);
    ReportClaims(order, snap, at, failing, r);
    OnlyOwnersAreCredited(books, node, lines, r);
    PlusZero(SumOf(books.series, r));
  }

  lemma ReportClaims(order: seq<int>, snap: Tally, at: int, failing: set<int>, r: int)
    requires IsReportOf(order, snap) && NonNegatives(snap)
    ensures Claimed(Lines(order, snap, at, failing), r)
            == if r !in failing && 0 < at <= MAX_TIMESTAMP then At(snap, r) else ZERO
  {
    LinesClaimSnapshot(order, snap, at, failing, r);
    assert r !in order ==> At(snap, r) == ZERO;
  }

  lemma PlusZero(c: Counts)
    ensures c.Plus(ZERO) == c
  {
  }

  lemma PlusZeros(c: Counts)
    ensures c.Plus(ZERO) == c && ZERO.Plus(c) == c
  {
  }

  lemma ReportConserves(w: World, step: Step, node: int, r: int, f: Field)
    requires step.ReportOk? && Enabled(w, step) && NoNegatives(w) && Conserved(w, r, f)
    ensures Conserved(After(w, step, node), r, f)
  {
    var snap := w.phase.snap;
    ReportIsBooked(w.books, step.order, snap, step.at, step.failing, node, r);
    RestIsRefused(w.refused, w.books, node, snap, step.at, step.failing, r, f);
  }

  lemma RestIsRefused(
      refused: Tally, books: Books, node: int, snap: Tally, at: int, failing: set<int>, r: int, f: Field)
    ensures Of(Refusals(refused, books, node, snap, at, failing), r, f)
            == Of(refused, r, f) + if IsBooked(books, node, at, failing, r) then 0 else Of(snap, r, f)
  {
  }

  /** A line that lands after the agent has taken its traffic back is booked a second time, if at all. */
  lemma LateLineConserves(w: World, step: Step, node: int, r: int, f: Field)
    requires step.LandLate? && Enabled(w, step) && Conserved(w, r, f)
    ensures Conserved(After(w, step, node), r, f)
  {
    var row := w.late[step.line];
    PostingCreditsOwner(w.books, node, Bucket(row, step.dbOk), r);
    AddedOf(w.doubled, row.rule, row.counts, r, f);
  }

  lemma AgentStepConserves(w: World, step: Step, node: int, r: int, f: Field)
    requires Enabled(w, step) && Conserved(w, r, f)
    requires step.Register? || step.Count? || step.CountOnDropped? || step.Forget? || step.Retain?
    ensures Conserved(After(w, step, node), r, f)
  {
    match step
    case Register(_) =>
    case Count(rule, field, n) =>
      var c := Counts(n, n, n, n).Only(field);
      AddedOf(w.added, rule, c, r, f);
      AddedOf(w.counters, rule, c, r, f);
    case CountOnDropped(rule, field, n) =>
      var c := Counts(n, n, n, n).Only(field);
      AddedOf(w.added, rule, c, r, f);
      AddedOf(w.forgotten, rule, c, r, f);
    case Forget(rule) => AddedOf(w.forgotten, rule, At(w.counters, rule), r, f);
    case Retain(keep) => OrphansAreForgotten(w.forgotten, w.counters, keep, r, f);
  }

  lemma OrphansAreForgotten(forgotten: Tally, counters: Tally, keep: set<int>, r: int, f: Field)
    ensures Of(Orphaned(forgotten, counters, keep), r, f)
            == Of(forgotten, r, f) + if r in keep then 0 else Of(counters, r, f)
    ensures Of(counters - (counters.Keys - keep), r, f) == if r in keep then Of(counters, r, f) else 0
  {
  }

  lemma SwapConserves(w: World, step: Step, node: int, r: int, f: Field)
    requires step.Swap? && Enabled(w, step) && Conserved(w, r, f)
    ensures Conserved(After(w, step, node), r, f)
  {
    var w' := After(w, step, node);
    var c := w.counters[step.rule].Only(step.field);
    AddedOf(w.phase.snap, step.rule, c, r, f);
    assert Of(w'.counters, r, f) == Of(w.counters, r, f) - if r == step.rule then c.Get(f) else 0;
    assert w'.books == w.books && w'.refused == w.refused && w'.forgotten == w.forgotten;
  }

  lemma RestoreConserves(w: World, step: Step, node: int, r: int, f: Field)
    requires step.RestoreOne? && Enabled(w, step) && Conserved(w, r, f)
    ensures Conserved(After(w, step, node), r, f)
  {
    var w' := After(w, step, node);
    var c := w.phase.snap[step.rule].Only(step.field);
    AddedOf(w.counters, step.rule, c, r, f);
    assert Of(w'.phase.snap, r, f) == Of(w.phase.snap, r, f) - if r == step.rule then c.Get(f) else 0;
    assert w'.books == w.books && w'.refused == w.refused && w'.forgotten == w.forgotten;
  }

  lemma StepConserves(w: World, step: Step, node: int, r: int, f: Field)
    requires Enabled(w, step) && Conserved(w, r, f) && NoNegatives(w)
    ensures Conserved(After(w, step, node), r, f)
  {
    match step
    case ReportOk(_, _, _) => ReportConserves(w, step, node, r, f);
    case LandLate(_, _) => LateLineConserves(w, step, node, r, f);
    case Swap(_, _) => SwapConserves(w, step, node, r, f);
    case RestoreOne(_, _) => RestoreConserves(w, step, node, r, f);
    case BeginDrain =>
    case EndDrain =>
    case ReportFails(_, _) =>
    case LoseLate(_) =>
    case EndRestore =>
    case InsertRule(_, _) =>
    case DeleteRule(_) =>
    case _ => AgentStepConserves(w, step, node, r, f);
  }

  lemma AddedNonNegative(m: Tally, r: int, c: Counts)
    requires NonNegatives(m) && c.NonNegative()
    ensures NonNegatives(Added(m, r, c))
  {
  }

  lemma TakenNonNegative(m: Tally, r: int, f: Field)
    requires NonNegatives(m) && r in m
    ensures m[r].Only(f).NonNegative() && NonNegatives(m[r := m[r].Minus(m[r].Only(f))])
  {
  }

  lemma CountKeepsNoNegatives(w: World, step: Step, node: int)
    requires Enabled(w, step) && NoNegatives(w) && (step.Register? || step.Count? || step.Forget? || step.Retain?)
    ensures NoNegatives(After(w, step, node))
  {
    if step.Count? {
      AddedNonNegative(w.counters, step.rule, Counts(step.n, step.n, step.n, step.n).Only(step.field));
    } else if step.Register? {
      assert ZERO.NonNegative();
    }
  }

  lemma MoveKeepsNoNegatives(w: World, step: Step, node: int)
    requires Enabled(w, step) && NoNegatives(w) && (step.Swap? || step.RestoreOne?)
    ensures NoNegatives(After(w, step, node))
  {
    var (r, f) := (step.rule, step.field);
    if step.Swap? {
      TakenNonNegative(w.counters, r, f);
      AddedNonNegative(w.phase.snap, r, w.counters[r].Only(f));
    } else {
      TakenNonNegative(w.phase.snap, r, f);
      AddedNonNegative(w.counters, r, w.phase.snap[r].Only(f));
    }
  }

  lemma LateLineKeepsNoNegatives(w: World, step: Step, node: int)
    requires Enabled(w, step) && NoNegatives(w) && (step.ReportFails? || step.LandLate? || step.LoseLate?)
    ensures NoNegatives(After(w, step, node))
  {
    var w' := After(w, step, node);
    if step.ReportFails? {
      assert forall row :: row in Rows(step.order, w.phase.snap, step.at) ==> row.counts.NonNegative();
    } else {
      var row := w.late[step.line];
      assert row in w.late && forall other :: other in w'.late ==> other in w.late;
      AddedNonNegative(w.doubled, row.rule, row.counts);
    }
  }

  lemma StepKeepsNoNegatives(w: World, step: Step, node: int)
    requires Enabled(w, step) && NoNegatives(w)
    ensures NoNegatives(After(w, step, node))
  {
    if step.Register? || step.Count? || step.Forget? || step.Retain? {
      CountKeepsNoNegatives(w, step, node);
    } else if step.Swap? || step.RestoreOne? {
      MoveKeepsNoNegatives(w, step, node);
    } else if step.ReportFails? || step.LandLate? || step.LoseLate? {
      LateLineKeepsNoNegatives(w, step, node);
    } else {
      var w' := After(w, step, node);
      assert w'.counters == w.counters && w'.doubled == w.doubled && w'.late == w.late;
      assert w'.phase.Idle? || w'.phase.snap == map[] || (!w.phase.Idle? && w'.phase.snap == w.phase.snap);
    }
  }

  /**
   * Whatever interleaves with whatever, whichever reports fail and whichever acknowledgements get
   * lost: everything ever counted for a rule, and what was booked twice, is in its counter, in the
   * report under way, in its minutes on the panel, or in one of the two records of loss.
   */
  lemma {:induction false} TrafficIsConserved(
      owners: map<int, int>, known: set<int>, steps: seq<Step>, node: int, r: int, f: Field)
    ensures var w := Run(owners, known, steps, node); Conserved(w, r, f) && NoNegatives(w)
  {
    if steps != [] {
      var earlier := steps[..|steps| - 1];
      TrafficIsConserved(owners, known, earlier, node, r, f);
      var w := Run(owners, known, earlier, node);
      if Enabled(w, steps[|steps| - 1]) {
        StepConserves(w, steps[|steps| - 1], node, r, f);
        StepKeepsNoNegatives(w, steps[|steps| - 1], node);
      }
    }
  }

  /**
   * Dropping the counters of unknown rules costs a kept rule nothing. Of any other rule it loses
   * exactly what was counted for it and is neither in a report, nor booked, nor lost before.
   */
  lemma RetainLosesOnlyUnreported(
      owners: map<int, int>, known: set<int>, steps: seq<Step>, node: int, keep: set<int>, r: int, f: Field)
    requires Enabled(Run(owners, known, steps, node), Retain(keep))
    ensures var w := Run(owners, known, steps, node);
            var w' := After(w, Retain(keep), node);
            && (r in keep ==> At(w'.counters, r) == At(w.counters, r) && At(w'.forgotten, r) == At(w.forgotten, r))
            && (r !in keep ==>
                  && r !in w'.counters
                  && Of(w'.forgotten, r, f)
                     == Of(w.added, r, f) + Of(w.doubled, r, f) - InFlight(w.phase, r).Get(f)
                        - SumOf(w.books.series, r).Get(f) - Of(w.refused, r, f))
  {
    TrafficIsConserved(owners, known, steps, node, r, f);
    var w := Run(owners, known, steps, node);
    OrphansAreForgotten(w.forgotten, w.counters, keep, r, f);
  }

  // ---------- a drain that nothing interrupts ----------

  /** The swaps of a drain, one after the other. */
  function Swapped(w: World, pairs: seq<(int, Field)>, node: int): World
    decreases |pairs|
  {
    if pairs == [] || !Enabled(w, Swap(pairs[0].0, pairs[0].1)) then w
    else Swapped(After(w, Swap(pairs[0].0, pairs[0].1), node), pairs[1..], node)
  }

  lemma SwapMovesCounter(w: World, p: (int, Field), node: int, r: int, f: Field)
    requires Enabled(w, Swap(p.0, p.1))
    ensures var w' := After(w, Swap(p.0, p.1), node);
            && w'.phase.Draining? && w'.phase.todo == w.phase.todo - {p} && w'.counters.Keys == w.counters.Keys
            && var moved := if (r, f) == p then Of(w.counters, r, f) else 0;
               Of(w'.counters, r, f) == Of(w.counters, r, f) - moved
               && Of(w'.phase.snap, r, f) == Of(w.phase.snap, r, f) + moved
  {
    assert p == (p.0, p.1);
    AddedOf(w.phase.snap, p.0, w.counters[p.0].Only(p.1), r, f);
  }

  /** Taking one of the listed pairs leaves the others. */
  lemma RestIsListed<T>(pairs: seq<T>, todo: set<T>)
    requires pairs != [] && NoDuplicates(pairs) && forall p :: p in pairs <==> p in todo
    ensures NoDuplicates(pairs[1..]) && forall p :: p in pairs[1..] <==> p in todo - {pairs[0]}
  {
    assert forall q :: q in pairs <==> q == pairs[0] || q in pairs[1..];
  }

  lemma {:induction false} SwapsMoveCounters(w: World, pairs: seq<(int, Field)>, node: int, r: int, f: Field)
    requires w.phase.Draining? && NoDuplicates(pairs) && forall p :: p in pairs <==> p in w.phase.todo
    requires forall p :: p in w.phase.todo ==> p.0 in w.counters
    ensures var w' := Swapped(w, pairs, node);
            && w'.phase.Draining? && w'.phase.todo == {} && w'.counters.Keys == w.counters.Keys
            && var moved := if (r, f) in w.phase.todo then Of(w.counters, r, f) else 0;
               Of(w'.counters, r, f) == Of(w.counters, r, f) - moved
               && Of(w'.phase.snap, r, f) == Of(w.phase.snap, r, f) + moved
    decreases |pairs|
  {
    if pairs == [] {
      assert w.phase.todo == {};
    } else {
      var p := pairs[0];
      assert p in pairs && p == (p.0, p.1);
      RestIsListed(pairs, w.phase.todo);
      SwapMovesCounter(w, p, node, r, f);
      SwapsMoveCounters(After(w, Swap(p.0, p.1), node), pairs[1..], node, r, f);
    }
  }

  /**
   * In whatever order the counters are swapped, a drain that nothing interrupts does what
   * StatsCollector.DrainSnapshot promises: the report holds all that was counted, and no counter does.
   */
  lemma {:induction false} UninterruptedDrainTakesAll(
      w: World, pairs: seq<(int, Field)>, node: int, r: int, f: Field)
    requires w.phase.Idle? && NoDuplicates(pairs)
    requires forall p: (int, Field) :: p in pairs <==> p.0 in w.counters
    ensures var done := Swapped(After(w, BeginDrain, node), pairs, node);
            && Enabled(done, EndDrain) && done.counters.Keys == w.counters.Keys
            && Of(done.counters, r, f) == 0
            && InFlight(After(done, EndDrain, node).phase, r).Get(f) == Of(w.counters, r, f)
  {
    var begun := After(w, BeginDrain, node);
    forall p: (int, Field) ensures p in pairs <==> p in begun.phase.todo {
      var (q, g) := p;
      assert (q, g) in begun.phase.todo <==> q in w.counters;
    }
    SwapsMoveCounters(begun, pairs, node, r, f);
    assert (r, f) in begun.phase.todo <==> r in w.counters;
  }

  // ---------- a rule that stays ----------

  /** The step cannot cost this rule traffic: the rule keeps its counter and its row, and its reports get booked. */
  predicate Harmless(s: Step, r: int) {
    && s != Forget(r) && s != DeleteRule(r)
    && (s.Retain? ==> r in s.keep)
    && (s.ReportOk? ==> 0 < s.at <= MAX_TIMESTAMP && r !in s.failing)
  }

  predicate Undisturbed(steps: seq<Step>, r: int) {
    forall s :: s in steps ==> Harmless(s, r)
  }

  predicate Unharmed(w: World, node: int, r: int) {
    && At(w.refused, r) == At(w.forgotten, r) == ZERO
    && r in w.counters && r !in w.dropped && Owned(w.books.rules, r, node)
  }

  lemma HarmlessReportKeepsUnharmed(w: World, step: Step, node: int, r: int)
    requires Enabled(w, step) && Harmless(step, r) && Unharmed(w, node, r) && (step.ReportOk? || step.LandLate?)
    ensures Unharmed(After(w, step, node), node, r)
  {
    if step.ReportOk? {
      OnlyOwnersAreCredited(w.books, node, Lines(step.order, w.phase.snap, step.at, step.failing), r);
    } else {
      PostingCreditsOwner(w.books, node, Bucket(w.late[step.line], step.dbOk), r);
    }
  }

  lemma HarmlessCountKeepsUnharmed(w: World, step: Step, node: int, r: int)
    requires Enabled(w, step) && Harmless(step, r) && Unharmed(w, node, r)
    requires step.Count? || step.CountOnDropped? || step.Forget? || step.Retain? || step.Swap? || step.RestoreOne?
    ensures Unharmed(After(w, step, node), node, r)
  {
    assert After(w, step, node).books == w.books && After(w, step, node).refused == w.refused;
  }

  lemma HarmlessStepKeepsUnharmed(w: World, step: Step, node: int, r: int)
    requires Enabled(w, step) && Harmless(step, r) && Unharmed(w, node, r)
    ensures Unharmed(After(w, step, node), node, r)
  {
    if step.ReportOk? || step.LandLate? {
      HarmlessReportKeepsUnharmed(w, step, node, r);
    } else if (step.Count? || step.CountOnDropped? || step.Forget? || step.Retain?
               || step.Swap? || step.RestoreOne?) {
      HarmlessCountKeepsUnharmed(w, step, node, r);
    } else {
      var w' := After(w, step, node);
      assert w'.refused == w.refused && w'.forgotten == w.forgotten && w'.dropped == w.dropped;
    }
  }

  lemma {:induction false} UndisturbedLosesNothing(
      owners: map<int, int>, known: set<int>, steps: seq<Step>, node: int, r: int)
    requires r in owners && owners[r] == node && r in known && Undisturbed(steps, r)
    ensures Unharmed(Run(owners, known, steps, node), node, r)
  {
    if steps != [] {
      var earlier, step := steps[..|steps| - 1], steps[|steps| - 1];
      assert step in steps && forall s :: s in earlier ==> s in steps;
      UndisturbedLosesNothing(owners, known, earlier, node, r);
      if Enabled(Run(owners, known, earlier, node), step) {
        HarmlessStepKeepsUnharmed(Run(owners, known, earlier, node), step, node, r);
      }
    }
  }

  lemma StepKeepsBalance(w: World, step: Step, node: int)
    requires Enabled(w, step) && Balanced(w.books)
    ensures Balanced(After(w, step, node).books)
  {
    match step
    case ReportOk(order, at, failing) => BatchKeepsBalance(w.books, node, Lines(order, w.phase.snap, at, failing));
    case LandLate(i, dbOk) => PostingKeepsBalance(w.books, node, Bucket(w.late[i], dbOk));
    case InsertRule(r, _) => NoMinutesYet(w.books.series, r);
    case DeleteRule(_) =>
    case _ => assert After(w, step, node).books == w.books;
  }

  lemma {:induction false} BooksStayBalanced(owners: map<int, int>, known: set<int>, steps: seq<Step>, node: int)
    ensures Balanced(Run(owners, known, steps, node).books)
  {
    if steps != [] {
      var earlier, step := steps[..|steps| - 1], steps[|steps| - 1];
      BooksStayBalanced(owners, known, earlier, node);
      if Enabled(Run(owners, known, earlier, node), step) {
        StepKeepsBalance(Run(owners, known, earlier, node), step, node);
      }
    }
  }

  lemma {:induction false} NoMinutesYet(series: seq<StatRow>, r: int)
    requires forall b :: b in series ==> b.rule != r
    ensures SumOf(series, r) == ZERO
  {
    if series != [] {
      assert series[0] in series;
      NoMinutesYet(series[1..], r);
    }
  }

  /** One counter of the rule's row; errors are kept by minute only. */
  function Billed(books: Books, r: int, f: Field): int
    requires r in books.rules
  {
    match f
    case Rx => books.rules[r].rx
    case Tx => books.rules[r].tx
    case Connections => books.rules[r].connections
    case Errors => SumOf(books.series, r).errors
  }

  /**
   * For a rule that its node keeps, whatever interleaves and whichever reports fail: counter, report
   * under way and the rule's total on the panel are what was ever counted plus what was booked
   * twice. So nothing is ever lost, and too much is billed by exactly the lines that landed after
   * their report had failed.
   */
  lemma LiveRulesLoseNothing(owners: map<int, int>, known: set<int>, steps: seq<Step>, node: int, r: int, f: Field)
    requires r in owners && owners[r] == node && r in known && Undisturbed(steps, r)
    ensures var w := Run(owners, known, steps, node);
            && r in w.books.rules
            && Of(w.counters, r, f) + InFlight(w.phase, r).Get(f) + Billed(w.books, r, f)
               == Of(w.added, r, f) + Of(w.doubled, r, f)
            && Of(w.doubled, r, f) >= 0
  {
    UndisturbedLosesNothing(owners, known, steps, node, r);
    BooksStayBalanced(owners, known, steps, node);
    TrafficIsConserved(owners, known, steps, node, r, f);
  }

  lemma OnlyLateLinesDouble(w: World, step: Step, node: int)
    requires Enabled(w, step) && !step.LandLate?
    ensures After(w, step, node).doubled == w.doubled
  {
  }

  /** Nothing is booked twice unless a line lands after its report has failed. */
  lemma {:induction false} DoubledOnlyByLateLines(
      owners: map<int, int>, known: set<int>, steps: seq<Step>, node: int, r: int)
    requires forall s :: s in steps ==> !s.LandLate?
    ensures At(Run(owners, known, steps, node).doubled, r) == ZERO
  {
    if steps != [] {
      var earlier, step := steps[..|steps| - 1], steps[|steps| - 1];
      assert step in steps && forall s :: s in earlier ==> s in steps;
      DoubledOnlyByLateLines(owners, known, earlier, node, r);
      if Enabled(Run(owners, known, earlier, node), step) {
        OnlyLateLinesDouble(Run(owners, known, earlier, node), step, node);
      }
    }
  }

  // ---------- how much can be booked twice ----------

  lemma {:induction false} SumsAdd(a: seq<StatRow>, b: seq<StatRow>, r: int)
    ensures SumOf(a + b, r) == SumOf(a, r).Plus(SumOf(b, r))
  {
    if a == [] {
      assert a + b == b;
    } else {
      assert (a + b)[1..] == a[1..] + b;
      SumsAdd(a[1..], b, r);
    }
  }

  lemma PlusSwaps(a: Counts, x: Counts, b: Counts)
    ensures a.Plus(x.Plus(b)) == a.Plus(b).Plus(x) && a.Plus(ZERO.Plus(b)) == a.Plus(b)
  {
  }

  lemma SumOfOne(row: StatRow, rest: seq<StatRow>, r: int)
    ensures SumOf([row] + rest, r) == (if row.rule == r then row.counts else ZERO).Plus(SumOf(rest, r))
  {
    assert ([row] + rest)[1..] == rest;
  }

  lemma SumWithoutOne(rows: seq<StatRow>, i: nat, r: int)
    requires i < |rows|
    ensures SumOf(rows, r)
            == SumOf(rows[..i] + rows[i + 1..], r).Plus(if rows[i].rule == r then rows[i].counts else ZERO)
  {
    hide SumOf;
    assert rows == rows[..i] + ([rows[i]] + rows[i + 1..]);
    SumsAdd(rows[..i], [rows[i]] + rows[i + 1..], r);
    SumOfOne(rows[i], rows[i + 1..], r);
    SumsAdd(rows[..i], rows[i + 1..], r);
    PlusSwaps(SumOf(rows[..i], r), if rows[i].rule == r then rows[i].counts else ZERO, SumOf(rows[i + 1..], r));
  }

  lemma RowsOneByOne(order: seq<int>, snap: Tally, at: int)
    requires order != []
    ensures Rows(order, snap, at) == [StatRow(order[0], at, At(snap, order[0]))] + Rows(order[1..], snap, at)
  {
  }

  lemma ListedOnce(order: seq<int>, r: int)
    requires order != [] && NoDuplicates(order)
    ensures r in order <==> (r == order[0]) != (r in order[1..])
    ensures NoDuplicates(order[1..])
  {
    assert order == [order[0]] + order[1..];
  }

  lemma SumOfOneMoreRow(order: seq<int>, snap: Tally, at: int, r: int)
    requires order != []
    ensures SumOf(Rows(order, snap, at), r)
            == (if order[0] == r then At(snap, r) else ZERO).Plus(SumOf(Rows(order[1..], snap, at), r))
  {
    hide SumOf, At, Rows;
    RowsOneByOne(order, snap, at);
    SumOfOne(StatRow(order[0], at, At(snap, order[0])), Rows(order[1..], snap, at), r);
  }

  lemma {:induction false} RowsSum(order: seq<int>, snap: Tally, at: int, r: int)
    requires NoDuplicates(order)
    ensures SumOf(Rows(order, snap, at), r) == if r in order then At(snap, r) else ZERO
  {
    if order == [] {
      assert Rows(order, snap, at) == [];
    } else {
      ListedOnce(order, r);
      RowsSum(order[1..], snap, at, r);
      RowsSumOnce(order, snap, at, r, order[0] == r, r in order[1..]);
    }
  }

  lemma RowsSumOnce(order: seq<int>, snap: Tally, at: int, r: int, first: bool, later: bool)
    requires order != [] && first == (order[0] == r) && !(first && later)
    requires SumOf(Rows(order[1..], snap, at), r) == if later then At(snap, r) else ZERO
    ensures SumOf(Rows(order, snap, at), r) == if first || later then At(snap, r) else ZERO
  {
    hide *;
    SumOfOneMoreRow(order, snap, at, r);
    PlusZeros(At(snap, r));
    PlusZeros(ZERO);
  }

  /** What the reports of a run that failed had in them about a rule. */
  function FailedReports(owners: map<int, int>, known: set<int>, steps: seq<Step>, node: int, r: int): Counts {
    if steps == [] then ZERO
    else
      var (earlier, step) := (steps[..|steps| - 1], steps[|steps| - 1]);
      var (w, before) := (Run(owners, known, earlier, node), FailedReports(owners, known, earlier, node, r));
      if step.ReportFails? && Enabled(w, step) then before.Plus(At(w.phase.snap, r)) else before
  }

  /** What has been booked twice and what may still be, together. */
  function TwiceOrLate(w: World, r: int, f: Field): int {
    Of(w.doubled, r, f) + SumOf(w.late, r).Get(f)
  }

  lemma ReportedOrZero(order: seq<int>, snap: Tally, r: int)
    requires IsReportOf(order, snap) && r !in order
    ensures At(snap, r) == ZERO
  {
  }

  lemma FailureAddsLines(w: World, step: Step, node: int, r: int, f: Field)
    requires step.ReportFails? && Enabled(w, step)
    ensures TwiceOrLate(After(w, step, node), r, f) == TwiceOrLate(w, r, f) + At(w.phase.snap, r).Get(f)
  {
    hide SumOf, Rows, At;
    var (order, snap) := (step.order, w.phase.snap);
    SumsAdd(w.late, Rows(order, snap, step.at), r);
    RowsSum(order, snap, step.at, r);
    if r !in order {
      ReportedOrZero(order, snap, r);
    }
  }

  lemma LineCountsOnce(w: World, step: Step, node: int, r: int, f: Field)
    requires (step.LandLate? || step.LoseLate?) && Enabled(w, step) && NoNegatives(w)
    ensures TwiceOrLate(After(w, step, node), r, f) <= TwiceOrLate(w, r, f)
  {
    var row := w.late[step.line];
    assert row in w.late;
    SumWithoutOne(w.late, step.line, r);
    AddedOf(w.doubled, row.rule, row.counts, r, f);
  }

  lemma OtherStepsLeaveLines(w: World, step: Step, node: int)
    requires Enabled(w, step) && !step.ReportFails? && !step.LandLate? && !step.LoseLate?
    ensures After(w, step, node).late == w.late && After(w, step, node).doubled == w.doubled
  {
    hide AllPosted, Lines, Refusals, Orphaned, Added, At, Enabled;
  }

  /**
   * Each line of a failed report is booked at most once: what is billed too much, and what may still
   * be, is never more than what the reports that failed had in them.
   */
  lemma {:induction false} DoubledAtMostOnce(
      owners: map<int, int>, known: set<int>, steps: seq<Step>, node: int, r: int, f: Field)
    ensures TwiceOrLate(Run(owners, known, steps, node), r, f)
            <= FailedReports(owners, known, steps, node, r).Get(f)
  {
    if steps != [] {
      var earlier, step := steps[..|steps| - 1], steps[|steps| - 1];
      DoubledAtMostOnce(owners, known, earlier, node, r, f);
      TrafficIsConserved(owners, known, earlier, node, r, f);
      var w := Run(owners, known, earlier, node);
      hide After, NoNegatives, Conserved;
      if Enabled(w, step) {
        if step.ReportFails? {
          FailureAddsLines(w, step, node, r, f);
        } else if step.LandLate? || step.LoseLate? {
          LineCountsOnce(w, step, node, r, f);
        } else {
          OtherStepsLeaveLines(w, step, node);
        }
      }
    }
  }
}
