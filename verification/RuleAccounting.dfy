/** The panel's books: a running total per rule, and the same traffic by minute. */
module RuleAccounting {
  import opened Counts

  /** The rule's node, whether it is (softly) deleted, and its totals. Errors are kept by minute only. */
  datatype RuleRow = RuleRow(node: int, deleted: bool, rx: int, tx: int, connections: int)

  /** What one rule did in one minute. */
  datatype StatRow = StatRow(rule: int, at: int, counts: Counts)

  datatype Books = Books(rules: map<int, RuleRow>, series: seq<StatRow>)

  /** A reported minute, and whether the database goes along with booking it. */
  datatype Bucket = Bucket(row: StatRow, dbOk: bool)

  datatype Batch = Batch(node: int, buckets: seq<Bucket>)

  /** The latest second a timestamp can stand for (31 December of the year 262142). */
  const MAX_TIMESTAMP: int := 8_210_266_876_799

  /** A reported minute that is looked at any further. */
  predicate WellFormed(b: StatRow) {
    0 < b.at <= MAX_TIMESTAMP && b.counts.NonNegative()
  }

  /** The rule belongs to the reporting node and is not deleted. */
  predicate Owned(rules: map<int, RuleRow>, rule: int, node: int) {
    rule in rules && rules[rule].node == node && !rules[rule].deleted
  }

  function Credited(row: RuleRow, c: Counts): RuleRow {
    row.(rx := row.rx + c.rx, tx := row.tx + c.tx, connections := row.connections + c.connections)
  }

  /** Adds to the row of that rule and minute, or makes one. */
  function Upserted(series: seq<StatRow>, b: StatRow): seq<StatRow> {
    if series == [] then [b]
    else if series[0].rule == b.rule && series[0].at == b.at then
      [series[0].(counts := series[0].counts.Plus(b.counts))] + series[1..]
    else [series[0]] + Upserted(series[1..], b)
  }

  /** One transaction: both books, or neither when the bucket is refused or the database fails. */
  function Posted(books: Books, node: int, b: Bucket): Books {
    var row := b.row;
    if WellFormed(row) && b.dbOk && Owned(books.rules, row.rule, node) then
      Books(books.rules[row.rule := Credited(books.rules[row.rule], row.counts)], Upserted(books.series, row))
    else books
  }

  function AllPosted(books: Books, node: int, buckets: seq<Bucket>): Books {
    if buckets == [] then books
    else Posted(AllPosted(books, node, buckets[..|buckets| - 1]), node, buckets[|buckets| - 1])
  }

  /** A whole stream: batches in order, up to one that claims to be from another node. */
  function Streamed(books: Books, node: int, batches: seq<Batch>): (Books, bool)
    decreases |batches|
  {
    if batches == [] then (books, true)
    else if batches[0].node != node then (books, false)
    else Streamed(AllPosted(books, node, batches[0].buckets), node, batches[1..])
  }

  class ControlService {
    var rules: map<int, RuleRow>
    var series: seq<StatRow>

    function Ledger(): Books
      reads this
    {
      Books(rules, series)
    }

    constructor ()
      ensures Ledger() == Books(map[], [])
    {
      rules, series := map[], [];
    }

    method Upsert(b: StatRow)
      modifies this`series
      ensures series == Upserted(old(series), b)
    {
      var i := 0;
      while i < |series|
        invariant 0 <= i <= |series| && series == old(series)
        invariant Upserted(series, b) == series[..i] + Upserted(series[i..], b)
      {
        if series[i].rule == b.rule && series[i].at == b.at {
          series := series[i := series[i].(counts := series[i].counts.Plus(b.counts))];
          return;
        }
        i := i + 1;
      }
      series := series + [b];
    }

    method PostBatch(node: int, buckets: seq<Bucket>)
      modifies this
      ensures Ledger() == AllPosted(old(Ledger()), node, buckets)
    {
      var i := 0;
      while i < |buckets|
        invariant 0 <= i <= |buckets| && Ledger() == AllPosted(old(Ledger()), node, buckets[..i])
      {
        assert buckets[..i + 1][..i] == buckets[..i];
        var (b, dbOk) := (buckets[i].row, buckets[i].dbOk);
        i := i + 1;
        if b.at <= 0 {
          continue;
        }
        if b.counts.rx < 0 || b.counts.tx < 0 || b.counts.connections < 0 || b.counts.errors < 0 {
          continue;
        }
        if b.at > MAX_TIMESTAMP {
          continue;
        }
        if !dbOk {
          continue;
        }
        if !Owned(rules, b.rule, node) {
          continue;
        }
        rules := rules[b.rule := Credited(rules[b.rule], b.counts)];
        Upsert(b);
      }
      assert buckets[..i] == buckets;
    }

    method ReportRuleStats(node: int, batches: seq<Batch>) returns (ok: bool)
      modifies this
      ensures (Ledger(), ok) == Streamed(old(Ledger()), node, batches)
    {
      var i := 0;
      while i < |batches|
        invariant 0 <= i <= |batches|
        invariant Streamed(old(Ledger()), node, batches) == Streamed(Ledger(), node, batches[i..])
      {
        if batches[i].node != node {
          return false;
        }
        PostBatch(node, batches[i].buckets);
        i := i + 1;
      }
      return true;
    }
  }

  // ---------- the two books agree ----------

  /** All that the minutes of a rule add up to. */
  function SumOf(series: seq<StatRow>, rule: int): Counts {
    if series == [] then ZERO
    else if series[0].rule == rule then series[0].counts.Plus(SumOf(series[1..], rule))
    else SumOf(series[1..], rule)
  }

  predicate OneRowPerMinute(series: seq<StatRow>) {
    forall i, j :: 0 <= i < j < |series| ==> series[i].rule != series[j].rule || series[i].at != series[j].at
  }

  predicate Balanced(books: Books) {
    && OneRowPerMinute(books.series)
    && (forall b :: b in books.series ==> b.rule in books.rules)
    && forall r :: r in books.rules ==>
         var sum := SumOf(books.series, r);
         books.rules[r].rx == sum.rx && books.rules[r].tx == sum.tx && books.rules[r].connections == sum.connections
  }

  lemma {:induction false} UpsertAddsToSum(series: seq<StatRow>, b: StatRow, rule: int)
    ensures SumOf(Upserted(series, b), rule)
            == if rule == b.rule then SumOf(series, rule).Plus(b.counts) else SumOf(series, rule)
  {
    if series == [] {
      assert [b][1..] == [];
    } else if series[0].rule != b.rule || series[0].at != b.at {
      UpsertAddsToSum(series[1..], b, rule);
    }
  }

  /** The rows of a series are those from before, one of them grown, or one more. */
  lemma {:induction false} UpsertRows(series: seq<StatRow>, b: StatRow)
    requires OneRowPerMinute(series)
    ensures OneRowPerMinute(Upserted(series, b))
    ensures forall row :: row in Upserted(series, b) ==>
              (row.rule == b.rule && row.at == b.at) || row in series
  {
    if series != [] && (series[0].rule != b.rule || series[0].at != b.at) {
      UpsertRows(series[1..], b);
      var rest := Upserted(series[1..], b);
      forall j | 0 <= j < |rest| ensures series[0].rule != rest[j].rule || series[0].at != rest[j].at {
        assert rest[j] in rest;
      }
    }
  }

  lemma PostingKeepsBalance(books: Books, node: int, bucket: Bucket)
    requires Balanced(books)
    ensures Balanced(Posted(books, node, bucket))
  {
    var b := bucket.row;
    if WellFormed(b) && bucket.dbOk && Owned(books.rules, b.rule, node) {
      UpsertRows(books.series, b);
      var after := Posted(books, node, bucket);
      forall row | row in after.series ensures row.rule in after.rules {
        assert row.rule == b.rule || row in books.series;
      }
      forall r | r in after.rules
        ensures var sum := SumOf(after.series, r);
                && after.rules[r].rx == sum.rx && after.rules[r].tx == sum.tx
                && after.rules[r].connections == sum.connections
      {
        UpsertAddsToSum(books.series, b, r);
      }
    }
  }

  lemma {:induction false} BatchKeepsBalance(books: Books, node: int, buckets: seq<Bucket>)
    requires Balanced(books)
    ensures Balanced(AllPosted(books, node, buckets))
  {
    if buckets != [] {
      BatchKeepsBalance(books, node, buckets[..|buckets| - 1]);
      PostingKeepsBalance(AllPosted(books, node, buckets[..|buckets| - 1]), node, buckets[|buckets| - 1]);
    }
  }

  /** After any stream of reports, honest or not, every rule's total is the sum of its minutes. */
  lemma {:induction false} TotalsAreSumsOfMinutes(books: Books, node: int, batches: seq<Batch>)
    requires Balanced(books)
    ensures Balanced(Streamed(books, node, batches).0)
    decreases |batches|
  {
    if batches != [] && batches[0].node == node {
      BatchKeepsBalance(books, node, batches[0].buckets);
      TotalsAreSumsOfMinutes(AllPosted(books, node, batches[0].buckets), node, batches[1..]);
    }
  }

  /** What a list of buckets claims for a rule, buckets that are malformed or fail in the database aside. */
  function Claimed(buckets: seq<Bucket>, rule: int): Counts {
    if buckets == [] then ZERO
    else
      var earlier := Claimed(buckets[..|buckets| - 1], rule);
      var last := buckets[|buckets| - 1];
      if last.row.rule == rule && WellFormed(last.row) && last.dbOk then earlier.Plus(last.row.counts) else earlier
  }

  /**
   * Nobody is credited for what another node reports, and an honest report about an owned rule is
   * credited in full: for any buckets, the rule's minutes grow by exactly what is claimed for it, or
   * not at all.
   */
  lemma {:induction false} OnlyOwnersAreCredited(books: Books, node: int, buckets: seq<Bucket>, rule: int)
    ensures var after := AllPosted(books, node, buckets);
            && after.rules.Keys == books.rules.Keys
            && (Owned(after.rules, rule, node) <==> Owned(books.rules, rule, node))
            && SumOf(after.series, rule)
               == if Owned(books.rules, rule, node) then SumOf(books.series, rule).Plus(Claimed(buckets, rule))
                  else SumOf(books.series, rule)
  {
    if buckets != [] {
      var earlier, last := buckets[..|buckets| - 1], buckets[|buckets| - 1];
      OnlyOwnersAreCredited(books, node, earlier, rule);
      PostingCreditsOwner(AllPosted(books, node, earlier), node, last, rule);
    }
  }

  /** The same for one bucket. */
  lemma PostingCreditsOwner(books: Books, node: int, bucket: Bucket, rule: int)
    ensures var after := Posted(books, node, bucket);
            && after.rules.Keys == books.rules.Keys
            && (Owned(after.rules, rule, node) <==> Owned(books.rules, rule, node))
            && SumOf(after.series, rule)
               == if (bucket.row.rule == rule && WellFormed(bucket.row) && bucket.dbOk
                      && Owned(books.rules, rule, node))
                  then SumOf(books.series, rule).Plus(bucket.row.counts) else SumOf(books.series, rule)
  {
    if WellFormed(bucket.row) && bucket.dbOk && Owned(books.rules, bucket.row.rule, node) {
      UpsertAddsToSum(books.series, bucket.row, rule);
    }
  }

  /**
   * Exactly which buckets are booked: those with a time that a date can stand for, without a negative
   * count, about a rule that the node has and that is not deleted, if the database goes along. They
   * add to that minute and to the totals; any other leaves both books as they are.
   */
  lemma BucketIsBookedExactly(books: Books, node: int, bucket: Bucket)
    ensures var (after, b) := (Posted(books, node, bucket), bucket.row);
            if (0 < b.at <= 8_210_266_876_799 && b.counts.rx >= 0 && b.counts.tx >= 0 && b.counts.connections >= 0
                && b.counts.errors >= 0 && bucket.dbOk && Owned(books.rules, b.rule, node))
            then SumOf(after.series, b.rule) == SumOf(books.series, b.rule).Plus(b.counts)
                 && after.rules[b.rule].rx == books.rules[b.rule].rx + b.counts.rx
                 && after.rules[b.rule].tx == books.rules[b.rule].tx + b.counts.tx
                 && after.rules[b.rule].connections == books.rules[b.rule].connections + b.counts.connections
            else after == books
  {
    UpsertAddsToSum(books.series, bucket.row, bucket.row.rule);
  }

  /** No report, whatever is in it, makes a total smaller. */
  predicate NoTotalFell(before: Books, after: Books) {
    forall r :: r in before.rules ==>
      && r in after.rules && before.rules[r].rx <= after.rules[r].rx && before.rules[r].tx <= after.rules[r].tx
      && before.rules[r].connections <= after.rules[r].connections
  }

  lemma {:induction false} BatchesOnlyAdd(books: Books, node: int, buckets: seq<Bucket>)
    ensures NoTotalFell(books, AllPosted(books, node, buckets))
  {
    if buckets != [] {
      BatchesOnlyAdd(books, node, buckets[..|buckets| - 1]);
      BucketIsBookedExactly(AllPosted(books, node, buckets[..|buckets| - 1]), node, buckets[|buckets| - 1]);
    }
  }

  lemma {:induction false} StreamsOnlyAdd(books: Books, node: int, batches: seq<Batch>)
    ensures NoTotalFell(books, Streamed(books, node, batches).0)
    decreases |batches|
  {
    if batches != [] && batches[0].node == node {
      BatchesOnlyAdd(books, node, batches[0].buckets);
      StreamsOnlyAdd(AllPosted(books, node, batches[0].buckets), node, batches[1..]);
    }
  }

  /** What a stream claims for a rule before a batch of another node, if there is one. */
  function ClaimedByOwn(batches: seq<Batch>, node: int, rule: int): Counts {
    if batches == [] || batches[0].node != node then ZERO
    else Claimed(batches[0].buckets, rule).Plus(ClaimedByOwn(batches[1..], node, rule))
  }

  lemma PlusAssociates(a: Counts, b: Counts, c: Counts)
    ensures a.Plus(b).Plus(c) == a.Plus(b.Plus(c)) && a.Plus(ZERO) == a
  {
  }

  lemma {:induction false} AcceptedWithoutForeign(books: Books, node: int, batches: seq<Batch>)
    ensures Streamed(books, node, batches).1 <==> forall b :: b in batches ==> b.node == node
    decreases |batches|
  {
    if batches != [] && batches[0].node == node {
      AcceptedWithoutForeign(AllPosted(books, node, batches[0].buckets), node, batches[1..]);
      assert forall b :: b in batches <==> b == batches[0] || b in batches[1..];
    } else if batches != [] {
      assert batches[0] in batches;
    }
  }

  /**
   * A stream is booked up to the first batch that claims to be from another node, and is accepted
   * exactly if there is none: every rule's minutes grow by what is claimed for it before that, if it
   * is the node's own, and not at all if it is not.
   */
  lemma {:induction false} StreamIsBookedUpToForeign(books: Books, node: int, batches: seq<Batch>, rule: int)
    ensures var (after, ok) := Streamed(books, node, batches);
            && (ok <==> forall b :: b in batches ==> b.node == node)
            && SumOf(after.series, rule)
               == if Owned(books.rules, rule, node)
                  then SumOf(books.series, rule).Plus(ClaimedByOwn(batches, node, rule))
                  else SumOf(books.series, rule)
    decreases |batches|
  {
    hide AllPosted, Owned, SumOf, Claimed;
    AcceptedWithoutForeign(books, node, batches);
    var before := SumOf(books.series, rule);
    if batches != [] && batches[0].node == node {
      OnlyOwnersAreCredited(books, node, batches[0].buckets, rule);
      StreamIsBookedUpToForeign(AllPosted(books, node, batches[0].buckets), node, batches[1..], rule);
      PlusAssociates(before, Claimed(batches[0].buckets, rule), ClaimedByOwn(batches[1..], node, rule));
    } else {
      PlusAssociates(before, ZERO, ZERO);
    }
  }
}
