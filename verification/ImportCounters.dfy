/**
 The progress counters of a CSV import job. Every child import increments them with one atomic
 update, the loader writes the number of rows with another, in any order; whoever finds the
 job complete in the row it gets back writes the final status.
 */
module ImportCounters {
  import opened Wrappers

  // The numeric attributes of a job row.
  type Row = map<string, int>

  datatype Status = COMPLETED | FAILED

  // ---------------------------------------------------------------- the update expression

  // `#k = if_not_exists(#k, :kStart) + :kInc`
  datatype Clause = Clause(name: string, start: string, inc: string)

  datatype Update = Update(clauses: seq<Clause>, names: map<string, string>, values: map<string, int>)

  predicate Bound(u: Update, c: Clause) {
    c.name in u.names && c.start in u.values && c.inc in u.values
  }

  // What DynamoDB does with the first n clauses: every right-hand side reads the old row.
  function Evaluate(u: Update, row: Row, n: nat): Option<Row>
    requires n <= |u.clauses|
  {
    if n == 0 then Some(row)
    else
      var soFar := Evaluate(u, row, n - 1);
      var c := u.clauses[n - 1];
      if soFar.None? || !Bound(u, c) then None
      else
        var attribute := u.names[c.name];
        var current := if attribute in row then row[attribute] else u.values[c.start];
        Some(soFar.value[attribute := current + u.values[c.inc]])
  }

  function Value(row: Row, key: string): int {
    if key in row then row[key] else 0
  }

  // Counters by name, with the amounts to add; an object has every key once.
  type Counters = seq<(string, int)>

  predicate DistinctKeys(counters: Counters) {
    forall i, j :: 0 <= i < j < |counters| ==> counters[i].0 != counters[j].0
  }

  predicate Mentioned(counters: Counters, n: nat, key: string)
    requires n <= |counters|
  {
    exists i :: 0 <= i < n && counters[i].0 == key
  }

  // What is meant by the first n counters: each moves by its amount, from zero when it is new,
  // and nothing else changes.
  ghost predicate Incremented(before: Row, counters: Counters, n: nat, after: Row)
    requires n <= |counters|
  {
    && (forall i :: 0 <= i < n ==>
          counters[i].0 in after && after[counters[i].0] == Value(before, counters[i].0) + counters[i].1)
    && (forall key :: !Mentioned(counters, n, key) ==>
          (key in after <==> key in before) && Value(after, key) == Value(before, key))
  }

  function NameOf(key: string): string { "#" + key }
  function StartOf(key: string): string { ":" + key + "Start" }
  function IncOf(key: string): string { ":" + key + "Inc" }

  function ClauseFor(key: string): Clause {
    Clause(NameOf(key), StartOf(key), IncOf(key))
  }

  // No two placeholders of different counters are the same.
  lemma PlaceholdersDiffer(a: string, b: string)
    ensures NameOf(a) == NameOf(b) <==> a == b
    ensures StartOf(a) == StartOf(b) <==> a == b
    ensures IncOf(a) == IncOf(b) <==> a == b
    ensures StartOf(a) != IncOf(b)
  {
    var sa, sb, ib := StartOf(a), StartOf(b), IncOf(b);
    assert NameOf(a)[1..] == a && NameOf(b)[1..] == b;
    assert sa[1..|sa| - 5] == a && sb[1..|sb| - 5] == b;
    assert IncOf(a)[1..|IncOf(a)| - 3] == a && ib[1..|ib| - 3] == b;
    assert sa[|sa| - 1] == 't' && ib[|ib| - 1] == 'c';
  }

  predicate Describes(u: Update, counters: Counters) {
    && |u.clauses| == |counters|
    && forall i :: 0 <= i < |counters| ==>
         var key := counters[i].0;
         && u.clauses[i] == ClauseFor(key) && Bound(u, u.clauses[i])
         && u.names[NameOf(key)] == key && u.values[StartOf(key)] == 0 && u.values[IncOf(key)] == counters[i].1
  }

  // _buildAtomicCounterUpdateExpression
  method BuildAtomicCounterUpdateExpression(counters: Counters) returns (u: Update)
    requires DistinctKeys(counters)
    ensures Describes(u, counters)
    ensures forall row :: Evaluate(u, row, |u.clauses|).Some? && Incremented(row, counters, |counters|, Evaluate(u, row, |u.clauses|).value)
  {
    u := Update([], map[], map[]);
    var i := 0;
    while i < |counters|
      invariant 0 <= i <= |counters|
      invariant Describes(u, counters[..i])
    {
      var key := counters[i].0;
      forall j | 0 <= j < i ensures counters[..i][j] == counters[j] == counters[..i + 1][j] && counters[j].0 != key {
        PlaceholdersDiffer(key, counters[j].0);
        PlaceholdersDiffer(counters[j].0, key);
      }
      PlaceholdersDiffer(key, key);
      forall j | 0 <= j < i
        ensures NameOf(counters[j].0) != NameOf(key) && StartOf(counters[j].0) != StartOf(key) && IncOf(counters[j].0) != IncOf(key)
        ensures StartOf(counters[j].0) != IncOf(key) && IncOf(counters[j].0) != StartOf(key)
      {
        PlaceholdersDiffer(key, counters[j].0);
        PlaceholdersDiffer(counters[j].0, key);
      }
      u := Update(u.clauses + [ClauseFor(key)], u.names[NameOf(key) := key],
                  u.values[StartOf(key) := 0][IncOf(key) := counters[i].1]);
      i := i + 1;
    }
    assert counters[..i] == counters;
    forall row ensures Evaluate(u, row, |u.clauses|).Some? && Incremented(row, counters, |counters|, Evaluate(u, row, |u.clauses|).value) {
      EvaluateIncrements(u, counters, row, |counters|);
    }
  }

  lemma {:induction false} EvaluateIncrements(u: Update, counters: Counters, row: Row, n: nat)
    requires DistinctKeys(counters) && Describes(u, counters) && n <= |counters|
    ensures Evaluate(u, row, n).Some? && Incremented(row, counters, n, Evaluate(u, row, n).value)
  {
    if n > 0 {
      EvaluateIncrements(u, counters, row, n - 1);
      EvaluateOne(u, counters, row, n);
      OneMoreCounter(row, counters, n, Evaluate(u, row, n - 1).value, Evaluate(u, row, n).value);
    }
  }

  lemma EvaluateOne(u: Update, counters: Counters, row: Row, n: nat)
    requires Describes(u, counters) && 0 < n <= |counters| && Evaluate(u, row, n - 1).Some?
    ensures var (key, amount) := counters[n - 1];
            Evaluate(u, row, n) == Some(Evaluate(u, row, n - 1).value[key := Value(row, key) + amount])
  {
    var key := counters[n - 1].0;
    assert u.clauses[n - 1] == ClauseFor(key) && Bound(u, u.clauses[n - 1]);
  }

  lemma OneMoreCounter(row: Row, counters: Counters, n: nat, before: Row, after: Row)
    requires 0 < n <= |counters| && DistinctKeys(counters) && Incremented(row, counters, n - 1, before)
    requires after == before[counters[n - 1].0 := Value(row, counters[n - 1].0) + counters[n - 1].1]
    ensures Incremented(row, counters, n, after)
  {
    forall key | !Mentioned(counters, n, key)
      ensures (key in after <==> key in row) && Value(after, key) == Value(row, key)
    {
      assert counters[n - 1].0 != key;
      assert !Mentioned(counters, n - 1, key);
    }
  }

  // ---------------------------------------------------------------- the job

  const TOTAL := "totalRows"
  const PROCESSED := "processedRows"
  const SUCCEEDED := "succeededRows"
  const FAILED_ROWS := "failedRows"

  function CountersFor(childSucceeded: bool): Counters {
    [(PROCESSED, 1), (if childSucceeded then SUCCEEDED else FAILED_ROWS, 1)]
  }

  // A job and the final statuses written to it, in order.
  datatype Job = Job(row: Row, decided: seq<Status>)

  const NewJob := Job(map[], [])

  // A comparison with a missing attribute is false.
  predicate AtLeast(row: Row, key: string, bound: int) {
    key in row && row[key] >= bound
  }

  function FinalStatus(row: Row): Status {
    if AtLeast(row, FAILED_ROWS, 1) then FAILED else COMPLETED
  }

  function Bump(row: Row, key: string): Row {
    row[key := Value(row, key) + 1]
  }

  function Child(job: Job, ok: bool): Job {
    var row := Bump(Bump(job.row, PROCESSED), if ok then SUCCEEDED else FAILED_ROWS);
    Job(row, job.decided + if AtLeast(row, TOTAL, 1) && AtLeast(row, PROCESSED, row[TOTAL]) then [FinalStatus(row)] else [])
  }

  function Load(job: Job, totalRows: nat): Job {
    var row := job.row[TOTAL := totalRows];
    Job(row, job.decided + if AtLeast(row, PROCESSED, totalRows) then [FinalStatus(row)] else [])
  }

  // An update that increments two counters by one can only be this.
  lemma IncrementedIsBump(before: Row, a: string, b: string, after: Row)
    requires a != b && Incremented(before, [(a, 1), (b, 1)], 2, after)
    ensures after == Bump(Bump(before, a), b)
  {
    var counters, bumped := [(a, 1), (b, 1)], Bump(Bump(before, a), b);
    assert counters[0] == (a, 1) && counters[1] == (b, 1);
    forall key ensures (key in after <==> key in bumped) && Value(after, key) == Value(bumped, key) {
      if key != a && key != b {
        assert !Mentioned(counters, 2, key);
      }
    }
    forall key | key in after ensures after[key] == bumped[key] {
      assert Value(after, key) == Value(bumped, key);
    }
  }

  class ImportService {
    var row: Row
    var decided: seq<Status>

    ghost function State(): Job
      reads this
    {
      Job(row, decided)
    }

    // One UpdateItem request, then the status decided from the row it returned.
    method IncrementParentJobCounters(childSucceeded: bool)
      modifies this
      ensures State() == Child(old(State()), childSucceeded)
    {
      var counters := [(PROCESSED, 1)];
      if childSucceeded {
        counters := counters + [(SUCCEEDED, 1)];
      } else {
        counters := counters + [(FAILED_ROWS, 1)];
      }
      assert counters == CountersFor(childSucceeded);
      FieldsDiffer();
      var u := BuildAtomicCounterUpdateExpression(counters);
      ghost var before := row;
      row := Evaluate(u, row, |u.clauses|).value;
      IncrementedIsBump(before, PROCESSED, if childSucceeded then SUCCEEDED else FAILED_ROWS, row);
      if AtLeast(row, TOTAL, 1) && AtLeast(row, PROCESSED, row[TOTAL]) {
        decided := decided + [if AtLeast(row, FAILED_ROWS, 1) then FAILED else COMPLETED];
      }
    }

    // The csv_loader branch, up to loading the first rows.
    method LoadTotal(totalRows: nat)
      modifies this
      ensures State() == Load(old(State()), totalRows)
    {
      row := row[TOTAL := totalRows];
      if AtLeast(row, PROCESSED, totalRows) {
        decided := decided + [if AtLeast(row, FAILED_ROWS, 1) then FAILED else COMPLETED];
      }
    }
  }

  // ---------------------------------------------------------------- runs

  function Children(job: Job, oks: seq<bool>): Job {
    if oks == [] then job else Child(Children(job, oks[..|oks| - 1]), oks[|oks| - 1])
  }

  // Any interleaving: some children, the loader, the other children.
  function Interleaving(early: seq<bool>, totalRows: nat, late: seq<bool>): Job {
    Children(Load(Children(NewJob, early), totalRows), late)
  }

  function Count(oks: seq<bool>, which: bool): nat {
    if oks == [] then 0
    else Count(oks[..|oks| - 1], which) + if oks[|oks| - 1] == which then 1 else 0
  }

  lemma {:induction false} CountBoth(oks: seq<bool>)
    ensures Count(oks, true) + Count(oks, false) == |oks|
    ensures Count(oks, false) > 0 <==> false in oks
  {
    if oks != [] {
      var n := |oks| - 1;
      CountBoth(oks[..n]);
      assert oks == oks[..n] + [oks[n]];
    }
  }

  lemma {:induction false} CountConcat(a: seq<bool>, b: seq<bool>, which: bool)
    ensures Count(a + b, which) == Count(a, which) + Count(b, which)
  {
    if b == [] {
      assert a + b == a;
    } else {
      assert (a + b)[..|a + b| - 1] == a + b[..|b| - 1];
      CountConcat(a, b[..|b| - 1], which);
    }
  }

  // The counters of a row that some children have incremented.
  predicate Counted(row: Row, ok: nat, bad: nat) {
    && Value(row, PROCESSED) == ok + bad && (PROCESSED in row <==> ok + bad > 0)
    && Value(row, SUCCEEDED) == ok
    && Value(row, FAILED_ROWS) == bad && (FAILED_ROWS in row <==> bad > 0)
  }

  lemma FieldsDiffer()
    ensures TOTAL != PROCESSED && TOTAL != SUCCEEDED && TOTAL != FAILED_ROWS
    ensures PROCESSED != SUCCEEDED && PROCESSED != FAILED_ROWS && SUCCEEDED != FAILED_ROWS
  {
    assert TOTAL[0] == 't' && PROCESSED[0] == 'p' && SUCCEEDED[0] == 's' && FAILED_ROWS[0] == 'f';
  }

  // How many of the increments from `from` on, `more` of them, reach the total.
  function Reaching(from: nat, more: nat, total: nat): nat {
    if total == 0 || from + more < total then 0
    else if from >= total then more
    else from + more + 1 - total
  }

  lemma ChildCounts(job: Job, ok: bool, good: nat, bad: nat)
    requires Counted(job.row, good, bad)
    ensures var next := Child(job, ok);
            && Counted(next.row, good + if ok then 1 else 0, bad + if ok then 0 else 1)
            && (TOTAL in next.row <==> TOTAL in job.row)
            && (TOTAL in job.row ==> next.row[TOTAL] == job.row[TOTAL])
            && next.decided == job.decided +
                 if TOTAL in job.row && 0 < job.row[TOTAL] <= good + bad + 1
                 then [if bad + (if ok then 0 else 1) > 0 then FAILED else COMPLETED] else []
  {
    FieldsDiffer();
  }

  lemma {:induction false} ChildrenCount(job: Job, good: nat, bad: nat, oks: seq<bool>)
    requires Counted(job.row, good, bad) && (TOTAL in job.row ==> job.row[TOTAL] >= 0)
    ensures var end := Children(job, oks);
            && Counted(end.row, good + Count(oks, true), bad + Count(oks, false))
            && (TOTAL in end.row <==> TOTAL in job.row)
            && (TOTAL in job.row ==> end.row[TOTAL] == job.row[TOTAL])
            && |job.decided| <= |end.decided| && end.decided[..|job.decided|] == job.decided
            && |end.decided| - |job.decided| == (if TOTAL in job.row then Reaching(good + bad, |oks|, job.row[TOTAL]) else 0)
            && (|end.decided| > |job.decided| ==>
                  end.decided[|end.decided| - 1] == if bad + Count(oks, false) > 0 then FAILED else COMPLETED)
  {
    if oks != [] {
      var n := |oks| - 1;
      ChildrenCount(job, good, bad, oks[..n]);
      CountBoth(oks[..n]);
      ChildCounts(Children(job, oks[..n]), oks[n], good + Count(oks[..n], true), bad + Count(oks[..n], false));
    }
  }

  // ---------------------------------------------------------------- main results

  // At every moment the processed rows are the succeeded and the failed ones, and each counter
  // is the number of children that reported so.
  lemma CountersAddUp(early: seq<bool>, totalRows: nat, late: seq<bool>)
    ensures var row := Interleaving(early, totalRows, late).row;
            && Value(row, PROCESSED) == Value(row, SUCCEEDED) + Value(row, FAILED_ROWS) == |early + late|
            && Value(row, SUCCEEDED) == Count(early + late, true)
            && Value(row, FAILED_ROWS) == Count(early + late, false)
  {
    FieldsDiffer();
    ChildrenCount(NewJob, 0, 0, early);
    ChildrenCount(Load(Children(NewJob, early), totalRows), Count(early, true), Count(early, false), late);
    CountBoth(early);
    CountBoth(late);
    CountConcat(early, late, true);
    CountConcat(early, late, false);
  }

  // How often a final status is decided, in any interleaving of any number of children with
  // the loader: by the loader when it finds enough rows processed, and by every later child
  // that reaches the total.
  lemma DecisionsAreCounted(early: seq<bool>, totalRows: nat, late: seq<bool>)
    ensures |Interleaving(early, totalRows, late).decided|
            == (if early != [] && |early| >= totalRows then 1 else 0) + Reaching(|early|, |late|, totalRows)
  {
    FieldsDiffer();
    ChildrenCount(NewJob, 0, 0, early);
    CountBoth(early);
    ChildrenCount(Load(Children(NewJob, early), totalRows), Count(early, true), Count(early, false), late);
  }

  // With as many children as rows, exactly one step decides, whatever the interleaving, and it
  // decides FAILED if and only if some child failed.
  lemma ExactlyOneDecision(early: seq<bool>, totalRows: nat, late: seq<bool>)
    requires totalRows > 0 && |early| + |late| == totalRows
    ensures Interleaving(early, totalRows, late).decided == [if false in early + late then FAILED else COMPLETED]
  {
    FieldsDiffer();
    DecisionsAreCounted(early, totalRows, late);
    ChildrenCount(NewJob, 0, 0, early);
    CountBoth(early);
    CountBoth(late);
    ChildrenCount(Load(Children(NewJob, early), totalRows), Count(early, true), Count(early, false), late);
  }

  // And only then: the number of children must be the number of rows. With fewer nothing is
  // decided, with more a run in which the loader is first decides again and again. An empty
  // file is not decided here at all unless some child came before the loader.
  lemma ExactlyOnceIff(children: nat, totalRows: nat)
    ensures (forall early: seq<bool>, late: seq<bool> :: |early| + |late| == children ==>
               |Interleaving(early, totalRows, late).decided| == 1)
            <==> children == totalRows && totalRows > 0
  {
    if children == totalRows && totalRows > 0 {
      forall early: seq<bool>, late: seq<bool> | |early| + |late| == children
        ensures |Interleaving(early, totalRows, late).decided| == 1
      {
        ExactlyOneDecision(early, totalRows, late);
      }
    } else {
      var early: seq<bool>, late := [], seq(children, i => true);
      DecisionsAreCounted(early, totalRows, late);
      assert |early| + |late| == children;
    }
  }
}
