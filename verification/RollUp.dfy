/**
 Three levels of an import: batches of rows roll up into the result of a CSV job, the result
 travels through a task callback, and the callbacks roll up into the status of the ZIP job.
 */
module RollUp {
  import opened Wrappers
  import opened Values
  import K = Keys

  const FAILED := "FAILED"
  const COMPLETED := "COMPLETED"
  const MARKER := "importJobStatus"

  datatype Batch = Batch(totalRows: nat, succeededRows: nat, failedRows: nat)

  // How the map over the batches ended: it was stopped by an error, or left some results.
  datatype MapEnd = Crashed(error: string, cause: string) | Finished(results: seq<Batch>)

  datatype Job = Job(status: string, result: Value)

  // ---------------------------------------------------------------- rows

  function AddRows(a: Batch, b: Batch): Batch {
    Batch(a.totalRows + b.totalRows, a.succeededRows + b.succeededRows, a.failedRows + b.failedRows)
  }

  function Rows(batches: seq<Batch>): Batch {
    if batches == [] then Batch(0, 0, 0) else AddRows(Rows(batches[..|batches| - 1]), batches[|batches| - 1])
  }

  predicate Balanced(b: Batch) {
    b.totalRows == b.succeededRows + b.failedRows
  }

  ghost predicate AllBalanced(batches: seq<Batch>) {
    forall b :: b in batches ==> Balanced(b)
  }

  lemma {:induction false} RowsBalanced(batches: seq<Batch>)
    requires AllBalanced(batches)
    ensures Balanced(Rows(batches))
  {
    if batches != [] {
      assert Balanced(batches[|batches| - 1]);
      RowsBalanced(batches[..|batches| - 1]);
    }
  }

  // ---------------------------------------------------------------- the CSV job

  function Result(message: string, rows: Batch): Value {
    Obj(map["message" := Str(message), "total" := Num(rows.totalRows),
            "succeeded" := Num(rows.succeededRows), "failed" := Num(rows.failedRows)])
  }

  predicate OnlyHeaders(end: MapEnd) {
    end.Crashed? && end.error == "States.ItemReaderFailed" && Contains(end.cause, "only CSV headers")
  }

  predicate Contains(s: string, part: string) {
    part <= s || (s != "" && Contains(s[1..], part))
  }

  // The rows of a job, as far as its batches were reported.
  function RowsOf(end: MapEnd): Batch {
    if end.Crashed? then Batch(0, 0, 0) else Rows(end.results)
  }

  // A job fails when the map crashed for any reason but a file of headers, when no batch was
  // reported, or when some row failed.
  predicate Fails(end: MapEnd) {
    if end.Crashed? then !OnlyHeaders(end) else end.results == [] || Rows(end.results).failedRows > 0
  }

  // What the job row says once finalizeParentJob is through.
  function JobOf(end: MapEnd): Job {
    if end.Crashed? then
      if OnlyHeaders(end)
      then Job(COMPLETED, Result("CSV file contains only headers. No data to process.", RowsOf(end)))
      else Job(FAILED, Obj(map["message" := Str("Step Function execution failed: " + end.error), "stack" := Str(end.cause)]))
    else if end.results == [] then Job(FAILED, Result("No batch processing results received.", RowsOf(end)))
    else Job(if RowsOf(end).failedRows > 0 then FAILED else COMPLETED,
             Result("All items successfully transformed and queued to SQS.", RowsOf(end)))
  }

  // finalizeParentJob
  method FinalizeParentJob(end: MapEnd) returns (job: Job)
    ensures job == JobOf(end)
    ensures job.status == FAILED <==> Fails(end)
  {
    if end.Crashed? {
      if end.error == "States.ItemReaderFailed" && Contains(end.cause, "only CSV headers") {
        return Job(COMPLETED, Result("CSV file contains only headers. No data to process.", Batch(0, 0, 0)));
      }
      return Job(FAILED, Obj(map["message" := Str("Step Function execution failed: " + end.error), "stack" := Str(end.cause)]));
    }
    var acc := Batch(0, 0, 0);
    var i := 0;
    while i < |end.results|
      invariant 0 <= i <= |end.results|
      invariant acc == Rows(end.results[..i])
    {
      var batch := end.results[i];
      assert end.results[..i + 1][..i] == end.results[..i];
      acc := AddRows(acc, batch);
      i := i + 1;
    }
    assert end.results[..i] == end.results;
    var status, message := COMPLETED, "All items successfully transformed and queued to SQS.";
    if |end.results| == 0 {
      status, message := FAILED, "No batch processing results received.";
    } else if acc.failedRows > 0 {
      status := FAILED;
    }
    job := Job(status, Result(message, acc));
  }

  // ---------------------------------------------------------------- the callback

  // JSON.stringify leaves out fields without a value.
  function Fields(fields: map<string, Value>): Value {
    Obj(map key | key in fields && fields[key] != Undefined :: fields[key])
  }

  // buildZipOrchestratorFailureOutput
  function FailureOutput(result: Value): Value {
    if result.Obj? then Fields(result.fields[MARKER := Str(FAILED)])
    else Fields(map["result" := result, MARKER := Str(FAILED)])
  }

  function Output(job: Job): Value {
    if job.status == FAILED then FailureOutput(job.result) else job.result
  }

  // JSON.stringify makes nothing of a value that is missing, and SendTaskSuccess without an
  // output is refused.
  function Delivered(job: Job): Option<Value> {
    if Output(job) == Undefined then None else Some(Output(job))
  }

  const CSV_IMPORT_PK_PREFIX := "CSV_IMPORT"

  predicate IsCsvImport(pk: string) {
    CSV_IMPORT_PK_PREFIX + [K.KEY_SEPARATOR] <= pk
  }

  datatype Import = Import(job: Job, taskToken: Option<string>)

  // Which callback a status notification causes, if any: a token, and the output that arrives
  // unless it is refused.
  function Callback(pk: string, status: string, row: Option<Import>): Option<(string, Option<Value>)> {
    if (status == COMPLETED || status == FAILED) && IsCsvImport(pk)
       && row.Some? && row.value.taskToken.Some? && row.value.taskToken.value != ""
    then Some((row.value.taskToken.value, Delivered(Job(status, row.value.job.result))))
    else None
  }

  // ---------------------------------------------------------------- the ZIP job

  // `result?.result || result || {}`
  function Unwrapped(result: Value): Value {
    Or(Or(Get(result, "result"), result), Obj(map[]))
  }

  predicate SeenAsFailed(result: Value) {
    Get(Unwrapped(result), MARKER) == Str(FAILED)
  }

  // `res.a || res.b || 0`; None when that is not a number.
  function CountIn(result: Value, a: string, b: string): Option<int> {
    var v := Or(Or(Get(Unwrapped(result), a), Get(Unwrapped(result), b)), Num(0));
    if v.Num? then Some(v.number) else None
  }

  function Plus(a: Option<int>, b: Option<int>): Option<int> {
    if a.Some? && b.Some? then Some(a.value + b.value) else None
  }

  datatype Summary = Summary(totalRows: Option<int>, processedRows: Option<int>, failedRows: Option<int>, csvTaskFailureCount: nat)

  function Sum(a: Summary, b: Summary): Summary {
    Summary(Plus(a.totalRows, b.totalRows), Plus(a.processedRows, b.processedRows), Plus(a.failedRows, b.failedRows),
            a.csvTaskFailureCount + b.csvTaskFailureCount)
  }

  // What one file adds to the summary.
  function Share(result: Value): Summary {
    Summary(CountIn(result, "total", "totalRows"), CountIn(result, "succeeded", "processedRows"),
            CountIn(result, "failed", "failedRows"), if SeenAsFailed(result) then 1 else 0)
  }

  const NOTHING := Summary(Some(0), Some(0), Some(0), 0)

  function Summarize(results: seq<Value>): Summary {
    if results == [] then NOTHING else Sum(Summarize(results[..|results| - 1]), Share(results[|results| - 1]))
  }

  predicate SomeSeenAsFailed(results: seq<Value>) {
    exists i :: 0 <= i < |results| && SeenAsFailed(results[i])
  }

  // The body of the reduce over the files.
  method AddFile(acc: Summary, result: Value) returns (sum: Summary)
    ensures sum == Sum(acc, Share(result))
  {
    sum := acc;
    if SeenAsFailed(result) {
      sum := sum.(csvTaskFailureCount := sum.csvTaskFailureCount + 1);
    }
    sum := sum.(totalRows := Plus(sum.totalRows, CountIn(result, "total", "totalRows")),
                processedRows := Plus(sum.processedRows, CountIn(result, "succeeded", "processedRows")),
                failedRows := Plus(sum.failedRows, CountIn(result, "failed", "failedRows")));
  }

  // finalizeZipMasterJob
  method FinalizeZipMasterJob(results: seq<Value>) returns (status: string, summary: Summary)
    ensures summary == Summarize(results)
    ensures status == FAILED <==> SomeSeenAsFailed(results)
    ensures status == if summary.csvTaskFailureCount > 0 then FAILED else COMPLETED
  {
    summary := NOTHING;
    var i := 0;
    while i < |results|
      invariant 0 <= i <= |results|
      invariant summary == Summarize(results[..i])
    {
      assert results[..i + 1][..i] == results[..i];
      summary := AddFile(summary, results[i]);
      i := i + 1;
    }
    assert results[..i] == results;
    FailureCountMeaning(results);
    status := if summary.csvTaskFailureCount > 0 then FAILED else COMPLETED;
  }

  // ---------------------------------------------------------------- failure through the callback

  // What a stored result hides under `result` once it is in a failure output.
  function Nested(result: Value): Value {
    if result.Obj? then Get(result, "result") else result
  }

  // A failed CSV job is seen by the ZIP job if and only if its stored result is not a value
  // that hides the marker: a truthy value that is not an object, or an object with a truthy
  // `result` in it, unless that carries the marker itself.
  lemma FailureIsSeenIff(result: Value)
    ensures SeenAsFailed(FailureOutput(result)) <==> !Truthy(Nested(result)) || Get(Nested(result), MARKER) == Str(FAILED)
  {
    MarkerIsNotResult();
    var output := FailureOutput(result);
    assert Get(output, MARKER) == Str(FAILED);
    assert Get(output, "result") == Nested(result);
  }

  lemma MarkerIsNotResult()
    ensures MARKER != "result"
  {
    assert |MARKER| != |"result"|;
  }

  // A result that is an object without a `result` of its own, or absent.
  predicate Plain(result: Value) {
    && (result.Obj? || result == Undefined)
    && !Truthy(Get(result, "result"))
    && Get(result, MARKER) != Str(FAILED)
  }

  // Through the callback, the ZIP job sees a plain CSV job as failed exactly when it is. Only of
  // a job that completed without a result it never hears.
  lemma CallbackCarriesStatus(job: Job)
    requires Plain(job.result)
    ensures Delivered(job).None? <==> job.status != FAILED && job.result == Undefined
    ensures Delivered(job).Some? ==> (SeenAsFailed(Delivered(job).value) <==> job.status == FAILED)
  {
    FailureIsSeenIff(job.result);
  }

  // And counts its rows as they are, whichever way it ended.
  lemma CallbackCarriesCounts(job: Job, a: string, b: string)
    requires Plain(job.result) && a != MARKER && b != MARKER && a != "result" && b != "result"
    ensures CountIn(Output(job), a, b) == CountIn(job.result, a, b)
  {
    if job.status == FAILED {
      MarkerIsNotResult();
      var output := FailureOutput(job.result);
      assert Get(output, a) == Get(job.result, a) && Get(output, b) == Get(job.result, b);
      assert Get(output, "result") == Get(job.result, "result");
    }
  }

  // ---------------------------------------------------------------- end to end

  lemma Names()
    ensures MARKER != "message" && MARKER != "stack" && MARKER != "total" && MARKER != "succeeded" && MARKER != "failed"
    ensures MARKER != "totalRows" && MARKER != "processedRows" && MARKER != "failedRows"
    ensures "result" !in ["message", "stack", "total", "succeeded", "failed", "totalRows", "processedRows", "failedRows"]
    ensures "total" !in ["message", "stack"] && "succeeded" !in ["message", "stack"] && "failed" !in ["message", "stack"]
    ensures "totalRows" !in ["message", "stack", "total", "succeeded", "failed"]
    ensures "processedRows" !in ["message", "stack", "total", "succeeded", "failed"]
    ensures "failedRows" !in ["message", "stack", "total", "succeeded", "failed"]
  {
    assert |MARKER| == 15;
  }

  // A result in which the ZIP job reads just these rows.
  predicate Reads(result: Value, rows: Batch) {
    && CountIn(result, "total", "totalRows") == Some(rows.totalRows)
    && CountIn(result, "succeeded", "processedRows") == Some(rows.succeededRows)
    && CountIn(result, "failed", "failedRows") == Some(rows.failedRows)
  }

  lemma ResultReads(message: string, rows: Batch)
    ensures Plain(Result(message, rows)) && Reads(Result(message, rows), rows)
  {
    Names();
    var result := Result(message, rows);
    assert Get(result, "result") == Undefined && Get(result, MARKER) == Undefined;
    assert Unwrapped(result) == result;
    assert Get(result, "total") == Num(rows.totalRows) && Get(result, "totalRows") == Undefined;
    assert Get(result, "succeeded") == Num(rows.succeededRows) && Get(result, "processedRows") == Undefined;
    assert Get(result, "failed") == Num(rows.failedRows) && Get(result, "failedRows") == Undefined;
  }

  lemma ErrorReads(message: string, stack: string)
    ensures var result := Obj(map["message" := Str(message), "stack" := Str(stack)]);
            Plain(result) && Reads(result, Batch(0, 0, 0))
  {
    Names();
    var result := Obj(map["message" := Str(message), "stack" := Str(stack)]);
    assert Get(result, "result") == Undefined && Get(result, MARKER) == Undefined;
    assert Unwrapped(result) == result;
    assert forall key :: key in result.fields ==> key in ["message", "stack"];
  }

  // Every result that finalizeParentJob stores is plain, and reads as the rows of the job.
  lemma FinalizedReads(end: MapEnd)
    ensures Plain(JobOf(end).result) && Reads(JobOf(end).result, RowsOf(end))
    ensures JobOf(end).status == FAILED <==> Fails(end)
  {
    var rows := RowsOf(end);
    ResultReads("CSV file contains only headers. No data to process.", rows);
    ResultReads("No batch processing results received.", rows);
    ResultReads("All items successfully transformed and queued to SQS.", rows);
    if end.Crashed? {
      ErrorReads("Step Function execution failed: " + end.error, end.cause);
    }
  }

  function SummaryFor(rows: Batch, failures: nat): Summary {
    Summary(Some(rows.totalRows), Some(rows.succeededRows), Some(rows.failedRows), failures)
  }

  // What one file should add.
  function Due(end: MapEnd): Summary {
    SummaryFor(RowsOf(end), if Fails(end) then 1 else 0)
  }

  lemma ShareIsDue(end: MapEnd)
    ensures Share(Output(JobOf(end))) == Due(end)
  {
    var job := JobOf(end);
    FinalizedReads(end);
    CallbackCarriesStatus(job);
    Names();
    CallbackCarriesCounts(job, "total", "totalRows");
    CallbackCarriesCounts(job, "succeeded", "processedRows");
    CallbackCarriesCounts(job, "failed", "failedRows");
  }

  // What the callbacks of all files deliver.
  function Outputs(ends: seq<MapEnd>): seq<Value> {
    seq(|ends|, i requires 0 <= i < |ends| => Output(JobOf(ends[i])))
  }

  // The job of one file, as the notification of its status finds it.
  function Reported(pk: string, token: string, end: MapEnd): Option<(string, Option<Value>)> {
    Callback(pk, JobOf(end).status, Some(Import(JobOf(end), Some(token))))
  }

  // Every file reports: under its own token, the callback of its job arrives with its output.
  lemma CallbacksDeliver(pks: seq<string>, tokens: seq<string>, ends: seq<MapEnd>)
    requires |pks| == |tokens| == |ends|
    requires forall i :: 0 <= i < |ends| ==> IsCsvImport(pks[i]) && tokens[i] != ""
    ensures forall i :: 0 <= i < |ends| ==> Reported(pks[i], tokens[i], ends[i]) == Some((tokens[i], Some(Outputs(ends)[i])))
  {
    forall i | 0 <= i < |ends|
      ensures Reported(pks[i], tokens[i], ends[i]) == Some((tokens[i], Some(Outputs(ends)[i])))
    {
      var job := JobOf(ends[i]);
      FinalizedReads(ends[i]);
      CallbackCarriesStatus(job);
      assert job.result != Undefined && Job(job.status, job.result) == job;
    }
  }

  // ---------------------------------------------------------------- totals

  function Total(shares: seq<Summary>): Summary {
    if shares == [] then NOTHING else Sum(Total(shares[..|shares| - 1]), shares[|shares| - 1])
  }

  function CountTrue(flags: seq<bool>): nat {
    if flags == [] then 0 else CountTrue(flags[..|flags| - 1]) + if flags[|flags| - 1] then 1 else 0
  }

  lemma {:induction false} CountTrueMeaning(flags: seq<bool>)
    ensures CountTrue(flags) > 0 <==> true in flags
  {
    if flags != [] {
      CountTrueMeaning(flags[..|flags| - 1]);
      assert flags == flags[..|flags| - 1] + [flags[|flags| - 1]];
    }
  }

  lemma {:induction false} TotalOf(shares: seq<Summary>, rows: seq<Batch>, failed: seq<bool>)
    requires |shares| == |rows| == |failed|
    requires forall i :: 0 <= i < |shares| ==> shares[i] == SummaryFor(rows[i], if failed[i] then 1 else 0)
    ensures Total(shares) == SummaryFor(Rows(rows), CountTrue(failed))
  {
    if shares != [] {
      var n := |shares| - 1;
      TotalOf(shares[..n], rows[..n], failed[..n]);
    }
  }

  lemma {:induction false} TotalFailures(shares: seq<Summary>)
    ensures Total(shares).csvTaskFailureCount > 0 <==> exists i :: 0 <= i < |shares| && shares[i].csvTaskFailureCount > 0
  {
    if shares != [] {
      var n := |shares| - 1;
      TotalFailures(shares[..n]);
      assert forall i :: 0 <= i < n ==> shares[..n][i] == shares[i];
    }
  }

  function Shares(outputs: seq<Value>): seq<Summary> {
    seq(|outputs|, i requires 0 <= i < |outputs| => Share(outputs[i]))
  }

  lemma {:induction false} SummarizeIsTotal(outputs: seq<Value>)
    ensures Summarize(outputs) == Total(Shares(outputs))
  {
    if outputs != [] {
      var n := |outputs| - 1;
      SummarizeIsTotal(outputs[..n]);
      assert Shares(outputs)[..n] == Shares(outputs[..n]);
    }
  }

  lemma FailureCountMeaning(results: seq<Value>)
    ensures Summarize(results).csvTaskFailureCount > 0 <==> SomeSeenAsFailed(results)
  {
    SummarizeIsTotal(results);
    TotalFailures(Shares(results));
    forall i | 0 <= i < |results| ensures Shares(results)[i].csvTaskFailureCount > 0 <==> SeenAsFailed(results[i]) {
    }
  }

  // ---------------------------------------------------------------- main results

  function AllRows(ends: seq<MapEnd>): seq<Batch> {
    if ends == [] then []
    else AllRows(ends[..|ends| - 1]) + if ends[|ends| - 1].Finished? then ends[|ends| - 1].results else []
  }

  lemma {:induction false} RowsConcat(a: seq<Batch>, b: seq<Batch>)
    ensures Rows(a + b) == AddRows(Rows(a), Rows(b))
  {
    if b == [] {
      assert a + b == a;
    } else {
      assert (a + b)[..|a + b| - 1] == a + b[..|b| - 1];
      RowsConcat(a, b[..|b| - 1]);
    }
  }

  function RowsEach(ends: seq<MapEnd>): seq<Batch> {
    seq(|ends|, i requires 0 <= i < |ends| => RowsOf(ends[i]))
  }

  lemma {:induction false} RowsOfEach(ends: seq<MapEnd>)
    ensures Rows(RowsEach(ends)) == Rows(AllRows(ends))
  {
    if ends != [] {
      var n := |ends| - 1;
      RowsOfEach(ends[..n]);
      assert RowsEach(ends)[..n] == RowsEach(ends[..n]);
      RowsConcat(AllRows(ends[..n]), if ends[n].Finished? then ends[n].results else []);
    }
  }

  function FailsEach(ends: seq<MapEnd>): seq<bool> {
    seq(|ends|, i requires 0 <= i < |ends| => Fails(ends[i]))
  }

  // The summary of the ZIP job is the sum over every batch of every file, and the failure
  // count is the number of failed files.
  lemma ZipCountsEveryBatch(ends: seq<MapEnd>)
    ensures Summarize(Outputs(ends)) == SummaryFor(Rows(AllRows(ends)), CountTrue(FailsEach(ends)))
  {
    SummarizeIsTotal(Outputs(ends));
    var shares := Shares(Outputs(ends));
    forall i | 0 <= i < |ends| ensures shares[i] == SummaryFor(RowsEach(ends)[i], if FailsEach(ends)[i] then 1 else 0) {
      ShareIsDue(ends[i]);
    }
    TotalOf(shares, RowsEach(ends), FailsEach(ends));
    RowsOfEach(ends);
  }

  lemma Conserves(summary: Summary, rows: Batch, failures: nat)
    requires Balanced(rows) && summary == SummaryFor(rows, failures)
    ensures summary.totalRows == Plus(summary.processedRows, summary.failedRows)
  {
  }

  // The whole roll-up. When every batch accounts for its rows, so does the ZIP job.
  lemma RollUpConserves(ends: seq<MapEnd>)
    requires AllBalanced(AllRows(ends))
    ensures var summary := Summarize(Outputs(ends));
            summary.totalRows == Plus(summary.processedRows, summary.failedRows)
  {
    ZipCountsEveryBatch(ends);
    RowsBalanced(AllRows(ends));
    Conserves(Summarize(Outputs(ends)), Rows(AllRows(ends)), CountTrue(FailsEach(ends)));
  }

  // The ZIP job is FAILED if and only if some file ended in failure.
  lemma ZipFailsIffSomeFileDoes(ends: seq<MapEnd>)
    ensures Summarize(Outputs(ends)).csvTaskFailureCount > 0 <==> exists i :: 0 <= i < |ends| && Fails(ends[i])
  {
    ZipCountsEveryBatch(ends);
    CountTrueMeaning(FailsEach(ends));
    FailsSomewhere(ends);
  }

  lemma FailsSomewhere(ends: seq<MapEnd>)
    ensures true in FailsEach(ends) <==> exists i :: 0 <= i < |ends| && Fails(ends[i])
  {
    if i :| 0 <= i < |ends| && Fails(ends[i]) {
      assert FailsEach(ends)[i];
    }
  }
}
