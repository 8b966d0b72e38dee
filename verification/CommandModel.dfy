/**
 The records of the three tables behind one base key (pk, sk): command rows `sk@version`,
 the data row `sk`, and history rows `sk@version`; and the projection from a command to the
 data row that the publish path and the read path share.
 */
module CommandModel {
  import opened Wrappers

  // The steps of the Step Functions execution of one command, and the status prefix that
  // a synchronous publish writes instead.
  datatype StepName =
    | CheckVersion | WaitPrevCommand | SetTtlCommand | HistoryCopy
    | TransformData | SyncData | Finish | PublishSync

  datatype Phase = Started | Finished | Failed

  // The string `<step>:<phase>` of a command row, or no status attribute yet.
  datatype Status = Unset | At(step: StepName, phase: Phase)

  // The two values that a waiting successor takes as "my predecessor reached finish".
  predicate IsFinish(st: Status) {
    st == At(Finish, Started) || st == At(Finish, Finished)
  }

  // The fields a caller supplies. `attributes` stands for the JSON attributes, already
  // fetched from object storage when they were offloaded.
  datatype Business = Business(
    id: string, code: string, name: string, tenantCode: string, kind: string,
    seqNo: Option<int>, isDeleted: Option<bool>, attributes: Option<string>)

  // Who, when and from where; any of them may be missing.
  datatype Stamp = Stamp(time: Option<int>, user: Option<string>, address: Option<string>)

  datatype Command = Command(
    version: int, business: Business, ttl: Option<int>, requestId: Option<string>,
    created: Stamp, updated: Stamp)

  // One value of a command row. `token` names the version whose wait task the stored task
  // token resumes; `sync` is the syncMode marker that keeps the stream from starting an
  // execution.
  datatype Row = Row(command: Command, status: Status, token: Option<int>, sync: bool)

  datatype DataRow = DataRow(
    version: int, business: Business, ttl: Option<int>, requestId: Option<string>,
    created: Stamp, updated: Stamp)

  function FirstStamp(a: Stamp, b: Stamp): Stamp {
    Stamp(OrElse(a.time, b.time), OrElse(a.user, b.user), OrElse(a.address, b.address))
  }

  // transformCommandToData: everything comes from the command, except that the created*
  // fields of the existing row win when they are present.
  function Project(cmd: Command, existing: Option<DataRow>): DataRow {
    DataRow(cmd.version, cmd.business, cmd.ttl, cmd.requestId,
            if existing.Some? then FirstStamp(existing.value.created, cmd.created) else cmd.created,
            cmd.updated)
  }

  // Equality up to the time-to-live, which history_copy and updateTtl rewrite.
  predicate SameButTtl(a: DataRow, b: DataRow) {
    a.(ttl := b.ttl) == b
  }

  // The data row after the commands of a chain were projected one after another.
  function Fold(chain: seq<Command>): Option<DataRow> {
    if chain == [] then None
    else Some(Project(chain[|chain| - 1], Fold(chain[..|chain| - 1])))
  }

  // The first value present in a chain of optional values.
  function FirstPresent<T>(xs: seq<Option<T>>): Option<T> {
    if xs == [] then None
    else if xs[0].Some? then xs[0]
    else FirstPresent(xs[1..])
  }

  lemma {:induction false} FirstPresentSnoc<T>(xs: seq<Option<T>>, x: Option<T>)
    ensures FirstPresent(xs + [x]) == OrElse(FirstPresent(xs), x)
  {
    if xs == [] {
    } else {
      assert (xs + [x])[1..] == xs[1..] + [x];
      FirstPresentSnoc(xs[1..], x);
    }
  }

  function Times(chain: seq<Command>): seq<Option<int>> {
    seq(|chain|, i requires 0 <= i < |chain| => chain[i].created.time)
  }

  function Users(chain: seq<Command>): seq<Option<string>> {
    seq(|chain|, i requires 0 <= i < |chain| => chain[i].created.user)
  }

  function Addresses(chain: seq<Command>): seq<Option<string>> {
    seq(|chain|, i requires 0 <= i < |chain| => chain[i].created.address)
  }

  // What the data row says after a whole chain: the latest command decides every field but
  // createdAt, createdBy and createdIp, each of which is the first one present in the chain.
  lemma {:induction false} FoldMeaning(chain: seq<Command>)
    requires chain != []
    ensures var last := chain[|chain| - 1];
            Fold(chain) == Some(DataRow(
              last.version, last.business, last.ttl, last.requestId,
              Stamp(FirstPresent(Times(chain)), FirstPresent(Users(chain)), FirstPresent(Addresses(chain))),
              last.updated))
  {
    var n := |chain| - 1;
    var front, last := chain[..n], chain[n];
    assert Times(chain) == Times(front) + [last.created.time];
    assert Users(chain) == Users(front) + [last.created.user];
    assert Addresses(chain) == Addresses(front) + [last.created.address];
    FirstPresentSnoc(Times(front), last.created.time);
    FirstPresentSnoc(Users(front), last.created.user);
    FirstPresentSnoc(Addresses(front), last.created.address);
    if front == [] {
    } else {
      FoldMeaning(front);
    }
  }
}
