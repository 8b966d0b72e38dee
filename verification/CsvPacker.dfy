/**
 One batch of CSV rows on its way to SQS: every row is transformed and validated, the good ones
 are packed into messages below the size limit, and the answers of SQS are booked.
 */
module CsvPacker {
  import opened Wrappers

  const SQS_MAX_BATCH_SIZE := 10
  const SQS_SAFE_BODY_BYTES := 256 * 1024 - 1024
  const SQS_PAYLOAD_ENVELOPE_BYTES := 300

  // What is left of the safe body size for the array of rows.
  const LIMIT := SQS_SAFE_BODY_BYTES - SQS_PAYLOAD_ENVELOPE_BYTES

  // A serialized row and its length in UTF-8.
  datatype Row = Row(text: string, bytes: nat)

  // What the import strategy makes of one row: an error, or the transformed row.
  datatype Outcome = Invalid | Valid(row: Row)

  // An id stands for the draw of a random UUID, taken never to repeat.
  datatype Entry = Entry(id: nat, items: seq<Row>)

  datatype Answer = Answer(successful: seq<Option<nat>>, failed: seq<Option<nat>>)

  // How SQS answers the n-th call: any lists of ids at all.
  type Sqs = (nat, seq<Entry>) -> Answer

  // `calls` records the batches sent so far.
  datatype Packing = Packing(
    chunk: seq<Row>, bytes: nat, queue: seq<Entry>, counts: map<nat, nat>, drawn: nat,
    ok: nat, bad: nat, calls: seq<seq<Entry>>)

  const EMPTY := Packing([], 2, [], map[], 0, 0, 0, [])

  // ---------------------------------------------------------------- the specification

  function PackChunk(p: Packing): Packing {
    if p.chunk == [] then p
    else p.(queue := p.queue + [Entry(p.drawn, p.chunk)], counts := p.counts[p.drawn := |p.chunk|],
            drawn := p.drawn + 1, chunk := [], bytes := 2)
  }

  function CountOf(counts: map<nat, nat>, id: Option<nat>): nat {
    if id.Some? && id.value in counts then counts[id.value] else 0
  }

  function Without(counts: map<nat, nat>, id: Option<nat>): map<nat, nat> {
    if id.Some? then counts - {id.value} else counts
  }

  // The rows that a list of ids settles, each message once.
  function Settled(counts: map<nat, nat>, ids: seq<Option<nat>>): nat
    decreases |ids|
  {
    if ids == [] then 0 else CountOf(counts, ids[0]) + Settled(Without(counts, ids[0]), ids[1..])
  }

  function Unsettled(counts: map<nat, nat>, ids: seq<Option<nat>>): map<nat, nat>
    decreases |ids|
  {
    if ids == [] then counts else Unsettled(Without(counts, ids[0]), ids[1..])
  }

  function Splice(queue: seq<Entry>): seq<Entry> {
    if |queue| <= SQS_MAX_BATCH_SIZE then queue else queue[..SQS_MAX_BATCH_SIZE]
  }

  function Book(p: Packing, a: Answer): Packing {
    var left := Unsettled(p.counts, a.successful);
    p.(ok := p.ok + Settled(p.counts, a.successful), bad := p.bad + Settled(left, a.failed),
       counts := Unsettled(left, a.failed))
  }

  function SendOne(sqs: Sqs, p: Packing): Packing {
    var batch := Splice(p.queue);
    Book(p.(queue := p.queue[|batch|..], calls := p.calls + [batch]), sqs(|p.calls|, batch))
  }

  function SendAll(sqs: Sqs, p: Packing): Packing
    decreases |p.queue|
  {
    if p.queue == [] then p else SendAll(sqs, SendOne(sqs, p))
  }

  function Separator(chunk: seq<Row>): nat {
    if chunk == [] then 0 else 1
  }

  function Handle(sqs: Sqs, p: Packing, o: Outcome): Packing {
    if o.Invalid? || o.row.bytes > LIMIT then p.(bad := p.bad + 1)
    else
      var added := Separator(p.chunk) + o.row.bytes;
      var room := if p.bytes + added + SQS_PAYLOAD_ENVELOPE_BYTES > SQS_SAFE_BODY_BYTES
                  then SendAll(sqs, PackChunk(p)) else p;
      room.(chunk := room.chunk + [o.row], bytes := room.bytes + added)
  }

  function HandleAll(sqs: Sqs, p: Packing, outcomes: seq<Outcome>): Packing {
    if outcomes == [] then p
    else Handle(sqs, HandleAll(sqs, p, outcomes[..|outcomes| - 1]), outcomes[|outcomes| - 1])
  }

  function Import(sqs: Sqs, outcomes: seq<Outcome>): Packing {
    SendAll(sqs, PackChunk(HandleAll(sqs, EMPTY, outcomes)))
  }

  // ---------------------------------------------------------------- the handler

  class Packer {
    var currentChunk: seq<Row>
    var currentBytes: nat
    var sqsBatchEntries: seq<Entry>
    var messageItemCounts: map<nat, nat>
    var drawn: nat
    var succeededRows: nat
    var failedRows: nat
    var calls: seq<seq<Entry>>
    const sqs: Sqs

    ghost function State(): Packing
      reads this
    {
      Packing(currentChunk, currentBytes, sqsBatchEntries, messageItemCounts, drawn, succeededRows, failedRows, calls)
    }

    constructor (sqs: Sqs)
      ensures State() == EMPTY && this.sqs == sqs
    {
      this.sqs := sqs;
      currentChunk, currentBytes, sqsBatchEntries, messageItemCounts := [], 2, [], map[];
      drawn, succeededRows, failedRows, calls := 0, 0, 0, [];
    }

    method PackChunkToEntry()
      modifies this
      ensures State() == PackChunk(old(State()))
    {
      if |currentChunk| == 0 {
        return;
      }
      var messageId := drawn;
      drawn := drawn + 1;
      sqsBatchEntries := sqsBatchEntries + [Entry(messageId, currentChunk)];
      messageItemCounts := messageItemCounts[messageId := |currentChunk|];
      currentChunk := [];
      currentBytes := 2;
    }

    // The two loops over an answer differ only in the counter they feed.
    method Settle(ids: seq<Option<nat>>) returns (rows: nat)
      modifies this`messageItemCounts
      ensures rows == Settled(old(messageItemCounts), ids)
      ensures messageItemCounts == Unsettled(old(messageItemCounts), ids)
    {
      rows := 0;
      var i := 0;
      while i < |ids|
        invariant 0 <= i <= |ids|
        invariant rows + Settled(messageItemCounts, ids[i..]) == Settled(old(messageItemCounts), ids)
        invariant Unsettled(messageItemCounts, ids[i..]) == Unsettled(old(messageItemCounts), ids)
      {
        assert ids[i..][1..] == ids[i + 1..];
        if ids[i].Some? {
          rows := rows + CountOf(messageItemCounts, ids[i]);
          messageItemCounts := messageItemCounts - {ids[i].value};
        }
        i := i + 1;
      }
    }

    method SendBatchToSqs()
      modifies this
      ensures State() == SendAll(sqs, old(State()))
    {
      while |sqsBatchEntries| > 0
        invariant SendAll(sqs, State()) == SendAll(sqs, old(State()))
        decreases |sqsBatchEntries|
      {
        SendNextBatch();
      }
    }

    // The body of the loop.
    method SendNextBatch()
      requires |sqsBatchEntries| > 0
      modifies this
      ensures State() == SendOne(sqs, old(State()))
    {
      var batch := Splice(sqsBatchEntries);
      sqsBatchEntries := sqsBatchEntries[|batch|..];
      var result := sqs(|calls|, batch);
      calls := calls + [batch];
      var rows := Settle(result.successful);
      succeededRows := succeededRows + rows;
      rows := Settle(result.failed);
      failedRows := failedRows + rows;
    }

    method HandleRow(outcome: Outcome)
      modifies this
      ensures State() == Handle(sqs, old(State()), outcome)
    {
      if outcome.Invalid? {
        failedRows := failedRows + 1;
        return;
      }
      var itemBytes := outcome.row.bytes;
      var separatorBytes := if |currentChunk| > 0 then 1 else 0;
      if itemBytes > SQS_SAFE_BODY_BYTES - SQS_PAYLOAD_ENVELOPE_BYTES {
        failedRows := failedRows + 1;
        return;
      }
      if currentBytes + separatorBytes + itemBytes + SQS_PAYLOAD_ENVELOPE_BYTES > SQS_SAFE_BODY_BYTES {
        PackChunkToEntry();
        SendBatchToSqs();
      }
      currentChunk := currentChunk + [outcome.row];
      currentBytes := currentBytes + separatorBytes + itemBytes;
    }

    // The whole step, on a fresh packer.
    method HandleBatch(outcomes: seq<Outcome>)
      requires State() == EMPTY
      modifies this
      ensures State() == Import(sqs, outcomes)
    {
      var i := 0;
      while i < |outcomes|
        invariant 0 <= i <= |outcomes|
        invariant State() == HandleAll(sqs, EMPTY, outcomes[..i])
      {
        assert outcomes[..i + 1][..i] == outcomes[..i];
        HandleRow(outcomes[i]);
        i := i + 1;
      }
      assert outcomes[..i] == outcomes;
      PackChunkToEntry();
      SendBatchToSqs();
    }
  }

  // ---------------------------------------------------------------- books

  // The rows of the first n messages that no answer has settled.
  function Open(counts: map<nat, nat>, n: nat): nat {
    if n == 0 then 0 else Open(counts, n - 1) + CountOf(counts, Some(n - 1))
  }

  lemma {:induction false} OpenWithout(counts: map<nat, nat>, id: nat, n: nat)
    ensures Open(counts, n) == Open(counts - {id}, n) + if id < n then CountOf(counts, Some(id)) else 0
  {
    if n > 0 {
      OpenWithout(counts, id, n - 1);
    }
  }

  lemma {:induction false} OpenWith(counts: map<nat, nat>, id: nat, rows: nat, n: nat)
    requires n <= id
    ensures Open(counts[id := rows], n) == Open(counts, n)
  {
    if n > 0 {
      OpenWith(counts, id, rows, n - 1);
    }
  }

  ghost predicate Below(counts: map<nat, nat>, n: nat) {
    forall id :: id in counts ==> id < n
  }

  // Whatever an answer lists, rows only move from the open messages to a counter.
  lemma {:induction false} SettleMovesRows(counts: map<nat, nat>, ids: seq<Option<nat>>, n: nat)
    requires Below(counts, n)
    ensures Below(Unsettled(counts, ids), n)
    ensures Open(counts, n) == Settled(counts, ids) + Open(Unsettled(counts, ids), n)
    ensures forall id :: id in Unsettled(counts, ids) <==> id in counts && Some(id) !in ids
    ensures forall id :: id in Unsettled(counts, ids) ==> Unsettled(counts, ids)[id] == counts[id]
    decreases |ids|
  {
    if ids != [] {
      if ids[0].Some? {
        OpenWithout(counts, ids[0].value, n);
      }
      SettleMovesRows(Without(counts, ids[0]), ids[1..], n);
      assert ids == [ids[0]] + ids[1..];
    }
  }

  // What holds between two rows: nothing waits in the queue, and the books are balanced.
  ghost predicate Balanced(p: Packing, handled: nat) {
    && Below(p.counts, p.drawn)
    && p.ok + p.bad + Open(p.counts, p.drawn) + |p.chunk| == handled
    && (forall id :: id in p.counts ==> p.counts[id] > 0)
  }

  lemma PackBalanced(p: Packing, handled: nat)
    requires Balanced(p, handled)
    ensures Balanced(PackChunk(p), handled)
  {
    if p.chunk != [] {
      OpenWith(p.counts, p.drawn, |p.chunk|, p.drawn);
    }
  }

  lemma {:induction false} SendBalanced(sqs: Sqs, p: Packing, handled: nat)
    requires Balanced(p, handled)
    ensures Balanced(SendAll(sqs, p), handled)
    decreases |p.queue|
  {
    if p.queue != [] {
      var a := sqs(|p.calls|, Splice(p.queue));
      SettleMovesRows(p.counts, a.successful, p.drawn);
      SettleMovesRows(Unsettled(p.counts, a.successful), a.failed, p.drawn);
      SendBalanced(sqs, SendOne(sqs, p), handled);
    }
  }

  lemma HandleBalanced(sqs: Sqs, p: Packing, o: Outcome, handled: nat)
    requires Balanced(p, handled)
    ensures Balanced(Handle(sqs, p, o), handled + 1)
  {
    PackBalanced(p, handled);
    SendBalanced(sqs, PackChunk(p), handled);
  }

  lemma {:induction false} AllBalanced(sqs: Sqs, outcomes: seq<Outcome>)
    ensures Balanced(HandleAll(sqs, EMPTY, outcomes), |outcomes|)
  {
    if outcomes != [] {
      var n := |outcomes| - 1;
      AllBalanced(sqs, outcomes[..n]);
      HandleBalanced(sqs, HandleAll(sqs, EMPTY, outcomes[..n]), outcomes[n], n);
    }
  }

  lemma {:induction false} OpenIsPositive(counts: map<nat, nat>, id: nat, n: nat)
    requires id in counts && counts[id] > 0 && id < n
    ensures Open(counts, n) > 0
  {
    if id < n - 1 {
      OpenIsPositive(counts, id, n - 1);
    }
  }

  lemma {:induction false} OpenOfNothing(n: nat)
    ensures Open(map[], n) == 0
  {
    if n > 0 {
      OpenOfNothing(n - 1);
    }
  }

  // Conservation against any queue service: a row counts as succeeded, as failed, or belongs to
  // a message that no answer named. The counters add up to the number of rows if and only if
  // there is no such message.
  lemma RowsAreConserved(sqs: Sqs, outcomes: seq<Outcome>)
    ensures var p := Import(sqs, outcomes);
            && p.ok + p.bad + Open(p.counts, p.drawn) == |outcomes|
            && (p.ok + p.bad == |outcomes| <==> p.counts == map[])
  {
    var p := HandleAll(sqs, EMPTY, outcomes);
    AllBalanced(sqs, outcomes);
    PackBalanced(p, |outcomes|);
    SendBalanced(sqs, PackChunk(p), |outcomes|);
    SendKeepsChunk(sqs, PackChunk(p));
    var q := Import(sqs, outcomes);
    if q.counts == map[] {
      OpenOfNothing(q.drawn);
    } else {
      var id :| id in q.counts;
      OpenIsPositive(q.counts, id, q.drawn);
    }
  }

  lemma {:induction false} SendKeepsChunk(sqs: Sqs, p: Packing)
    ensures SendAll(sqs, p).chunk == p.chunk && SendAll(sqs, p).bytes == p.bytes
    ensures SendAll(sqs, p).drawn == p.drawn && SendAll(sqs, p).queue == []
    decreases |p.queue|
  {
    if p.queue != [] {
      SendKeepsChunk(sqs, SendOne(sqs, p));
    }
  }

  // ---------------------------------------------------------------- messages

  // The bytes of a JSON array of rows: brackets, rows and commas.
  function RowBytes(rows: seq<Row>): nat
    decreases |rows|
  {
    if rows == [] then 0 else rows[0].bytes + RowBytes(rows[1..])
  }

  function ArrayBytes(rows: seq<Row>): nat {
    2 + RowBytes(rows) + if rows == [] then 0 else |rows| - 1
  }

  function Flatten(chunks: seq<seq<Row>>): seq<Row>
    decreases |chunks|
  {
    if chunks == [] then [] else chunks[0] + Flatten(chunks[1..])
  }

  lemma {:induction false} RowBytesConcat(a: seq<Row>, b: seq<Row>)
    ensures RowBytes(a + b) == RowBytes(a) + RowBytes(b)
    decreases |a|
  {
    if a == [] {
      assert a + b == b;
    } else {
      assert (a + b)[1..] == a[1..] + b;
      RowBytesConcat(a[1..], b);
    }
  }

  lemma {:induction false} FlattenSnoc(chunks: seq<seq<Row>>, last: seq<Row>)
    ensures Flatten(chunks + [last]) == Flatten(chunks) + last
    decreases |chunks|
  {
    if chunks == [] {
      assert [last][1..] == [];
    } else {
      assert (chunks + [last])[1..] == chunks[1..] + [last];
      FlattenSnoc(chunks[1..], last);
    }
  }

  // The rows that are neither invalid nor too large, in input order.
  function Accepted(outcomes: seq<Outcome>): seq<Row> {
    if outcomes == [] then []
    else
      var n := |outcomes| - 1;
      Accepted(outcomes[..n]) + if outcomes[n].Valid? && outcomes[n].row.bytes <= LIMIT then [outcomes[n].row] else []
  }

  // The n-th call carries the one message with the n-th id.
  ghost predicate OneEach(calls: seq<seq<Entry>>) {
    forall k :: 0 <= k < |calls| ==> |calls[k]| == 1 && calls[k][0].id == k
  }

  function Chunks(calls: seq<seq<Entry>>): seq<seq<Row>>
    requires OneEach(calls)
  {
    seq(|calls|, k requires 0 <= k < |calls| => calls[k][0].items)
  }

  // Within the limit, or a row alone that fills it to the last two bytes.
  predicate Fits(chunk: seq<Row>) {
    && chunk != []
    && (ArrayBytes(chunk) <= LIMIT || (|chunk| == 1 && LIMIT - 2 < chunk[0].bytes <= LIMIT))
  }

  // The row that opens the next array would not have fitted into this one.
  predicate NoRoomFor(chunk: seq<Row>, next: seq<Row>, limit: int) {
    next != [] && ArrayBytes(chunk + [next[0]]) > limit
  }

  ghost predicate Tight(chunks: seq<seq<Row>>, limit: int) {
    forall k :: 0 < k < |chunks| ==> NoRoomFor(chunks[k - 1], chunks[k], limit)
  }

  // The messages sent plus the one being filled.
  function AllChunks(p: Packing): seq<seq<Row>>
    requires OneEach(p.calls)
  {
    Chunks(p.calls) + if p.chunk == [] then [] else [p.chunk]
  }

  // The running byte count is exact for the first message and one too high for the others,
  // since the comma is charged before the chunk is emptied.
  ghost predicate Packed(p: Packing, rows: seq<Row>) {
    && p.queue == [] && OneEach(p.calls) && p.drawn == |p.calls|
    && (p.chunk == [] ==> p.bytes == 2 && p.calls == [])
    && ArrayBytes(p.chunk) <= p.bytes <= ArrayBytes(p.chunk) + 1
    && (forall k :: 0 <= k < |AllChunks(p)| ==> Fits(AllChunks(p)[k]))
    && Tight(AllChunks(p), LIMIT - 1)
    && Flatten(AllChunks(p)) == rows
  }

  lemma SendFlushes(sqs: Sqs, p: Packing, rows: seq<Row>)
    requires Packed(p, rows) && p.chunk != []
    ensures var q := SendAll(sqs, PackChunk(p));
            && q.chunk == [] && q.bytes == 2 && q.queue == [] && q.drawn == |q.calls|
            && q.calls == p.calls + [[Entry(p.drawn, p.chunk)]]
            && OneEach(q.calls) && Chunks(q.calls) == AllChunks(p)
  {
    var packed := PackChunk(p);
    var entry := Entry(p.drawn, p.chunk);
    assert packed.queue == [entry];
    var one := SendOne(sqs, packed);
    assert one.queue == [] && one.calls == p.calls + [[entry]];
    assert SendAll(sqs, packed) == one;
    assert Chunks(one.calls) == Chunks(p.calls) + [p.chunk];
  }

  lemma AddRow(chunk: seq<Row>, row: Row)
    ensures ArrayBytes(chunk + [row]) == ArrayBytes(chunk) + Separator(chunk) + row.bytes
  {
    RowBytesConcat(chunk, [row]);
    assert [row][1..] == [];
  }

  lemma NewChunk(p: Packing, q: Packing, rows: seq<Row>, row: Row)
    requires Packed(p, rows) && p.chunk != [] && row.bytes <= LIMIT
    requires p.bytes + 1 + row.bytes > LIMIT
    requires q.queue == [] && q.drawn == |q.calls| && OneEach(q.calls) && Chunks(q.calls) == AllChunks(p)
    requires q.chunk == [row] && q.bytes == 3 + row.bytes
    ensures Packed(q, rows + [row])
  {
    AddRow([], row);
    assert [] + [row] == [row];
    AddRow(p.chunk, row);
    FlattenSnoc(AllChunks(p), [row]);
    var all := AllChunks(q);
    assert all == AllChunks(p) + [[row]];
    var n := |all| - 1;
    assert all[n - 1] == p.chunk;
    assert NoRoomFor(p.chunk, [row], LIMIT - 1);
  }

  lemma SameChunk(p: Packing, rows: seq<Row>, row: Row)
    requires Packed(p, rows) && row.bytes <= LIMIT
    requires p.bytes + Separator(p.chunk) + row.bytes <= LIMIT || p.chunk == []
    ensures Packed(p.(chunk := p.chunk + [row], bytes := p.bytes + Separator(p.chunk) + row.bytes), rows + [row])
  {
    var q := p.(chunk := p.chunk + [row], bytes := p.bytes + Separator(p.chunk) + row.bytes);
    AddRow(p.chunk, row);
    var done := Chunks(p.calls);
    assert AllChunks(q) == done + [q.chunk];
    FlattenSnoc(done, q.chunk);
    if p.chunk == [] {
      assert q.chunk == [row] && rows == [];
    } else {
      FlattenSnoc(done, p.chunk);
      assert Flatten(done) + p.chunk + [row] == Flatten(done) + q.chunk;
      var n := |done|;
      assert AllChunks(p)[n] == p.chunk;
      assert AllChunks(p) == done + [p.chunk];
      forall k | 0 <= k < |AllChunks(q)| ensures Fits(AllChunks(q)[k]) {
        assert k < n ==> Fits(AllChunks(p)[k]);
      }
      forall k | 0 < k < |AllChunks(q)| ensures NoRoomFor(AllChunks(q)[k - 1], AllChunks(q)[k], LIMIT - 1) {
        assert NoRoomFor(AllChunks(p)[k - 1], AllChunks(p)[k], LIMIT - 1);
        assert k == n ==> p.chunk[0] == q.chunk[0];
      }
    }
  }

  lemma HandlePacked(sqs: Sqs, p: Packing, rows: seq<Row>, o: Outcome)
    requires Packed(p, rows)
    ensures Packed(Handle(sqs, p, o), rows + if o.Valid? && o.row.bytes <= LIMIT then [o.row] else [])
  {
    if o.Invalid? || o.row.bytes > LIMIT {
      assert rows + [] == rows;
      assert AllChunks(Handle(sqs, p, o)) == AllChunks(p);
    } else if p.bytes + Separator(p.chunk) + o.row.bytes > LIMIT && p.chunk != [] {
      SendFlushes(sqs, p, rows);
      var room := SendAll(sqs, PackChunk(p));
      assert room.chunk + [o.row] == [o.row];
      NewChunk(p, Handle(sqs, p, o), rows, o.row);
    } else {
      SameChunk(p, rows, o.row);
    }
  }

  lemma {:induction false} AllPacked(sqs: Sqs, outcomes: seq<Outcome>)
    ensures Packed(HandleAll(sqs, EMPTY, outcomes), Accepted(outcomes))
  {
    if outcomes != [] {
      var n := |outcomes| - 1;
      AllPacked(sqs, outcomes[..n]);
      HandlePacked(sqs, HandleAll(sqs, EMPTY, outcomes[..n]), Accepted(outcomes[..n]), outcomes[n]);
    }
  }

  // The messages, taken together, are the accepted rows in input order; every call carries one
  // message; every message fits; and none was closed with more than a byte to spare for the
  // row that opens the next one.
  lemma MessagesCarryAcceptedRows(sqs: Sqs, outcomes: seq<Outcome>)
    ensures var calls := Import(sqs, outcomes).calls;
            && OneEach(calls)
            && Flatten(Chunks(calls)) == Accepted(outcomes)
            && (forall k :: 0 <= k < |calls| ==> Fits(Chunks(calls)[k]))
            && Tight(Chunks(calls), LIMIT - 1)
  {
    var p := HandleAll(sqs, EMPTY, outcomes);
    AllPacked(sqs, outcomes);
    if p.chunk == [] {
      assert PackChunk(p) == p;
      assert AllChunks(p) == Chunks(p.calls);
    } else {
      SendFlushes(sqs, p, Accepted(outcomes));
    }
  }

  // No message array is larger than the body limit less the envelope, plus its two brackets.
  lemma ArraySizesAreBounded(sqs: Sqs, outcomes: seq<Outcome>, k: nat)
    requires k < |Import(sqs, outcomes).calls|
    ensures OneEach(Import(sqs, outcomes).calls)
    ensures var rows := Chunks(Import(sqs, outcomes).calls)[k];
            && ArrayBytes(rows) <= SQS_SAFE_BODY_BYTES - SQS_PAYLOAD_ENVELOPE_BYTES + 2
            && (ArrayBytes(rows) > SQS_SAFE_BODY_BYTES - SQS_PAYLOAD_ENVELOPE_BYTES ==> |rows| == 1)
  {
    MessagesCarryAcceptedRows(sqs, outcomes);
    var rows := Chunks(Import(sqs, outcomes).calls)[k];
    assert Fits(rows);
    assert |rows| == 1 ==> rows == [] + [rows[0]];
    if |rows| == 1 {
      AddRow([], rows[0]);
    }
  }

  // ---------------------------------------------------------------- few messages

  lemma PrefixIsSmaller(a: seq<Row>, b: seq<Row>)
    ensures ArrayBytes(a) <= ArrayBytes(a + b)
    ensures ArrayBytes(b) <= ArrayBytes(a + b)
  {
    RowBytesConcat(a, b);
    assert a == [] ==> a + b == b;
    assert b == [] ==> a + b == a;
  }

  // A piece that goes beyond the first tight array holds more than fits.
  lemma LongPieceIsTooLarge(tight: seq<seq<Row>>, d: seq<Row>, others: seq<Row>, lag: seq<Row>, limit: int)
    requires Tight(tight, limit) && tight != [] && [] !in tight
    requires d + others == lag + Flatten(tight) && |d| > |lag| + |tight[0]|
    ensures ArrayBytes(d) > limit
  {
    var c, rest := tight[0], tight[1..];
    assert rest != [];
    assert NoRoomFor(c, tight[1], limit);
    var filled := c + [tight[1][0]];
    var whole, m := lag + filled, |lag| + |filled|;
    assert d + others == whole + (tight[1][1..] + Flatten(rest[1..]));
    assert d == (d + others)[..|d|];
    assert d == whole + d[m..];
    PrefixIsSmaller(lag, filled);
    PrefixIsSmaller(whole, d[m..]);
  }

  // Any other division of the same rows, lagging behind by some rows, needs as many pieces.
  lemma {:induction false} TightNeedsFewest(tight: seq<seq<Row>>, other: seq<seq<Row>>, lag: seq<Row>, limit: int)
    requires Tight(tight, limit) && [] !in tight
    requires forall d :: d in other ==> ArrayBytes(d) <= limit || |d| == 1
    requires Flatten(other) == lag + Flatten(tight)
    ensures |tight| <= |other|
    decreases |other|
  {
    if tight != [] {
      var c, rest := tight[0], tight[1..];
      assert c in tight && other != [];
      var d, others := other[0], other[1..];
      assert d in other;
      assert |d| <= |lag| + |c| by {
        if |d| > |lag| + |c| {
          LongPieceIsTooLarge(tight, d, Flatten(others), lag, limit);
        }
      }
      var lag' := (lag + c)[|d|..];
      assert Flatten(other) == (lag + c) + Flatten(rest);
      assert Flatten(others) == Flatten(other)[|d|..] == lag' + Flatten(rest);
      forall k | 0 < k < |rest| ensures NoRoomFor(rest[k - 1], rest[k], limit) {
        assert NoRoomFor(tight[k], tight[k + 1], limit);
      }
      TightNeedsFewest(rest, others, lag', limit);
    }
  }

  // The packing is optimal: no division of the accepted rows into arrays below the limit, rows
  // that are alone excepted, has fewer messages.
  lemma FewestMessages(sqs: Sqs, outcomes: seq<Outcome>, other: seq<seq<Row>>)
    requires Flatten(other) == Accepted(outcomes)
    requires forall d :: d in other ==> ArrayBytes(d) < LIMIT || |d| == 1
    ensures |Import(sqs, outcomes).calls| <= |other|
  {
    MessagesCarryAcceptedRows(sqs, outcomes);
    var chunks := Chunks(Import(sqs, outcomes).calls);
    assert forall c :: c in chunks ==> Fits(c);
    assert [] + Flatten(chunks) == Flatten(chunks);
    TightNeedsFewest(chunks, other, [], LIMIT - 1);
  }

  // The division of rows into arrays in input order, each filled before the next is opened: the
  // first array may reach the limit, the later ones another size. A row alone may exceed both.
  function Divide(rows: seq<Row>, later: int): seq<seq<Row>> {
    if rows == [] then []
    else
      var n := |rows| - 1;
      var done := Divide(rows[..n], later);
      if done != [] && ArrayBytes(done[|done| - 1] + [rows[n]]) <= (if |done| == 1 then LIMIT else later)
      then done[..|done| - 1] + [done[|done| - 1] + [rows[n]]]
      else done + [[rows[n]]]
  }

  // Every array may reach the limit.
  function Greedy(rows: seq<Row>): seq<seq<Row>> {
    Divide(rows, LIMIT)
  }

  // Only the first may.
  function Cautious(rows: seq<Row>): seq<seq<Row>> {
    Divide(rows, LIMIT - 1)
  }

  ghost predicate Divided(p: Packing, rows: seq<Row>) {
    && OneEach(p.calls) && AllChunks(p) == Cautious(rows)
    && (p.chunk != [] ==> p.bytes == ArrayBytes(p.chunk) + if p.calls == [] then 0 else 1)
  }

  lemma DivideSnoc(rows: seq<Row>, row: Row, later: int)
    ensures var done := Divide(rows, later);
            Divide(rows + [row], later) ==
              if done != [] && ArrayBytes(done[|done| - 1] + [row]) <= (if |done| == 1 then LIMIT else later)
              then done[..|done| - 1] + [done[|done| - 1] + [row]]
              else done + [[row]]
  {
    assert (rows + [row])[..|rows|] == rows;
  }

  lemma HandleDivided(sqs: Sqs, p: Packing, rows: seq<Row>, row: Row)
    requires Packed(p, rows) && Divided(p, rows) && row.bytes <= LIMIT
    ensures Divided(Handle(sqs, p, Valid(row)), rows + [row])
  {
    var q := Handle(sqs, p, Valid(row));
    DivideSnoc(rows, row, LIMIT - 1);
    AddRow(p.chunk, row);
    AddRow([], row);
    assert [] + [row] == [row];
    if p.chunk == [] {
      assert PackChunk(p) == p && SendAll(sqs, p) == p;
      assert q.chunk == [row] && AllChunks(p) == [];
      assert AllChunks(q) == [[row]];
    } else {
      assert AllChunks(p) == Chunks(p.calls) + [p.chunk];
      if p.bytes + 1 + row.bytes > LIMIT {
        SendFlushes(sqs, p, rows);
        assert q.chunk == [row];
        assert AllChunks(q) == AllChunks(p) + [[row]];
      } else {
        assert AllChunks(q) == Chunks(p.calls) + [p.chunk + [row]];
      }
    }
  }

  lemma {:induction false} AllDivided(sqs: Sqs, outcomes: seq<Outcome>)
    ensures Divided(HandleAll(sqs, EMPTY, outcomes), Accepted(outcomes))
  {
    if outcomes != [] {
      var n := |outcomes| - 1;
      var p, o := HandleAll(sqs, EMPTY, outcomes[..n]), outcomes[n];
      AllDivided(sqs, outcomes[..n]);
      AllPacked(sqs, outcomes[..n]);
      if o.Valid? && o.row.bytes <= LIMIT {
        HandleDivided(sqs, p, Accepted(outcomes[..n]), o.row);
      } else {
        assert Accepted(outcomes) == Accepted(outcomes[..n]);
        assert AllChunks(Handle(sqs, p, o)) == AllChunks(p);
      }
    }
  }

  // What is sent, read off the rows: the messages are the cautious division of the accepted rows.
  lemma MessagesAreCautious(sqs: Sqs, outcomes: seq<Outcome>)
    ensures OneEach(Import(sqs, outcomes).calls)
    ensures Chunks(Import(sqs, outcomes).calls) == Cautious(Accepted(outcomes))
  {
    var p := HandleAll(sqs, EMPTY, outcomes);
    AllPacked(sqs, outcomes);
    AllDivided(sqs, outcomes);
    if p.chunk == [] {
      assert PackChunk(p) == p;
      assert AllChunks(p) == Chunks(p.calls);
    } else {
      SendFlushes(sqs, p, Accepted(outcomes));
    }
  }

  // Arrays that may reach the limit; a row alone may exceed it.
  ghost predicate Divides(other: seq<seq<Row>>, rows: seq<Row>) {
    Flatten(other) == rows && forall d :: d in other ==> ArrayBytes(d) <= LIMIT || |d| == 1
  }

  ghost predicate Packs(chunks: seq<seq<Row>>, rows: seq<Row>) {
    Divides(chunks, rows) && Tight(chunks, LIMIT) && [] !in chunks
  }

  lemma LastGrows(front: seq<seq<Row>>, last: seq<Row>, rows: seq<Row>, row: Row)
    requires Packs(front + [last], rows) && ArrayBytes(last + [row]) <= LIMIT
    ensures Packs(front + [last + [row]], rows + [row])
  {
    var done, more, m := front + [last], front + [last + [row]], |front|;
    FlattenSnoc(front, last);
    FlattenSnoc(front, last + [row]);
    assert Flatten(front) + last + [row] == Flatten(front) + (last + [row]);
    assert done[m] == last && last in done && (last + [row])[0] == last[0];
    forall k | 0 < k < |more| ensures NoRoomFor(more[k - 1], more[k], LIMIT) {
      assert NoRoomFor(done[k - 1], done[k], LIMIT);
    }
    forall d | d in more ensures d != [] && (ArrayBytes(d) <= LIMIT || |d| == 1) {
      assert d == last + [row] || d in done;
    }
  }

  lemma NewStarts(done: seq<seq<Row>>, rows: seq<Row>, row: Row)
    requires Packs(done, rows)
    requires done != [] ==> NoRoomFor(done[|done| - 1], [row], LIMIT)
    ensures Packs(done + [[row]], rows + [row])
  {
    var more := done + [[row]];
    FlattenSnoc(done, [row]);
    forall k | 0 < k < |more| ensures NoRoomFor(more[k - 1], more[k], LIMIT) {
      assert k < |done| ==> NoRoomFor(done[k - 1], done[k], LIMIT);
    }
  }

  lemma {:induction false} GreedyMeaning(rows: seq<Row>)
    ensures Packs(Greedy(rows), rows)
  {
    if rows != [] {
      var n := |rows| - 1;
      var done, row := Greedy(rows[..n]), rows[n];
      GreedyMeaning(rows[..n]);
      assert rows == rows[..n] + [row];
      if done != [] && ArrayBytes(done[|done| - 1] + [row]) <= LIMIT {
        assert done == done[..|done| - 1] + [done[|done| - 1]];
        LastGrows(done[..|done| - 1], done[|done| - 1], rows[..n], row);
      } else {
        NewStarts(done, rows[..n], row);
      }
    }
  }

  // No division into arrays that may reach the limit has fewer arrays than the greedy one.
  lemma GreedyIsOptimal(rows: seq<Row>, other: seq<seq<Row>>)
    requires Divides(other, rows)
    ensures |Greedy(rows)| <= |other|
  {
    GreedyMeaning(rows);
    assert [] + Flatten(Greedy(rows)) == Flatten(Greedy(rows));
    TightNeedsFewest(Greedy(rows), other, [], LIMIT);
  }

  // For arrays that may reach the limit, the packing is optimal exactly when the accepted rows
  // fall into as many arrays if the later ones stay below it as if they may reach it.
  lemma FewestAtLimitIff(sqs: Sqs, outcomes: seq<Outcome>)
    ensures (forall other :: Divides(other, Accepted(outcomes)) ==> |Import(sqs, outcomes).calls| <= |other|)
            <==> |Cautious(Accepted(outcomes))| == |Greedy(Accepted(outcomes))|
  {
    var rows, n := Accepted(outcomes), |Import(sqs, outcomes).calls|;
    MessagesCarryAcceptedRows(sqs, outcomes);
    MessagesAreCautious(sqs, outcomes);
    var chunks := Chunks(Import(sqs, outcomes).calls);
    forall d | d in chunks ensures ArrayBytes(d) <= LIMIT || |d| == 1 {
      assert Fits(d);
    }
    assert Divides(chunks, rows);
    GreedyIsOptimal(rows, chunks);
    GreedyMeaning(rows);
    if n == |Greedy(rows)| {
      forall other | Divides(other, rows) ensures n <= |other| {
        GreedyIsOptimal(rows, other);
      }
    } else {
      assert Divides(Greedy(rows), rows);
    }
  }

  lemma OneMore(sqs: Sqs, p: Packing, rows: seq<Row>, row: Row)
    requires Packed(p, rows) && p.chunk != [] && row.bytes <= LIMIT < p.bytes + 1 + row.bytes
    ensures var q := Handle(sqs, p, Valid(row));
            Packed(q, rows + [row]) && q.chunk == [row] && q.bytes == 3 + row.bytes && |q.calls| == |p.calls| + 1
  {
    HandlePacked(sqs, p, rows, Valid(row));
    SendFlushes(sqs, p, rows);
  }

  lemma Append(sqs: Sqs, outcomes: seq<Outcome>, o: Outcome)
    ensures HandleAll(sqs, EMPTY, outcomes + [o]) == Handle(sqs, HandleAll(sqs, EMPTY, outcomes), o)
    ensures Accepted(outcomes + [o]) == Accepted(outcomes) + if o.Valid? && o.row.bytes <= LIMIT then [o.row] else []
  {
    assert (outcomes + [o])[..|outcomes|] == outcomes;
  }

  lemma FirstRow(sqs: Sqs, a: Row)
    requires a.bytes <= LIMIT
    ensures var p := HandleAll(sqs, EMPTY, [Valid(a)]);
            Packed(p, [a]) && p.chunk == [a] && p.bytes == 2 + a.bytes && p.calls == []
  {
    AllPacked(sqs, [Valid(a)]);
    Append(sqs, [], Valid(a));
    assert [] + [Valid(a)] == [Valid(a)] && [] + [a] == [a];
    assert PackChunk(EMPTY) == EMPTY;
  }

  lemma LastMessage(sqs: Sqs, p: Packing, rows: seq<Row>)
    requires Packed(p, rows) && p.chunk != []
    ensures |SendAll(sqs, PackChunk(p)).calls| == |p.calls| + 1
  {
    SendFlushes(sqs, p, rows);
  }

  lemma InThree(sqs: Sqs, one: seq<Outcome>, o: Outcome, o': Outcome)
    ensures HandleAll(sqs, EMPTY, one + [o] + [o']) == Handle(sqs, Handle(sqs, HandleAll(sqs, EMPTY, one), o), o')
  {
    Append(sqs, one, o);
    Append(sqs, one + [o], o');
  }

  // A first row that leaves no room, a second, and a third that fills the second array to the
  // limit: the packer closes all three.
  lemma ThreeMessages(sqs: Sqs, a: Row, b: Row, c: Row)
    requires a.bytes == LIMIT - 2 && 0 < b.bytes && 3 + b.bytes + c.bytes == LIMIT
    ensures |Import(sqs, [Valid(a), Valid(b), Valid(c)]).calls| == 3
  {
    InThree(sqs, [Valid(a)], Valid(b), Valid(c));
    assert [Valid(a)] + [Valid(b)] + [Valid(c)] == [Valid(a), Valid(b), Valid(c)];
    FirstRow(sqs, a);
    var p := HandleAll(sqs, EMPTY, [Valid(a)]);
    OneMore(sqs, p, [a], b);
    var q := Handle(sqs, p, Valid(b));
    OneMore(sqs, q, [a] + [b], c);
    LastMessage(sqs, Handle(sqs, q, Valid(c)), [a] + [b] + [c]);
  }

  // "Below" is needed: three rows that fit into two arrays of exactly the limit, but are sent
  // as three messages, because the second message is charged a comma it does not have.
  lemma OneByteTooCautious(sqs: Sqs, a: Row, b: Row, c: Row)
    requires a.bytes == LIMIT - 2 && 0 < b.bytes && 3 + b.bytes + c.bytes == LIMIT
    ensures var outcomes := [Valid(a), Valid(b), Valid(c)];
            && Flatten([[a], [b, c]]) == Accepted(outcomes)
            && ArrayBytes([a]) == ArrayBytes([b, c]) == LIMIT
            && |Import(sqs, outcomes).calls| == 3
  {
    ThreeMessages(sqs, a, b, c);
    TwoArrays(a, b, c);
    assert [Valid(a), Valid(b), Valid(c)][..2] == [Valid(a), Valid(b)] && [Valid(a), Valid(b)][..1] == [Valid(a)];
    assert Accepted([Valid(a)]) == [a] && Accepted([Valid(a), Valid(b)]) == [a] + [b];
  }

  lemma TwoArrays(a: Row, b: Row, c: Row)
    ensures Flatten([[a], [b, c]]) == [a, b, c] == [a] + [b] + [c]
    ensures ArrayBytes([a]) == 2 + a.bytes && ArrayBytes([b, c]) == 3 + b.bytes + c.bytes
  {
    assert [] + [a] == [a] && [] + [b] == [b] && [b] + [c] == [b, c];
    AddRow([], a);
    AddRow([], b);
    AddRow([b], c);
    assert [[a], [b, c]][1..] == [[b, c]] && [[b, c]][1..] == [];
    var two, none: seq<Row> := [b, c], [];
    assert Flatten([two]) == two + none == two && [a] + two == [a, b, c];
  }

  // ---------------------------------------------------------------- counters

  // Every answer names each entry of its call at least once.
  ghost predicate AnswersAll(sqs: Sqs) {
    forall n: nat, batch: seq<Entry>, e: Entry :: e in batch ==>
      Some(e.id) in sqs(n, batch).successful || Some(e.id) in sqs(n, batch).failed
  }

  // The rows of the messages that SQS took.
  function Taken(sqs: Sqs, calls: seq<seq<Entry>>): nat
    requires OneEach(calls)
  {
    if calls == [] then 0
    else
      var n := |calls| - 1;
      assert OneEach(calls[..n]);
      Taken(sqs, calls[..n]) + if Some(calls[n][0].id) in sqs(n, calls[n]).successful then |calls[n][0].items| else 0
  }

  ghost predicate Booked(sqs: Sqs, p: Packing) {
    p.counts == map[] && OneEach(p.calls) && p.ok == Taken(sqs, p.calls)
  }

  lemma {:induction false} SettleOne(id: nat, rows: nat, ids: seq<Option<nat>>)
    ensures Settled(map[id := rows], ids) == if Some(id) in ids then rows else 0
    ensures Unsettled(map[id := rows], ids) == if Some(id) in ids then map[] else map[id := rows]
    decreases |ids|
  {
    if ids != [] {
      assert ids == [ids[0]] + ids[1..];
      if ids[0] == Some(id) {
        assert map[id := rows] - {id} == map[];
        SettleNothing(ids[1..]);
      } else {
        assert Without(map[id := rows], ids[0]) == map[id := rows];
        SettleOne(id, rows, ids[1..]);
      }
    }
  }

  lemma {:induction false} SettleNothing(ids: seq<Option<nat>>)
    ensures Settled(map[], ids) == 0 && Unsettled(map[], ids) == map[]
    decreases |ids|
  {
    if ids != [] {
      assert Without(map[], ids[0]) == map[];
      SettleNothing(ids[1..]);
    }
  }

  lemma FlushBooked(sqs: Sqs, p: Packing, rows: seq<Row>)
    requires AnswersAll(sqs) && Booked(sqs, p) && Packed(p, rows)
    ensures Booked(sqs, SendAll(sqs, PackChunk(p)))
  {
    if p.chunk != [] {
      SendFlushes(sqs, p, rows);
      var packed := PackChunk(p);
      var entry := Entry(p.drawn, p.chunk);
      assert packed.queue == [entry] && entry in [entry];
      assert packed.counts == map[p.drawn := |p.chunk|];
      var a := sqs(|p.calls|, [entry]);
      SettleOne(p.drawn, |p.chunk|, a.successful);
      SettleOne(p.drawn, |p.chunk|, a.failed);
      SettleNothing(a.failed);
      var q := SendAll(sqs, packed);
      assert q == SendAll(sqs, SendOne(sqs, packed)) == SendOne(sqs, packed);
      assert q.calls[..|p.calls|] == p.calls;
    }
  }

  lemma {:induction false} AllBooked(sqs: Sqs, outcomes: seq<Outcome>)
    requires AnswersAll(sqs)
    ensures Booked(sqs, HandleAll(sqs, EMPTY, outcomes))
  {
    if outcomes != [] {
      var n := |outcomes| - 1;
      AllBooked(sqs, outcomes[..n]);
      AllPacked(sqs, outcomes[..n]);
      FlushBooked(sqs, HandleAll(sqs, EMPTY, outcomes[..n]), Accepted(outcomes[..n]));
    }
  }

  // When SQS answers every entry, the counters are exact: the succeeded rows are those of the
  // messages it took, and every other row failed.
  lemma CountersAreExact(sqs: Sqs, outcomes: seq<Outcome>)
    requires AnswersAll(sqs)
    ensures var p := Import(sqs, outcomes);
            OneEach(p.calls) && p.ok == Taken(sqs, p.calls) && p.ok + p.bad == |outcomes|
  {
    AllBooked(sqs, outcomes);
    AllPacked(sqs, outcomes);
    FlushBooked(sqs, HandleAll(sqs, EMPTY, outcomes), Accepted(outcomes));
    RowsAreConserved(sqs, outcomes);
  }
}
