// openpoly/db/writer.py: the bounded queue, its drain loop, and what a shutdown leaves.
module WriteBehind {
  import opened Common

  datatype Outcome = Running | Written | Failed

  // A batch given to the sink, and what became of it.
  datatype Handed<Row> = Handed(rows: seq<Row>, outcome: Outcome)

  // The drain task: not running, awaiting a row, or awaiting the write of a batch.
  datatype Loop = Stopped | AwaitingRow | AwaitingWrite(batch: nat)

  // The writer and its history: every batch handed to the sink and every row accepted, in order,
  // and how many rows were offered.
  datatype Writer<Row> = Writer(queue: seq<Row>, loop: Loop, dropped: nat, written: nat, errors: nat,
                                handed: seq<Handed<Row>>, accepted: seq<Row>, offered: nat)

  datatype Limits = Limits(queueMaxsize: int, batchSize: int)

  function Initial<Row>(): Writer<Row> {
    Writer([], Stopped, 0, 0, 0, [], [], 0)
  }

  // Each step is one stretch between two awaits. The sink returns on its own, whatever the loop does.
  datatype Step<Row> =
    | Enqueue(row: Row)
    | Start
    | TakeBatch
    | SinkReturned(batch: nat, ok: bool)
    | LoopResumes
    | CancelLoop
    | Flush

  // `asyncio.Queue`: a maxsize of zero or less is unbounded.
  predicate Full<Row>(queue: seq<Row>, limits: Limits) {
    limits.queueMaxsize > 0 && |queue| >= limits.queueMaxsize
  }

  predicate Enabled<Row>(w: Writer<Row>, step: Step<Row>) {
    match step
    case TakeBatch => w.loop.AwaitingRow? && w.queue != []
    case SinkReturned(batch, _) => batch < |w.handed| && w.handed[batch].outcome.Running?
    case LoopResumes => w.loop.AwaitingWrite? && w.loop.batch < |w.handed| && !w.handed[w.loop.batch].outcome.Running?
    case _ => true
  }

  // One row, then as many more as are waiting, up to the batch size.
  function BatchLength(waiting: nat, limits: Limits): (n: nat)
    requires waiting > 0
    ensures 1 <= n <= waiting
  {
    if limits.batchSize <= 1 then 1 else if limits.batchSize < waiting then limits.batchSize else waiting
  }

  function Hand<Row>(w: Writer<Row>, n: nat): Writer<Row>
    requires n <= |w.queue|
  {
    w.(queue := w.queue[n..], handed := w.handed + [Handed(w.queue[..n], Running)])
  }

  function Next<Row>(w: Writer<Row>, step: Step<Row>, limits: Limits): Writer<Row>
    requires Enabled(w, step)
  {
    match step
    case Enqueue(row) =>
      if Full(w.queue, limits) then w.(dropped := w.dropped + 1, offered := w.offered + 1)
      else w.(queue := w.queue + [row], accepted := w.accepted + [row], offered := w.offered + 1)
    case Start => if w.loop.Stopped? then w.(loop := AwaitingRow) else w
    case TakeBatch => Hand(w, BatchLength(|w.queue|, limits)).(loop := AwaitingWrite(|w.handed|))
    case SinkReturned(batch, ok) =>
      var h := w.handed[batch];
      if ok then w.(handed := w.handed[batch := h.(outcome := Written)], written := w.written + |h.rows|)
      else w.(handed := w.handed[batch := h.(outcome := Failed)], errors := w.errors + 1)
    case LoopResumes => w.(loop := AwaitingRow)
    case CancelLoop => w.(loop := Stopped)
    case Flush => if w.queue == [] then w else Hand(w, |w.queue|)
  }

  class WriteBehindWriter<Row> {
    const limits: Limits
    var queue: seq<Row>
    var dropped: nat
    var written: nat
    var errors: nat
    // The drain task's program counter, and the history.
    ghost var loop: Loop
    ghost var handed: seq<Handed<Row>>
    ghost var accepted: seq<Row>
    ghost var offered: nat

    ghost function View(): Writer<Row>
      reads this
    {
      Writer(queue, loop, dropped, written, errors, handed, accepted, offered)
    }

    constructor (limits: Limits)
      ensures this.limits == limits && View() == Initial()
    {
      this.limits := limits;
      queue, dropped, written, errors := [], 0, 0, 0;
      loop, handed, accepted, offered := Stopped, [], [], 0;
    }

    method EnqueueRow(row: Row) returns (ok: bool)
      modifies this
      ensures View() == Next(old(View()), Enqueue(row), limits)
      ensures ok == !Full(old(queue), limits)
    {
      offered := offered + 1;
      if limits.queueMaxsize > 0 && |queue| >= limits.queueMaxsize {
        dropped := dropped + 1;
        return false;
      }
      queue := queue + [row];
      accepted := accepted + [row];
      return true;
    }

    // The drain loop from one awaited row to the await of its batch's write.
    method DrainStep() returns (batch: seq<Row>)
      requires loop.AwaitingRow? && queue != []
      modifies this
      ensures View() == Next(old(View()), TakeBatch, limits)
      ensures handed[|old(handed)|] == Handed(batch, Running)
    {
      ghost var waiting := queue;
      batch := [queue[0]];
      queue := queue[1..];
      while |batch| < limits.batchSize && queue != []
        modifies `queue
        invariant 1 <= |batch| <= |waiting| && batch == waiting[..|batch|] && queue == waiting[|batch|..]
        invariant |batch| == 1 || |batch| <= limits.batchSize
      {
        batch := batch + [queue[0]];
        queue := queue[1..];
      }
      loop := AwaitingWrite(|handed|);
      handed := handed + [Handed(batch, Running)];
    }

    // The end of `_write` for a batch of the given length, in the event loop.
    method SinkDone(ghost batch: nat, rows: nat, ok: bool)
      requires batch < |handed| && handed[batch].outcome.Running? && |handed[batch].rows| == rows
      modifies this
      ensures View() == Next(old(View()), SinkReturned(batch, ok), limits)
    {
      if ok {
        written := written + rows;
        handed := handed[batch := handed[batch].(outcome := Written)];
      } else {
        errors := errors + 1;
        handed := handed[batch := handed[batch].(outcome := Failed)];
      }
    }

    method FlushQueue()
      modifies this
      ensures View() == Next(old(View()), Flush, limits)
    {
      var batch := [];
      ghost var waiting := queue;
      while queue != []
        modifies `queue
        invariant batch + queue == waiting
        decreases |queue|
      {
        batch := batch + [queue[0]];
        queue := queue[1..];
      }
      if batch != [] {
        handed := handed + [Handed(batch, Running)];
      }
    }
  }

  // ---------- exactly once, in order ----------

  ghost function Rows<Row>(handed: seq<Handed<Row>>): seq<Row> {
    if handed == [] then [] else Rows(handed[..|handed| - 1]) + handed[|handed| - 1].rows
  }

  ghost function RowsWith<Row>(handed: seq<Handed<Row>>, outcome: Outcome): nat {
    if handed == [] then 0
    else
      var last := handed[|handed| - 1];
      RowsWith(handed[..|handed| - 1], outcome) + if last.outcome == outcome then |last.rows| else 0
  }

  ghost function BatchesWith<Row>(handed: seq<Handed<Row>>, outcome: Outcome): nat {
    if handed == [] then 0
    else BatchesWith(handed[..|handed| - 1], outcome) + if handed[|handed| - 1].outcome == outcome then 1 else 0
  }

  // Handed rows followed by queued rows are the accepted rows; every offered row was accepted or
  // dropped; the counters say what became of the handed ones.
  ghost predicate Inv<Row>(w: Writer<Row>) {
    && Rows(w.handed) + w.queue == w.accepted
    && |w.accepted| + w.dropped == w.offered
    && w.written == RowsWith(w.handed, Written)
    && w.errors == BatchesWith(w.handed, Failed)
    && |Rows(w.handed)| == RowsWith(w.handed, Written) + RowsWith(w.handed, Failed) + RowsWith(w.handed, Running)
  }

  // A row is accepted at the end of the queue whenever the queue is unbounded or has room, and dropped
  // otherwise, the queue as it was.
  lemma RowsAreAcceptedWhileThereIsRoom<Row>(w: Writer<Row>, row: Row, limits: Limits)
    ensures var w' := Next(w, Enqueue(row), limits);
            if limits.queueMaxsize <= 0 || |w.queue| < limits.queueMaxsize
            then w'.queue == w.queue + [row] && w'.accepted == w.accepted + [row] && w'.dropped == w.dropped
            else w'.queue == w.queue && w'.accepted == w.accepted && w'.dropped == w.dropped + 1
  {}

  // The drain takes the oldest rows waiting: as many as a batch holds, at least one, no more than there are.
  lemma BatchIsTheOldestRows<Row>(w: Writer<Row>, limits: Limits)
    requires w.loop.AwaitingRow? && w.queue != []
    ensures var w' := Next(w, TakeBatch, limits);
            var n := if limits.batchSize < 1 then 1 else if limits.batchSize < |w.queue| then limits.batchSize
              else |w.queue|;
            && w'.handed == w.handed + [Handed(w.queue[..n], Running)] && w'.queue == w.queue[n..]
            && w'.loop == AwaitingWrite(|w.handed|)
  {}

  // The drain goes round: whenever rows wait, a running loop takes a batch, and once its sink returned, well or
  // not, it awaits the next with fewer rows queued. A stopped loop that is started awaits a row.
  lemma TheDrainGoesRound<Row>(w: Writer<Row>, limits: Limits, ok: bool)
    requires w.queue != [] && !w.loop.AwaitingWrite?
    ensures var started := Next(w, Start, limits);
            && started == w.(loop := AwaitingRow) && Enabled(started, TakeBatch)
            && var taken := Next(started, TakeBatch, limits);
               && Enabled(taken, SinkReturned(|w.handed|, ok))
               && var returned := Next(taken, SinkReturned(|w.handed|, ok), limits);
                  && Enabled(returned, LoopResumes)
                  && var resumed := Next(returned, LoopResumes, limits);
                     resumed.loop.AwaitingRow? && |resumed.queue| < |w.queue|
  {}

  // A batch that starts or ends changes only its own share of the counts.
  lemma {:induction false} OutcomeChanges<Row>(handed: seq<Handed<Row>>, batch: nat, outcome: Outcome)
    requires batch < |handed| && handed[batch].outcome.Running? && !outcome.Running?
    ensures var after := handed[batch := handed[batch].(outcome := outcome)]; var n := |handed[batch].rows|;
            && Rows(after) == Rows(handed)
            && (forall o :: RowsWith(after, o) ==
                            RowsWith(handed, o) + (if o == outcome then n else 0) - (if o == Running then n else 0))
            && (forall o :: BatchesWith(after, o) ==
                            BatchesWith(handed, o) + (if o == outcome then 1 else 0) - (if o == Running then 1 else 0))
  {
    var n := |handed| - 1;
    var after := handed[batch := handed[batch].(outcome := outcome)];
    if batch < n {
      OutcomeChanges(handed[..n], batch, outcome);
      assert after[..n] == handed[..n][batch := handed[batch].(outcome := outcome)];
    } else {
      assert after[..n] == handed[..n];
    }
  }

  lemma HandKeepsInv<Row>(w: Writer<Row>, n: nat)
    requires Inv(w) && n <= |w.queue|
    ensures Inv(Hand(w, n))
  {
    assert Hand(w, n).handed[..|w.handed|] == w.handed;
    assert Rows(w.handed) + w.queue[..n] + w.queue[n..] == Rows(w.handed) + w.queue;
  }

  lemma StepKeepsInv<Row>(w: Writer<Row>, step: Step<Row>, limits: Limits)
    requires Inv(w) && Enabled(w, step)
    ensures Inv(Next(w, step, limits))
  {
    match step
    case Enqueue(row) => assert Rows(w.handed) + (w.queue + [row]) == Rows(w.handed) + w.queue + [row];
    case TakeBatch => HandKeepsInv(w, BatchLength(|w.queue|, limits));
    case SinkReturned(batch, ok) => OutcomeChanges(w.handed, batch, if ok then Written else Failed);
    case Flush => HandKeepsInv(w, |w.queue|);
    case _ =>
  }

  ghost predicate IsRun<Row>(states: seq<Writer<Row>>, steps: seq<Step<Row>>, limits: Limits) {
    && |states| == |steps| + 1
    && forall i :: 0 <= i < |steps| ==>
         Enabled(states[i], steps[i]) && states[i + 1] == Next(states[i], steps[i], limits)
  }

  // First in, first out, exactly once, in every state of every run: whenever the loop is cancelled,
  // whatever the sink does, and however long a batch stays in flight.
  lemma {:induction false} EveryRunIsExactlyOnce<Row>(states: seq<Writer<Row>>, steps: seq<Step<Row>>, limits: Limits,
                                                      n: nat)
    requires IsRun(states, steps, limits) && states[0] == Initial() && n < |states|
    ensures Inv(states[n])
  {
    if n > 0 {
      EveryRunIsExactlyOnce(states, steps, limits, n - 1);
      StepKeepsInv(states[n - 1], steps[n - 1], limits);
    }
  }

  // Over every run the queue stays within its bound, and an unbounded one drops nothing.
  lemma {:induction false} OnlyFullQueuesDrop<Row>(states: seq<Writer<Row>>, steps: seq<Step<Row>>, limits: Limits,
                                                   n: nat)
    requires IsRun(states, steps, limits) && states[0] == Initial() && n < |states|
    ensures limits.queueMaxsize > 0 ==> |states[n].queue| <= limits.queueMaxsize
    ensures limits.queueMaxsize <= 0 ==> states[n].dropped == 0
    ensures n < |steps| && states[n + 1].dropped > states[n].dropped ==>
              steps[n].Enqueue? && 0 < limits.queueMaxsize == |states[n].queue|
  {
    if n > 0 {
      OnlyFullQueuesDrop(states, steps, limits, n - 1);
      assert states[n] == Next(states[n - 1], steps[n - 1], limits);
    }
    if n < |steps| {
      assert states[n + 1] == Next(states[n], steps[n], limits);
    }
  }

  // The flush that ends a stop leaves nothing queued, and with no concurrent enqueue nothing is
  // queued from then on: every accepted row has been handed to the sink.
  lemma {:induction false} StopLeavesNothingQueued<Row>(states: seq<Writer<Row>>, steps: seq<Step<Row>>, limits: Limits,
                                                        flush: nat, n: nat)
    requires IsRun(states, steps, limits) && states[0] == Initial() && flush < n < |states|
    requires steps[flush] == Flush && forall i :: flush < i < n ==> !steps[i].Enqueue?
    ensures states[n].queue == [] && Rows(states[n].handed) == states[n].accepted
    decreases n
  {
    if n > flush + 1 {
      StopLeavesNothingQueued(states, steps, limits, flush, n - 1);
    }
    EveryRunIsExactlyOnce(states, steps, limits, n);
    assert states[n] == Next(states[n - 1], steps[n - 1], limits);
  }

  // Cancelling the loop in the middle of a write does not touch the batch: it stays handed, and its
  // rows are counted when the sink returns.
  lemma CancelledWriteIsStillCounted<Row>(w: Writer<Row>, limits: Limits, ok: bool)
    requires Inv(w) && w.loop.AwaitingWrite? && w.loop.batch < |w.handed| && w.handed[w.loop.batch].outcome.Running?
    ensures var cancelled := Next(w, CancelLoop, limits);
            var flushed := Next(cancelled, Flush, limits);
            var done := Next(flushed, SinkReturned(w.loop.batch, ok), limits);
            && Enabled(flushed, SinkReturned(w.loop.batch, ok))
            && done.queue == [] && Rows(done.handed) == w.accepted == done.accepted
            && done.written == w.written + (if ok then |w.handed[w.loop.batch].rows| else 0)
            && done.errors == w.errors + (if ok then 0 else 1)
  {
    var cancelled := Next(w, CancelLoop, limits);
    StepKeepsInv(w, CancelLoop, limits);
    StepKeepsInv(cancelled, Flush, limits);
    var flushed := Next(cancelled, Flush, limits);
    StepKeepsInv(flushed, SinkReturned(w.loop.batch, ok), limits);
  }
}
