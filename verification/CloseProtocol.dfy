// Who may write a position row: the exit monitor, the two manual close routes, the settlement and
// reconciliation sweeps, as interleaved steps. The event loop runs one stretch between two awaits at
// a time; worker threads run beside it, and a write is a read of the row and a later commit.
// (runtime/closing_registry.py, runtime/exit_monitor.py:470-514, 800-815, api/portfolio_routes.py:90-252,
// runtime/settlement_monitor.py:177-202, runtime/reconciliation_monitor.py:146-167)
module CloseProtocol {
  import opened Common
  import Ledger

  type Id = nat

  // The claim set of `closing_registry`.
  class ClosingRegistry {
    var closing: set<Id>

    constructor ()
      ensures closing == {}
    {
      closing := {};
    }

    method MarkClosing(id: Id)
      modifies this
      ensures closing == old(closing) + {id}
    {
      closing := closing + {id};
    }

    method ClearClosing(id: Id)
      modifies this
      ensures closing == old(closing) - {id}
    {
      closing := closing - {id};
    }

    predicate IsClosing(id: Id)
      reads this
    {
      id in closing
    }
  }

  datatype Kind = ExitTick | SingleClose | BulkClose

  // A seller's worker thread: busy with the order, between the read and the commit of `record_sell`,
  // or done (the claim is cleared back on the loop).
  datatype Phase = Selling | HasRead(sell: Ledger.SellArgs, write: Ledger.Write) | Finished

  datatype Seller = Seller(kind: Kind, id: Id, openAtClaim: bool, phase: Phase)

  // The event loop: free to run any task, or inside a sweep's `close_position`.
  datatype Loop = Free | Closing(id: Id, close: Ledger.SellArgs, write: Ledger.Write)

  // `lists` are the open-position lists the sweeps and the bulk route read once and work through.
  datatype System = System(tables: Ledger.Tables, closing: set<Id>, sellers: map<nat, Seller>, lists: map<nat, set<Id>>,
                           loop: Loop)

  function Initial(): System {
    System(Ledger.EmptyTables(), {}, map[], map[], Free)
  }

  datatype Step =
    | OpenRow(open: Ledger.OpenArgs)
    | ReadList(list: nat)
    | Claim(task: nat, kind: Kind, list: nat, id: Id)
    | WorkerRead(task: nat, sell: Ledger.SellArgs)
    | WorkerCommit(task: nat)
    | WorkerRetry(task: nat)
    | WorkerDone(task: nat)
    | Release(task: nat)
    | DirectRead(list: nat, id: Id, close: Ledger.SellArgs)
    | DirectCommit
    | DirectFail

  function OpenIds(t: Ledger.Tables): set<Id> {
    set id: Id | id < |t.rows| && Ledger.IsOpen(t, id)
  }

  // The exit monitor and the single-close route re-read the row in the stretch that claims it; the
  // bulk route and the sweeps trust a list. Everyone consults the claim set.
  predicate Enabled(s: System, step: Step) {
    match step
    case OpenRow(_) => true
    case ReadList(_) => s.loop.Free?
    case Claim(task, kind, list, id) =>
      && s.loop.Free? && task !in s.sellers && id !in s.closing
      && (if kind == BulkClose then list in s.lists && id in s.lists[list] else Ledger.IsOpen(s.tables, id))
    case WorkerRead(task, _) => task in s.sellers && s.sellers[task].phase.Selling?
    case WorkerCommit(task) => task in s.sellers && s.sellers[task].phase.HasRead?
      && s.sellers[task].id < |s.tables.rows|
    case WorkerRetry(task) => task in s.sellers && s.sellers[task].phase.HasRead?
    case WorkerDone(task) => task in s.sellers
    case Release(task) => s.loop.Free? && task in s.sellers && s.sellers[task].phase.Finished?
    case DirectRead(list, id, _) => s.loop.Free? && list in s.lists && id in s.lists[list] && id !in s.closing
    case DirectCommit => s.loop.Closing? && s.loop.id < |s.tables.rows|
    case DirectFail => s.loop.Closing?
  }

  function InPhase(s: System, task: nat, phase: Phase): System
    requires task in s.sellers
  {
    s.(sellers := s.sellers[task := s.sellers[task].(phase := phase)])
  }

  function Next(s: System, step: Step): System
    requires Enabled(s, step)
  {
    match step
    case OpenRow(open) => s.(tables := Ledger.Apply(s.tables, Ledger.OpenOp(open)))
    case ReadList(list) => s.(lists := s.lists[list := OpenIds(s.tables)])
    case Claim(task, kind, _, id) =>
      s.(sellers := s.sellers[task := Seller(kind, id, Ledger.IsOpen(s.tables, id), Selling)],
         closing := s.closing + {id})
    case WorkerRead(task, sell) =>
      var id := s.sellers[task].id;
      InPhase(s, task, if Ledger.IsOpen(s.tables, id)
                       then HasRead(sell, Ledger.SellWrite(s.tables.fills, id, s.tables.rows[id], sell)) else Finished)
    case WorkerCommit(task) =>
      var seller := s.sellers[task];
      InPhase(s, task, Finished).(tables := Ledger.Commit(s.tables, seller.id, seller.phase.write))
    case WorkerRetry(task) => InPhase(s, task, Selling)
    case WorkerDone(task) => InPhase(s, task, Finished)
    case Release(task) => s.(sellers := s.sellers - {task}, closing := s.closing - {s.sellers[task].id})
    case DirectRead(_, id, close) =>
      if Ledger.IsOpen(s.tables, id)
      then s.(loop := Closing(id, close, Ledger.CloseWrite(s.tables.fills, id, s.tables.rows[id], close))) else s
    case DirectCommit => s.(tables := Ledger.Commit(s.tables, s.loop.id, s.loop.write), loop := Free)
    case DirectFail => s.(loop := Free)
  }

  // ---------- the guarantees ----------

  ghost function Sold(sellers: map<nat, Seller>): set<Id> {
    set task | task in sellers :: sellers[task].id
  }

  // The claim set is exactly the ids with a sell in flight, and no id has two sellers.
  ghost predicate ClaimsAreSells(s: System) {
    && s.closing == Sold(s.sellers)
    && forall task, other :: task in s.sellers && other in s.sellers && task != other ==>
      s.sellers[task].id != s.sellers[other].id
  }

  // A pending write is what its writer would compute from the row as it is now: nobody wrote the row
  // since it was read, and a direct closer's row has no seller at all.
  ghost predicate WritesAreCurrent(s: System) {
    && (forall task :: task in s.sellers && s.sellers[task].phase.HasRead? ==>
          var seller := s.sellers[task];
          && Ledger.IsOpen(s.tables, seller.id)
          && seller.phase.write ==
             Ledger.SellWrite(s.tables.fills, seller.id, s.tables.rows[seller.id], seller.phase.sell))
    && (s.loop.Closing? ==>
          && s.loop.id !in s.closing && Ledger.IsOpen(s.tables, s.loop.id)
          && s.loop.write == Ledger.CloseWrite(s.tables.fills, s.loop.id, s.tables.rows[s.loop.id], s.loop.close))
  }

  // From its claim until its own `record_sell`, a seller's row stays as open or as closed as the claim
  // found it; the exit monitor and the single-close route only claim open rows.
  ghost predicate RowsWaitForTheirSeller(s: System) {
    forall task :: task in s.sellers ==>
      var seller := s.sellers[task];
      && (!seller.phase.Finished? ==> (Ledger.IsOpen(s.tables, seller.id) <==> seller.openAtClaim))
      && (seller.kind != BulkClose ==> seller.openAtClaim)
      && (seller.id < |s.tables.rows|)
  }

  ghost predicate Inv(s: System) {
    && ClaimsAreSells(s) && WritesAreCurrent(s) && RowsWaitForTheirSeller(s)
    && (forall list :: list in s.lists ==> forall id :: id in s.lists[list] ==> id < |s.tables.rows|)
    && Ledger.Consistent(s.tables) && Ledger.OneOpenPerSide(s.tables)
  }

  ghost predicate BuysShares(step: Step) {
    step.OpenRow? ==> Ledger.BuysShares(Ledger.OpenOp(step.open))
  }

  // ---------- split writes behave as atomic ones ----------

  // The one atomic ledger call a step amounts to, if any.
  ghost function AtomicOp(s: System, step: Step): Option<Ledger.Op>
    requires Enabled(s, step)
  {
    match step
    case OpenRow(open) => Some(Ledger.OpenOp(open))
    case WorkerCommit(task) => Some(Ledger.SellOp(s.sellers[task].id, s.sellers[task].phase.sell))
    case DirectCommit => Some(Ledger.CloseOp(s.loop.id, s.loop.close))
    case _ => None
  }

  lemma StepIsAtomic(s: System, step: Step)
    requires Inv(s) && Enabled(s, step)
    ensures var op := AtomicOp(s, step);
            Next(s, step).tables == if op.Some? then Ledger.Apply(s.tables, op.value) else s.tables
  {}

  // A write of another row leaves a pending write of this one current.
  lemma PendingWriteStays(t: Ledger.Tables, t': Ledger.Tables, f: Ledger.Fill, id: Id, a: Ledger.SellArgs)
    requires Ledger.IsOpen(t, id) && f.positionId != id && t'.fills == t.fills + [f]
    requires id < |t'.rows| && t'.rows[id] == t.rows[id]
    ensures Ledger.SellWrite(t'.fills, id, t'.rows[id], a) == Ledger.SellWrite(t.fills, id, t.rows[id], a)
    ensures Ledger.CloseWrite(t'.fills, id, t'.rows[id], a) == Ledger.CloseWrite(t.fills, id, t.rows[id], a)
  {
    Ledger.ForeignFillIsInvisible(t.fills, id, f);
  }

  // What one committed write changes: one row, and the log by one fill of that row.
  ghost predicate WritesRow(t: Ledger.Tables, t': Ledger.Tables, id: Id) {
    && |t'.rows| >= |t.rows| && |t'.fills| == |t.fills| + 1 && t'.fills[..|t.fills|] == t.fills
    && t'.fills[|t.fills|].positionId == id
    && forall other: Id :: other < |t.rows| && other != id ==> t'.rows[other] == t.rows[other]
  }

  // A committed write of `id`, while nobody else is selling or closing `id`, disturbs no other writer.
  lemma OthersUndisturbed(s: System, t': Ledger.Tables, id: Id)
    requires WritesAreCurrent(s) && RowsWaitForTheirSeller(s) && WritesRow(s.tables, t', id)
    ensures forall task :: task in s.sellers && s.sellers[task].id != id && s.sellers[task].phase.HasRead? ==>
              && Ledger.IsOpen(t', s.sellers[task].id)
              && s.sellers[task].phase.write ==
                 Ledger.SellWrite(t'.fills, s.sellers[task].id, t'.rows[s.sellers[task].id], s.sellers[task].phase.sell)
    ensures forall task :: task in s.sellers && s.sellers[task].id != id ==>
              (Ledger.IsOpen(t', s.sellers[task].id) <==> Ledger.IsOpen(s.tables, s.sellers[task].id))
    ensures s.loop.Closing? && s.loop.id != id ==>
              && Ledger.IsOpen(t', s.loop.id)
              && s.loop.write == Ledger.CloseWrite(t'.fills, s.loop.id, t'.rows[s.loop.id], s.loop.close)
  {
    var f := t'.fills[|s.tables.fills|];
    assert t'.fills == s.tables.fills + [f];
    forall task | task in s.sellers && s.sellers[task].id != id && s.sellers[task].phase.HasRead?
      ensures Ledger.SellWrite(t'.fills, s.sellers[task].id, t'.rows[s.sellers[task].id], s.sellers[task].phase.sell) ==
              Ledger.SellWrite(s.tables.fills, s.sellers[task].id, s.tables.rows[s.sellers[task].id],
                               s.sellers[task].phase.sell)
    {
      PendingWriteStays(s.tables, t', f, s.sellers[task].id, s.sellers[task].phase.sell);
    }
    if s.loop.Closing? && s.loop.id != id {
      PendingWriteStays(s.tables, t', f, s.loop.id, s.loop.close);
    }
  }

  lemma OpenKeepsInv(s: System, open: Ledger.OpenArgs)
    requires Inv(s) && Ledger.BuysShares(Ledger.OpenOp(open))
    ensures Inv(Next(s, OpenRow(open)))
  {
    var t' := Ledger.Apply(s.tables, Ledger.OpenOp(open));
    Ledger.ApplyKeepsConsistent(s.tables, Ledger.OpenOp(open));
    if t' != s.tables {
      assert WritesRow(s.tables, t', |s.tables.rows|);
      OthersUndisturbed(s, t', |s.tables.rows|);
    }
  }

  lemma CommitWritesItsRow(s: System, task: nat)
    requires Inv(s) && Enabled(s, WorkerCommit(task))
    ensures var t', id := Next(s, WorkerCommit(task)).tables, s.sellers[task].id;
            && WritesRow(s.tables, t', id) && |t'.rows| == |s.tables.rows|
            && Ledger.Consistent(t') && Ledger.OneOpenPerSide(t')
  {
    hide Ledger.Consistent, Ledger.OneOpenPerSide;
    var id := s.sellers[task].id;
    StepIsAtomic(s, WorkerCommit(task));
    Ledger.ApplyKeepsConsistent(s.tables, Ledger.SellOp(id, s.sellers[task].phase.sell));
    Ledger.SellWriteIsForId(s.tables, id, s.sellers[task].phase.sell, s.sellers[task].phase.write);
  }

  // The committing seller is done; everybody else is where he was, with the row he waits for.
  lemma CommitKeepsWriters(s: System, task: nat)
    requires Inv(s) && Enabled(s, WorkerCommit(task))
    requires WritesRow(s.tables, Next(s, WorkerCommit(task)).tables, s.sellers[task].id)
    ensures WritesAreCurrent(Next(s, WorkerCommit(task))) && RowsWaitForTheirSeller(Next(s, WorkerCommit(task)))
  {
    hide Ledger.Consistent, Ledger.OneOpenPerSide, Ledger.SellWrite, Ledger.CloseWrite, Ledger.Commit;
    OthersUndisturbed(s, Next(s, WorkerCommit(task)).tables, s.sellers[task].id);
    assert s.sellers[task].id in s.closing;
  }

  lemma CommitKeepsInv(s: System, task: nat)
    requires Inv(s) && Enabled(s, WorkerCommit(task))
    ensures Inv(Next(s, WorkerCommit(task)))
  {
    hide WritesAreCurrent, RowsWaitForTheirSeller, WritesRow, Ledger.Consistent, Ledger.OneOpenPerSide, Ledger.Commit;
    CommitWritesItsRow(s, task);
    CommitKeepsWriters(s, task);
    SameClaims(s, Next(s, WorkerCommit(task)), task);
  }

  lemma DirectCommitKeepsInv(s: System)
    requires Inv(s) && Enabled(s, DirectCommit)
    ensures Inv(Next(s, DirectCommit))
  {
    var s' := Next(s, DirectCommit);
    StepIsAtomic(s, DirectCommit);
    Ledger.ApplyKeepsConsistent(s.tables, Ledger.CloseOp(s.loop.id, s.loop.close));
    assert WritesRow(s.tables, s'.tables, s.loop.id);
    OthersUndisturbed(s, s'.tables, s.loop.id);
  }

  // A change of phase changes no claim.
  lemma SameClaims(s: System, s': System, task: nat)
    requires ClaimsAreSells(s) && task in s.sellers && s'.closing == s.closing
    requires s'.sellers.Keys == s.sellers.Keys && s'.sellers[task].id == s.sellers[task].id
    requires forall other :: other in s.sellers && other != task ==> s'.sellers[other] == s.sellers[other]
    ensures ClaimsAreSells(s')
  {
    assert forall other :: other in s.sellers ==> s'.sellers[other].id == s.sellers[other].id;
    assert Sold(s'.sellers) == Sold(s.sellers);
  }

  lemma ClaimKeepsInv(s: System, task: nat, kind: Kind, list: nat, id: Id)
    requires Inv(s) && Enabled(s, Claim(task, kind, list, id))
    ensures Inv(Next(s, Claim(task, kind, list, id)))
  {
    var s' := Next(s, Claim(task, kind, list, id));
    assert Sold(s'.sellers) == Sold(s.sellers) + {id} by {
      assert s'.sellers[task].id == id;
      assert forall other :: other in s.sellers ==> s'.sellers[other] == s.sellers[other];
    }
  }

  lemma ReleaseKeepsInv(s: System, task: nat)
    requires Inv(s) && Enabled(s, Release(task))
    ensures Inv(Next(s, Release(task)))
  {
    var s', id := Next(s, Release(task)), s.sellers[task].id;
    assert forall other :: other in s'.sellers ==> other in s.sellers && s'.sellers[other] == s.sellers[other];
    assert Sold(s'.sellers) == Sold(s.sellers) - {id};
  }

  // A worker that reads the row, starts over or gives up changes its phase and nothing else.
  lemma PhaseKeepsInv(s: System, step: Step, task: nat)
    requires Inv(s) && Enabled(s, step) && (step.WorkerRead? || step.WorkerRetry? || step.WorkerDone?)
             && step.task == task
    ensures Inv(Next(s, step))
  {
    hide Ledger.Consistent, Ledger.OneOpenPerSide, Ledger.SellWrite, Ledger.CloseWrite;
    SameClaims(s, Next(s, step), task);
  }

  // Reading a list, reading a row to close it, or failing to.
  lemma LoopStepKeepsInv(s: System, step: Step)
    requires Inv(s) && Enabled(s, step) && (step.ReadList? || step.DirectRead? || step.DirectFail?)
    ensures Inv(Next(s, step))
  {
    hide Ledger.Consistent, Ledger.OneOpenPerSide, Ledger.SellWrite, Ledger.CloseWrite;
  }

  lemma StepKeepsInv(s: System, step: Step)
    requires Inv(s) && Enabled(s, step) && BuysShares(step)
    ensures Inv(Next(s, step))
  {
    hide Inv, Next, Enabled;
    match step
    case OpenRow(open) => OpenKeepsInv(s, open);
    case Claim(task, kind, list, id) => ClaimKeepsInv(s, task, kind, list, id);
    case WorkerRead(task, _) => PhaseKeepsInv(s, step, task);
    case WorkerCommit(task) => CommitKeepsInv(s, task);
    case WorkerRetry(task) => PhaseKeepsInv(s, step, task);
    case WorkerDone(task) => PhaseKeepsInv(s, step, task);
    case Release(task) => ReleaseKeepsInv(s, task);
    case DirectCommit => DirectCommitKeepsInv(s);
    case _ => LoopStepKeepsInv(s, step);
  }

  // ---------- the code that takes these steps ----------

  // One process: the store, the claim set, and (for the proof) who is selling what. Each method is one
  // stretch of the event loop, so the loop is free between two calls.
  class Closers {
    const store: Ledger.PortfolioStore
    const registry: ClosingRegistry
    ghost var sellers: map<nat, Seller>
    ghost var lists: map<nat, set<Id>>

    ghost function View(): System
      reads this, store, registry
    {
      System(store.View(), registry.closing, sellers, lists, Free)
    }

    constructor ()
      ensures fresh(store) && fresh(registry) && View() == Initial() && Inv(View())
    {
      store := new Ledger.PortfolioStore();
      registry := new ClosingRegistry();
      sellers, lists := map[], map[];
    }

    // The exit monitor and the single-close route, from their read of the row to their claim, and the
    // bulk route for one position of its list: whoever is granted the claim is the only seller of the
    // id, and the others are refused until it is released.
    method TryClaim(ghost task: nat, kind: Kind, ghost list: nat, id: Id) returns (claimed: bool)
      requires Inv(View()) && task !in sellers
      requires kind == BulkClose ==> list in lists && id in lists[list]
      modifies this`sellers, registry
      ensures Inv(View()) && lists == old(lists)
      ensures claimed <==> (forall other :: other in old(sellers) ==> old(sellers)[other].id != id)
                           && (kind == BulkClose || Ledger.IsOpen(store.View(), id))
      ensures claimed ==> View() == Next(old(View()), Claim(task, kind, list, id))
      ensures claimed ==> forall other :: other in sellers && other != task ==> sellers[other].id != id
      ensures !claimed ==> View() == old(View())
    {
      if kind != BulkClose && !(id < |store.rows| && store.rows[id].status == Ledger.Open) {
        return false;
      }
      if registry.IsClosing(id) {
        return false;
      }
      ClaimKeepsInv(View(), task, kind, list, id);
      registry.MarkClosing(id);
      sellers := sellers[task := Seller(kind, id, Ledger.IsOpen(store.View(), id), Selling)];
      return true;
    }

    // The `finally` of every sell: the id can be claimed again.
    method ReleaseClaim(ghost task: nat, id: Id)
      requires Inv(View()) && Enabled(View(), Release(task)) && sellers[task].id == id
      modifies this`sellers, registry
      ensures Inv(View()) && View() == Next(old(View()), Release(task))
      ensures forall other :: other in sellers ==> sellers[other].id != id
    {
      ReleaseKeepsInv(View(), task);
      registry.ClearClosing(id);
      sellers := sellers - {task};
    }

    // One position of a settlement or reconciliation sweep: left alone exactly while somebody sells it,
    // and otherwise closed if it is still open.
    method CloseDirectly(ghost list: nat, id: Id, close: Ledger.SellArgs) returns (closed: bool)
      requires Inv(View()) && list in lists && id in lists[list]
      modifies store
      ensures Inv(View())
      ensures closed <==>
              (forall task :: task in sellers ==> sellers[task].id != id) && old(Ledger.IsOpen(store.View(), id))
      ensures closed ==> Enabled(old(View()), DirectRead(list, id, close))
                         && Enabled(Next(old(View()), DirectRead(list, id, close)), DirectCommit)
                         && View() == Next(Next(old(View()), DirectRead(list, id, close)), DirectCommit)
      ensures !closed ==> View() == old(View())
    {
      if registry.IsClosing(id) {
        return false;
      }
      ghost var before := View();
      var row := store.ClosePosition(id, close);
      closed := row.Ok?;
      if closed {
        StepKeepsInv(before, DirectRead(list, id, close));
        StepKeepsInv(Next(before, DirectRead(list, id, close)), DirectCommit);
      }
    }
  }

  // ---------- over every interleaving ----------

  ghost predicate IsRun(states: seq<System>, steps: seq<Step>) {
    && |states| == |steps| + 1 && states[0] == Initial()
    && forall i :: 0 <= i < |steps| ==>
         Enabled(states[i], steps[i]) && BuysShares(steps[i]) && states[i + 1] == Next(states[i], steps[i])
  }

  lemma {:induction false} EveryInterleavingIsSafe(states: seq<System>, steps: seq<Step>, n: nat)
    requires IsRun(states, steps) && n < |states|
    ensures Inv(states[n])
    ensures states[n].closing == Sold(states[n].sellers)
    ensures forall task :: task in states[n].sellers && states[n].sellers[task].kind != BulkClose
                           && !states[n].sellers[task].phase.Finished? ==>
              Ledger.IsOpen(states[n].tables, states[n].sellers[task].id)
  {
    hide Inv, Next, Enabled, Sold;
    InitialIsSafe();
    if n > 0 {
      EveryInterleavingIsSafe(states, steps, n - 1);
      StepKeepsInv(states[n - 1], steps[n - 1]);
    }
    WhatInvSays(states[n]);
  }

  lemma InitialIsSafe()
    ensures Inv(Initial())
  {}

  lemma WhatInvSays(s: System)
    requires Inv(s)
    ensures s.closing == Sold(s.sellers)
    ensures forall task :: task in s.sellers && s.sellers[task].kind != BulkClose
                           && !s.sellers[task].phase.Finished? ==>
              Ledger.IsOpen(s.tables, s.sellers[task].id)
  {}

  // The atomic calls the first `n` steps amount to.
  ghost function AtomicOps(states: seq<System>, steps: seq<Step>, n: nat): seq<Ledger.Op>
    requires IsRun(states, steps) && n <= |steps|
  {
    if n == 0 then []
    else
      var op := AtomicOp(states[n - 1], steps[n - 1]);
      AtomicOps(states, steps, n - 1) + if op.Some? then [op.value] else []
  }

  // Every interleaving of split reads and commits leaves the tables of one sequence of atomic calls:
  // no update is lost, and folding the fills reproduces every row.
  lemma {:induction false} InterleavingsAreSerial(states: seq<System>, steps: seq<Step>, n: nat)
    requires IsRun(states, steps) && n < |states|
    ensures states[n].tables == Ledger.Run(AtomicOps(states, steps, n)) && Ledger.Consistent(states[n].tables)
  {
    hide Next, Enabled, AtomicOp, Ledger.Apply, Ledger.Consistent;
    EveryInterleavingIsSafe(states, steps, n);
    if n > 0 {
      InterleavingsAreSerial(states, steps, n - 1);
      EveryInterleavingIsSafe(states, steps, n - 1);
      StepIsAtomic(states[n - 1], steps[n - 1]);
      var before, op := AtomicOps(states, steps, n - 1), AtomicOp(states[n - 1], steps[n - 1]);
      if op.Some? {
        assert AtomicOps(states, steps, n) == before + [op.value];
        assert (before + [op.value])[..|before|] == before;
      } else {
        assert AtomicOps(states, steps, n) == before;
      }
    }
  }

  // Nothing stands in a seller's way: the read and the commit of a seller whose row is open record exactly
  // its sell, and its release leaves the id to be claimed again.
  lemma SellersRecordTheirSell(s: System, task: nat, sell: Ledger.SellArgs)
    requires Inv(s) && task in s.sellers && s.sellers[task].phase.Selling?
             && Ledger.IsOpen(s.tables, s.sellers[task].id)
    ensures var id, read := s.sellers[task].id, Next(s, WorkerRead(task, sell));
            && Enabled(s, WorkerRead(task, sell)) && Enabled(read, WorkerCommit(task)) && read.tables == s.tables
            && var done := Next(read, WorkerCommit(task));
               && done.tables == Ledger.Apply(s.tables, Ledger.SellOp(id, sell))
               && done.sellers[task].phase.Finished?
               && (s.loop.Free? ==>
                     && Enabled(done, Release(task))
                     && id !in Next(done, Release(task)).closing && task !in Next(done, Release(task)).sellers)
  {
    PhaseKeepsInv(s, WorkerRead(task, sell), task);
    StepIsAtomic(Next(s, WorkerRead(task, sell)), WorkerCommit(task));
  }

  // A pending commit records its sell whatever the rest of the run did since its read.
  lemma PendingCommitsRecordTheirSell(states: seq<System>, steps: seq<Step>, n: nat, task: nat)
    requires IsRun(states, steps) && n < |states| && task in states[n].sellers && states[n].sellers[task].phase.HasRead?
    ensures var s, seller := states[n], states[n].sellers[task];
            && Enabled(s, WorkerCommit(task)) && Ledger.IsOpen(s.tables, seller.id)
            && Next(s, WorkerCommit(task)).tables == Ledger.Apply(s.tables, Ledger.SellOp(seller.id, seller.phase.sell))
  {
    EveryInterleavingIsSafe(states, steps, n);
    StepIsAtomic(states[n], WorkerCommit(task));
  }

  // ---------- the bulk route ----------

  // The bulk route reads its list once: it can claim a row another writer has closed since. Its sell
  // then runs against a closed row, and its `record_sell` can only be refused.
  lemma BulkMayClaimAClosedRow() returns (states: seq<System>, steps: seq<Step>)
    ensures IsRun(states, steps)
    ensures var last := states[|states| - 1];
            0 in last.sellers && last.sellers[0] == Seller(BulkClose, 0, false, Selling)
              && !Ledger.IsOpen(last.tables, 0)
  {
    var open := Ledger.OpenArgs("m", Ledger.Yes, 0.5, 2.0, 0.0, 0.0, Ledger.NO_REFS,
                                Ledger.Origin("t", "c", Ledger.Entry(None, None, None, None, None)));
    var close := Ledger.SellArgs(0.0, 1.0, 1.0, "settlement", Some("settlement"), 0.0, None, None);
    var s0 := Initial();
    var s1 := Next(s0, OpenRow(open));
    assert s1.tables == Ledger.Opened(s0.tables, open);
    var s2 := Next(s1, ReadList(0));
    assert 0 in s2.lists[0];
    var s3 := Next(s2, DirectRead(0, 0, close));
    var s4 := Next(s3, DirectCommit);
    var s5 := Next(s4, Claim(0, BulkClose, 0, 0));
    states := [s0, s1, s2, s3, s4, s5];
    steps := [OpenRow(open), ReadList(0), DirectRead(0, 0, close), DirectCommit, Claim(0, BulkClose, 0, 0)];
  }

  // A seller whose claim found the row closed never writes it.
  lemma ClosedClaimsNeverCommit(s: System, task: nat)
    requires Inv(s) && task in s.sellers && !s.sellers[task].openAtClaim
    ensures !Enabled(s, WorkerCommit(task))
  {}
}
