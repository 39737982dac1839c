// What the exit monitor's state means after any run of its events, told from the history.
module ExitRuns {
  import opened Common
  import opened ExitMonitor
  import opened MarketStore
  import BookRun
  import Ledger
  import Pricing

  // How an attempted close ended. A sell that raises goes past the bookkeeping of a failure: it is
  // logged, its claim is cleared, and the state stays as it was. A fill whose row cannot be re-read
  // raises too, but only after its backoff is dropped: it leaves what a partial fill leaves.
  datatype Outcome = Filled(partial: bool) | Missed | Errored

  datatype Event =
    | Tick(elapsed: Duration)
    | Bootstrap(id: Id, avg: real, snapshots: seq<Bids>)
    | Sweep(opens: seq<Held>)
    | Observe(token: Token, bids: Bids)
    | Decide(id: Id, bids: Bids, readsThin: bool)
    | Evaluated(held: Held, decision: Option<Decision>, rowOpen: bool, claimed: bool)
    | SellEnded(id: Id, outcome: Outcome)

  datatype Config = Config(minSize: real, tick: real)

  // A close handed to a worker thread.
  datatype InFlight = InFlight(token: Token, intent: Intent, start: real)

  datatype Process = Process(monitor: Monitor, clock: real, inflight: map<Id, InFlight>)

  // The monitor claims an id for as long as its own sell of it runs, so no id is in flight twice.
  function ConclusionOf(p: Process, e: Event): Concluded
    requires e.Evaluated?
  {
    Conclude(p.monitor, e.held.id, e.decision, p.clock, e.rowOpen, e.claimed || e.held.id in p.inflight)
  }

  function AfterSell(m: Monitor, id: Id, sell: InFlight, outcome: Outcome, now: real, tick: real): Monitor {
    match outcome
    case Filled(partial) => AfterFill(m, Held(id, sell.token), partial)
    case Missed => AfterFailure(m, id, sell.intent.trigger, sell.intent.floor, now, tick)
    case Errored => m
  }

  function Apply(p: Process, e: Event, c: Config): Process {
    var m := p.monitor;
    match e
    case Tick(elapsed) => p.(clock := p.clock + elapsed)
    case Bootstrap(id, avg, snapshots) => p.(monitor := Seeded(m, id, avg, snapshots, c.minSize))
    case Sweep(opens) => p.(monitor := Resynced(m, opens))
    case Observe(token, bids) => p.(monitor := Observed(m, token, bids, c.minSize))
    case Decide(id, bids, readsThin) => p.(monitor := AfterMark(m, id, bids, readsThin, c.minSize))
    case Evaluated(held, _, _, _) =>
      var r := ConclusionOf(p, e);
      Process(r.monitor, p.clock,
              if r.attempt.Some? then p.inflight[held.id := InFlight(held.token, r.attempt.value, p.clock)]
                else p.inflight)
    case SellEnded(id, outcome) =>
      if id !in p.inflight then p
      else Process(AfterSell(m, id, p.inflight[id], outcome, p.clock, c.tick), p.clock, p.inflight - {id})
  }

  function Initial(): Process { Process(Monitor(map[], map[]), 0.0, map[]) }

  function Run(events: seq<Event>, c: Config): Process {
    if events == [] then Initial() else Apply(Run(events[..|events| - 1], c), events[|events| - 1], c)
  }

  function StateAt(events: seq<Event>, c: Config, id: Id): PositionState {
    StateOf(Run(events, c).monitor.states, id)
  }

  // Position ids are a primary key: a sweep lists each open position once.
  ghost predicate ListsOnce(opens: seq<Held>) {
    forall i, j :: 0 <= i < j < |opens| ==> opens[i].id != opens[j].id
  }

  ghost predicate SweepsListOnce(events: seq<Event>) {
    forall e :: e in events && e.Sweep? ==> ListsOnce(e.opens)
  }

  // The sweep found the position no longer open.
  predicate Forgets(e: Event, id: Id) { e.Sweep? && id !in Ids(e.opens) }

  // A sell of the position ended, in a given way.
  predicate Ends(p: Process, e: Event, id: Id) { e.SellEnded? && e.id == id && id in p.inflight }

  predicate SoldOut(p: Process, e: Event, id: Id) { Ends(p, e, id) && e.outcome == Filled(false) }

  predicate Concludes(e: Event, id: Id) { e.Evaluated? && e.held.id == id }

  // ---------- one event and one position ----------

  // What an evaluation does to its position's state.
  function StateConcluded(state: PositionState, decision: Option<Decision>, now: real): PositionState {
    if IsWaiting(state, decision, now) then state
    else
      var tracked :=
        if IsPendingThinStop(decision) then Counted(state, decision.value.stamp)
        else state.(thinStreak := 0, thinStamp := None);
      if HoldsWithin(decision) then tracked.(backoff := None) else tracked
  }

  lemma ConcludedState(m: Monitor, id: Id, decision: Option<Decision>, now: real, rowOpen: bool, claimed: bool,
                       other: Id)
    ensures var m' := Conclude(m, id, decision, now, rowOpen, claimed).monitor;
            && m'.watch == m.watch
            && StateOf(m'.states, other) ==
               if other == id then StateConcluded(StateOf(m.states, id), decision, now) else StateOf(m.states, other)
  {}

  lemma {:induction false} RaisedAt(states: map<Id, PositionState>, ids: seq<Id>, mark: real, id: Id)
    ensures var was, now := StateOf(states, id), StateOf(Raised(states, ids, mark), id);
            now == if id in ids then was.(peak := Higher(was.peak, mark)) else was
  {
    if ids != [] {
      RaisedAt(states, ids[..|ids| - 1], mark, id);
      assert ids == ids[..|ids| - 1] + [ids[|ids| - 1]];
    }
  }

  // The state of one position after one event, in full.
  function StateAfter(p: Process, e: Event, c: Config, id: Id): PositionState {
    var was := StateOf(p.monitor.states, id);
    match e
    case Tick(_) => was
    case Bootstrap(i, avg, snapshots) =>
      if i == id then was.(peak := Some(SeedPeak(avg, snapshots, c.minSize))) else was
    case Sweep(opens) => if id in Ids(opens) then was else FRESH
    case Observe(token, bids) =>
      var mark := GuardedMark(bids, c.minSize);
      if mark.Some? && id in Watchers(p.monitor.watch, token) then was.(peak := Higher(was.peak, mark.value)) else was
    case Decide(i, bids, _) =>
      var mark := GuardedMark(bids, c.minSize);
      if i == id && mark.Some? then was.(peak := Higher(was.peak, mark.value)) else was
    case Evaluated(held, decision, _, _) => if held.id == id then StateConcluded(was, decision, p.clock) else was
    case SellEnded(_, outcome) =>
      if !Ends(p, e, id) then was
      else
        match outcome
        case Filled(partial) => was.(backoff := None, peak := if partial then was.peak else None)
        case Missed =>
          var intent := p.inflight[id].intent;
          was.(backoff := Some(NextBackoff(was.backoff, intent.trigger, intent.floor, p.clock, c.tick)))
        case Errored => was
  }

  lemma OneEvent(p: Process, e: Event, c: Config, id: Id)
    ensures StateOf(Apply(p, e, c).monitor.states, id) == StateAfter(p, e, c, id)
  {
    match e
    case Observe(token, bids) =>
      var mark := GuardedMark(bids, c.minSize);
      if mark.Some? { RaisedAt(p.monitor.states, Watchers(p.monitor.watch, token), mark.value, id); }
    case Evaluated(held, decision, rowOpen, claimed) =>
      ConcludedState(p.monitor, held.id, decision, p.clock, rowOpen, claimed || held.id in p.inflight, id);
    case _ =>
  }

  lemma LastEvent(events: seq<Event>, c: Config, id: Id)
    requires events != []
    ensures StateAt(events, c, id) == StateAfter(Run(events[..|events| - 1], c), events[|events| - 1], c, id)
  {
    OneEvent(Run(events[..|events| - 1], c), events[|events| - 1], c, id);
  }

  // ---------- who is watching ----------

  // Whether a book of `token` counts for `id`: the last sweep listed them together, and no filled
  // sell has ended the position since.
  ghost predicate Watches(events: seq<Event>, c: Config, id: Id, token: Token) {
    if events == [] then false
    else
      var before, e := events[..|events| - 1], events[|events| - 1];
      if e.Sweep? then Held(id, token) in e.opens
      else if SoldOut(Run(before, c), e, id) && Run(before, c).inflight[id].token == token then false
      else Watches(before, c, id, token)
  }

  ghost predicate NoRepeats(ids: seq<Id>) {
    forall i, j :: 0 <= i < j < |ids| ==> ids[i] != ids[j]
  }

  lemma {:induction false} RemoveFirstOfDistinct(ids: seq<Id>, id: Id)
    requires NoRepeats(ids)
    ensures NoRepeats(RemoveFirst(ids, id))
    ensures forall other :: other in RemoveFirst(ids, id) <==> other in ids && other != id
  {
    if ids != [] && ids[0] != id {
      RemoveFirstOfDistinct(ids[1..], id);
      assert forall other :: other in ids <==> other == ids[0] || other in ids[1..];
      assert ids[0] !in RemoveFirst(ids[1..], id);
    } else if ids != [] {
      assert forall other :: other in ids <==> other == ids[0] || other in ids[1..];
    }
  }

  lemma {:induction false} WatchOfLists(opens: seq<Held>, token: Token)
    requires ListsOnce(opens)
    ensures NoRepeats(Watchers(WatchOf(opens), token))
    ensures forall id :: id in Watchers(WatchOf(opens), token) <==> Held(id, token) in opens
  {
    if opens != [] {
      var before, held := opens[..|opens| - 1], opens[|opens| - 1];
      WatchOfLists(before, token);
      assert opens == before + [held];
      assert Held(held.id, token) !in before;
    }
  }

  // Only a sweep and a filled sell change a watch list.
  lemma WatchAfter(p: Process, e: Event, c: Config, token: Token)
    requires !e.Sweep? && !e.SellEnded?
    ensures Apply(p, e, c).monitor.watch == p.monitor.watch
  {
    if e.Evaluated? {
      ConcludedState(p.monitor, e.held.id, e.decision, p.clock, e.rowOpen, e.claimed || e.held.id in p.inflight, 0);
    }
  }

  lemma {:induction false} WatchFollowsHistory(events: seq<Event>, c: Config, token: Token)
    requires SweepsListOnce(events)
    ensures NoRepeats(Watchers(Run(events, c).monitor.watch, token))
    ensures forall id :: id in Watchers(Run(events, c).monitor.watch, token) <==> Watches(events, c, id, token)
  {
    if events != [] {
      var before, e := events[..|events| - 1], events[|events| - 1];
      WatchFollowsHistory(before, c, token);
      match e
      case Sweep(opens) => WatchOfLists(opens, token);
      case SellEnded(id, _) => RemoveFirstOfDistinct(Watchers(Run(before, c).monitor.watch, token), id);
      case _ => WatchAfter(Run(before, c), e, c, token);
    }
  }

  // ---------- the peak ----------

  function MarksOf(snapshots: seq<Bids>, minSize: real): seq<real> {
    if snapshots == [] then []
    else
      var mark := GuardedMark(snapshots[|snapshots| - 1], minSize);
      MarksOf(snapshots[..|snapshots| - 1], minSize) + if mark.Some? then [mark.value] else []
  }

  // The prices a position has had since it was last seeded, forgotten or ended: its seed, and every
  // depth-guarded mark decided on or observed while watched.
  ghost function Seen(events: seq<Event>, c: Config, id: Id): seq<real> {
    if events == [] then []
    else
      var before, e := events[..|events| - 1], events[|events| - 1];
      var seen := Seen(before, c, id);
      match e
      case Bootstrap(i, avg, snapshots) => if i == id then [avg] + MarksOf(snapshots, c.minSize) else seen
      case Sweep(opens) => if id in Ids(opens) then seen else []
      case Observe(token, bids) =>
        var mark := GuardedMark(bids, c.minSize);
        if mark.Some? && Watches(before, c, id, token) then seen + [mark.value] else seen
      case Decide(i, bids, _) =>
        var mark := GuardedMark(bids, c.minSize);
        if i == id && mark.Some? then seen + [mark.value] else seen
      case SellEnded(_, _) => if SoldOut(Run(before, c), e, id) then [] else seen
      case _ => seen
  }

  // `peak` is the largest of `seen`, or nothing when there is none.
  ghost predicate IsMaximum(peak: Option<real>, seen: seq<real>) {
    match peak
    case None => seen == []
    case Some(top) => top in seen && forall x :: x in seen ==> x <= top
  }

  lemma MaximumGrows(peak: Option<real>, seen: seq<real>, mark: real)
    requires IsMaximum(peak, seen)
    ensures IsMaximum(Higher(peak, mark), seen + [mark])
  {
    assert mark in seen + [mark];
  }

  lemma {:induction false} SeedIsTheMaximum(avg: real, snapshots: seq<Bids>, minSize: real)
    ensures IsMaximum(Some(SeedPeak(avg, snapshots, minSize)), [avg] + MarksOf(snapshots, minSize))
  {
    if snapshots == [] {
      assert [avg] + MarksOf(snapshots, minSize) == [avg];
    } else {
      var before, mark := snapshots[..|snapshots| - 1], GuardedMark(snapshots[|snapshots| - 1], minSize);
      SeedIsTheMaximum(avg, before, minSize);
      if mark.Some? {
        MaximumGrows(Some(SeedPeak(avg, before, minSize)), [avg] + MarksOf(before, minSize), mark.value);
        assert [avg] + MarksOf(snapshots, minSize) == [avg] + MarksOf(before, minSize) + [mark.value];
      } else {
        assert MarksOf(snapshots, minSize) == MarksOf(before, minSize);
      }
    }
  }

  // Over any run, a position's peak is the largest price it has had: thin marks and books nobody
  // watches never move it, and a filled sell or a sweep drops it exactly when the history says so.
  lemma {:induction false} PeakIsTheRunningMaximum(events: seq<Event>, c: Config, id: Id)
    requires SweepsListOnce(events)
    ensures IsMaximum(StateAt(events, c, id).peak, Seen(events, c, id))
  {
    if events != [] {
      var before, e := events[..|events| - 1], events[|events| - 1];
      PeakIsTheRunningMaximum(before, c, id);
      LastEvent(events, c, id);
      var peak, seen := StateAt(before, c, id).peak, Seen(before, c, id);
      hide Apply, Watches, IsMaximum;
      NothingSeen();
      match e
      case Bootstrap(_, avg, snapshots) => SeedIsTheMaximum(avg, snapshots, c.minSize);
      case Observe(token, bids) =>
        WatchFollowsHistory(before, c, token);
        if GuardedMark(bids, c.minSize).Some? { MaximumGrows(peak, seen, GuardedMark(bids, c.minSize).value); }
      case Decide(_, bids, _) =>
        if GuardedMark(bids, c.minSize).Some? { MaximumGrows(peak, seen, GuardedMark(bids, c.minSize).value); }
      case _ =>
    } else {
      NothingSeen();
    }
  }

  lemma NothingSeen()
    ensures IsMaximum(None, [])
  {}

  // The peak handed to the exit section is the maximum with the mark it decides on; on a thin book
  // it is the maximum of the real marks, whatever the raw bid.
  lemma HandedPeakIsTheMaximum(events: seq<Event>, c: Config, id: Id, bids: Bids, readsThin: bool)
    requires SweepsListOnce(events) && MarkedAt(Run(events, c).monitor, id, bids, readsThin, c.minSize).Some?
    ensures var marked := MarkedAt(Run(events, c).monitor, id, bids, readsThin, c.minSize).value;
            var seen := Seen(events, c, id);
            && marked.thin == GuardedMark(bids, c.minSize).None?
            && IsMaximum(Some(marked.peak), if marked.thin && seen != [] then seen else seen + [marked.current])
  {
    PeakIsTheRunningMaximum(events, c, id);
    var mark := GuardedMark(bids, c.minSize);
    if mark.Some? {
      MaximumGrows(StateAt(events, c, id).peak, Seen(events, c, id), mark.value);
    }
  }

  // So over any run and on every bid ladder the section is handed the first deep level near the top and the
  // largest price seen with it; without one the best bid, flagged thin, beside the largest real mark, if it
  // reads thin marks; and otherwise nothing.
  lemma HandedPriceAndPeak(events: seq<Event>, c: Config, id: Id, bids: Bids, readsThin: bool)
    requires SweepsListOnce(events) && Pricing.IsBidLadder(bids)
    ensures var handed, seen := MarkedAt(Run(events, c).monitor, id, bids, readsThin, c.minSize), Seen(events, c, id);
            && (forall i: nat :: Pricing.IsFirstLevel(bids, c.minSize, i) && NearTop(bids, i) ==>
                  && handed.Some? && handed.value.current == bids[i].price && !handed.value.thin
                  && IsMaximum(Some(handed.value.peak), seen + [bids[i].price]))
            && ((forall i: nat :: Pricing.IsFirstLevel(bids, c.minSize, i) ==> !NearTop(bids, i)) ==>
                  && (handed.Some? <==> bids != [] && readsThin)
                  && (handed.Some? ==>
                        && handed.value.current == bids[0].price && handed.value.thin
                        && IsMaximum(Some(handed.value.peak), if seen != [] then seen else [bids[0].price])))
  {
    hide Run, Seen, MarkedAt, IsMaximum;
    var m := Run(events, c).monitor;
    MarkHandsTheFirstDeepLevel(m, id, bids, readsThin, c.minSize);
    if MarkedAt(m, id, bids, readsThin, c.minSize).Some? {
      HandedPeakIsTheMaximum(events, c, id, bids, readsThin);
      ThinMeansNoMark(m, id, bids, readsThin, c.minSize);
      assert [] + [bids[0].price] == [bids[0].price];
    }
  }

  lemma ThinMeansNoMark(m: Monitor, id: Id, bids: Bids, readsThin: bool, minSize: real)
    requires MarkedAt(m, id, bids, readsThin, minSize).Some?
    ensures bids != []
  {}

  // ---------- the peak and the ledger ----------

  function ApplyAll(t: Ledger.Tables, ops: seq<Ledger.Op>): Ledger.Tables {
    if ops == [] then t else Ledger.Apply(ApplyAll(t, ops[..|ops| - 1]), ops[|ops| - 1])
  }

  // No executor books a negative sale.
  ghost predicate SellsForward(ops: seq<Ledger.Op>) {
    forall op :: op in ops && op.SellOp? ==> op.sell.soldQty >= 0.0
  }

  // An open row has been open all along, and never grew.
  lemma {:induction false} OpenRowsOnlyShrink(t: Ledger.Tables, ops: seq<Ledger.Op>, id: nat)
    requires id < |t.rows| && SellsForward(ops)
    ensures id < |ApplyAll(t, ops).rows|
    ensures Ledger.IsOpen(ApplyAll(t, ops), id) ==>
              Ledger.IsOpen(t, id) && ApplyAll(t, ops).rows[id].qty <= t.rows[id].qty
  {
    if ops != [] {
      assert ops[|ops| - 1] in ops;
      OpenRowsOnlyShrink(t, ops[..|ops| - 1], id);
    }
  }

  // The monitor's test for a partial sell, against a ledger that other writers use before and after
  // the sell: comparing with the quantity it read earlier never misjudges a row that is still open,
  // so the peak outlives the sell exactly when the row does, or when the re-read that would have told
  // raises.
  lemma PeakOutlivesTheSellIffTheRowDoes(t: Ledger.Tables, id: nat, before: seq<Ledger.Op>, sell: Ledger.SellArgs,
                                         after: seq<Ledger.Op>, m: Monitor, token: Token, readable: bool)
    requires Ledger.IsOpen(t, id) && SellsForward(before) && SellsForward(after) && sell.soldQty >= 0.0
    requires Ledger.IsOpen(ApplyAll(t, before), id)
    ensures var now := ApplyAll(Ledger.Apply(ApplyAll(t, before), Ledger.SellOp(id, sell)), after);
            var rowOpen := if readable then Some(Ledger.IsOpen(now, id)) else None;
            var m' := AfterFill(m, Held(id, token), IsPartial(t.rows[id].qty, Some(sell.soldQty), rowOpen));
            StateOf(m'.states, id).peak ==
            if (if readable then Ledger.IsOpen(now, id) else sell.soldQty < t.rows[id].qty)
            then StateOf(m.states, id).peak
            else None
  {
    hide Ledger.RealizedGain;
    OpenRowsOnlyShrink(t, before, id);
    var sold := Ledger.Apply(ApplyAll(t, before), Ledger.SellOp(id, sell));
    OpenRowsOnlyShrink(sold, after, id);
    if Ledger.IsOpen(sold, id) {
      assert sell.soldQty < ApplyAll(t, before).rows[id].qty;
    }
  }

  // ---------- the thin streak ----------

  // The fetch stamps of the thin stops pending since the last other outcome. An evaluation that waits
  // out a backoff ends before it counts anything.
  ghost function PendingStamps(events: seq<Event>, c: Config, id: Id): seq<Option<real>> {
    if events == [] then []
    else
      var before, e := events[..|events| - 1], events[|events| - 1];
      var stamps := PendingStamps(before, c, id);
      if Concludes(e, id) && !IsWaiting(StateAt(before, c, id), e.decision, Run(before, c).clock) then
        if IsPendingThinStop(e.decision) then stamps + [e.decision.value.stamp] else []
      else if Forgets(e, id) then []
      else stamps
  }

  ghost function Fetches(stamps: seq<Option<real>>): set<Option<real>> { set s | s in stamps }

  // Every stamp is known and the clock that gives them does not run backwards.
  ghost predicate StampsAdvance(stamps: seq<Option<real>>) {
    && (forall i :: 0 <= i < |stamps| ==> stamps[i].Some?)
    && (forall i, j :: 0 <= i < j < |stamps| ==> stamps[i].value <= stamps[j].value)
  }

  lemma NoFetches()
    ensures Fetches([]) == {} && StampsAdvance([])
  {}

  lemma {:induction false} RunStreak(events: seq<Event>, c: Config, id: Id)
    requires StampsAdvance(PendingStamps(events, c, id))
    ensures var state, stamps := StateAt(events, c, id), PendingStamps(events, c, id);
            && state.thinStreak == |Fetches(stamps)|
            && state.thinStamp == if stamps == [] then None else stamps[|stamps| - 1]
  {
    NoFetches();
    if events != [] {
      var before, e := events[..|events| - 1], events[|events| - 1];
      var stamps := PendingStamps(before, c, id);
      LastEvent(events, c, id);
      hide Fetches, StampsAdvance, Apply, NextBackoff, BackingOff;
      if Concludes(e, id) && !IsWaiting(StateAt(before, c, id), e.decision, Run(before, c).clock) {
        if IsPendingThinStop(e.decision) {
          CountedOnce(stamps, e.decision.value.stamp);
          RunStreak(before, c, id);
        }
      } else if !Forgets(e, id) {
        RunStreak(before, c, id);
      }
    }
  }

  // A stamp is new exactly when it is later than the last one.
  lemma CountedOnce(stamps: seq<Option<real>>, stamp: Option<real>)
    requires StampsAdvance(stamps + [stamp])
    ensures StampsAdvance(stamps) && stamp.Some?
    ensures stamps == [] || stamp.value > stamps[|stamps| - 1].value ==>
              stamp !in Fetches(stamps) && |Fetches(stamps + [stamp])| == |Fetches(stamps)| + 1
    ensures stamps != [] && stamp.value <= stamps[|stamps| - 1].value ==>
              stamp == stamps[|stamps| - 1] && Fetches(stamps + [stamp]) == Fetches(stamps)
  {
    var all := stamps + [stamp];
    assert all[|stamps|] == stamp && forall i :: 0 <= i < |stamps| ==> all[i] == stamps[i];
    assert Fetches(all) == Fetches(stamps) + {stamp};
  }

  // In any run: the streak is the number of distinct fetches on which the thin stop was pending,
  // however many ticks read one book, and what the section is told on the next fetch is the number of
  // distinct earlier ones.
  lemma StreakCountsDistinctFetches(events: seq<Event>, c: Config, id: Id, stamp: Option<real>)
    requires StampsAdvance(PendingStamps(events, c, id) + [stamp])
    ensures var state, fetches := StateAt(events, c, id), Fetches(PendingStamps(events, c, id));
            && state.thinStreak == |fetches|
            && PriorThinStreak(state, stamp) == |fetches - {stamp}|
            && Counted(state, stamp).thinStreak == |fetches + {stamp}|
  {
    hide Run, PendingStamps, Fetches, StampsAdvance;
    var stamps := PendingStamps(events, c, id);
    CountedOnce(stamps, stamp);
    RunStreak(events, c, id);
    OneStampMore(Fetches(stamps), stamp);
    LastStampIsFetched(stamps);
  }

  lemma OneStampMore(fetches: set<Option<real>>, stamp: Option<real>)
    ensures |fetches + {stamp}| == |fetches| + (if stamp in fetches then 0 else 1)
    ensures |fetches - {stamp}| == |fetches| - (if stamp in fetches then 1 else 0)
  {
    if stamp in fetches {
      assert fetches + {stamp} == fetches;
    } else {
      assert fetches - {stamp} == fetches;
    }
  }

  lemma LastStampIsFetched(stamps: seq<Option<real>>)
    ensures stamps == [] ==> Fetches(stamps) == {}
    ensures stamps != [] ==> stamps[|stamps| - 1] in Fetches(stamps)
  {}

  // ---------- the streak over the book cache ----------

  // The monitor and the book cache in one process: event `k` happens while the cache is in state
  // `at[k]`, and a thin stop is pending on the book of its token that is cached then.
  ghost predicate ReadsTheCache(events: seq<Event>, id: Id, token: Token, states: seq<BookRun.System>, at: seq<nat>) {
    && |at| == |events| && (forall k :: 0 <= k < |at| ==> at[k] < |states|)
    && (forall k, l :: 0 <= k < l < |at| ==> at[k] <= at[l])
    && forall k :: 0 <= k < |events| && Concludes(events[k], id) && IsPendingThinStop(events[k].decision) ==>
         events[k].decision.value.stamp == CachedStamp(states[at[k]], token) && events[k].decision.value.stamp.Some?
  }

  // `order_book_fetched_at`
  function CachedStamp(s: BookRun.System, token: Token): Option<real> {
    if token in s.books.cached then Some(s.books.cached[token].fetchedAt) else None
  }

  // The stamps such a run counts are known and never go backwards; the last one was cached at `m`.
  lemma {:induction false} CountedStampsAdvance(events: seq<Event>, c: Config, id: Id, token: Token,
                                                states: seq<BookRun.System>, steps: seq<BookRun.Step>, at: seq<nat>)
    returns (m: nat)
    requires BookRun.IsRun(states, steps) && ReadsTheCache(events, id, token, states, at)
    ensures var stamps := PendingStamps(events, c, id);
            && StampsAdvance(stamps)
            && (stamps != [] ==> at != [] && m <= at[|at| - 1] && stamps[|stamps| - 1] == CachedStamp(states[m], token))
  {
    m := 0;
    if events != [] {
      var n := |events| - 1;
      var before, e := events[..n], events[n];
      m := CountedStampsAdvance(before, c, id, token, states, steps, at[..n]);
      var stamps, all := PendingStamps(before, c, id), PendingStamps(events, c, id);
      if all == stamps + [CachedStamp(states[at[n]], token)] && Concludes(e, id) && IsPendingThinStop(e.decision) {
        if stamps != [] {
          BookRun.CachedStampsAdvance(states, steps, m, at[n], token);
        }
        m := at[n];
      }
    }
  }

  // So over any run of the monitor beside any run of the cache the streak is the number of distinct
  // fetches of the token's book on which the thin stop was pending, and the section is told the number
  // of distinct ones before the book now cached.
  lemma StreakCountsCachedFetches(events: seq<Event>, c: Config, id: Id, token: Token, states: seq<BookRun.System>,
                                  steps: seq<BookRun.Step>, at: seq<nat>, now: nat)
    requires BookRun.IsRun(states, steps) && ReadsTheCache(events, id, token, states, at)
    requires now < |states| && token in states[now].books.cached && (at != [] ==> at[|at| - 1] <= now)
    ensures var state, fetches := StateAt(events, c, id), Fetches(PendingStamps(events, c, id));
            var stamp := CachedStamp(states[now], token);
            && state.thinStreak == |fetches|
            && PriorThinStreak(state, stamp) == |fetches - {stamp}|
            && Counted(state, stamp).thinStreak == |fetches + {stamp}|
  {
    var m := CountedStampsAdvance(events, c, id, token, states, steps, at);
    if PendingStamps(events, c, id) != [] {
      BookRun.CachedStampsAdvance(states, steps, m, now, token);
    }
    StreakCountsDistinctFetches(events, c, id, CachedStamp(states[now], token));
  }
}
