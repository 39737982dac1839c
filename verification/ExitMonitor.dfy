// openpoly/runtime/exit_monitor.py: the state the close loop keeps per position — the peak its
// trailing stop hangs from, the confirmation streak of a thin stop, and the backoff of a failed close.
module ExitMonitor {
  import opened Common
  import Pricing
  import opened MarketStore

  type Id = nat

  type Bids = seq<Pricing.Level>

  const MARK_MAX_LEVELS: nat := 3
  const MARK_MAX_GAP: real := 0.05
  const CLOSE_BACKOFF_MAX_SECONDS: real := 120.0

  datatype Backoff = Backoff(trigger: string, delay: real, until: real, floor: Option<real>)

  // The fields of `_PositionState` that steer the loop.
  datatype PositionState = PositionState(peak: Option<real>, thinStreak: nat, thinStamp: Option<real>,
                                         backoff: Option<Backoff>)

  const FRESH: PositionState := PositionState(None, 0, None, None)

  // An open position as the sweep lists it.
  datatype Held = Held(id: Id, token: Token)

  datatype Monitor = Monitor(states: map<Id, PositionState>, watch: map<Token, seq<Id>>)

  // `_position_state`: created on first use.
  function StateOf(states: map<Id, PositionState>, id: Id): PositionState {
    if id in states then states[id] else FRESH
  }

  function Watchers(watch: map<Token, seq<Id>>, token: Token): seq<Id> {
    if token in watch then watch[token] else []
  }

  // ---------- the depth-guarded mark ----------

  function ScanForMark(levels: Bids, best: real, minSize: real): Option<real> {
    if levels == [] || best - levels[0].price > MARK_MAX_GAP + EPS then None
    else if levels[0].size >= minSize then Some(levels[0].price)
    else ScanForMark(levels[1..], best, minSize)
  }

  // `_guarded_mark`
  function GuardedMark(bids: Bids, minSize: real): Option<real> {
    if bids == [] then None
    else ScanForMark(if |bids| <= MARK_MAX_LEVELS then bids else bids[..MARK_MAX_LEVELS], bids[0].price, minSize)
  }

  // Level `i` is within reach of the top of the book.
  ghost predicate NearTop(bids: Bids, i: nat) {
    i < |bids| && i < 3 && bids[0].price - bids[i].price <= 0.05 + EPS
  }

  lemma {:induction false} ScanFinds(bids: Bids, minSize: real, top: Bids, k: nat)
    requires Pricing.IsBidLadder(bids) && top <= bids && k <= |top| <= MARK_MAX_LEVELS
    requires |top| == MARK_MAX_LEVELS || top == bids
    requires bids != [] && forall j :: 0 <= j < k ==> bids[j].size < minSize
    ensures forall i: nat :: Pricing.IsFirstLevel(bids, minSize, i) ==>
              ScanForMark(top[k..], bids[0].price, minSize) == if NearTop(bids, i) then Some(bids[i].price) else None
    ensures (forall i :: 0 <= i < |bids| ==> bids[i].size < minSize) ==>
                ScanForMark(top[k..], bids[0].price, minSize) == None
    decreases |top| - k
  {
    if k < |top| {
      assert top[k..][0] == bids[k] && top[k..][1..] == top[k + 1..];
      if bids[k].size < minSize { ScanFinds(bids, minSize, top, k + 1); }
    }
  }

  // On a best-first ladder the mark is the first deep level of the whole book, provided it is near
  // the top; a deep level further down is no mark at all.
  lemma MarkIsTheFirstDeepLevelNearTheTop(bids: Bids, minSize: real)
    requires Pricing.IsBidLadder(bids)
    ensures forall i: nat :: Pricing.IsFirstLevel(bids, minSize, i) ==>
              GuardedMark(bids, minSize) == if NearTop(bids, i) then Some(bids[i].price) else None
    ensures (forall i :: 0 <= i < |bids| ==> bids[i].size < minSize) ==> GuardedMark(bids, minSize) == None
  {
    if bids != [] {
      var top := if |bids| <= MARK_MAX_LEVELS then bids else bids[..MARK_MAX_LEVELS];
      ScanFinds(bids, minSize, top, 0);
      assert top[0..] == top;
    }
  }

  // ---------- the peak ----------

  function Higher(peak: Option<real>, mark: real): Option<real> {
    if peak.None? || mark > peak.value then Some(mark) else peak
  }

  // `bootstrap_peaks`, one position: the average entry price raised by the marks of its snapshots.
  function SeedPeak(avg: real, snapshots: seq<Bids>, minSize: real): real {
    if snapshots == [] then avg
    else
      var peak := SeedPeak(avg, snapshots[..|snapshots| - 1], minSize);
      var mark := GuardedMark(snapshots[|snapshots| - 1], minSize);
      if mark.Some? && mark.value > peak then mark.value else peak
  }

  function Seeded(m: Monitor, id: Id, avg: real, snapshots: seq<Bids>, minSize: real): Monitor {
    m.(states := m.states[id := StateOf(m.states, id).(peak := Some(SeedPeak(avg, snapshots, minSize)))])
  }

  function Raised(states: map<Id, PositionState>, ids: seq<Id>, mark: real): map<Id, PositionState> {
    if ids == [] then states
    else
      var below, id := Raised(states, ids[..|ids| - 1], mark), ids[|ids| - 1];
      below[id := StateOf(below, id).(peak := Higher(StateOf(below, id).peak, mark))]
  }

  // `observe_book`
  function Observed(m: Monitor, token: Token, bids: Bids, minSize: real): Monitor {
    var mark := GuardedMark(bids, minSize);
    if mark.Some? then m.(states := Raised(m.states, Watchers(m.watch, token), mark.value)) else m
  }

  // The head of `_tick_once`: watch what is open, forget the state of what is not.
  function WatchOf(opens: seq<Held>): map<Token, seq<Id>> {
    if opens == [] then map[]
    else
      var watch, held := WatchOf(opens[..|opens| - 1]), opens[|opens| - 1];
      watch[held.token := Watchers(watch, held.token) + [held.id]]
  }

  function Ids(opens: seq<Held>): set<Id> { set i | 0 <= i < |opens| :: opens[i].id }

  function Resynced(m: Monitor, opens: seq<Held>): Monitor {
    Monitor(map id | id in m.states && id in Ids(opens) :: m.states[id], WatchOf(opens))
  }

  // What `_decide` hands the exit section: the price it marks at and the peak it hangs the stop from.
  datatype Marked = Marked(current: real, peak: real, thin: bool)

  function MarkedAt(m: Monitor, id: Id, bids: Bids, readsThin: bool, minSize: real): Option<Marked> {
    var mark, peak := GuardedMark(bids, minSize), StateOf(m.states, id).peak;
    if mark.Some? then Some(Marked(mark.value, Higher(peak, mark.value).value, false))
    else if bids != [] && readsThin then
      Some(Marked(bids[0].price, if peak.Some? then peak.value else bids[0].price, true))
    else None
  }

  function AfterMark(m: Monitor, id: Id, bids: Bids, readsThin: bool, minSize: real): Monitor {
    var marked, state := MarkedAt(m, id, bids, readsThin, minSize), StateOf(m.states, id);
    if marked.None? then m
    else m.(states := m.states[id := if marked.value.thin then state else state.(peak := Some(marked.value.peak))])
  }

  // What the section is handed, on every bid ladder: the first deep level near the top with the peak raised
  // to it; without one the best bid, flagged thin, with the peak as it is, and only for a section that reads
  // thin marks; and otherwise nothing. An empty ladder hands nothing.
  lemma MarkHandsTheFirstDeepLevel(m: Monitor, id: Id, bids: Bids, readsThin: bool, minSize: real)
    requires Pricing.IsBidLadder(bids)
    ensures var marked := MarkedAt(m, id, bids, readsThin, minSize);
            var peak := if id in m.states then m.states[id].peak else None;
            && (forall i: nat :: Pricing.IsFirstLevel(bids, minSize, i) && NearTop(bids, i) ==>
                  marked == Some(Marked(bids[i].price,
                                        if peak.Some? && peak.value > bids[i].price then peak.value else bids[i].price,
                                        false)))
            && ((forall i: nat :: Pricing.IsFirstLevel(bids, minSize, i) ==> !NearTop(bids, i)) ==>
                  marked == if bids != [] && readsThin
                            then Some(Marked(bids[0].price, if peak.Some? then peak.value else bids[0].price, true))
                            else None)
  {
    hide GuardedMark, Pricing.IsBidLadder;
    MarkIsTheFirstDeepLevelNearTheTop(bids, minSize);
    if exists j :: 0 <= j < |bids| && bids[j].size >= minSize {
      var i := FirstDeep(bids, minSize);
      assert Pricing.IsFirstLevel(bids, minSize, i);
    }
  }

  lemma {:induction false} FirstDeep(bids: Bids, minSize: real) returns (i: nat)
    requires exists j :: 0 <= j < |bids| && bids[j].size >= minSize
    ensures Pricing.IsFirstLevel(bids, minSize, i)
  {
    i := 0;
    while bids[i].size < minSize
      invariant i < |bids| && forall j :: 0 <= j < i ==> bids[j].size < minSize
      invariant exists j :: i <= j < |bids| && bids[j].size >= minSize
      decreases |bids| - i
    {
      i := i + 1;
    }
  }

  // `list.remove`: the first occurrence.
  function RemoveFirst(ids: seq<Id>, id: Id): seq<Id> {
    if ids == [] then [] else if ids[0] == id then ids[1..] else [ids[0]] + RemoveFirst(ids[1..], id)
  }

  function Unwatched(watch: map<Token, seq<Id>>, token: Token, id: Id): map<Token, seq<Id>> {
    if token !in watch then watch
    else
      var left := RemoveFirst(watch[token], id);
      if left == [] then watch - {token} else watch[token := left]
  }

  // `_close` after a filled sell: the position is over unless it sold less than it held and its row is
  // still open, or cannot be read (`rowOpen` is then None: the read raises before anything is dropped).
  predicate IsPartial(heldQty: real, soldQty: Option<real>, rowOpen: Option<bool>) {
    (if soldQty.Some? then soldQty.value else heldQty) < heldQty && (rowOpen == None || rowOpen.value)
  }

  function AfterFill(m: Monitor, held: Held, partial: bool): Monitor {
    var state := StateOf(m.states, held.id).(backoff := None);
    if partial then m.(states := m.states[held.id := state])
    else Monitor(m.states[held.id := state.(peak := None)], Unwatched(m.watch, held.token, held.id))
  }

  // ---------- the thin streak ----------

  // `_track_thin_streak` while a thin stop is pending: a fetch counts once.
  function Counted(state: PositionState, stamp: Option<real>): PositionState {
    if stamp.None? || state.thinStamp.None? || stamp.value > state.thinStamp.value
    then state.(thinStreak := state.thinStreak + 1, thinStamp := stamp)
    else state
  }

  // `_prior_thin_streak`: what the section is told, this fetch excluded.
  function PriorThinStreak(state: PositionState, stamp: Option<real>): nat {
    if stamp.Some? && stamp == state.thinStamp && state.thinStreak > 0 then state.thinStreak - 1 else state.thinStreak
  }

  function AfterThinStop(m: Monitor, id: Id, stamp: Option<real>): Monitor {
    m.(states := m.states[id := Counted(StateOf(m.states, id), stamp)])
  }

  function AfterNoThinStop(m: Monitor, id: Id): Monitor {
    if id in m.states then m.(states := m.states[id := m.states[id].(thinStreak := 0, thinStamp := None)]) else m
  }

  // ---------- the close backoff ----------

  predicate FloorMovedLower(floor: Option<real>, prev: Option<real>) {
    floor.Some? && prev.Some? && floor.value < prev.value - EPS
  }

  // Whether a close decided on `trigger` at `floor` repeats the one that failed.
  predicate Repeats(trigger: string, floor: Option<real>, prevTrigger: string, prevFloor: Option<real>) {
    trigger == prevTrigger && !FloorMovedLower(floor, prevFloor)
  }

  predicate BackingOff(backoff: Option<Backoff>, trigger: string, floor: Option<real>, now: real) {
    backoff.Some? && Repeats(trigger, floor, backoff.value.trigger, backoff.value.floor) && now < backoff.value.until
  }

  function NextBackoff(prev: Option<Backoff>, trigger: string, floor: Option<real>, now: real, tick: real): Backoff {
    var delay :=
      if prev.Some? && Repeats(trigger, floor, prev.value.trigger, prev.value.floor)
      then Min(prev.value.delay * 2.0, CLOSE_BACKOFF_MAX_SECONDS)
      else Min(tick, CLOSE_BACKOFF_MAX_SECONDS);
    Backoff(trigger, delay, now + delay, floor)
  }

  function AfterFailure(m: Monitor, id: Id, trigger: string, floor: Option<real>, now: real, tick: real): Monitor {
    var state := StateOf(m.states, id);
    m.(states := m.states[id := state.(backoff := Some(NextBackoff(state.backoff, trigger, floor, now, tick)))])
  }

  function AfterClear(m: Monitor, id: Id): Monitor {
    if id in m.states then m.(states := m.states[id := m.states[id].(backoff := None)]) else m
  }

  // ---------- one evaluation ----------

  // What a confirmed decision asks for: the trigger of the close and the lowest price it may take.
  datatype Intent = Intent(trigger: string, floor: Option<real>)

  // A decision of the exit section: whether it was made on a thin mark, whether it is a hard stop
  // pending confirmation, the fetch stamp of its book, and the close it asks for, if any.
  datatype Decision = Decision(thin: bool, pending: bool, stamp: Option<real>, intent: Option<Intent>)

  predicate IsWaiting(state: PositionState, decision: Option<Decision>, now: real) {
    decision.Some? && decision.value.intent.Some?
    && BackingOff(state.backoff, decision.value.intent.value.trigger, decision.value.intent.value.floor, now)
  }

  predicate IsPendingThinStop(decision: Option<Decision>) {
    decision.Some? && decision.value.thin && decision.value.pending
  }

  // The position was evaluated and is held within its thresholds.
  predicate HoldsWithin(decision: Option<Decision>) {
    decision.Some? && !decision.value.thin && decision.value.intent == None
  }

  datatype Concluded = Concluded(monitor: Monitor, attempt: Option<Intent>)

  // `_evaluate` from its confirmed decision to the claim: the backoff, the streak, and whether a close
  // is attempted. `rowOpen` and `claimed` are the re-read of the row and of the claim set.
  function Conclude(m: Monitor, id: Id, decision: Option<Decision>, now: real, rowOpen: bool,
                    claimed: bool): Concluded {
    if IsWaiting(StateOf(m.states, id), decision, now) then Concluded(m, None)
    else
      var tracked :=
        if IsPendingThinStop(decision) then AfterThinStop(m, id, decision.value.stamp) else AfterNoThinStop(m, id);
      if decision == None || (decision.value.thin && decision.value.intent == None) then Concluded(tracked, None)
      else if decision.value.intent == None then Concluded(AfterClear(tracked, id), None)
      else if !rowOpen || claimed then Concluded(tracked, None)
      else Concluded(tracked, decision.value.intent)
  }

  // A close is attempted exactly when the decision asks for one, the row is still open, nobody else has
  // claimed it, and no failed close holds it back: there is none, it was on another trigger or at a higher
  // floor by more than 1e-9, or its wait is over.
  lemma CloseIsAttemptedExactlyWhen(m: Monitor, id: Id, decision: Option<Decision>, now: real, rowOpen: bool,
                                    claimed: bool)
    ensures var backoff := if id in m.states then m.states[id].backoff else None;
            var attempt := Conclude(m, id, decision, now, rowOpen, claimed).attempt;
            && (attempt.Some? ==> decision.Some? && decision.value.intent == attempt && rowOpen && !claimed)
            && (decision.Some? && decision.value.intent.Some? && rowOpen && !claimed ==>
                  var intent := decision.value.intent.value;
                  (attempt.Some? <==>
                     || backoff == None || backoff.value.trigger != intent.trigger || now >= backoff.value.until
                     || (backoff.value.floor.Some? && intent.floor.Some?
                         && intent.floor.value < backoff.value.floor.value - 0.000000001)))
  {}

  // What an evaluation leaves of the position's state. While its close waits, everything; otherwise a pending
  // thin stop counts one more fetch when its stamp is unknown, the first or later than the last, any other
  // outcome starts the streak over, and holding within thresholds drops the backoff.
  lemma EvaluationLeaves(m: Monitor, id: Id, decision: Option<Decision>, now: real, rowOpen: bool, claimed: bool)
    requires !IsWaiting(StateOf(m.states, id), decision, now)
    ensures var was := StateOf(m.states, id);
            var left := StateOf(Conclude(m, id, decision, now, rowOpen, claimed).monitor.states, id);
            && left.peak == was.peak
            && (decision.Some? && decision.value.thin && decision.value.pending ==>
                  var stamp := decision.value.stamp;
                  if stamp == None || was.thinStamp == None || stamp.value > was.thinStamp.value
                  then left.thinStreak == was.thinStreak + 1 && left.thinStamp == stamp
                  else left.thinStreak == was.thinStreak && left.thinStamp == was.thinStamp)
            && (decision == None || !decision.value.thin || !decision.value.pending ==>
                  left.thinStreak == 0 && left.thinStamp == None)
            && left.backoff ==
               if decision.Some? && !decision.value.thin && decision.value.intent == None then None else was.backoff
  {}

  // ---------- the monitor object ----------

  class ExitMonitor {
    const minSize: real
    const tick: real
    var states: map<Id, PositionState>
    var watch: map<Token, seq<Id>>

    ghost function View(): Monitor
      reads this
    {
      Monitor(states, watch)
    }

    constructor (minSize: real, tick: real)
      ensures this.minSize == minSize && this.tick == tick && View() == Monitor(map[], map[])
    {
      this.minSize, this.tick := minSize, tick;
      states, watch := map[], map[];
    }

    method BootstrapPeak(id: Id, avg: real, snapshots: seq<Bids>)
      modifies this
      ensures View() == Seeded(old(View()), id, avg, snapshots, minSize)
    {
      var peak := avg;
      for i := 0 to |snapshots|
        invariant peak == SeedPeak(avg, snapshots[..i], minSize) && View() == old(View())
      {
        assert snapshots[..i + 1][..i] == snapshots[..i];
        var mark := GuardedMark(snapshots[i], minSize);
        if mark.Some? && mark.value > peak {
          peak := mark.value;
        }
      }
      assert snapshots[..|snapshots|] == snapshots;
      states := states[id := StateOf(states, id).(peak := Some(peak))];
    }

    method ObservePrice(token: Token, bid: real)
      modifies this
      ensures View() == old(View()).(states := Raised(old(states), Watchers(old(watch), token), bid))
    {
      var ids := Watchers(watch, token);
      for i := 0 to |ids|
        invariant states == Raised(old(states), ids[..i], bid) && watch == old(watch)
      {
        assert ids[..i + 1][..i] == ids[..i];
        var state := StateOf(states, ids[i]);
        if state.peak.None? || bid > state.peak.value {
          state := state.(peak := Some(bid));
        }
        states := states[ids[i] := state];
      }
      assert ids[..|ids|] == ids;
    }

    method ObserveBook(token: Token, bids: Bids)
      modifies this
      ensures View() == Observed(old(View()), token, bids, minSize)
    {
      if token !in watch { return; }
      var mark := GuardedMark(bids, minSize);
      if mark.Some? {
        ObservePrice(token, mark.value);
      }
    }

    method BeginSweep(opens: seq<Held>)
      modifies this
      ensures View() == Resynced(old(View()), opens)
    {
      var rebuilt: map<Token, seq<Id>> := map[];
      for i := 0 to |opens|
        invariant rebuilt == WatchOf(opens[..i]) && View() == old(View())
      {
        assert opens[..i + 1][..i] == opens[..i];
        rebuilt := rebuilt[opens[i].token := Watchers(rebuilt, opens[i].token) + [opens[i].id]];
      }
      assert opens[..|opens|] == opens;
      watch := rebuilt;
      var openIds := set i | 0 <= i < |opens| :: opens[i].id;
      states := map id | id in states && id in openIds :: states[id];
    }

    method Mark(id: Id, bids: Bids, readsThin: bool) returns (marked: Option<Marked>)
      modifies this
      ensures marked == MarkedAt(old(View()), id, bids, readsThin, minSize)
      ensures View() == AfterMark(old(View()), id, bids, readsThin, minSize)
    {
      if bids == [] { return None; }
      var current := GuardedMark(bids, minSize);
      var thin := false;
      if current.None? {
        if !readsThin { return None; }
        current := Some(bids[0].price);
        thin := true;
      }
      var state := StateOf(states, id);
      var prevPeak := if state.peak.Some? then state.peak.value else current.value;
      var peak := if thin then prevPeak else Max(prevPeak, current.value);
      states := states[id := if thin then state else state.(peak := Some(peak))];
      marked := Some(Marked(current.value, peak, thin));
    }

    method Unwatch(token: Token, id: Id)
      modifies this
      ensures View() == old(View()).(watch := Unwatched(old(watch), token, id))
    {
      if token !in watch { return; }
      var left := RemoveFirst(watch[token], id);
      if left == [] {
        watch := watch - {token};
      } else {
        watch := watch[token := left];
      }
    }

    method SettleFill(held: Held, heldQty: real, soldQty: Option<real>, rowOpen: Option<bool>) returns (raised: bool)
      modifies this
      ensures raised <==> IsPartial(heldQty, soldQty, None) && rowOpen == None
      ensures View() == AfterFill(old(View()), held, IsPartial(heldQty, soldQty, rowOpen))
    {
      states := states[held.id := StateOf(states, held.id)];
      ClearBackoff(held.id);
      var sold := if soldQty.Some? then soldQty.value else heldQty;
      if sold < heldQty && rowOpen == None {
        return true;
      }
      var partial := sold < heldQty && rowOpen.value;
      raised := false;
      if !partial {
        states := states[held.id := states[held.id].(peak := None)];
        Unwatch(held.token, held.id);
      }
    }

    // `pending` holds the fetch stamp of a thin stop awaiting confirmation; any other outcome is None.
    method TrackThinStreak(id: Id, pending: Option<Option<real>>)
      modifies this
      ensures View() == if pending.Some? then AfterThinStop(old(View()), id, pending.value)
                  else AfterNoThinStop(old(View()), id)
    {
      if pending.Some? {
        var state, stamp := StateOf(states, id), pending.value;
        if stamp.None? || state.thinStamp.None? || stamp.value > state.thinStamp.value {
          state := state.(thinStreak := state.thinStreak + 1, thinStamp := stamp);
        }
        states := states[id := state];
      } else if id in states {
        states := states[id := states[id].(thinStreak := 0, thinStamp := None)];
      }
    }

    method RecordCloseFailure(id: Id, trigger: string, floor: Option<real>, now: real)
      modifies this
      ensures View() == AfterFailure(old(View()), id, trigger, floor, now, tick)
    {
      var state := StateOf(states, id);
      var delay := Min(tick, CLOSE_BACKOFF_MAX_SECONDS);
      if state.backoff.Some? {
        var prev := state.backoff.value;
        if prev.trigger == trigger && !FloorMovedLower(floor, prev.floor) {
          delay := Min(prev.delay * 2.0, CLOSE_BACKOFF_MAX_SECONDS);
        }
      }
      states := states[id := state.(backoff := Some(Backoff(trigger, delay, now + delay, floor)))];
    }

    method ClearBackoff(id: Id)
      modifies this
      ensures View() == AfterClear(old(View()), id)
    {
      if id in states {
        states := states[id := states[id].(backoff := None)];
      }
    }

    // `_backing_off`
    method IsBackingOff(id: Id, trigger: string, floor: Option<real>, now: real) returns (waiting: bool)
      ensures waiting <==> BackingOff(StateOf(states, id).backoff, trigger, floor, now)
    {
      if id !in states || states[id].backoff.None? { return false; }
      var backoff := states[id].backoff.value;
      if backoff.trigger != trigger { return false; }
      if FloorMovedLower(floor, backoff.floor) { return false; }
      return now < backoff.until;
    }

    // The tail of `_evaluate`: the close to attempt, if any.
    method Evaluate(id: Id, decision: Option<Decision>, now: real, rowOpen: bool, claimed: bool)
      returns (attempt: Option<Intent>)
      modifies this
      ensures Concluded(View(), attempt) == Conclude(old(View()), id, decision, now, rowOpen, claimed)
    {
      if decision.Some? && decision.value.intent.Some? {
        var waiting := IsBackingOff(id, decision.value.intent.value.trigger, decision.value.intent.value.floor, now);
        if waiting { return None; }
      }
      TrackThinStreak(id, if IsPendingThinStop(decision) then Some(decision.value.stamp) else None);
      if decision == None || (decision.value.thin && decision.value.intent == None) {
        return None;
      }
      if decision.value.intent == None {
        ClearBackoff(id);
        return None;
      }
      if !rowOpen || claimed {
        return None;
      }
      return decision.value.intent;
    }
  }
}
