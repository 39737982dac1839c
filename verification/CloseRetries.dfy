// How often a close that does not fill is attempted, over any run of the exit monitor.
module CloseRetries {
  import opened Common
  import opened ExitMonitor
  import opened ExitRuns

  // A close that was attempted and did not fill: it failed, or the sell raised.
  datatype Attempt = Attempt(intent: Intent, start: real, end: real, errored: bool)

  // The position's backoff is dropped: it is held within thresholds, its close filled, or it is gone.
  predicate ClearsBackoff(p: Process, e: Event, id: Id) {
    (Concludes(e, id) && HoldsWithin(e.decision)) || (Ends(p, e, id) && e.outcome.Filled?) || Forgets(e, id)
  }

  predicate EndsUnfilled(p: Process, e: Event, id: Id) { Ends(p, e, id) && !e.outcome.Filled? }

  function AttemptOf(p: Process, e: Event, id: Id): Attempt
    requires EndsUnfilled(p, e, id)
  {
    Attempt(p.inflight[id].intent, p.inflight[id].start, p.clock, e.outcome.Errored?)
  }

  function AttemptsAfter(p: Process, e: Event, id: Id, attempts: seq<Attempt>): seq<Attempt> {
    if EndsUnfilled(p, e, id) then attempts + [AttemptOf(p, e, id)]
    else if ClearsBackoff(p, e, id) then []
    else attempts
  }

  // The attempts to close `id` that did not fill since its backoff was last dropped.
  ghost function Attempts(events: seq<Event>, c: Config, id: Id): seq<Attempt> {
    if events == [] then []
    else
      AttemptsAfter(Run(events[..|events| - 1], c), events[|events| - 1], id, Attempts(events[..|events| - 1], c, id))
  }

  // Those whose failure the monitor recorded.
  ghost function Recorded(attempts: seq<Attempt>): seq<Attempt> {
    if attempts == [] then []
    else
      var last := attempts[|attempts| - 1];
      Recorded(attempts[..|attempts| - 1]) + if last.errored then [] else [last]
  }

  // ---------- the wait ----------

  predicate IsRepeat(later: Attempt, earlier: Attempt) {
    Repeats(later.intent.trigger, later.intent.floor, earlier.intent.trigger, earlier.intent.floor)
  }

  // How many failures at the end of the list repeat one close.
  ghost function Repeated(failures: seq<Attempt>): (n: nat)
    ensures failures != [] ==> n > 0
  {
    if failures == [] then 0
    else if |failures| == 1 then 1
    else if IsRepeat(failures[|failures| - 1], failures[|failures| - 2]) then Repeated(failures[..|failures| - 1]) + 1
    else 1
  }

  function Doubled(tick: real, times: nat): real {
    if times == 0 then tick else 2.0 * Doubled(tick, times - 1)
  }

  // The wait after `k` failures of one close: tick * 2^(k-1), at most two minutes.
  function Wait(tick: real, k: nat): real
    requires k > 0
  {
    Min(Doubled(tick, k - 1), 120.0)
  }

  lemma {:induction false} WaitIsAtLeastATick(tick: real, k: nat)
    requires k > 0 && tick >= 0.0
    ensures Doubled(tick, k - 1) >= tick && Wait(tick, k) >= Min(tick, CLOSE_BACKOFF_MAX_SECONDS)
  {
    if k > 1 { WaitIsAtLeastATick(tick, k - 1); }
  }

  // The backoff a history of failures leaves.
  ghost function BackoffOf(failures: seq<Attempt>, tick: real): Option<Backoff> {
    if failures == [] then None
    else
      var last, delay := failures[|failures| - 1], Wait(tick, Repeated(failures));
      Some(Backoff(last.intent.trigger, delay, last.end + delay, last.intent.floor))
  }

  lemma NextBackoffExtends(failures: seq<Attempt>, a: Attempt, tick: real)
    ensures BackoffOf(failures + [a], tick) ==
            Some(NextBackoff(BackoffOf(failures, tick), a.intent.trigger, a.intent.floor, a.end, tick))
  {
    var all := failures + [a];
    assert all[..|all| - 1] == failures;
  }

  lemma RecordedOfOneMore(attempts: seq<Attempt>, a: Attempt)
    ensures Recorded(attempts + [a]) == if a.errored then Recorded(attempts) else Recorded(attempts) + [a]
  {
    assert (attempts + [a])[..|attempts|] == attempts;
  }

  // Over any run, the wait doubles with every recorded repetition of the failed close from one tick up
  // to two minutes, and starts over at one tick when the trigger changes or the floor moved lower.
  lemma {:induction false} WaitIsExponential(events: seq<Event>, c: Config, id: Id)
    ensures StateAt(events, c, id).backoff == BackoffOf(Recorded(Attempts(events, c, id)), c.tick)
  {
    NothingRecorded(c.tick);
    if events != [] {
      var before, e := events[..|events| - 1], events[|events| - 1];
      WaitIsExponential(before, c, id);
      LastEvent(events, c, id);
      hide Run, BackoffOf, Recorded, AttemptsAfter, StateAfter;
      OneEventKeepsBackoff(Run(before, c), e, c, id, Attempts(before, c, id));
    }
  }

  lemma OneEventKeepsBackoff(p: Process, e: Event, c: Config, id: Id, attempts: seq<Attempt>)
    requires StateOf(p.monitor.states, id).backoff == BackoffOf(Recorded(attempts), c.tick)
    ensures StateAfter(p, e, c, id).backoff == BackoffOf(Recorded(AttemptsAfter(p, e, id, attempts)), c.tick)
  {
    NothingRecorded(c.tick);
    hide BackoffOf, NextBackoff, Recorded;
    if EndsUnfilled(p, e, id) {
      RecordedOfOneMore(attempts, AttemptOf(p, e, id));
      NextBackoffExtends(Recorded(attempts), AttemptOf(p, e, id), c.tick);
    }
  }

  lemma NothingRecorded(tick: real)
    ensures Recorded([]) == [] && BackoffOf([], tick) == None
  {}

  // A failed close is never held back for more than two minutes, whatever happened before.
  lemma BackoffNeverHoldsLonger(events: seq<Event>, c: Config, id: Id, trigger: string, floor: Option<real>, now: real)
    requires Recorded(Attempts(events, c, id)) != []
    requires var failures := Recorded(Attempts(events, c, id));
             now >= failures[|failures| - 1].end + 120.0
    ensures !BackingOff(StateAt(events, c, id).backoff, trigger, floor, now)
  {
    WaitIsExponential(events, c, id);
  }

  // ---------- what every attempt waited for ----------

  // The attempts follow one another, and each started when the failures recorded before it let it.
  ghost predicate Waited(attempts: seq<Attempt>, tick: real) {
    forall k :: 0 <= k < |attempts| ==> WaitedAfter(attempts[..k], attempts[k], tick)
  }

  ghost predicate WaitedAfter(attempts: seq<Attempt>, a: Attempt, tick: real) {
    && a.start <= a.end && (attempts != [] ==> attempts[|attempts| - 1].end <= a.start)
    && !BackingOff(BackoffOf(Recorded(attempts), tick), a.intent.trigger, a.intent.floor, a.start)
  }

  lemma WaitedAt(attempts: seq<Attempt>, k: nat, tick: real)
    requires Waited(attempts, tick) && k < |attempts|
    ensures WaitedAfter(attempts[..k], attempts[k], tick)
  {}

  // The same of the close in flight, if there is one.
  ghost predicate InFlightWaited(p: Process, attempts: seq<Attempt>, tick: real, id: Id) {
    && (attempts != [] ==> attempts[|attempts| - 1].end <= p.clock)
    && (id in p.inflight ==>
          var sell := p.inflight[id];
          && sell.start <= p.clock
          && (attempts != [] ==> attempts[|attempts| - 1].end <= sell.start)
          && !BackingOff(BackoffOf(Recorded(attempts), tick), sell.intent.trigger, sell.intent.floor, sell.start))
  }

  lemma WaitedOfOneMore(attempts: seq<Attempt>, a: Attempt, tick: real)
    requires Waited(attempts, tick) && WaitedAfter(attempts, a, tick)
    ensures Waited(attempts + [a], tick)
  {
    hide WaitedAfter;
    var all := attempts + [a];
    forall k | 0 <= k < |all| ensures WaitedAfter(all[..k], all[k], tick) {
      if k < |attempts| {
        assert all[..k] == attempts[..k] && all[k] == attempts[k];
      } else {
        assert all[..k] == attempts && all[k] == a;
      }
    }
  }

  // What one event does to the clock and to the close in flight.
  lemma InFlightAfter(p: Process, e: Event, c: Config, id: Id)
    ensures var p' := Apply(p, e, c);
            && p.clock <= p'.clock
            && (id in p'.inflight ==>
                  (id in p.inflight && p'.inflight[id] == p.inflight[id] && !Ends(p, e, id))
                  || (Concludes(e, id) && id !in p.inflight && p'.clock == p.clock && p'.inflight[id].start == p.clock
                      && e.decision.Some? && e.decision.value.intent == Some(p'.inflight[id].intent)
                      && !IsWaiting(StateOf(p.monitor.states, id), e.decision, p.clock)))
  {}

  lemma OneEventKeepsWaits(p: Process, e: Event, c: Config, id: Id, attempts: seq<Attempt>)
    requires Waited(attempts, c.tick) && InFlightWaited(p, attempts, c.tick, id)
    requires StateOf(p.monitor.states, id).backoff == BackoffOf(Recorded(attempts), c.tick)
    ensures Waited(AttemptsAfter(p, e, id, attempts), c.tick)
    ensures InFlightWaited(Apply(p, e, c), AttemptsAfter(p, e, id, attempts), c.tick, id)
  {
    InFlightAfter(p, e, c, id);
    NothingRecorded(c.tick);
    NothingWaits(c.tick);
    hide BackoffOf, Recorded, Waited, Repeats;
    if EndsUnfilled(p, e, id) {
      WaitedOfOneMore(attempts, AttemptOf(p, e, id), c.tick);
      assert id !in Apply(p, e, c).inflight && Apply(p, e, c).clock == p.clock;
    } else {
      hide Apply;
    }
  }

  lemma {:induction false} EveryAttemptWaited(events: seq<Event>, c: Config, id: Id)
    ensures Waited(Attempts(events, c, id), c.tick)
    ensures InFlightWaited(Run(events, c), Attempts(events, c, id), c.tick, id)
  {
    if events != [] {
      var before, e := events[..|events| - 1], events[|events| - 1];
      EveryAttemptWaited(before, c, id);
      WaitIsExponential(before, c, id);
      hide Apply, BackoffOf, Recorded, Waited, InFlightWaited, AttemptsAfter;
      OneEventKeepsWaits(Run(before, c), e, c, id, Attempts(before, c, id));
    } else {
      NothingWaits(c.tick);
    }
  }

  lemma NothingWaits(tick: real)
    ensures Waited([], tick)
  {}

  // ---------- how many attempts a window holds ----------

  // From attempt `i` to attempt `j`, each repeats the one before it, which did not raise.
  ghost predicate IsStretch(attempts: seq<Attempt>, i: nat, j: nat)
    requires j < |attempts|
  {
    forall k {:trigger attempts[k]} :: i < k <= j ==> IsRepeat(attempts[k], attempts[k - 1]) && !attempts[k - 1].errored
  }

  lemma StretchAt(attempts: seq<Attempt>, i: nat, j: nat, k: nat)
    requires j < |attempts| && IsStretch(attempts, i, j) && i < k <= j
    ensures IsRepeat(attempts[k], attempts[k - 1]) && !attempts[k - 1].errored && IsStretch(attempts, i, j - 1)
  {}

  // How many recorded failures attempt `i` repeats, whatever else failed before them.
  ghost function EarlierRepeats(attempts: seq<Attempt>, i: nat): nat
    requires i < |attempts|
  {
    var n := Repeated(Recorded(attempts[..i + 1]));
    if n == 0 then 0 else n - 1
  }

  // Along a stretch every attempt is recorded, and the count of repetitions grows by one with each.
  lemma {:induction false} StretchCounts(attempts: seq<Attempt>, i: nat, j: nat)
    requires i < j < |attempts| && IsStretch(attempts, i, j)
    ensures var failures := Recorded(attempts[..j]);
            && failures != [] && failures[|failures| - 1] == attempts[j - 1]
            && Repeated(failures) == EarlierRepeats(attempts, i) + (j - i)
    decreases j
  {
    hide IsRepeat, Recorded, IsStretch;
    var before, last := attempts[..j - 1], attempts[j - 1];
    assert attempts[..j] == before + [last];
    StretchAt(attempts, i, j, j);
    RecordedOfOneMore(before, last);
    if i + 1 < j {
      StretchCounts(attempts, i, j - 1);
      StretchAt(attempts, i, j, j - 1);
      OneMoreRepeat(Recorded(before), last);
    }
  }

  lemma OneMoreRepeat(failures: seq<Attempt>, a: Attempt)
    requires failures != [] && IsRepeat(a, failures[|failures| - 1])
    ensures Repeated(failures + [a]) == Repeated(failures) + 1
  {
    assert (failures + [a])[..|failures|] == failures;
  }

  // After an attempt that failed, one that repeats it starts a full wait later.
  lemma NextAttemptWaits(attempts: seq<Attempt>, tick: real, k: nat)
    requires Waited(attempts, tick) && 0 < k < |attempts|
    requires !attempts[k - 1].errored && IsRepeat(attempts[k], attempts[k - 1])
    ensures Recorded(attempts[..k]) != []
    ensures attempts[k].start >= attempts[k - 1].end + Wait(tick, Repeated(Recorded(attempts[..k])))
  {
    hide Waited, Repeated, Repeats, Wait;
    WaitedAt(attempts, k, tick);
    assert attempts[..k] == attempts[..k - 1] + [attempts[k - 1]];
    RecordedOfOneMore(attempts[..k - 1], attempts[k - 1]);
  }

  // The waits after failures `i + 1` to `j`.
  function TotalWait(tick: real, i: nat, j: nat): real
    requires i <= j
    decreases j
  {
    if i == j then 0.0 else TotalWait(tick, i, j - 1) + Wait(tick, j)
  }

  // `n` waits of `step` seconds.
  function Times(n: int, step: real): real { n as real * step }

  lemma OneMore(n: int, step: real)
    ensures Times(n + 1, step) == Times(n, step) + step && Times(0, step) == 0.0
  {}

  lemma {:induction false} SpacedAddsUp(attempts: seq<Attempt>, tick: real, i: nat, j: nat)
    requires Waited(attempts, tick) && i <= j < |attempts| && IsStretch(attempts, i, j) && tick >= 0.0
    ensures var before := EarlierRepeats(attempts, i);
            attempts[j].start - attempts[i].start >= TotalWait(tick, before, before + (j - i)) >=
            Times(j - i, Min(tick, CLOSE_BACKOFF_MAX_SECONDS))
    decreases j
  {
    hide Times, Doubled, Wait, Min, Recorded, Repeated, EarlierRepeats, Waited, IsRepeat, IsStretch;
    OneMore(j - 1 - i, Min(tick, CLOSE_BACKOFF_MAX_SECONDS));
    if i < j {
      StretchAt(attempts, i, j, j);
      SpacedAddsUp(attempts, tick, i, j - 1);
      StretchCounts(attempts, i, j);
      NextAttemptWaits(attempts, tick, j);
      WaitIsAtLeastATick(tick, EarlierRepeats(attempts, i) + (j - i));
      WaitedAt(attempts, j - 1, tick);
    }
  }

  // However long the run and whatever it holds, over any stretch in which one close is repeated and no
  // sell of it raises, attempts `i` and `j` are the sum of the waits between them apart; so a window of
  // time holds at most its length over one tick of them, plus one.
  lemma AttemptsAreBounded(events: seq<Event>, c: Config, id: Id, i: nat, j: nat)
    requires i <= j < |Attempts(events, c, id)| && IsStretch(Attempts(events, c, id), i, j) && c.tick >= 0.0
    ensures var attempts := Attempts(events, c, id); var before := EarlierRepeats(attempts, i);
            attempts[j].start - attempts[i].start >= TotalWait(c.tick, before, before + (j - i)) >=
            Times(j - i, Min(c.tick, CLOSE_BACKOFF_MAX_SECONDS))
  {
    hide Attempts, EarlierRepeats, IsStretch, Times, TotalWait, Wait, Min, Waited, InFlightWaited, Run;
    EveryAttemptWaited(events, c, id);
    SpacedAddsUp(Attempts(events, c, id), c.tick, i, j);
  }

  // ---------- sells that raise ----------

  const TRIED: Intent := Intent("stop_loss", None)

  function Pause(p: Process, atLeast: Duration): Duration {
    var backoff := StateOf(p.monitor.states, 0).backoff;
    if backoff.Some? && backoff.value.until - p.clock > atLeast then backoff.value.until - p.clock else atLeast
  }

  function TryOnce(p: Process, errored: bool, atLeast: Duration): seq<Event> {
    [Tick(Pause(p, atLeast)),
     Evaluated(Held(0, "t"), Some(Decision(false, false, None, Some(TRIED))), true, false),
     SellEnded(0, if errored then Errored else Missed)]
  }

  function Tried(events: seq<Event>, c: Config, errored: bool, atLeast: Duration): seq<Event> {
    events + TryOnce(Run(events, c), errored, atLeast)
  }

  // One close tried again and again, each time as soon as its backoff allows but not before `atLeast`
  // has passed, with sells that raise or fail as told.
  function Retries(errored: seq<bool>, c: Config, atLeast: Duration): seq<Event> {
    if errored == [] then []
    else Tried(Retries(errored[..|errored| - 1], c, atLeast), c, errored[|errored| - 1], atLeast)
  }

  lemma OneTry(events: seq<Event>, c: Config, errored: bool, atLeast: Duration)
    requires 0 !in Run(events, c).inflight
    ensures var p, events' := Run(events, c), Tried(events, c, errored, atLeast);
            var p', at := Run(events', c), p.clock + Pause(p, atLeast);
            && 0 !in p'.inflight && p'.clock == at
            && Attempts(events', c, 0) == Attempts(events, c, 0) + [Attempt(TRIED, at, at, errored)]
            && (errored ==> Pause(p', atLeast) == atLeast)
  {
    hide Run, Attempts;
    var p := Run(events, c);
    var tried := TryOnce(p, errored, atLeast);
    var p1, p2 := Apply(p, tried[0], c), Apply(Apply(p, tried[0], c), tried[1], c);
    assert events + tried == events + [tried[0]] + [tried[1]] + [tried[2]];
    RunOfOneMore(events, tried[0], c);
    RunOfOneMore(events + [tried[0]], tried[1], c);
    RunOfOneMore(events + [tried[0]] + [tried[1]], tried[2], c);
    OneEvent(p, tried[0], c, 0);
    OneEvent(p1, tried[1], c, 0);
    OneEvent(p2, tried[2], c, 0);
    assert !IsWaiting(StateOf(p1.monitor.states, 0), tried[1].decision, p1.clock);
    assert p2.inflight[0] == InFlight("t", TRIED, p1.clock);
  }

  lemma RunOfOneMore(events: seq<Event>, e: Event, c: Config)
    ensures Run(events + [e], c) == Apply(Run(events, c), e, c)
    ensures forall id :: Attempts(events + [e], c, id) == AttemptsAfter(Run(events, c), e, id, Attempts(events, c, id))
  {
    assert (events + [e])[..|events|] == events;
  }

  // Every attempt repeats the one before it.
  ghost predicate OneClose(attempts: seq<Attempt>) {
    forall k {:trigger attempts[k]} :: 0 < k < |attempts| ==> IsRepeat(attempts[k], attempts[k - 1])
  }

  // The attempts of one close, with these outcomes.
  ghost predicate HasOutcomes(attempts: seq<Attempt>, errored: seq<bool>) {
    && OneClose(attempts) && |attempts| == |errored|
    && forall k :: 0 <= k < |attempts| ==> attempts[k].errored == errored[k]
  }

  // Each attempt takes no time, and one after an error follows it by `atLeast` alone.
  ghost predicate FollowAtOnce(attempts: seq<Attempt>, errored: seq<bool>, atLeast: real) {
    && |attempts| == |errored|
    && (forall k :: 0 <= k < |attempts| ==> attempts[k].intent == TRIED && attempts[k].start == attempts[k].end)
    && (forall k {:trigger attempts[k]} :: 0 < k < |attempts| && errored[k - 1] ==>
        attempts[k].start == attempts[k - 1].end + atLeast)
  }

  lemma FollowsOfOneMore(attempts: seq<Attempt>, errored: seq<bool>, a: Attempt, last: bool, atLeast: real)
    requires HasOutcomes(attempts, errored) && FollowAtOnce(attempts, errored, atLeast)
    requires a.intent == TRIED && a.start == a.end && a.errored == last
    requires attempts != [] && errored[|errored| - 1] ==> a.start == attempts[|attempts| - 1].end + atLeast
    ensures HasOutcomes(attempts + [a], errored + [last]) && FollowAtOnce(attempts + [a], errored + [last], atLeast)
  {}

  // The close can be tried again, `atLeast` after an error.
  ghost predicate IsRetried(p: Process, attempts: seq<Attempt>, errored: seq<bool>, atLeast: Duration) {
    && 0 !in p.inflight && HasOutcomes(attempts, errored) && FollowAtOnce(attempts, errored, atLeast)
    && (attempts != [] ==> attempts[|attempts| - 1].end == p.clock)
    && (attempts != [] && errored[|errored| - 1] ==> Pause(p, atLeast) == atLeast)
  }

  lemma RetriedOnceMore(p: Process, attempts: seq<Attempt>, errored: seq<bool>, atLeast: Duration, p': Process,
                        last: bool)
    requires IsRetried(p, attempts, errored, atLeast)
    requires 0 !in p'.inflight && p'.clock == p.clock + Pause(p, atLeast) && (last ==> Pause(p', atLeast) == atLeast)
    ensures IsRetried(p', attempts + [Attempt(TRIED, p'.clock, p'.clock, last)], errored + [last], atLeast)
  {
    hide Pause, HasOutcomes, FollowAtOnce;
    SameLength(attempts, errored);
    FollowsOfOneMore(attempts, errored, Attempt(TRIED, p'.clock, p'.clock, last), last, atLeast);
  }

  lemma NotInFlight(p: Process, attempts: seq<Attempt>, errored: seq<bool>, atLeast: Duration)
    requires IsRetried(p, attempts, errored, atLeast)
    ensures 0 !in p.inflight
  {}

  lemma TriedOnceMore(events: seq<Event>, errored: seq<bool>, last: bool, c: Config, atLeast: Duration)
    requires IsRetried(Run(events, c), Attempts(events, c, 0), errored, atLeast)
    ensures var events' := Tried(events, c, last, atLeast);
            IsRetried(Run(events', c), Attempts(events', c, 0), errored + [last], atLeast)
  {
    hide *;
    NotInFlight(Run(events, c), Attempts(events, c, 0), errored, atLeast);
    OneTry(events, c, last, atLeast);
    RetriedOnceMore(Run(events, c), Attempts(events, c, 0), errored, atLeast, Run(Tried(events, c, last, atLeast), c),
                    last);
  }

  // A sell that raised leaves no wait behind: the next attempt follows as soon as it may at all.
  lemma {:induction false} RetriesFollowErrorsAtOnce(errored: seq<bool>, c: Config, atLeast: Duration)
    ensures var events := Retries(errored, c, atLeast);
            IsRetried(Run(events, c), Attempts(events, c, 0), errored, atLeast)
  {
    if errored != [] {
      hide IsRetried, Run, Apply, Tried, Attempts, AttemptsAfter, Pause, HasOutcomes, FollowAtOnce, OneClose;
      var n := |errored| - 1;
      RetriesFollowErrorsAtOnce(errored[..n], c, atLeast);
      TriedOnceMore(Retries(errored[..n], c, atLeast), errored[..n], errored[n], c, atLeast);
      assert errored[..n] + [errored[n]] == errored;
    }
  }

  lemma SameLength(attempts: seq<Attempt>, errored: seq<bool>)
    requires HasOutcomes(attempts, errored)
    ensures |attempts| == |errored|
  {}

  // For every list of outcomes: all runs in which one close ends that way wait out the full backoff
  // between attempts exactly when none of its sells raised, the last one aside.
  lemma FullWaitsExactlyWithoutErrors(errored: seq<bool>, c: Config)
    requires c.tick > 0.0
    ensures WaitsInFull(errored, c) <==> forall k :: 0 <= k < |errored| - 1 ==> !errored[k]
  {
    if k :| 0 <= k < |errored| - 1 && errored[k] {
      var events := Retries(errored, c, 0.0);
      RetriesFollowErrorsAtOnce(errored, c, 0.0);
      var attempts := Attempts(events, c, 0);
      WaitIsAtLeastATick(c.tick, k + 1);
      hide Attempts, Retries, Wait;
      assert HasOutcomes(attempts, errored);
      assert attempts[k + 1].start < attempts[k].end + Wait(c.tick, k + 1);
      assert !FullWaits(attempts, c.tick);
    } else {
      forall events, id | HasOutcomes(Attempts(events, c, id), errored)
        ensures FullWaits(Attempts(events, c, id), c.tick)
      {
        EveryAttemptWaited(events, c, id);
        NoErrorsNoGaps(Attempts(events, c, id), c.tick);
      }
    }
  }

  ghost predicate FullWaits(attempts: seq<Attempt>, tick: real) {
    forall k {:trigger attempts[k]} :: 0 < k < |attempts| ==> attempts[k].start >= attempts[k - 1].end + Wait(tick, k)
  }

  ghost predicate WaitsInFull(errored: seq<bool>, c: Config) {
    forall events, id :: HasOutcomes(Attempts(events, c, id), errored) ==> FullWaits(Attempts(events, c, id), c.tick)
  }

  lemma NoErrorsNoGaps(attempts: seq<Attempt>, tick: real)
    requires Waited(attempts, tick) && OneClose(attempts)
    requires forall k :: 0 <= k < |attempts| - 1 ==> !attempts[k].errored
    ensures FullWaits(attempts, tick)
  {
    hide Wait, Recorded, Repeated, EarlierRepeats, IsRepeat, Waited;
    forall k | 0 < k < |attempts| ensures attempts[k].start >= attempts[k - 1].end + Wait(tick, k) {
      FirstRepeatsNothing(attempts);
      StretchCounts(attempts, 0, k);
      NextAttemptWaits(attempts, tick, k);
    }
  }

  lemma FirstRepeatsNothing(attempts: seq<Attempt>)
    requires attempts != []
    ensures EarlierRepeats(attempts, 0) == 0
  {
    assert attempts[..1] == [] + [attempts[0]];
    RecordedOfOneMore([], attempts[0]);
  }

  // At the loop's own pace: three sells that raise go out one tick apart, where three failures would
  // have taken three ticks.
  lemma RaisingSellsGoOutEveryTick(c: Config)
    requires 0.0 < c.tick <= 60.0
    ensures var attempts := Attempts(Retries([true, true, true], c, c.tick), c, 0);
            && |attempts| == 3 && OneClose(attempts)
            && attempts[2].start - attempts[0].start == 2.0 * c.tick < 3.0 * c.tick == TotalWait(c.tick, 0, 2)
  {
    RetriesFollowErrorsAtOnce([true, true, true], c, c.tick);
    hide Attempts, Retries;
    var attempts := Attempts(Retries([true, true, true], c, c.tick), c, 0);
    assert attempts[1].start == attempts[0].end + c.tick && attempts[2].start == attempts[1].end + c.tick;
    assert Wait(c.tick, 1) == c.tick && Wait(c.tick, 2) == 2.0 * c.tick;
    assert TotalWait(c.tick, 0, 2) == TotalWait(c.tick, 0, 1) + Wait(c.tick, 2);
    assert TotalWait(c.tick, 0, 1) == TotalWait(c.tick, 0, 0) + Wait(c.tick, 1);
  }
}
