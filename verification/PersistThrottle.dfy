// openpoly/markets/manager.py:425-469: which delivered books are also persisted, and forgetting
// the stamps that no longer throttle anything.
module PersistThrottle {
  import opened Common
  import opened MarketStore

  // One book handed to the persist hook.
  datatype Snapshot = Snapshot(token: Token, at: real, throttled: bool)

  datatype Delivered = Delivered(stamps: map<Token, real>, persisted: seq<Snapshot>)

  predicate Throttles(stamps: map<Token, real>, token: Token, now: real, interval: real) {
    token in stamps && now - stamps[token] < interval
  }

  function Deliver(stamps: map<Token, real>, tokens: seq<Token>, throttle: bool, now: real, interval: real): Delivered {
    if tokens == [] then Delivered(stamps, [])
    else
      var d := Deliver(stamps, tokens[..|tokens| - 1], throttle, now, interval);
      var token := tokens[|tokens| - 1];
      if throttle && Throttles(d.stamps, token, now, interval) then d
      else Delivered(d.stamps[token := now], d.persisted + [Snapshot(token, now, throttle)])
  }

  function Pruned(stamps: map<Token, real>, now: real, interval: real): map<Token, real> {
    map token | token in stamps && now - stamps[token] < interval :: stamps[token]
  }

  // The manager's persist side. `persisted` is what its hook received.
  class PersistGate {
    const interval: real
    var lastPersisted: map<Token, real>
    ghost var persisted: seq<Snapshot>

    constructor (interval: real)
      ensures this.interval == interval && lastPersisted == map[] && persisted == []
    {
      this.interval := interval;
      lastPersisted, persisted := map[], [];
    }

    method DeliverBooks(tokens: seq<Token>, throttle: bool, now: real)
      modifies this
      ensures var d := Deliver(old(lastPersisted), tokens, throttle, now, interval);
              lastPersisted == d.stamps && persisted == old(persisted) + d.persisted
    {
      for i := 0 to |tokens|
        invariant var d := Deliver(old(lastPersisted), tokens[..i], throttle, now, interval);
                  lastPersisted == d.stamps && persisted == old(persisted) + d.persisted
      {
        assert tokens[..i + 1][..i] == tokens[..i];
        var token := tokens[i];
        if throttle && token in lastPersisted && now - lastPersisted[token] < interval {
          continue;
        }
        lastPersisted := lastPersisted[token := now];
        persisted := persisted + [Snapshot(token, now, throttle)];
      }
      assert tokens[..|tokens|] == tokens;
    }

    method PruneLastPersisted(now: real)
      modifies this
      ensures lastPersisted == Pruned(old(lastPersisted), now, interval) && persisted == old(persisted)
    {
      lastPersisted := map token | token in lastPersisted && now - lastPersisted[token] < interval ::
        lastPersisted[token];
    }
  }

  // A delivery persists each of its tokens unless it is throttled and the token's stamp is younger than
  // the interval, and stamps exactly what it persists.
  lemma {:induction false} DeliveriesPersistWhatIsDue(stamps: map<Token, real>, tokens: seq<Token>, throttle: bool,
                                                      now: real, interval: real)
    ensures var d := Deliver(stamps, tokens, throttle, now, interval);
            && (forall snapshot :: snapshot in d.persisted ==>
                  snapshot.token in tokens && snapshot.at == now && snapshot.throttled == throttle)
            && (forall token :: Snapshot(token, now, throttle) in d.persisted <==>
                  token in tokens && (!throttle || token !in stamps || now - stamps[token] >= interval))
            && (forall token :: token in d.stamps <==> token in stamps || Snapshot(token, now, throttle) in d.persisted)
            && (forall token :: token in d.stamps ==>
                  d.stamps[token] == if Snapshot(token, now, throttle) in d.persisted then now else stamps[token])
            && (!throttle ==> |d.persisted| == |tokens|)
  {
    if tokens != [] {
      var before, token := tokens[..|tokens| - 1], tokens[|tokens| - 1];
      DeliveriesPersistWhatIsDue(stamps, before, throttle, now, interval);
      assert forall t :: t in tokens <==> t in before || t == token;
    }
  }

  // ---------- runs ----------

  // A delivery or a prune, some time after the previous one.
  datatype Op = DeliverOp(elapsed: Duration, tokens: seq<Token>, throttle: bool) | PruneOp(elapsed: Duration)

  datatype Gate = Gate(stamps: map<Token, real>, now: real, persisted: seq<Snapshot>)

  function Apply(g: Gate, op: Op, interval: real, prunes: bool): Gate {
    var now := g.now + op.elapsed;
    match op
    case DeliverOp(_, tokens, throttle) =>
      var d := Deliver(g.stamps, tokens, throttle, now, interval);
      Gate(d.stamps, now, g.persisted + d.persisted)
    case PruneOp(_) => Gate(if prunes then Pruned(g.stamps, now, interval) else g.stamps, now, g.persisted)
  }

  // A run of the gate; with `prunes` false the stamps are never forgotten.
  function Run(ops: seq<Op>, interval: real, prunes: bool): Gate {
    if ops == [] then Gate(map[], 0.0, [])
    else Apply(Run(ops[..|ops| - 1], interval, prunes), ops[|ops| - 1], interval, prunes)
  }

  // The pruned map lost only stamps that no longer throttle.
  ghost predicate LostOnlyStale(pruned: map<Token, real>, full: map<Token, real>, now: real, interval: real) {
    && (forall token :: token in pruned ==> token in full && pruned[token] == full[token])
    && (forall token :: token in full && token !in pruned ==> now - full[token] >= interval)
  }

  lemma {:induction false} DeliverAgrees(pruned: map<Token, real>, full: map<Token, real>, tokens: seq<Token>,
                                         throttle: bool, now: real, interval: real)
    requires LostOnlyStale(pruned, full, now, interval)
    ensures var d, d' := Deliver(pruned, tokens, throttle, now, interval),
                Deliver(full, tokens, throttle, now, interval);
            d.persisted == d'.persisted && LostOnlyStale(d.stamps, d'.stamps, now, interval)
  {
    if tokens != [] {
      DeliverAgrees(pruned, full, tokens[..|tokens| - 1], throttle, now, interval);
    }
  }

  // Forgetting stamps is invisible: any run of deliveries and prunes persists exactly the snapshots
  // of a gate that never forgets.
  lemma {:induction false} PruningIsInvisible(ops: seq<Op>, interval: real)
    ensures var g, g' := Run(ops, interval, true), Run(ops, interval, false);
            g.persisted == g'.persisted && g.now == g'.now && LostOnlyStale(g.stamps, g'.stamps, g.now, interval)
  {
    if ops != [] {
      var op := ops[|ops| - 1];
      PruningIsInvisible(ops[..|ops| - 1], interval);
      var g, g' := Run(ops[..|ops| - 1], interval, true), Run(ops[..|ops| - 1], interval, false);
      assert LostOnlyStale(g.stamps, g'.stamps, g.now + op.elapsed, interval);
      if op.DeliverOp? {
        DeliverAgrees(g.stamps, g'.stamps, op.tokens, op.throttle, g.now + op.elapsed, interval);
      }
    }
  }

  // A remembered stamp is the time of some snapshot of its token.
  ghost predicate StampsWerePersisted(g: Gate) {
    forall token :: token in g.stamps ==>
      exists i :: 0 <= i < |g.persisted| && g.persisted[i].token == token && g.persisted[i].at == g.stamps[token]
  }

  lemma DeliveryRemembers(g: Gate, op: Op, interval: real, prunes: bool)
    requires StampsWerePersisted(g) && op.DeliverOp?
    ensures StampsWerePersisted(Apply(g, op, interval, prunes))
  {
    var g', d := Apply(g, op, interval, prunes),
      Deliver(g.stamps, op.tokens, op.throttle, g.now + op.elapsed, interval);
    DeliveriesPersistWhatIsDue(g.stamps, op.tokens, op.throttle, g.now + op.elapsed, interval);
    hide Deliver;
    forall token | token in g'.stamps
      ensures exists i :: 0 <= i < |g'.persisted| && g'.persisted[i].token == token
                          && g'.persisted[i].at == g'.stamps[token]
    {
      if Snapshot(token, g'.now, op.throttle) in d.persisted {
        var k :| 0 <= k < |d.persisted| && d.persisted[k] == Snapshot(token, g'.now, op.throttle);
        assert g'.persisted[|g.persisted| + k] == d.persisted[k];
      } else {
        var i :| 0 <= i < |g.persisted| && g.persisted[i].token == token && g.persisted[i].at == g.stamps[token];
        assert g'.persisted[i] == g.persisted[i];
      }
    }
  }

  lemma {:induction false} RunsRememberSnapshots(ops: seq<Op>, interval: real)
    ensures StampsWerePersisted(Run(ops, interval, true))
  {
    if ops != [] {
      var op := ops[|ops| - 1];
      RunsRememberSnapshots(ops[..|ops| - 1], interval);
      if op.DeliverOp? {
        DeliveryRemembers(Run(ops[..|ops| - 1], interval, true), op, interval, true);
      }
    }
  }

  // A token's last snapshot lies a full interval back, if there is one at all.
  ghost predicate IsDue(g: Gate, token: Token, now: real, interval: real) {
    forall i :: 0 <= i < |g.persisted| && g.persisted[i].token == token ==> now - g.persisted[i].at >= interval
  }

  lemma DueStampsAreOld(g: Gate, token: Token, now: real, interval: real)
    requires StampsWerePersisted(g) && IsDue(g, token, now, interval)
    ensures token in g.stamps ==> now - g.stamps[token] >= interval
  {}

  // Over any run a delivered book is persisted whenever it is not throttled, or no snapshot of its token
  // was taken within the last interval.
  lemma DueBooksArePersisted(ops: seq<Op>, op: Op, interval: real, token: Token)
    requires op.DeliverOp? && token in op.tokens
    requires op.throttle ==> IsDue(Run(ops, interval, true), token, Run(ops, interval, true).now + op.elapsed, interval)
    ensures var g := Run(ops, interval, true);
            Snapshot(token, g.now + op.elapsed, op.throttle) in Apply(g, op, interval, true).persisted[|g.persisted|..]
  {
    hide Run, Deliver, IsDue, StampsWerePersisted;
    var g := Run(ops, interval, true);
    RunsRememberSnapshots(ops, interval);
    if op.throttle {
      DueStampsAreOld(g, token, g.now + op.elapsed, interval);
    }
    var d := Deliver(g.stamps, op.tokens, op.throttle, g.now + op.elapsed, interval);
    assert Snapshot(token, g.now + op.elapsed, op.throttle) in d.persisted by {
      DeliveriesPersistWhatIsDue(g.stamps, op.tokens, op.throttle, g.now + op.elapsed, interval);
    }
    assert (g.persisted + d.persisted)[|g.persisted|..] == d.persisted;
  }

  // Right after a prune only tokens with a snapshot younger than the interval are remembered, and every such
  // stamp with them.
  lemma PrunesForgetTheOld(ops: seq<Op>, elapsed: Duration, interval: real)
    ensures var before, after := Run(ops, interval, true), Run(ops + [PruneOp(elapsed)], interval, true);
            && (forall token :: token in after.stamps ==>
                  exists i :: 0 <= i < |after.persisted| && after.persisted[i].token == token
                              && after.now - after.persisted[i].at < interval)
            && (forall token :: token in before.stamps && after.now - before.stamps[token] < interval ==>
                  token in after.stamps)
  {
    RunsRememberSnapshots(ops, interval);
    assert (ops + [PruneOp(elapsed)])[..|ops|] == ops;
  }

  // Every throttled snapshot comes at least one interval after any earlier one of its token.
  ghost predicate WellSpaced(persisted: seq<Snapshot>, interval: real) {
    forall i, j :: 0 <= i < j < |persisted| && persisted[i].token == persisted[j].token && persisted[j].throttled ==>
      persisted[j].at - persisted[i].at >= interval
  }

  // Each token's stamp is its latest snapshot.
  ghost predicate StampsAreLatest(stamps: map<Token, real>, persisted: seq<Snapshot>, now: real) {
    forall i :: 0 <= i < |persisted| ==>
      persisted[i].token in stamps && persisted[i].at <= stamps[persisted[i].token] <= now
  }

  lemma {:induction false} DeliverIsSpaced(before: seq<Snapshot>, stamps: map<Token, real>, tokens: seq<Token>,
                                           throttle: bool, now: real, interval: real)
    requires WellSpaced(before, interval) && StampsAreLatest(stamps, before, now)
    ensures var d := Deliver(stamps, tokens, throttle, now, interval);
            WellSpaced(before + d.persisted, interval) && StampsAreLatest(d.stamps, before + d.persisted, now)
  {
    if tokens != [] {
      DeliverIsSpaced(before, stamps, tokens[..|tokens| - 1], throttle, now, interval);
      var d0 := Deliver(stamps, tokens[..|tokens| - 1], throttle, now, interval);
      var d := Deliver(stamps, tokens, throttle, now, interval);
      if d != d0 {
        assert before + d.persisted == before + d0.persisted + [Snapshot(tokens[|tokens| - 1], now, throttle)];
      }
    }
  }

  lemma {:induction false} UnprunedRunsAreSpaced(ops: seq<Op>, interval: real)
    ensures var g := Run(ops, interval, false);
            WellSpaced(g.persisted, interval) && StampsAreLatest(g.stamps, g.persisted, g.now)
  {
    if ops != [] {
      var op, g := ops[|ops| - 1], Run(ops[..|ops| - 1], interval, false);
      UnprunedRunsAreSpaced(ops[..|ops| - 1], interval);
      if op.DeliverOp? {
        DeliverIsSpaced(g.persisted, g.stamps, op.tokens, op.throttle, g.now + op.elapsed, interval);
      }
    }
  }

  // A throttled refresh is never persisted within one interval of its token's last snapshot, prunes
  // included.
  lemma RefreshesAreSpaced(ops: seq<Op>, interval: real)
    ensures WellSpaced(Run(ops, interval, true).persisted, interval)
  {
    PruningIsInvisible(ops, interval);
    UnprunedRunsAreSpaced(ops, interval);
  }
}
