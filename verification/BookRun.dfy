// openpoly/markets/manager.py: sample cycles, concurrent refreshes and 404s as steps over the
// order-book cache. Each stretch of a coroutine between two awaits is one step.
module BookRun {
  import opened Common
  import opened MarketStore

  // A sample cycle in flight: when it started and the books received so far, each with its stamp.
  datatype Cycle = Idle | Sampling(start: real, received: map<Token, OrderBook>, stamps: map<Token, real>)

  // One book handed to the observer and persist hooks.
  datatype Delivery = Delivery(token: Token, stamp: real)

  datatype System = System(books: Books, cycle: Cycle, clock: real, delivered: seq<Delivery>, last404: map<Token, real>)

  function Initial(): System {
    System(Books(map[], map[]), Idle, 0.0, [], map[])
  }

  datatype Step =
    | Tick(elapsed: Duration)
    | StartCycle
    | Receive(book: OrderBook)
    | NotFound(token: Token)
    | Refresh(book: OrderBook)
    | CommitCycle(batch: seq<OrderBook>, keep: set<Token>)
    | EmptySweep(keep: set<Token>)
    | AbortCycle

  // Cycles are serial, and one cycle fetches each token once.
  predicate Enabled(s: System, step: Step) {
    match step
    case Tick(_) => true
    case StartCycle => s.cycle.Idle?
    case Receive(book) => s.cycle.Sampling? && book.token !in s.cycle.received
    case NotFound(_) => true
    case Refresh(_) => true
    case CommitCycle(batch, _) => s.cycle.Sampling? && IsBatchOf(batch, s.cycle.received)
    case EmptySweep(_) => s.cycle.Idle?
    case AbortCycle => s.cycle.Sampling?
  }

  // The gathered results, in the order the tokens were requested.
  predicate IsBatchOf(batch: seq<OrderBook>, received: map<Token, OrderBook>) {
    && (forall i :: 0 <= i < |batch| ==> batch[i].token in received && received[batch[i].token] == batch[i])
    && (forall i, j :: 0 <= i < j < |batch| ==> batch[i].token != batch[j].token)
    && Carried(batch) == received.Keys
  }

  function Deliveries(accepted: seq<OrderBook>, stamps: map<Token, real>, batchAt: real): seq<Delivery> {
    seq(|accepted|, i requires 0 <= i < |accepted| =>
        Delivery(accepted[i].token, StampOf(stamps, accepted[i].token, batchAt)))
  }

  function Next(s: System, step: Step): System
    requires Enabled(s, step)
  {
    match step
    case Tick(elapsed) => s.(clock := s.clock + elapsed)
    case StartCycle => s.(cycle := Sampling(s.clock, map[], map[]))
    case Receive(book) =>
      s.(cycle := Sampling(s.cycle.start, s.cycle.received[book.token := book], s.cycle.stamps[book.token := s.clock]))
    case NotFound(token) => s.(books := WithGone(s.books, token, s.clock), last404 := s.last404[token := s.clock])
    case Refresh(book) =>
      if Storable(s.books, book.token, s.clock)
      then s.(books := Stored(s.books, book, s.clock), delivered := s.delivered + [Delivery(book.token, s.clock)])
      else s
    case CommitCycle(batch, keep) =>
      var r := AfterBatch(s.books, batch, s.cycle.stamps, s.cycle.start, keep);
      s.(books := r.books, cycle := Idle,
         delivered := s.delivered + Deliveries(r.accepted, s.cycle.stamps, s.cycle.start))
    case EmptySweep(keep) => s.(books := AfterBatch(s.books, [], map[], s.clock, keep).books)
    case AbortCycle => s.(cycle := Idle)
  }

  ghost predicate IsRun(states: seq<System>, steps: seq<Step>) {
    && |states| == |steps| + 1 && states[0] == Initial()
    && forall i :: 0 <= i < |steps| ==> Enabled(states[i], steps[i]) && states[i + 1] == Next(states[i], steps[i])
  }

  // ---------- the guarantees ----------

  // The stamps delivered for one token never go backwards.
  ghost predicate DeliveriesOrdered(delivered: seq<Delivery>) {
    forall i, j :: 0 <= i < j < |delivered| && delivered[i].token == delivered[j].token ==>
      delivered[i].stamp <= delivered[j].stamp
  }

  // No cached book is as old as its token's latest 404, and no token is both cached and marked.
  ghost predicate NothingDeadIsCached(s: System) {
    forall token :: token in s.books.cached ==>
      && token !in s.books.gone
      && (token in s.last404 ==> s.books.cached[token].fetchedAt > s.last404[token])
  }

  // ---------- the invariant ----------

  ghost predicate StampsInThePast(s: System) {
    && (forall token :: token in s.books.cached ==> s.books.cached[token].fetchedAt <= s.clock)
    && (forall token :: token in s.last404 ==> s.last404[token] <= s.clock)
    && (forall i :: 0 <= i < |s.delivered| ==> s.delivered[i].stamp <= s.clock)
    && (s.cycle.Sampling? ==>
          && s.cycle.start <= s.clock && s.cycle.received.Keys == s.cycle.stamps.Keys
          && forall token :: token in s.cycle.stamps ==> s.cycle.start <= s.cycle.stamps[token] <= s.clock)
  }

  // A mark is the latest 404, and only a strictly newer book ever clears it.
  ghost predicate MarksAreLatest(s: System) {
    && (forall token :: token in s.books.gone ==> token in s.last404 && s.books.gone[token] == s.last404[token])
    && (forall token :: token in s.last404 && token !in s.books.gone ==> s.last404[token] < s.clock)
  }

  // Nothing newer than what is cached was ever delivered.
  ghost predicate CacheLeadsDeliveries(s: System) {
    forall i :: 0 <= i < |s.delivered| && s.delivered[i].token in s.books.cached ==>
      s.delivered[i].stamp <= s.books.cached[s.delivered[i].token].fetchedAt
  }

  // Something at least as new as `stamp` stands in a batch book's way.
  ghost predicate Blocked(s: System, token: Token, stamp: real) {
    (token in s.books.gone && stamp <= s.books.gone[token]) || NewerIsCached(s.books.cached, token, stamp)
  }

  // The batch in flight: a received book older than a later delivery or 404 can no longer be stored.
  ghost predicate InFlightIsGuarded(s: System) {
    s.cycle.Sampling? ==>
      && (forall token :: token in s.cycle.stamps && token in s.last404 && s.cycle.stamps[token] <= s.last404[token] ==>
            Blocked(s, token, s.cycle.stamps[token]))
      && (forall i :: 0 <= i < |s.delivered| && s.delivered[i].token in s.cycle.stamps
                      && s.delivered[i].stamp > s.cycle.stamps[s.delivered[i].token] ==>
            Blocked(s, s.delivered[i].token, s.cycle.stamps[s.delivered[i].token]))
  }

  ghost predicate Inv(s: System) {
    && DeliveriesOrdered(s.delivered) && NothingDeadIsCached(s)
    && StampsInThePast(s) && MarksAreLatest(s) && CacheLeadsDeliveries(s) && InFlightIsGuarded(s)
  }

  // An accepted batch book is at least as new as everything delivered for its token.
  lemma AcceptedFollowDeliveries(s: System, batch: seq<OrderBook>, keep: set<Token>)
    requires Inv(s) && s.cycle.Sampling? && IsBatchOf(batch, s.cycle.received)
    ensures var r := AfterBatch(s.books, batch, s.cycle.stamps, s.cycle.start, keep);
            var more := Deliveries(r.accepted, s.cycle.stamps, s.cycle.start);
            && DeliveriesOrdered(s.delivered + more)
            && (forall k :: 0 <= k < |more| ==> more[k].stamp <= s.clock)
            && (forall k :: 0 <= k < |more| && more[k].token in r.books.cached ==>
                more[k].stamp <= r.books.cached[more[k].token].fetchedAt)
  {
    var stamps, start := s.cycle.stamps, s.cycle.start;
    var r := AfterBatch(s.books, batch, stamps, start, keep);
    var more := Deliveries(r.accepted, stamps, start);
    BatchPerToken(s.books, batch, stamps, start, keep);
    forall k | 0 <= k < |more|
      ensures more[k].stamp <= s.clock
              && (more[k].token in r.books.cached ==> more[k].stamp <= r.books.cached[more[k].token].fetchedAt)
              && (forall i :: 0 <= i < |s.delivered| && s.delivered[i].token == more[k].token ==>
                  s.delivered[i].stamp <= more[k].stamp)
    {
      var b := r.accepted[k];
      assert b in batch;
      var i :| 0 <= i < |batch| && batch[i] == b;
      assert TokenOutcome(s.books.cached, s.books, r, batch[i], StampOf(stamps, b.token, start));
      assert b.token in Carried(batch);
    }
  }

  // What the commit leaves cached is as new as the cache before it, its deliveries and its 404s.
  lemma CommitCachesTheNewest(s: System, batch: seq<OrderBook>, keep: set<Token>, token: Token)
    requires Inv(s) && s.cycle.Sampling? && IsBatchOf(batch, s.cycle.received)
    requires token in AfterBatch(s.books, batch, s.cycle.stamps, s.cycle.start, keep).books.cached
    ensures var r := AfterBatch(s.books, batch, s.cycle.stamps, s.cycle.start, keep);
            && token !in r.books.gone && r.books.cached[token].fetchedAt <= s.clock
            && (token in s.last404 ==> r.books.cached[token].fetchedAt > s.last404[token])
            && (forall k :: 0 <= k < |s.delivered| && s.delivered[k].token == token ==>
                  s.delivered[k].stamp <= r.books.cached[token].fetchedAt)
  {
    var r := AfterBatch(s.books, batch, s.cycle.stamps, s.cycle.start, keep);
    BatchPerToken(s.books, batch, s.cycle.stamps, s.cycle.start, keep);
    if token in Carried(batch) {
      var i :| 0 <= i < |batch| && batch[i].token == token;
      assert TokenOutcome(s.books.cached, s.books, r, batch[i], StampOf(s.cycle.stamps, token, s.cycle.start));
    }
  }

  lemma CommitKeepsMarks(s: System, batch: seq<OrderBook>, keep: set<Token>)
    requires Inv(s) && s.cycle.Sampling? && IsBatchOf(batch, s.cycle.received)
    ensures MarksAreLatest(Next(s, CommitCycle(batch, keep)))
  {
    var r := AfterBatch(s.books, batch, s.cycle.stamps, s.cycle.start, keep);
    BatchPerToken(s.books, batch, s.cycle.stamps, s.cycle.start, keep);
    forall token | token in s.last404
      ensures token in r.books.gone ==> r.books.gone[token] == s.last404[token]
      ensures token !in r.books.gone ==> s.last404[token] < s.clock
    {
      if token in Carried(batch) {
        var i :| 0 <= i < |batch| && batch[i].token == token;
        assert TokenOutcome(s.books.cached, s.books, r, batch[i], StampOf(s.cycle.stamps, token, s.cycle.start));
      }
    }
    forall token | token in r.books.gone ensures token in s.last404 {
      if token in Carried(batch) {
        var i :| 0 <= i < |batch| && batch[i].token == token;
        assert TokenOutcome(s.books.cached, s.books, r, batch[i], StampOf(s.cycle.stamps, token, s.cycle.start));
      }
    }
  }

  lemma CommitKeepsInv(s: System, batch: seq<OrderBook>, keep: set<Token>)
    requires Inv(s) && s.cycle.Sampling? && IsBatchOf(batch, s.cycle.received)
    ensures Inv(Next(s, CommitCycle(batch, keep)))
  {
    var s' := Next(s, CommitCycle(batch, keep));
    AcceptedFollowDeliveries(s, batch, keep);
    CommitKeepsMarks(s, batch, keep);
    forall token | token in s'.books.cached
      ensures token !in s'.books.gone && s'.books.cached[token].fetchedAt <= s.clock
              && (token in s.last404 ==> s'.books.cached[token].fetchedAt > s.last404[token])
              && (forall k :: 0 <= k < |s.delivered| && s.delivered[k].token == token ==>
                    s.delivered[k].stamp <= s'.books.cached[token].fetchedAt)
    {
      CommitCachesTheNewest(s, batch, keep, token);
    }
    hide AfterBatch, IsBatchOf;
  }

  lemma RefreshKeepsInv(s: System, book: OrderBook)
    requires Inv(s)
    ensures Inv(Next(s, Refresh(book)))
  {}

  lemma NotFoundKeepsInv(s: System, token: Token)
    requires Inv(s)
    ensures Inv(Next(s, NotFound(token)))
  {}

  lemma ReceiveKeepsInv(s: System, book: OrderBook)
    requires Inv(s) && Enabled(s, Receive(book))
    ensures Inv(Next(s, Receive(book)))
  {}

  lemma StepKeepsInv(s: System, step: Step)
    requires Inv(s) && Enabled(s, step)
    ensures Inv(Next(s, step))
  {
    match step
    case CommitCycle(batch, keep) => CommitKeepsInv(s, batch, keep);
    case EmptySweep(keep) => BatchPerToken(s.books, [], map[], s.clock, keep);
    case Refresh(book) => RefreshKeepsInv(s, book);
    case NotFound(token) => NotFoundKeepsInv(s, token);
    case Receive(book) => ReceiveKeepsInv(s, book);
    case _ =>
  }

  // Over every run of sample cycles, concurrent refreshes and 404s: deliveries never go backwards,
  // no dead quote is cached, and no token is both cached and marked gone.
  lemma {:induction false} EveryRunIsOrdered(states: seq<System>, steps: seq<Step>, n: nat)
    requires IsRun(states, steps) && n < |states|
    ensures DeliveriesOrdered(states[n].delivered) && NothingDeadIsCached(states[n])
    ensures Inv(states[n])
  {
    if n > 0 {
      EveryRunIsOrdered(states, steps, n - 1);
      StepKeepsInv(states[n - 1], steps[n - 1]);
    }
  }

  // In every reachable state a book that may be filled against was received within the allowed age and
  // after its token's latest 404, and its token is not marked gone.
  lemma UsableBooksAreAlive(states: seq<System>, steps: seq<Step>, n: nat, token: Token, maxAge: real)
    requires IsRun(states, steps) && n < |states| && Usable(states[n].books, token, maxAge, states[n].clock)
    ensures var s := states[n];
            && token !in s.books.gone && s.clock - maxAge <= s.books.cached[token].fetchedAt <= s.clock
            && (token in s.last404 ==> s.books.cached[token].fetchedAt > s.last404[token])
  {
    EveryRunIsOrdered(states, steps, n);
  }

  // ---------- the stamps a reader sees ----------

  // Every cached book was delivered with the stamp it is cached under.
  ghost predicate CachedWereDelivered(s: System) {
    forall token :: token in s.books.cached ==> Delivery(token, s.books.cached[token].fetchedAt) in s.delivered
  }

  lemma CommitDeliversWhatItCaches(s: System, batch: seq<OrderBook>, keep: set<Token>)
    requires Inv(s) && CachedWereDelivered(s) && s.cycle.Sampling? && IsBatchOf(batch, s.cycle.received)
    ensures CachedWereDelivered(Next(s, CommitCycle(batch, keep)))
  {
    var stamps, start := s.cycle.stamps, s.cycle.start;
    var r := AfterBatch(s.books, batch, stamps, start, keep);
    BatchPerToken(s.books, batch, stamps, start, keep);
    forall token | token in r.books.cached
      ensures Delivery(token, r.books.cached[token].fetchedAt) in s.delivered + Deliveries(r.accepted, stamps, start)
    {
      if token in Carried(batch) {
        var i :| 0 <= i < |batch| && batch[i].token == token;
        assert TokenOutcome(s.books.cached, s.books, r, batch[i], StampOf(stamps, token, start));
        if batch[i] in r.accepted {
          var k :| 0 <= k < |r.accepted| && r.accepted[k] == batch[i];
          assert Deliveries(r.accepted, stamps, start)[k] == Delivery(token, StampOf(stamps, token, start));
        }
      }
    }
  }

  lemma {:induction false} RunsDeliverWhatTheyCache(states: seq<System>, steps: seq<Step>, n: nat)
    requires IsRun(states, steps) && n < |states|
    ensures CachedWereDelivered(states[n])
  {
    if n > 0 {
      var s, step := states[n - 1], steps[n - 1];
      RunsDeliverWhatTheyCache(states, steps, n - 1);
      EveryRunIsOrdered(states, steps, n - 1);
      match step
      case CommitCycle(batch, keep) => CommitDeliversWhatItCaches(s, batch, keep);
      case EmptySweep(keep) => BatchPerToken(s.books, [], map[], s.clock, keep);
      case _ =>
    }
  }

  // Whatever came before, a received book newer than every delivery and 404 of its token is the one
  // cached, and is delivered, once its refresh or its cycle commits.
  ghost predicate IsNews(s: System, token: Token, stamp: real) {
    && (forall i :: 0 <= i < |s.delivered| && s.delivered[i].token == token ==> s.delivered[i].stamp <= stamp)
    && (token in s.last404 ==> s.last404[token] < stamp)
  }

  lemma NewsIsFresh(states: seq<System>, steps: seq<Step>, n: nat, token: Token, stamp: real)
    requires IsRun(states, steps) && n < |states| && IsNews(states[n], token, stamp)
    ensures IsFresh(states[n].books, token, stamp)
  {
    EveryRunIsOrdered(states, steps, n);
    RunsDeliverWhatTheyCache(states, steps, n);
    if token in states[n].books.cached {
      var d := Delivery(token, states[n].books.cached[token].fetchedAt);
      assert d in states[n].delivered;
      var i :| 0 <= i < |states[n].delivered| && states[n].delivered[i] == d;
    }
  }

  lemma RefreshedNewsIsCached(states: seq<System>, steps: seq<Step>, n: nat, book: OrderBook)
    requires IsRun(states, steps) && n < |steps| && steps[n] == Refresh(book)
    requires IsNews(states[n], book.token, states[n].clock)
    ensures var s, s' := states[n], states[n + 1];
            && book.token in s'.books.cached && s'.books.cached[book.token] == CachedBook(book, s.clock)
            && s'.delivered == s.delivered + [Delivery(book.token, s.clock)]
  {
    NewsIsFresh(states, steps, n, book.token, states[n].clock);
  }

  // When the cycle in flight received its book of the token.
  function ReceivedAt(s: System, token: Token): real
    requires s.cycle.Sampling?
  {
    if token in s.cycle.stamps then s.cycle.stamps[token] else s.cycle.start
  }

  lemma SampledNewsIsCached(states: seq<System>, steps: seq<Step>, n: nat, batch: seq<OrderBook>, keep: set<Token>,
                            i: nat)
    requires IsRun(states, steps) && n < |steps| && steps[n] == CommitCycle(batch, keep) && i < |batch|
    requires IsNews(states[n], batch[i].token, ReceivedAt(states[n], batch[i].token))
    ensures var token, stamp, s' := batch[i].token, ReceivedAt(states[n], batch[i].token), states[n + 1];
            && token in states[n].cycle.stamps
            && token in s'.books.cached && s'.books.cached[token] == CachedBook(batch[i], stamp)
            && Delivery(token, stamp) in s'.delivered[|states[n].delivered|..]
  {
    var s, token := states[n], batch[i].token;
    EveryRunIsOrdered(states, steps, n);
    NewsIsFresh(states, steps, n, token, ReceivedAt(s, token));
    BatchStoresExactlyTheFresh(s.books, batch, s.cycle.stamps, s.cycle.start, keep);
    var r := AfterBatch(s.books, batch, s.cycle.stamps, s.cycle.start, keep);
    assert token in Carried(batch) && batch[i] in r.accepted;
    var k :| 0 <= k < |r.accepted| && r.accepted[k] == batch[i];
    assert Deliveries(r.accepted, s.cycle.stamps, s.cycle.start)[k] == Delivery(token, ReceivedAt(s, token));
    assert states[n + 1] == Next(s, steps[n]);
  }

  // A cycle that found nothing to sample drops every book but those of the tokens kept, and of these the ones
  // older than 90 seconds; nothing is delivered.
  lemma EmptySweepsKeepOnlyTheKept(states: seq<System>, steps: seq<Step>, n: nat, keep: set<Token>)
    requires IsRun(states, steps) && n < |steps| && steps[n] == EmptySweep(keep)
    ensures var s, s' := states[n], states[n + 1];
            && s'.delivered == s.delivered
            && forall token ::
                 && (token in s'.books.cached <==>
                       token in s.books.cached && s.books.cached[token].fetchedAt >= s.clock - 90.0 && token in keep)
                 && (token in s'.books.cached ==> s'.books.cached[token] == s.books.cached[token])
  {
    EveryRunIsOrdered(states, steps, n);
    BatchStoresExactlyTheFresh(states[n].books, [], map[], states[n].clock, keep);
  }

  lemma {:induction false} DeliveriesOnlyGrow(states: seq<System>, steps: seq<Step>, i: nat, j: nat)
    requires IsRun(states, steps) && i <= j < |states|
    ensures states[i].delivered <= states[j].delivered
  {
    if i < j {
      DeliveriesOnlyGrow(states, steps, i, j - 1);
    }
  }

  // Two readers of one token's cached book never see its stamp go backwards, whatever was evicted,
  // refetched or sampled in between.
  lemma CachedStampsAdvance(states: seq<System>, steps: seq<Step>, i: nat, j: nat, token: Token)
    requires IsRun(states, steps) && i <= j < |states|
    requires token in states[i].books.cached && token in states[j].books.cached
    ensures states[i].books.cached[token].fetchedAt <= states[j].books.cached[token].fetchedAt
  {
    RunsDeliverWhatTheyCache(states, steps, i);
    DeliveriesOnlyGrow(states, steps, i, j);
    EveryRunIsOrdered(states, steps, j);
    var k :| 0 <= k < |states[i].delivered|
      && states[i].delivered[k] == Delivery(token, states[i].books.cached[token].fetchedAt);
    assert states[j].delivered[k] == states[i].delivered[k];
  }
}
