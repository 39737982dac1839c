// openpoly/markets/store.py: the order-book cache with newest-wins batches, on-demand refreshes,
// 404 marks and the keep-set.
module MarketStore {
  import opened Common
  import opened Pricing

  const KEPT_BOOK_MAX_AGE_SECONDS: real := 90.0

  type Token = string

  datatype OrderBook = OrderBook(token: Token, bids: seq<Level>, asks: seq<Level>)

  // A book with the clock reading at which its fetch completed.
  datatype CachedBook = CachedBook(book: OrderBook, fetchedAt: real)

  type Cache = map<Token, CachedBook>

  // The cache, and the tokens whose last answer was a 404 with the time of the latest one.
  datatype Books = Books(cached: Cache, gone: map<Token, real>)

  predicate PredatesGoneMark(gone: map<Token, real>, token: Token, receivedAt: real) {
    token in gone && receivedAt <= gone[token]
  }

  predicate NewerIsCached(cached: Cache, token: Token, at: real) {
    token in cached && cached[token].fetchedAt > at
  }

  // ---------- one operation on the cache ----------

  // A refresh of one token: stored unless something newer, or a 404 at least as new, is known.
  predicate Storable(s: Books, token: Token, at: real) {
    !NewerIsCached(s.cached, token, at) && !PredatesGoneMark(s.gone, token, at)
  }

  function Stored(s: Books, book: OrderBook, at: real): Books {
    Books(s.cached[book.token := CachedBook(book, at)], s.gone - {book.token})
  }

  function WithGone(s: Books, token: Token, at: real): Books {
    Books(s.cached - {token}, s.gone[token := at])
  }

  // Whether a cached book outlives a batch that does not carry its token.
  predicate Survives(prev: CachedBook, batchAt: real, kept: bool) {
    prev.fetchedAt > batchAt || (kept && batchAt - prev.fetchedAt <= KEPT_BOOK_MAX_AGE_SECONDS)
  }

  function Carried(batch: seq<OrderBook>): set<Token> {
    set i | 0 <= i < |batch| :: batch[i].token
  }

  function Survivors(cached: Cache, carried: set<Token>, batchAt: real, keep: set<Token>): Cache {
    map token | token in cached && token !in carried && Survives(cached[token], batchAt, token in keep) :: cached[token]
  }

  function StampOf(stamps: map<Token, real>, token: Token, batchAt: real): real {
    if token in stamps then stamps[token] else batchAt
  }

  datatype BatchResult = BatchResult(books: Books, accepted: seq<OrderBook>)

  // The batch book by book: `prev` is the cache the batch arrived at, `start` what is built on.
  function Batched(prev: Cache, start: Books, batch: seq<OrderBook>, stamps: map<Token, real>,
                   batchAt: real): BatchResult {
    if batch == [] then BatchResult(start, [])
    else
      var b := batch[|batch| - 1];
      var r := Batched(prev, start, batch[..|batch| - 1], stamps, batchAt);
      var at := StampOf(stamps, b.token, batchAt);
      if PredatesGoneMark(r.books.gone, b.token, at) then r
      else if NewerIsCached(prev, b.token, at) then
        r.(books := r.books.(cached := r.books.cached[b.token := prev[b.token]]))
      else BatchResult(Stored(r.books, b, at), r.accepted + [b])
  }

  function AfterBatch(s: Books, batch: seq<OrderBook>, stamps: map<Token, real>, batchAt: real,
                      keep: set<Token>): BatchResult {
    Batched(s.cached, Books(Survivors(s.cached, Carried(batch), batchAt, keep), s.gone), batch, stamps, batchAt)
  }

  // Present and young enough to fill against.
  predicate Usable(s: Books, token: Token, maxAge: real, now: real) {
    token in s.cached && now - s.cached[token].fetchedAt <= maxAge
  }

  class MarketStore {
    var cached: Cache
    var gone: map<Token, real>

    ghost function View(): Books
      reads this
    {
      Books(cached, gone)
    }

    constructor ()
      ensures View() == Books(map[], map[])
    {
      cached, gone := map[], map[];
    }

    method SetOrderBooks(batch: seq<OrderBook>, batchAt: real, stamps: map<Token, real>, keep: set<Token>)
      returns (accepted: seq<OrderBook>)
      modifies this
      ensures BatchResult(View(), accepted) == AfterBatch(old(View()), batch, stamps, batchAt, keep)
    {
      var prev := cached;
      var carried := set i | 0 <= i < |batch| :: batch[i].token;
      var building := map token | token in prev && token !in carried && Survives(prev[token], batchAt, token in keep) ::
        prev[token];
      ghost var start := Books(building, gone);
      accepted := [];
      for i := 0 to |batch|
        invariant BatchResult(Books(building, gone), accepted) == Batched(prev, start, batch[..i], stamps, batchAt)
      {
        assert batch[..i + 1][..i] == batch[..i];
        var b := batch[i];
        var at := if b.token in stamps then stamps[b.token] else batchAt;
        if !PredatesGoneMark(gone, b.token, at) {
          if NewerIsCached(prev, b.token, at) {
            building := building[b.token := prev[b.token]];
          } else {
            building := building[b.token := CachedBook(b, at)];
            accepted := accepted + [b];
            gone := gone - {b.token};
          }
        }
      }
      assert batch[..|batch|] == batch;
      cached := building;
    }

    method PutOrderBook(book: OrderBook, at: real) returns (stored: bool)
      modifies this
      ensures stored == Storable(old(View()), book.token, at)
      ensures stored <==>
              && (book.token !in old(cached) || old(cached)[book.token].fetchedAt <= at)
              && (book.token !in old(gone) || old(gone)[book.token] < at)
      ensures stored ==> cached == old(cached)[book.token := CachedBook(book, at)] && gone == old(gone) - {book.token}
      ensures View() == if stored then Stored(old(View()), book, at) else old(View())
    {
      if book.token in cached && cached[book.token].fetchedAt > at {
        return false;
      }
      if PredatesGoneMark(gone, book.token, at) {
        return false;
      }
      cached := cached[book.token := CachedBook(book, at)];
      gone := gone - {book.token};
      return true;
    }

    method MarkBookGone(token: Token, at: real)
      modifies this
      ensures View() == WithGone(old(View()), token, at)
    {
      cached := cached - {token};
      gone := gone[token := at];
    }

    // Nothing asks the marks: a marked token has no cached book (BookRun.UsableBooksAreAlive).
    method IsOrderBookUsable(token: Token, maxAge: real, now: real) returns (usable: bool)
      ensures usable <==> token in cached && now - cached[token].fetchedAt <= maxAge
      ensures usable <==> Usable(View(), token, maxAge, now)
    {
      return token in cached && now - cached[token].fetchedAt <= maxAge;
    }
  }

  // ---------- what a batch does to one token ----------

  ghost predicate DistinctTokens(batch: seq<OrderBook>) {
    forall i, j :: 0 <= i < j < |batch| ==> batch[i].token != batch[j].token
  }

  // A token the batch does not carry keeps its mark, and its book only if that survives.
  lemma {:induction false} TokenNotInBatch(prev: Cache, start: Books, batch: seq<OrderBook>, stamps: map<Token, real>,
                                           batchAt: real, token: Token)
    requires token !in Carried(batch)
    ensures var r := Batched(prev, start, batch, stamps, batchAt);
            && (token in r.books.cached <==> token in start.cached)
            && (token in start.cached ==> r.books.cached[token] == start.cached[token])
            && (token in r.books.gone <==> token in start.gone)
            && (token in start.gone ==> r.books.gone[token] == start.gone[token])
    ensures forall k :: 0 <= k < |Batched(prev, start, batch, stamps, batchAt).accepted| ==>
              Batched(prev, start, batch, stamps, batchAt).accepted[k].token != token
  {
    if batch != [] {
      var n := |batch| - 1;
      assert batch[n].token in Carried(batch);
      assert Carried(batch[..n]) <= Carried(batch);
      TokenNotInBatch(prev, start, batch[..n], stamps, batchAt, token);
    }
  }

  // The three outcomes of a batch book: refused by a 404 at least as new, superseded by a newer
  // cached book, or stored and accepted.
  ghost predicate TokenOutcome(prev: Cache, start: Books, r: BatchResult, b: OrderBook, at: real) {
    if PredatesGoneMark(start.gone, b.token, at) then
      && b.token !in r.books.cached && b.token in r.books.gone && r.books.gone[b.token] == start.gone[b.token]
      && b !in r.accepted
    else if NewerIsCached(prev, b.token, at) then
      && b.token in r.books.cached && r.books.cached[b.token] == prev[b.token] && b !in r.accepted
      && (b.token in r.books.gone <==> b.token in start.gone)
      && (b.token in start.gone ==> r.books.gone[b.token] == start.gone[b.token])
    else
      && b.token in r.books.cached && r.books.cached[b.token] == CachedBook(b, at) && b in r.accepted
      && b.token !in r.books.gone
  }

  lemma {:induction false} TokenInBatch(prev: Cache, start: Books, batch: seq<OrderBook>, stamps: map<Token, real>,
                                        batchAt: real, i: nat)
    requires DistinctTokens(batch) && i < |batch| && Carried(batch) !! start.cached.Keys
    ensures TokenOutcome(prev, start, Batched(prev, start, batch, stamps, batchAt), batch[i],
                         StampOf(stamps, batch[i].token, batchAt))
  {
    var n := |batch| - 1;
    assert Carried(batch[..n]) <= Carried(batch);
    assert batch[i].token in Carried(batch);
    if i < n {
      TokenInBatch(prev, start, batch[..n], stamps, batchAt, i);
      assert batch[n].token != batch[i].token;
    } else {
      TokenNotInBatch(prev, start, batch[..n], stamps, batchAt, batch[n].token);
    }
  }

  // A batch accepts only its own books, in order.
  lemma {:induction false} AcceptedIsFromBatch(prev: Cache, start: Books, batch: seq<OrderBook>,
                                               stamps: map<Token, real>, batchAt: real)
    ensures forall b :: b in Batched(prev, start, batch, stamps, batchAt).accepted ==> b in batch
    ensures DistinctTokens(batch) ==> DistinctTokens(Batched(prev, start, batch, stamps, batchAt).accepted)
  {
    if batch != [] {
      var n := |batch| - 1;
      AcceptedIsFromBatch(prev, start, batch[..n], stamps, batchAt);
      assert forall b :: b in batch[..n] ==> b in batch;
      if DistinctTokens(batch) {
        var accepted := Batched(prev, start, batch[..n], stamps, batchAt).accepted;
        forall k | 0 <= k < |accepted| ensures accepted[k].token != batch[n].token {
          assert accepted[k] in batch[..n];
        }
      }
    }
  }

  // Whole batch, one token at a time: the exact cache, marks and deliveries it leaves.
  lemma BatchPerToken(s: Books, batch: seq<OrderBook>, stamps: map<Token, real>, batchAt: real, keep: set<Token>)
    requires DistinctTokens(batch)
    ensures var r := AfterBatch(s, batch, stamps, batchAt, keep);
            && (forall i :: 0 <= i < |batch| ==>
                TokenOutcome(s.cached, s, r, batch[i], StampOf(stamps, batch[i].token, batchAt)))
            && (forall token :: token !in Carried(batch) ==>
                  && (token in r.books.cached <==>
                      token in s.cached && Survives(s.cached[token], batchAt, token in keep))
                  && (token in r.books.cached ==> r.books.cached[token] == s.cached[token])
                  && (token in r.books.gone <==> token in s.gone)
                  && (token in s.gone ==> r.books.gone[token] == s.gone[token]))
            && (forall b :: b in r.accepted ==> b in batch)
            && DistinctTokens(r.accepted)
  {
    var start := Books(Survivors(s.cached, Carried(batch), batchAt, keep), s.gone);
    AcceptedIsFromBatch(s.cached, start, batch, stamps, batchAt);
    forall i | 0 <= i < |batch|
      ensures TokenOutcome(s.cached, s, AfterBatch(s, batch, stamps, batchAt, keep), batch[i],
                           StampOf(stamps, batch[i].token, batchAt))
    {
      TokenInBatch(s.cached, start, batch, stamps, batchAt, i);
    }
    forall token | token !in Carried(batch)
      ensures var r := AfterBatch(s, batch, stamps, batchAt, keep);
              && (token in r.books.cached <==> token in start.cached)
              && (token in r.books.cached ==> r.books.cached[token] == s.cached[token])
              && (token in r.books.gone <==> token in s.gone)
              && (token in s.gone ==> r.books.gone[token] == s.gone[token])
    {
      TokenNotInBatch(s.cached, start, batch, stamps, batchAt, token);
    }
  }

  // A received book is fresh when nothing strictly newer is cached and its token's mark, if any, is older.
  ghost predicate IsFresh(s: Books, token: Token, at: real) {
    && (token !in s.cached || s.cached[token].fetchedAt <= at)
    && (token !in s.gone || s.gone[token] < at)
  }

  // The whole effect of a batch, by stamps alone: a book it carries is stored and accepted exactly when it
  // is fresh; a stale one gives way to the mark or to the newer cached book; and a token it does not carry
  // keeps its book exactly when that is newer than the batch, or kept and at most 90 seconds older.
  lemma BatchStoresExactlyTheFresh(s: Books, batch: seq<OrderBook>, stamps: map<Token, real>, batchAt: real,
                                   keep: set<Token>)
    requires DistinctTokens(batch)
    ensures var r := AfterBatch(s, batch, stamps, batchAt, keep);
            && (forall i :: 0 <= i < |batch| ==>
                  var b, token := batch[i], batch[i].token;
                  var at := if token in stamps then stamps[token] else batchAt;
                  && (b in r.accepted <==> IsFresh(s, token, at))
                  && (IsFresh(s, token, at) ==>
                        token in r.books.cached && r.books.cached[token] == CachedBook(b, at) && token !in r.books.gone)
                  && (token in s.gone && at <= s.gone[token] ==> token !in r.books.cached && token in r.books.gone)
                  && (token in s.cached && s.cached[token].fetchedAt > at
                      && !(token in s.gone && at <= s.gone[token]) ==>
                        token in r.books.cached && r.books.cached[token] == s.cached[token]))
            && (forall token :: (forall i :: 0 <= i < |batch| ==> batch[i].token != token) ==>
                  && (token in r.books.cached <==>
                        token in s.cached
                        && (s.cached[token].fetchedAt > batchAt
                            || (token in keep && batchAt - s.cached[token].fetchedAt <= 90.0)))
                  && (token in r.books.cached ==> r.books.cached[token] == s.cached[token]))
  {
    var r := AfterBatch(s, batch, stamps, batchAt, keep);
    BatchPerToken(s, batch, stamps, batchAt, keep);
    hide AfterBatch, DistinctTokens;
    forall i | 0 <= i < |batch|
      ensures var at := if batch[i].token in stamps then stamps[batch[i].token] else batchAt;
              TokenOutcome(s.cached, s, r, batch[i], at)
    {
      assert TokenOutcome(s.cached, s, r, batch[i], StampOf(stamps, batch[i].token, batchAt));
    }
  }

  // A refresh that lands while a sample cycle is in flight is still there, or replaced by something
  // at least as new, after that cycle commits: no decision loses its book between refresh and fill.
  lemma RefreshOutlivesTheCycle(s: Books, batch: seq<OrderBook>, stamps: map<Token, real>, batchAt: real,
                                keep: set<Token>, token: Token)
    requires DistinctTokens(batch) && token in s.cached && s.cached[token].fetchedAt > batchAt && token !in s.gone
    ensures var r := AfterBatch(s, batch, stamps, batchAt, keep);
            token in r.books.cached && r.books.cached[token].fetchedAt >= s.cached[token].fetchedAt
  {
    BatchPerToken(s, batch, stamps, batchAt, keep);
    if token in Carried(batch) {
      var i :| 0 <= i < |batch| && batch[i].token == token;
      assert TokenOutcome(s.cached, s, AfterBatch(s, batch, stamps, batchAt, keep), batch[i],
                          StampOf(stamps, token, batchAt));
    }
  }
}
