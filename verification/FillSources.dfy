// openpoly/execution/live_executor.py:407-586: what each source said about how much of one order
// filled, vetted, ranked and resolved into one quantity.
module FillSources {
  import opened Common

  datatype Source = PostBody | OrderRead | Wallet

  // One call of `add`: a source's number and the strength it is offered with.
  datatype Report = Report(qty: Option<real>, source: Source, exact: bool, zeroIsReal: bool, settled: bool)

  datatype Evidence = Evidence(qty: real, source: Source, settled: bool)

  // Statuses after which nothing can rest. "MATCHED" is not one: it is reported for a partial match too.
  predicate IsDoneStatus(status: string) {
    status == "CANCELED" || status == "CANCELLED" || status == "EXPIRED" || status == "REJECTED"
  }

  // A number the order could mean, else nothing: never clamped to the size.
  function Plausible(qty: Option<real>, size: real): Option<real> {
    if qty.Some? && (qty.value < 0.0 || qty.value > size + EPS) then None else qty
  }

  // What `add` records of a report: a zero only when it means something.
  function Counted(r: Report, size: real): Option<Evidence> {
    var qty := Plausible(r.qty, size);
    if qty == None || (qty.value <= 0.0 && !r.exact && !r.zeroIsReal) then None
    else Some(Evidence(qty.value, r.source, !r.exact && r.settled))
  }

  function ReadTerminal(matched: Option<real>, status: string, size: real): bool {
    IsDoneStatus(status) || (Plausible(matched, size).Some? && matched.value >= size - EPS)
  }

  function ReadReport(matched: Option<real>, status: string, size: real, zeroIsReal: bool): Report {
    Report(Plausible(matched, size), OrderRead, ReadTerminal(matched, status, size), zeroIsReal, false)
  }

  datatype Collected = Collected(exact: Option<Evidence>, bounds: seq<Evidence>)

  function Collect(reports: seq<Report>, size: real): Collected {
    if reports == [] then Collected(None, [])
    else
      var last := reports[|reports| - 1];
      var c := Collect(reports[..|reports| - 1], size);
      match Counted(last, size)
      case None => c
      case Some(e) => if last.exact then c.(exact := Some(e)) else c.(bounds := c.bounds + [e])
  }

  // Bounds that a final count cannot take back: a cross the chain stamped, an earlier reading of the
  // same order.
  predicate Outlasts(bound: Evidence, exact: Evidence) {
    bound.settled || bound.source == exact.source
  }

  // The loop over the bounds once a final count exists.
  function AnswerAgainst(bounds: seq<Evidence>, exact: Evidence): real {
    if bounds == [] then exact.qty
    else
      var answer := AnswerAgainst(bounds[..|bounds| - 1], exact);
      var bound := bounds[|bounds| - 1];
      if bound.qty <= answer + EPS || !Outlasts(bound, exact) then answer else Max(answer, bound.qty)
  }

  function LargestBound(bounds: seq<Evidence>): real
    requires bounds != []
  {
    if |bounds| == 1 then bounds[0].qty else Max(LargestBound(bounds[..|bounds| - 1]), bounds[|bounds| - 1].qty)
  }

  function Resolved(c: Collected): Option<real> {
    if c.exact.Some? then Some(AnswerAgainst(c.bounds, c.exact.value))
    else if c.bounds != [] then Some(LargestBound(c.bounds))
    else None
  }

  function Answer(reports: seq<Report>, size: real): Option<real> {
    Resolved(Collect(reports, size))
  }

  class FillEvidence {
    const size: real
    var exact: Option<Evidence>
    var bounds: seq<Evidence>
    ghost var reports: seq<Report>

    ghost predicate Valid()
      reads this
    {
      Collected(exact, bounds) == Collect(reports, size)
    }

    constructor (size: real)
      ensures Valid() && this.size == size && reports == []
    {
      this.size := size;
      exact, bounds, reports := None, [], [];
    }

    method Add(r: Report)
      requires Valid()
      modifies this
      ensures Valid() && reports == old(reports) + [r]
    {
      var qty := Plausible(r.qty, size);
      reports := reports + [r];
      assert reports[..|reports| - 1] == old(reports);
      if qty == None || (qty.value <= 0.0 && !(r.exact || r.zeroIsReal)) {
        return;
      }
      if r.exact {
        exact := Some(Evidence(qty.value, r.source, false));
      } else {
        bounds := bounds + [Evidence(qty.value, r.source, r.settled)];
      }
    }

    method AddRead(matched: Option<real>, status: string, zeroIsReal: bool) returns (terminal: bool)
      requires Valid()
      modifies this
      ensures Valid() && reports == old(reports) + [ReadReport(matched, status, size, zeroIsReal)]
      ensures terminal == ReadTerminal(matched, status, size)
    {
      var vetted := Plausible(matched, size);
      terminal := IsDoneStatus(status) || (vetted.Some? && vetted.value >= size - EPS);
      Add(Report(vetted, OrderRead, terminal, zeroIsReal, false));
    }

    method Resolve() returns (qty: Option<real>)
      requires Valid()
      ensures qty == Answer(reports, size)
    {
      if exact.Some? {
        var answer := exact.value.qty;
        for i := 0 to |bounds|
          invariant answer == AnswerAgainst(bounds[..i], exact.value)
        {
          assert bounds[..i + 1][..i] == bounds[..i];
          if bounds[i].qty <= answer + EPS {
            continue;
          }
          if bounds[i].settled || bounds[i].source == exact.value.source {
            answer := Max(answer, bounds[i].qty);
          }
        }
        assert bounds[..|bounds|] == bounds;
        return Some(answer);
      }
      if bounds != [] {
        var largest := bounds[0].qty;
        for i := 1 to |bounds|
          invariant largest == LargestBound(bounds[..i])
        {
          assert bounds[..i + 1][..i] == bounds[..i];
          largest := Max(largest, bounds[i].qty);
        }
        assert bounds[..|bounds|] == bounds;
        return Some(largest);
      }
      return None;
    }
  }

  // ---------- what was collected ----------

  // The bounds are the recorded reports that are not exact, and the exact count is one of the others.
  lemma {:induction false} CollectHoldsTheReports(reports: seq<Report>, size: real)
    ensures var c := Collect(reports, size);
            && (forall r :: r in reports && !r.exact && Counted(r, size).Some? ==> Counted(r, size).value in c.bounds)
            && (forall e :: e in c.bounds ==> exists r :: r in reports && !r.exact && Counted(r, size) == Some(e))
            && (c.exact.Some? ==> exists r :: r in reports && r.exact && Counted(r, size) == c.exact)
            && ((exists r :: r in reports && r.exact && Counted(r, size).Some?) ==> c.exact.Some?)
  {
    if reports != [] {
      var last := reports[|reports| - 1];
      CollectHoldsTheReports(reports[..|reports| - 1], size);
      assert forall r :: r in reports <==> r in reports[..|reports| - 1] || r == last;
    }
  }

  // ---------- the answer among the evidence ----------

  // With a final count: the answer is that count or an outlasting bound, at least the count, and
  // within the tolerance of every outlasting bound.
  lemma {:induction false} AnswerAgainstIsNearTheTop(bounds: seq<Evidence>, exact: Evidence)
    ensures var answer := AnswerAgainst(bounds, exact);
            && exact.qty <= answer
            && (forall b :: b in bounds && Outlasts(b, exact) ==> b.qty - EPS <= answer)
            && (answer == exact.qty || exists b :: b in bounds && Outlasts(b, exact) && b.qty == answer)
  {
    if bounds != [] {
      var last := bounds[|bounds| - 1];
      AnswerAgainstIsNearTheTop(bounds[..|bounds| - 1], exact);
      assert forall b :: b in bounds <==> b in bounds[..|bounds| - 1] || b == last;
    }
  }

  lemma {:induction false} LargestBoundIsLargest(bounds: seq<Evidence>)
    requires bounds != []
    ensures forall b :: b in bounds ==> b.qty <= LargestBound(bounds)
    ensures exists b :: b in bounds && b.qty == LargestBound(bounds)
  {
    if |bounds| > 1 {
      var last := bounds[|bounds| - 1];
      LargestBoundIsLargest(bounds[..|bounds| - 1]);
      assert forall b :: b in bounds <==> b in bounds[..|bounds| - 1] || b == last;
    } else {
      assert bounds[0] in bounds;
    }
  }

  // Whether a recorded report stands against the final count, if there is one.
  ghost predicate Stands(e: Evidence, c: Collected) {
    c.exact == None || e == c.exact.value || Outlasts(e, c.exact.value)
  }

  ghost predicate Reported(e: Evidence, reports: seq<Report>, size: real) {
    exists r :: r in reports && Counted(r, size) == Some(e)
  }

  // The resolved quantity is the number of some recorded report that stands, and no standing bound,
  // nor the final count, exceeds it by more than the tolerance.
  lemma AnswerIsBestEvidence(reports: seq<Report>, size: real)
    ensures var c, answer := Collect(reports, size), Answer(reports, size);
            && (answer == None <==> forall r :: r in reports ==> Counted(r, size) == None)
            && (answer.Some? ==>
                  && (exists e :: Reported(e, reports, size) && Stands(e, c) && e.qty == answer.value)
                  && (forall b :: b in c.bounds && Stands(b, c) ==> b.qty - EPS <= answer.value)
                  && (c.exact.Some? ==> c.exact.value.qty <= answer.value))
  {
    var c := Collect(reports, size);
    CollectHoldsTheReports(reports, size);
    if c.exact.Some? {
      AnswerAgainstIsNearTheTop(c.bounds, c.exact.value);
      assert Reported(c.exact.value, reports, size);
    } else if c.bounds != [] {
      LargestBoundIsLargest(c.bounds);
    }
    assert forall e :: e in c.bounds ==> Reported(e, reports, size);
  }

  // What it takes for a number to count: it lies in the order's range, and a zero is a final count or
  // known to be real.
  lemma CountsExactly(r: Report, size: real)
    ensures Counted(r, size).Some? <==>
              r.qty.Some? && 0.0 <= r.qty.value <= size + EPS && (r.qty.value > 0.0 || r.exact || r.zeroIsReal)
    ensures Counted(r, size).Some? ==> Counted(r, size).value == Evidence(r.qty.value, r.source, !r.exact && r.settled)
  {}

  // Without a final count the answer is the largest number in range; with one it is that count, unless
  // a cross the chain stamped or another read of the order stands above it.
  lemma AnswerIsTheLargestThatMayStand(reports: seq<Report>, size: real)
    ensures (forall r :: r in reports ==> !r.exact) ==>
              && (forall r :: r in reports && r.qty.Some? && 0.0 < r.qty.value <= size + EPS ==>
                    Answer(reports, size).Some? && r.qty.value <= Answer(reports, size).value)
              && (Answer(reports, size).Some? ==> exists r :: r in reports && r.qty == Answer(reports, size))
    ensures Collect(reports, size).exact.Some? ==>
              var final := Collect(reports, size).exact.value;
              && Answer(reports, size).Some? && Answer(reports, size).value >= final.qty
              && (Answer(reports, size).value > final.qty ==>
                    exists r :: r in reports && !r.exact && r.qty == Answer(reports, size)
                                && (r.settled || r.source == final.source))
  {
    hide Resolved, Counted;
    var c := Collect(reports, size);
    CollectHoldsTheReports(reports, size);
    forall r | r in reports
      ensures Counted(r, size).Some? <==>
                r.qty.Some? && 0.0 <= r.qty.value <= size + EPS && (r.qty.value > 0.0 || r.exact || r.zeroIsReal)
      ensures Counted(r, size).Some? ==>
                  Counted(r, size).value == Evidence(r.qty.value, r.source, !r.exact && r.settled)
    {
      CountsExactly(r, size);
    }
    ResolvedFrom(c);
    if c.exact.Some? {
      AnswerAgainstIsNearTheTop(c.bounds, c.exact.value);
    } else if c.bounds != [] {
      LargestBoundIsLargest(c.bounds);
    }
  }

  lemma ResolvedFrom(c: Collected)
    ensures c.exact.Some? ==> Resolved(c) == Some(AnswerAgainst(c.bounds, c.exact.value))
    ensures c.exact == None && c.bounds != [] ==> Resolved(c) == Some(LargestBound(c.bounds))
    ensures c.exact == None && c.bounds == [] ==> Resolved(c) == None
  {}

  // Every answer is a quantity the order could have filled.
  lemma AnswerIsPlausible(reports: seq<Report>, size: real)
    requires Answer(reports, size).Some?
    ensures 0.0 <= Answer(reports, size).value <= size + EPS
  {
    AnswerIsBestEvidence(reports, size);
  }

  // If every recorded number is a lower bound on the final matched size, so is the answer; and once a
  // terminal read reported that size, the answer is that size.
  lemma SoundEvidenceNeverOverstates(reports: seq<Report>, size: real, final: real)
    requires forall r :: r in reports && Counted(r, size).Some? ==> Counted(r, size).value.qty <= final
    ensures Answer(reports, size).Some? ==> Answer(reports, size).value <= final
    ensures Collect(reports, size).exact.Some? && Collect(reports, size).exact.value.qty == final ==>
              Answer(reports, size) == Some(final)
  {
    AnswerIsBestEvidence(reports, size);
  }

  // The settle records at most one final count.
  ghost predicate OneExact(reports: seq<Report>, size: real) {
    forall i, j :: 0 <= i < j < |reports| && reports[i].exact && reports[j].exact ==>
      Counted(reports[i], size) == None || Counted(reports[j], size) == None
  }

  // The order in which the sources spoke moves the answer by at most the tolerance, and not at all
  // without a final count.
  lemma ArrivalOrderHardlyMatters(reports: seq<Report>, reports': seq<Report>, size: real)
    requires multiset(reports) == multiset(reports') && OneExact(reports, size)
    ensures var a, a' := Answer(reports, size), Answer(reports', size);
            && (a.Some? <==> a'.Some?)
            && (a.Some? ==> -EPS <= a.value - a'.value <= EPS)
            && (a.Some? && Collect(reports, size).exact == None ==> a == a')
  {
    hide Collect, Resolved;
    assert forall r :: r in reports <==> r in multiset(reports);
    assert forall r :: r in reports' <==> r in multiset(reports');
    var c, c' := Collect(reports, size), Collect(reports', size);
    SameExact(reports, reports', size);
    SameBounds(reports, reports', size);
    AnswerWithin(c, c');
    SameBounds(reports', reports, size);
    AnswerWithin(c', c);
  }

  lemma SameBounds(reports: seq<Report>, reports': seq<Report>, size: real)
    requires forall r :: r in reports ==> r in reports'
    ensures forall e :: e in Collect(reports, size).bounds ==> e in Collect(reports', size).bounds
  {
    CollectHoldsTheReports(reports, size);
    CollectHoldsTheReports(reports', size);
  }

  lemma SameExact(reports: seq<Report>, reports': seq<Report>, size: real)
    requires forall r :: r in reports <==> r in reports'
    requires OneExact(reports, size)
    ensures Collect(reports, size).exact == Collect(reports', size).exact
  {
    var c, c' := Collect(reports, size), Collect(reports', size);
    CollectHoldsTheReports(reports, size);
    CollectHoldsTheReports(reports', size);
    if c.exact.Some? {
      var r :| r in reports && r.exact && Counted(r, size) == c.exact;
      var r' :| r' in reports' && r'.exact && Counted(r', size) == c'.exact;
      var i :| 0 <= i < |reports| && reports[i] == r;
      var j :| 0 <= j < |reports| && reports[j] == r';
      assert i == j;
    }
  }

  lemma AnswerWithin(c: Collected, c': Collected)
    requires c.exact == c'.exact && forall e :: e in c.bounds ==> e in c'.bounds
    ensures Resolved(c).Some? ==> Resolved(c').Some?
    ensures Resolved(c).Some? ==> Resolved(c).value <= Resolved(c').value + (if c.exact.Some? then EPS else 0.0)
  {
    if c.exact.Some? {
      AnswerAgainstIsNearTheTop(c.bounds, c.exact.value);
      AnswerAgainstIsNearTheTop(c'.bounds, c.exact.value);
    } else if c.bounds != [] {
      assert c.bounds[0] in c'.bounds;
      LargestBoundIsLargest(c.bounds);
      LargestBoundIsLargest(c'.bounds);
    }
  }
}
