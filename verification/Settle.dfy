// openpoly/execution/live_executor.py:633-908: cancelling what did not fill and establishing how
// much did, against a venue that answers every request as it likes.
module Settle {
  import opened Common
  import opened FillSources

  const SETTLE_ATTEMPTS: nat := 16
  const SETTLE_SLEEP: real := 0.5
  const SETTLE_DEADLINE_S: real := 8.0

  // ---------- what the venue can answer ----------

  // One amount field as it comes off the wire.
  datatype RawAmount = Absent | Blank | Number(value: real) | NotFinite | Garbage

  // An absent or blank amount is a clean zero; anything unparseable is unknown.
  function ParseAmount(raw: RawAmount): Option<real> {
    match raw
    case Absent => Some(0.0)
    case Blank => Some(0.0)
    case Number(value) => Some(value)
    case NotFinite => None
    case Garbage => None
  }

  // One id field: a string, a whole number, or a shape no cancel payload can carry.
  datatype RawId = Text(text: string) | Whole(number: int) | OtherShape(truthy: bool)

  function Digits(n: nat): string {
    if n < 10 then ['0' + n as char] else Digits(n / 10) + ['0' + (n % 10) as char]
  }

  function ParseOrderId(raw: RawId): Option<string> {
    match raw
    case Text(text) => if text == "" then None else Some(text)
    case Whole(n) => if n == 0 then None else if n > 0 then Some(Digits(n)) else Some("-" + Digits(-n))
    case OtherShape(_) => None
  }

  datatype Refusals = NoRefusals | Reasons(reasons: seq<(RawId, string)>) | MalformedRefusals(typeName: string)

  datatype CancelAnswer =
    | CancelRaised(typeName: string, message: string)
    | CancelNotADict(typeName: string)
    | CancelBody(canceled: Option<seq<RawId>>, notCanceled: Refusals)

  predicate Acknowledged(answer: CancelAnswer, id: string) {
    && answer.CancelBody? && answer.canceled.Some?
    && exists i :: 0 <= i < |answer.canceled.value| && ParseOrderId(answer.canceled.value[i]) == Some(id)
  }

  // `dict.get` on the normalised reasons: the last entry for the id, or the default.
  function ReasonFor(reasons: seq<(RawId, string)>, id: string): string {
    if reasons == [] then "refused without a reason"
    else if ParseOrderId(reasons[|reasons| - 1].0) == Some(id) then reasons[|reasons| - 1].1
    else ReasonFor(reasons[..|reasons| - 1], id)
  }

  function RefusalReason(answer: CancelAnswer, id: string): string {
    match answer
    case CancelRaised(typeName, message) => typeName + ": " + message
    case CancelNotADict(typeName) => "unexpected response " + typeName
    case CancelBody(_, notCanceled) =>
      match notCanceled
      case NoRefusals => "refused without a reason"
      case Reasons(reasons) => ReasonFor(reasons, id)
      case MalformedRefusals(typeName) => "unexpected cancel body shape (" + typeName + ")"
  }

  // GET /data/order: the call fails, or answers with a size field and an upper-cased status.
  datatype ReadAnswer = ReadFailed | OrderDoc(sizeMatched: RawAmount, status: string)

  datatype OrderState = OrderState(matched: Option<real>, status: string)

  // `_read_order`: here an absent or blank size is unknown, not zero.
  function ReadOrder(answer: ReadAnswer): Option<OrderState> {
    match answer
    case ReadFailed => None
    case OrderDoc(size, status) =>
      if size.Absent? || size.Blank? then Some(OrderState(None, status))
        else Some(OrderState(ParseAmount(size), status))
  }

  predicate IsTerminal(answer: ReadAnswer, size: real) {
    var state := ReadOrder(answer);
    state.Some? && ReadTerminal(state.value.matched, state.value.status, size)
  }

  // A usable read that counted nought.
  predicate CountsZero(answer: ReadAnswer) {
    answer.OrderDoc? && answer.sizeMatched == Number(0.0)
  }

  // The wallet: the confirmation fails, is not a number, or reports what moved.
  datatype WalletAnswer = WalletFailed | WalletNotFinite | Moved(qty: real)

  function WalletDelta(answer: WalletAnswer, size: real): Option<real> {
    if !answer.Moved? || answer.qty < 0.0 then None else Some(Min(answer.qty, size))
  }

  datatype Attempt = Attempt(cancel: CancelAnswer, cancelTook: Duration, read: ReadAnswer, readTook: Duration)

  // A script of answers: whatever the venue says to each cancel and each read, and how long it takes.
  datatype Venue = Venue(attempts: nat -> Attempt, finalRead: ReadAnswer, wallet: WalletAnswer)

  // ---------- the cancel loop ----------

  // How the loop ended: the last refusal unless the order is off the book, whether a read showed it
  // terminal, what was recorded, and when each attempt started.
  datatype CancelOutcome = CancelOutcome(refusal: Option<string>, terminal: bool, reports: seq<Report>,
                                         starts: seq<real>)

  function ReportsOf(answer: ReadAnswer, size: real): seq<Report> {
    var state := ReadOrder(answer);
    if state == None then [] else [ReadReport(state.value.matched, state.value.status, size, false)]
  }

  function CancelLoop(venue: Venue, id: string, size: real, elapsed: real, reports: seq<Report>,
                      starts: seq<real>): (o: CancelOutcome)
    requires |starts| < SETTLE_ATTEMPTS
    ensures |starts| < |o.starts| <= SETTLE_ATTEMPTS
    decreases SETTLE_ATTEMPTS - |starts|
  {
    var a := venue.attempts(|starts|);
    var starts' := starts + [elapsed];
    if Acknowledged(a.cancel, id) then CancelOutcome(None, false, reports, starts')
    else
      var reports' := reports + ReportsOf(a.read, size);
      var left := SETTLE_DEADLINE_S - (elapsed + a.cancelTook + a.readTook);
      if IsTerminal(a.read, size) then CancelOutcome(None, true, reports', starts')
      else if left <= 0.0 || |starts'| >= SETTLE_ATTEMPTS then
        CancelOutcome(Some(RefusalReason(a.cancel, id)), false, reports', starts')
      else CancelLoop(venue, id, size, elapsed + a.cancelTook + a.readTook + Min(SETTLE_SLEEP, left), reports', starts')
  }

  method CancelWithRetry(venue: Venue, id: string, evidence: FillEvidence)
    returns (refusal: Option<string>, terminal: bool, ghost starts: seq<real>)
    requires evidence.Valid()
    modifies evidence
    ensures evidence.Valid()
    ensures CancelOutcome(refusal, terminal, evidence.reports, starts) ==
            CancelLoop(venue, id, evidence.size, 0.0, old(evidence.reports), [])
    ensures terminal ==> refusal == None
  {
    hide Collect, Acknowledged, RefusalReason, ReadTerminal;
    var elapsed := 0.0;
    var attempt := 0;
    refusal, terminal, starts := Some("cancel never attempted"), false, [];
    while attempt < SETTLE_ATTEMPTS
      invariant evidence.Valid() && |starts| == attempt && !terminal
      invariant attempt < SETTLE_ATTEMPTS
      invariant CancelLoop(venue, id, evidence.size, 0.0, old(evidence.reports), []) ==
                CancelLoop(venue, id, evidence.size, elapsed, evidence.reports, starts)
      decreases SETTLE_ATTEMPTS - attempt
    {
      var a := venue.attempts(attempt);
      ghost var before := evidence.reports;
      starts := starts + [elapsed];
      if Acknowledged(a.cancel, id) {
        return None, false, starts;
      }
      refusal := Some(RefusalReason(a.cancel, id));
      var state := ReadOrder(a.read);
      if state.Some? {
        var done := evidence.AddRead(state.value.matched, state.value.status, false);
        if done {
          return None, true, starts;
        }
      }
      assert evidence.reports == before + ReportsOf(a.read, evidence.size);
      elapsed := elapsed + a.cancelTook + a.readTook;
      var left := SETTLE_DEADLINE_S - elapsed;
      if left <= 0.0 || attempt >= SETTLE_ATTEMPTS - 1 {
        return refusal, false, starts;
      }
      elapsed := elapsed + Min(SETTLE_SLEEP, left);
      attempt := attempt + 1;
    }
  }

  // ---------- the settle ----------

  datatype Settled = Settled(qty: Option<real>, rests: bool)

  // The POST body's cross, as the first evidence.
  function CrossReport(reported: real, crossSettled: bool): Report {
    Report(Some(reported), PostBody, false, false, crossSettled)
  }

  function WalletReport(venue: Venue, size: real): Report {
    Report(WalletDelta(venue.wallet, size), Wallet, false, false, false)
  }

  // What the settle knew when it came to resolve: the cancel loop, then one more read unless a read
  // already showed the order terminal. Without an id neither happens.
  datatype Known = Known(refusal: Option<string>, rests: bool, offBookZero: bool, reports: seq<Report>)

  function Learn(venue: Venue, id: Option<string>, reported: real, size: real, crossSettled: bool): Known {
    var first := [CrossReport(reported, crossSettled)];
    if id == None then Known(None, true, false, first)
    else
      var loop := CancelLoop(venue, id.value, size, 0.0, first, []);
      if loop.terminal then Known(None, false, false, loop.reports)
      else
        var refusal := if IsTerminal(venue.finalRead, size) then None else loop.refusal;
        Known(refusal, refusal.Some?,
              (refusal == None || refusal == Some("")) && CountsZero(venue.finalRead),
              loop.reports + ReportsOf(venue.finalRead, size))
  }

  function SettleResult(venue: Venue, id: Option<string>, reported: real, size: real, crossSettled: bool): Settled {
    if reported >= size - EPS then Settled(Some(reported), false)
    else
      var k := Learn(venue, id, reported, size, crossSettled);
      var first := Answer(k.reports, size);
      var second := if first.Some? then first else Answer(k.reports + [WalletReport(venue, size)], size);
      Settled(if second == None && k.offBookZero then Some(0.0) else second, k.rests)
  }

  method SettleRestingRemainder(venue: Venue, id: Option<string>, reported: real, size: real, crossSettled: bool)
    returns (qty: Option<real>, rests: bool)
    ensures Settled(qty, rests) == SettleResult(venue, id, reported, size, crossSettled)
  {
    hide Collect, CancelLoop, Resolved, ReadTerminal, Plausible;
    if reported >= size - EPS {
      return Some(reported), false;
    }
    var evidence := new FillEvidence(size);
    evidence.Add(CrossReport(reported, crossSettled));
    assert evidence.reports == [CrossReport(reported, crossSettled)];
    var refusal: Option<string> := None;
    var offBookZero := false;
    if id == None {
      rests := true;
    } else {
      var terminal;
      ghost var starts;
      refusal, terminal, starts := CancelWithRetry(venue, id.value, evidence);
      if !terminal {
        ghost var before := evidence.reports;
        var state := ReadOrder(venue.finalRead);
        if state.Some? {
          var done := evidence.AddRead(state.value.matched, state.value.status, false);
          if done {
            refusal := None;
          }
        }
        assert evidence.reports == before + ReportsOf(venue.finalRead, size);
        // `not refusal`: an empty reason counts as none here, though not two lines below.
        offBookZero := (refusal == None || refusal == Some("")) && state.Some? && state.value.matched == Some(0.0);
      }
      rests := refusal.Some?;
    }
    assert Known(refusal, rests, offBookZero, evidence.reports) == Learn(venue, id, reported, size, crossSettled);
    qty := evidence.Resolve();
    if qty == None {
      evidence.Add(WalletReport(venue, size));
      qty := evidence.Resolve();
    }
    if qty == None && offBookZero {
      qty := Some(0.0);
    }
  }
}
