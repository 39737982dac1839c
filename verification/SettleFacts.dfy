// What the settle guarantees against every script of venue answers.
module SettleFacts {
  import opened Common
  import opened FillSources
  import opened Settle

  // ---------- what the answers say ----------

  // A read ends the order when its status is done, or it counts the whole order and not more.
  lemma TerminalExactly(read: ReadAnswer, size: real)
    ensures IsTerminal(read, size) <==>
              && read.OrderDoc?
              && (read.status in ["CANCELED", "CANCELLED", "EXPIRED", "REJECTED"]
                  || (read.sizeMatched.Number? && read.sizeMatched.value >= 0.0
                      && size - 0.000000001 <= read.sizeMatched.value <= size + 0.000000001))
  {}

  // The number a string of decimal digits stands for.
  function DecimalValue(digits: string): int {
    if digits == "" then 0 else DecimalValue(digits[..|digits| - 1]) * 10 + (digits[|digits| - 1] as int - '0' as int)
  }

  // A numeric order id is kept as its decimal digits, without a leading zero: no two share an id.
  lemma {:induction false} NumericIdsReadBack(n: nat)
    ensures Digits(n) != "" && DecimalValue(Digits(n)) == n && (n > 0 ==> Digits(n)[0] != '0')
    ensures forall k :: 0 <= k < |Digits(n)| ==> '0' <= Digits(n)[k] <= '9'
  {
    if n >= 10 {
      NumericIdsReadBack(n / 10);
      assert Digits(n)[..|Digits(n)| - 1] == Digits(n / 10);
    } else {
      assert Digits(n)[..0] == "";
    }
  }

  // A cancel is acknowledged exactly when its list of cancelled ids names the order, as text or as a
  // number; a refusal, an exception or a body of another shape acknowledges nothing.
  lemma AcknowledgedExactly(answer: CancelAnswer, id: string)
    ensures Acknowledged(answer, id) <==>
              && answer.CancelBody? && answer.canceled.Some?
              && exists raw :: raw in answer.canceled.value && Names(raw, id)
  {
    if answer.CancelBody? && answer.canceled.Some? {
      var raws := answer.canceled.value;
      assert forall raw :: ParseOrderId(raw) == Some(id) <==> Names(raw, id);
      assert forall i :: 0 <= i < |raws| ==> raws[i] in raws;
    }
  }

  // The id written out: a non-empty text, or the decimal digits of a number other than nought.
  ghost predicate Names(raw: RawId, id: string) {
    || (raw == Text(id) && id != "")
    || (raw.Whole? && raw.number != 0 && id == if raw.number > 0 then Digits(raw.number) else "-" + Digits(-raw.number))
  }

  // Entry `i` is the last that gives a reason for the order.
  ghost predicate GivenLast(reasons: seq<(RawId, string)>, id: string, i: int) {
    0 <= i < |reasons| && Names(reasons[i].0, id) && forall j :: i < j < |reasons| ==> !Names(reasons[j].0, id)
  }

  // Of several reasons given for the order the last one stands; without any a fixed text does.
  lemma {:induction false} ReasonIsTheLastGiven(reasons: seq<(RawId, string)>, id: string)
    ensures (exists i :: GivenLast(reasons, id, i) && ReasonFor(reasons, id) == reasons[i].1)
            || ((forall i :: 0 <= i < |reasons| ==> !Names(reasons[i].0, id))
                && ReasonFor(reasons, id) == "refused without a reason")
  {
    if reasons != [] {
      var n := |reasons| - 1;
      assert ParseOrderId(reasons[n].0) == Some(id) <==> Names(reasons[n].0, id);
      hide ParseOrderId, Names;
      if Names(reasons[n].0, id) {
        assert GivenLast(reasons, id, n);
      } else {
        ReasonIsTheLastGiven(reasons[..n], id);
        if i :| GivenLast(reasons[..n], id, i) && ReasonFor(reasons, id) == reasons[..n][i].1 {
          assert GivenLast(reasons, id, i);
        } else {
          assert forall i :: 0 <= i < n ==> reasons[..n][i] == reasons[i];
        }
      }
    }
  }

  // A refusal is empty exactly when the body itself gives the order an empty reason, the last it gives:
  // an exception, another shape or silence is never taken for one.
  lemma RefusalIsEmptyExactly(answer: CancelAnswer, id: string)
    ensures RefusalReason(answer, id) == "" <==>
              && answer.CancelBody? && answer.notCanceled.Reasons?
              && exists i :: GivenLast(answer.notCanceled.reasons, id, i) && answer.notCanceled.reasons[i].1 == ""
  {
    hide Names;
    if answer.CancelBody? && answer.notCanceled.Reasons? {
      var reasons := answer.notCanceled.reasons;
      ReasonIsTheLastGiven(reasons, id);
      forall i, j | GivenLast(reasons, id, i) && GivenLast(reasons, id, j) ensures i == j {
        OnlyOneIsLast(reasons, id, i, j);
      }
    }
  }

  lemma OnlyOneIsLast(reasons: seq<(RawId, string)>, id: string, i: int, j: int)
    requires GivenLast(reasons, id, i) && GivenLast(reasons, id, j)
    ensures i == j
  {
    hide Names;
  }

  // ---------- the cancel loop ----------

  ghost predicate NoExact(reports: seq<Report>) {
    forall i :: 0 <= i < |reports| ==> !reports[i].exact
  }

  // Only the last report may be a final count.
  ghost predicate ExactOnlyLast(reports: seq<Report>) {
    forall i :: 0 <= i < |reports| - 1 ==> !reports[i].exact
  }

  ghost predicate AttemptEnds(venue: Venue, id: string, size: real, k: nat) {
    Acknowledged(venue.attempts(k).cancel, id) || IsTerminal(venue.attempts(k).read, size)
  }

  ghost predicate FromAttempt(r: Report, venue: Venue, size: real, made: nat) {
    exists k :: 0 <= k < made && r in ReportsOf(venue.attempts(k).read, size)
  }

  // The loop stops at the first attempt the venue acknowledged or a read showed terminal, within
  // sixteen attempts that each start inside the deadline, and records at most one final count: last.
  lemma {:induction false} LoopFacts(venue: Venue, id: string, size: real, elapsed: real, reports: seq<Report>,
                                     starts: seq<real>)
    requires |starts| < SETTLE_ATTEMPTS && 0.0 <= elapsed <= SETTLE_DEADLINE_S && NoExact(reports)
    requires forall i :: 0 <= i < |starts| ==> 0.0 <= starts[i] <= SETTLE_DEADLINE_S
    requires forall k :: 0 <= k < |starts| ==> !AttemptEnds(venue, id, size, k)
    ensures var o := CancelLoop(venue, id, size, elapsed, reports, starts); var made := |o.starts|;
            && |starts| < made <= SETTLE_ATTEMPTS
            && (forall i :: 0 <= i < made ==> 0.0 <= o.starts[i] <= SETTLE_DEADLINE_S)
            && (forall k :: 0 <= k < made - 1 ==> !AttemptEnds(venue, id, size, k))
            && (o.refusal == None <==> AttemptEnds(venue, id, size, made - 1))
            && (o.terminal ==> IsTerminal(venue.attempts(made - 1).read, size))
            && (o.refusal.Some? ==>
                  o.refusal.value == RefusalReason(venue.attempts(made - 1).cancel, id) && !o.terminal)
            && ExactOnlyLast(o.reports) && (!o.terminal ==> NoExact(o.reports))
            && reports <= o.reports
            && (forall r :: r in o.reports ==> r in reports || FromAttempt(r, venue, size, made))
    decreases SETTLE_ATTEMPTS - |starts|
  {
    var a := venue.attempts(|starts|);
    var starts' := starts + [elapsed];
    var reports' := reports + ReportsOf(a.read, size);
    var left := SETTLE_DEADLINE_S - (elapsed + a.cancelTook + a.readTook);
    assert forall r :: r in reports' ==> r in reports || FromAttempt(r, venue, size, |starts'|);
    if !AttemptEnds(venue, id, size, |starts|) && left > 0.0 && |starts'| < SETTLE_ATTEMPTS {
      LoopFacts(venue, id, size, elapsed + a.cancelTook + a.readTook + Min(SETTLE_SLEEP, left), reports', starts');
    }
  }

  ghost function Loop(venue: Venue, id: string, reported: real, size: real, crossSettled: bool): CancelOutcome {
    CancelLoop(venue, id, size, 0.0, [CrossReport(reported, crossSettled)], [])
  }

  // How many cancels the settle sends for an order that did not fill at once.
  ghost function Made(venue: Venue, id: string, reported: real, size: real, crossSettled: bool): nat {
    |Loop(venue, id, reported, size, crossSettled).starts|
  }

  // ---------- what the loop owes ----------

  // When attempt `k` starts and ends, told by the script alone: one attempt after another, half a second
  // apart, the last pause cut short at eight seconds.
  ghost function StartOf(venue: Venue, k: nat): real {
    if k == 0 then 0.0
    else
      var end := StartOf(venue, k - 1) + venue.attempts(k - 1).cancelTook + venue.attempts(k - 1).readTook;
      if 8.0 - end < 0.5 then 8.0 else end + 0.5
  }

  ghost function EndOf(venue: Venue, k: nat): real {
    StartOf(venue, k) + venue.attempts(k).cancelTook + venue.attempts(k).readTook
  }

  // Attempt `k` is owed while it is one of sixteen and no earlier one ended the order or the eight seconds.
  ghost predicate IsOwed(venue: Venue, id: string, size: real, k: nat) {
    k < 16 && forall j :: 0 <= j < k ==> !AttemptEnds(venue, id, size, j) && EndOf(venue, j) < 8.0
  }

  // Reads follow every cancel that was not acknowledged.
  ghost predicate RecordsEveryRead(o: CancelOutcome, venue: Venue, id: string, size: real, made: nat) {
    forall k :: 0 <= k < made && !Acknowledged(venue.attempts(k).cancel, id) ==>
      forall r :: r in ReportsOf(venue.attempts(k).read, size) ==> r in o.reports
  }

  lemma NextIsOwed(venue: Venue, id: string, size: real, k: nat)
    requires IsOwed(venue, id, size, k)
    ensures IsOwed(venue, id, size, k + 1) <==> k + 1 < 16 && !AttemptEnds(venue, id, size, k) && EndOf(venue, k) < 8.0
    ensures StartOf(venue, k + 1) == EndOf(venue, k) + Min(SETTLE_SLEEP, SETTLE_DEADLINE_S - EndOf(venue, k))
  {
    hide AttemptEnds;
  }

  // The loop makes exactly the attempts it owes, each at its time.
  lemma {:induction false} LoopMakesWhatItOwes(venue: Venue, id: string, size: real, elapsed: real,
                                               reports: seq<Report>, starts: seq<real>)
    requires |starts| < SETTLE_ATTEMPTS && IsOwed(venue, id, size, |starts|) && elapsed == StartOf(venue, |starts|)
    requires forall k :: 0 <= k < |starts| ==> starts[k] == StartOf(venue, k)
    ensures var o := CancelLoop(venue, id, size, elapsed, reports, starts); var made := |o.starts|;
            && IsOwed(venue, id, size, made - 1) && !IsOwed(venue, id, size, made)
            && (forall k :: 0 <= k < made ==> o.starts[k] == StartOf(venue, k))
            && (o.refusal.Some? ==> made == 16 || EndOf(venue, made - 1) >= 8.0)
    decreases SETTLE_ATTEMPTS - |starts|
  {
    hide Acknowledged, IsTerminal, ReportsOf, RefusalReason, IsOwed, StartOf;
    var n, a := |starts|, venue.attempts(|starts|);
    NextIsOwed(venue, id, size, n);
    var left := SETTLE_DEADLINE_S - (elapsed + a.cancelTook + a.readTook);
    if !AttemptEnds(venue, id, size, n) && left > 0.0 && n + 1 < SETTLE_ATTEMPTS {
      LoopMakesWhatItOwes(venue, id, size, elapsed + a.cancelTook + a.readTook + Min(SETTLE_SLEEP, left),
                          reports + ReportsOf(a.read, size), starts + [elapsed]);
    }
  }

  lemma {:induction false} LoopRecordsEveryRead(venue: Venue, id: string, size: real, elapsed: real,
                                                reports: seq<Report>, starts: seq<real>)
    requires |starts| < SETTLE_ATTEMPTS
    requires forall k :: 0 <= k < |starts| && !Acknowledged(venue.attempts(k).cancel, id) ==>
               forall r :: r in ReportsOf(venue.attempts(k).read, size) ==> r in reports
    ensures var o := CancelLoop(venue, id, size, elapsed, reports, starts);
            RecordsEveryRead(o, venue, id, size, |o.starts|)
    decreases SETTLE_ATTEMPTS - |starts|
  {
    hide Acknowledged, IsTerminal, ReportsOf, RefusalReason;
    var a := venue.attempts(|starts|);
    var left := SETTLE_DEADLINE_S - (elapsed + a.cancelTook + a.readTook);
    if !AttemptEnds(venue, id, size, |starts|) && left > 0.0 && |starts| + 1 < SETTLE_ATTEMPTS {
      LoopRecordsEveryRead(venue, id, size, elapsed + a.cancelTook + a.readTook + Min(SETTLE_SLEEP, left),
                           reports + ReportsOf(a.read, size), starts + [elapsed]);
    }
  }

  // What is owed is a prefix of the script.
  lemma OwedUpTo(venue: Venue, id: string, size: real, made: nat)
    requires made > 0 && IsOwed(venue, id, size, made - 1) && !IsOwed(venue, id, size, made)
    ensures forall k: nat :: k < made <==> IsOwed(venue, id, size, k)
  {
    hide AttemptEnds, EndOf;
  }

  lemma SettleMakesWhatItOwes(venue: Venue, id: string, reported: real, size: real, crossSettled: bool)
    ensures var o := Loop(venue, id, reported, size, crossSettled); var made := |o.starts|;
            && (forall k: nat :: k < made <==> IsOwed(venue, id, size, k))
            && (forall k :: 0 <= k < made ==> o.starts[k] == StartOf(venue, k))
            && (o.refusal.Some? ==> made == 16 || EndOf(venue, made - 1) >= 8.0)
            && RecordsEveryRead(o, venue, id, size, made)
  {
    hide CancelLoop, RecordsEveryRead, AttemptEnds, EndOf, Acknowledged, ReportsOf;
    LoopMakesWhatItOwes(venue, id, size, 0.0, [CrossReport(reported, crossSettled)], []);
    LoopRecordsEveryRead(venue, id, size, 0.0, [CrossReport(reported, crossSettled)], []);
    OwedUpTo(venue, id, size, |Loop(venue, id, reported, size, crossSettled).starts|);
  }

  // The loop ends on a terminal read exactly when an attempt it owes, not acknowledged, reads one.
  lemma TerminalExactlyWhenRead(venue: Venue, id: string, reported: real, size: real, crossSettled: bool)
    ensures Loop(venue, id, reported, size, crossSettled).terminal <==>
            exists k: nat :: IsOwed(venue, id, size, k) && !Acknowledged(venue.attempts(k).cancel, id)
                             && IsTerminal(venue.attempts(k).read, size)
  {
    hide Acknowledged, IsTerminal, ReportsOf, RefusalReason, EndOf, RecordsEveryRead, FromAttempt;
    SettleMakesWhatItOwes(venue, id, reported, size, crossSettled);
    LoopFacts(venue, id, size, 0.0, [CrossReport(reported, crossSettled)], []);
    LoopEndsTerminal(venue, id, size, 0.0, [CrossReport(reported, crossSettled)], []);
    var last := |Loop(venue, id, reported, size, crossSettled).starts| - 1;
    assert IsOwed(venue, id, size, last);
    forall k: nat | IsOwed(venue, id, size, k) && AttemptEnds(venue, id, size, k) ensures k == last {}
  }

  lemma {:induction false} LoopEndsTerminal(venue: Venue, id: string, size: real, elapsed: real, reports: seq<Report>,
                                            starts: seq<real>)
    requires |starts| < SETTLE_ATTEMPTS
    ensures var o := CancelLoop(venue, id, size, elapsed, reports, starts); var last := venue.attempts(|o.starts| - 1);
            o.terminal <==> !Acknowledged(last.cancel, id) && IsTerminal(last.read, size)
    decreases SETTLE_ATTEMPTS - |starts|
  {
    hide Acknowledged, IsTerminal, ReportsOf, RefusalReason;
    var a := venue.attempts(|starts|);
    var left := SETTLE_DEADLINE_S - (elapsed + a.cancelTook + a.readTook);
    if !AttemptEnds(venue, id, size, |starts|) && left > 0.0 && |starts| + 1 < SETTLE_ATTEMPTS {
      LoopEndsTerminal(venue, id, size, elapsed + a.cancelTook + a.readTook + Min(SETTLE_SLEEP, left),
                       reports + ReportsOf(a.read, size), starts + [elapsed]);
    }
  }

  // At most sixteen cancel attempts, each starting within eight seconds of the first.
  lemma CancelsAreBounded(venue: Venue, id: string, reported: real, size: real, crossSettled: bool)
    ensures 1 <= Made(venue, id, reported, size, crossSettled) <= 16
    ensures forall start :: start in Loop(venue, id, reported, size, crossSettled).starts ==> 0.0 <= start <= 8.0
  {
    LoopFacts(venue, id, size, 0.0, [CrossReport(reported, crossSettled)], []);
  }

  // Everything the settle records, the wallet last.
  ghost function Recorded(venue: Venue, id: Option<string>, reported: real, size: real,
                          crossSettled: bool): seq<Report> {
    Learn(venue, id, reported, size, crossSettled).reports + [WalletReport(venue, size)]
  }

  // At most one final count is ever recorded, so the answer hardly depends on the order of arrival.
  lemma AtMostOneFinalCount(venue: Venue, id: Option<string>, reported: real, size: real, crossSettled: bool)
    ensures forall i, j ::
              var all := Recorded(venue, id, reported, size, crossSettled);
              0 <= i < j < |all| ==> !all[i].exact || !all[j].exact
  {
    if id.Some? {
      LoopFacts(venue, id.value, size, 0.0, [CrossReport(reported, crossSettled)], []);
    }
  }

  // ---------- what may rest ----------

  // The venue said the order is off the book: a cancel acknowledged or a read terminal.
  ghost predicate ShownOffBook(venue: Venue, id: string, size: real, made: nat) {
    (exists k :: 0 <= k < made && AttemptEnds(venue, id, size, k)) || IsTerminal(venue.finalRead, size)
  }

  // An order short of a full fill is reported as possibly resting exactly when it has no usable id,
  // or no answer of the venue showed it off the book.
  lemma RestsUnlessShownOffBook(venue: Venue, id: Option<string>, reported: real, size: real, crossSettled: bool)
    ensures SettleResult(venue, id, reported, size, crossSettled).rests <==>
            reported < size - EPS
            && (id == None || !ShownOffBook(venue, id.value, size, Made(venue, id.value, reported, size, crossSettled)))
  {
    hide IsTerminal, Acknowledged, Answer, RefusalReason, ReportsOf, ExactOnlyLast, NoExact, CountsZero;
    if id.Some? {
      LoopFacts(venue, id.value, size, 0.0, [CrossReport(reported, crossSettled)], []);
      var made := Made(venue, id.value, reported, size, crossSettled);
      assert AttemptEnds(venue, id.value, size, made - 1) ==> ShownOffBook(venue, id.value, size, made);
    }
  }

  // So, told by the script alone: an order is reported as possibly resting exactly when it is short of a
  // full fill and has no usable id, or no attempt owed to it was acknowledged or read as terminal and
  // neither was the last read.
  lemma RestsExactlyUnlessAnOwedAttemptEndsIt(venue: Venue, id: Option<string>, reported: real, size: real,
                                              crossSettled: bool)
    ensures SettleResult(venue, id, reported, size, crossSettled).rests <==>
            && reported < size - EPS
            && (id == None
                || (!IsTerminal(venue.finalRead, size)
                    && forall k: nat :: IsOwed(venue, id.value, size, k) ==> !AttemptEnds(venue, id.value, size, k)))
  {
    hide SettleResult, IsTerminal, CancelLoop, AttemptEnds, IsOwed, RecordsEveryRead;
    RestsUnlessShownOffBook(venue, id, reported, size, crossSettled);
    if id.Some? {
      SettleMakesWhatItOwes(venue, id.value, reported, size, crossSettled);
    }
  }

  // ---------- what a zero means ----------

  // Where a report of the settle came from.
  ghost predicate FromRead(r: Report, venue: Venue, id: Option<string>, size: real, made: nat) {
    id.Some? && (FromAttempt(r, venue, size, made) || r in ReportsOf(venue.finalRead, size))
  }

  ghost function MadeOf(venue: Venue, id: Option<string>, reported: real, size: real, crossSettled: bool): nat {
    if id.Some? then Made(venue, id.value, reported, size, crossSettled) else 0
  }

  lemma RecordedSources(venue: Venue, id: Option<string>, reported: real, size: real, crossSettled: bool, r: Report)
    requires r in Recorded(venue, id, reported, size, crossSettled)
    ensures r == CrossReport(reported, crossSettled) || r == WalletReport(venue, size)
            || FromRead(r, venue, id, size, MadeOf(venue, id, reported, size, crossSettled))
  {
    if id.Some? {
      LoopFacts(venue, id.value, size, 0.0, [CrossReport(reported, crossSettled)], []);
    }
  }

  // Some read the settle made was usable and counted nought.
  ghost predicate ReadCountedZero(venue: Venue, made: nat) {
    (exists k :: 0 <= k < made && CountsZero(venue.attempts(k).read)) || CountsZero(venue.finalRead)
  }

  // A read counted as nought is a usable one.
  lemma ZeroReadIsTerminal(r: Report, read: ReadAnswer, size: real)
    requires size > EPS && r in ReportsOf(read, size) && Counted(r, size).Some? && Counted(r, size).value.qty == 0.0
    ensures CountsZero(read) && IsTerminal(read, size)
  {}

  // A report the evidence counts as nought is a terminal read that counted nought.
  lemma ZeroReportIsATerminalRead(venue: Venue, id: Option<string>, reported: real, size: real, crossSettled: bool,
                                  r: Report)
    requires size > EPS && r in Recorded(venue, id, reported, size, crossSettled)
    requires Counted(r, size).Some? && Counted(r, size).value.qty == 0.0
    ensures var made := MadeOf(venue, id, reported, size, crossSettled);
            id.Some? && ReadCountedZero(venue, made) && ShownOffBook(venue, id.value, size, made)
  {
    hide Learn, CancelLoop, ReportsOf, IsTerminal;
    var made := MadeOf(venue, id, reported, size, crossSettled);
    RecordedSources(venue, id, reported, size, crossSettled, r);
    if FromAttempt(r, venue, size, made) {
      var k :| 0 <= k < made && r in ReportsOf(venue.attempts(k).read, size);
      ZeroReadIsTerminal(r, venue.attempts(k).read, size);
      assert AttemptEnds(venue, id.value, size, k);
    } else if r in ReportsOf(venue.finalRead, size) {
      ZeroReadIsTerminal(r, venue.finalRead, size);
    }
  }

  lemma CountedZeroIsATerminalRead(venue: Venue, id: Option<string>, reported: real, size: real, crossSettled: bool,
                                   reports: seq<Report>)
    requires size > EPS && Answer(reports, size) == Some(0.0)
    requires forall r :: r in reports ==> r in Recorded(venue, id, reported, size, crossSettled)
    ensures var made := MadeOf(venue, id, reported, size, crossSettled);
            id.Some? && ReadCountedZero(venue, made) && ShownOffBook(venue, id.value, size, made)
  {
    AnswerIsBestEvidence(reports, size);
    var e :| Reported(e, reports, size) && e.qty == 0.0;
    var r :| r in reports && Counted(r, size) == Some(e);
    ZeroReportIsATerminalRead(venue, id, reported, size, crossSettled, r);
  }

  // What is left to answer when no source counted anything but a last read of nought.
  ghost predicate NothingEstablished(venue: Venue, id: Option<string>, reported: real, size: real, crossSettled: bool) {
    && Answer(Learn(venue, id, reported, size, crossSettled).reports, size) == None
    && Answer(Recorded(venue, id, reported, size, crossSettled), size) == None
  }

  // A zero fill that does not rest is a usable count of nought on an order shown off the book; any
  // other miss is reported as unknown.
  lemma ZeroIsCountedOffTheBook(venue: Venue, id: Option<string>, reported: real, size: real, crossSettled: bool)
    requires size > EPS
    requires SettleResult(venue, id, reported, size, crossSettled) == Settled(Some(0.0), false)
    ensures var made := MadeOf(venue, id, reported, size, crossSettled);
            id.Some? && ReadCountedZero(venue, made) && ShownOffBook(venue, id.value, size, made)
  {
    var k := Learn(venue, id, reported, size, crossSettled);
    if Answer(k.reports, size) == Some(0.0) {
      CountedZeroIsATerminalRead(venue, id, reported, size, crossSettled, k.reports);
    } else if Answer(k.reports + [WalletReport(venue, size)], size) == Some(0.0) && Answer(k.reports, size) == None {
      CountedZeroIsATerminalRead(venue, id, reported, size, crossSettled,
                                 Recorded(venue, id, reported, size, crossSettled));
    } else {
      RestsUnlessShownOffBook(venue, id, reported, size, crossSettled);
    }
  }

  // Of an order off the book of which no source established anything, nought is answered exactly when the last
  // read was made, no attempt's read having been terminal, and counted nought; otherwise nothing is known.
  lemma ZeroOffTheBookExactly(venue: Venue, id: string, reported: real, size: real, crossSettled: bool)
    requires !SettleResult(venue, Some(id), reported, size, crossSettled).rests && reported < size - EPS
    requires NothingEstablished(venue, Some(id), reported, size, crossSettled)
    ensures SettleResult(venue, Some(id), reported, size, crossSettled).qty ==
            if CountsZero(venue.finalRead) && NoReadWasTerminal(venue, id, size) then Some(0.0) else None
  {
    hide CancelLoop, IsOwed, Acknowledged, IsTerminal, Answer, ReportsOf, CountsZero, RecordsEveryRead, FromAttempt;
    LoopFacts(venue, id, size, 0.0, [CrossReport(reported, crossSettled)], []);
    SettleMakesWhatItOwes(venue, id, reported, size, crossSettled);
    TerminalExactlyWhenRead(venue, id, reported, size, crossSettled);
  }

  // No attempt that was made and not acknowledged read the order as terminal.
  ghost predicate NoReadWasTerminal(venue: Venue, id: string, size: real) {
    forall k: nat :: IsOwed(venue, id, size, k) && !Acknowledged(venue.attempts(k).cancel, id) ==>
      !IsTerminal(venue.attempts(k).read, size)
  }

  // An order that may still rest is nevertheless given a zero fill exactly when its last refusal gave
  // an empty reason, the last read counted nought and no source established anything: `not refusal`
  // takes the empty reason for no refusal at all (live_executor.py:865), `is not None` does not.
  lemma ZeroWhileRestingNeedsAnEmptyReason(venue: Venue, id: string, reported: real, size: real, crossSettled: bool)
    requires size > EPS && SettleResult(venue, Some(id), reported, size, crossSettled).rests
    ensures SettleResult(venue, Some(id), reported, size, crossSettled).qty == Some(0.0) <==>
            && RefusalReason(venue.attempts(Made(venue, id, reported, size, crossSettled) - 1).cancel, id) == ""
            && CountsZero(venue.finalRead)
            && NothingEstablished(venue, Some(id), reported, size, crossSettled)
  {
    hide Learn, Answer, CountsZero, RefusalReason, Made;
    NotShownOffBook(venue, id, reported, size, crossSettled);
    RestingCountsNoZero(venue, id, reported, size, crossSettled);
    RestingKnows(venue, id, reported, size, crossSettled);
  }

  lemma NotShownOffBook(venue: Venue, id: string, reported: real, size: real, crossSettled: bool)
    requires SettleResult(venue, Some(id), reported, size, crossSettled).rests
    ensures reported < size - EPS && !ShownOffBook(venue, id, size, Made(venue, id, reported, size, crossSettled))
  {
    RestsUnlessShownOffBook(venue, Some(id), reported, size, crossSettled);
  }

  // While the order may rest, no source was counted as nought.
  lemma RestingCountsNoZero(venue: Venue, id: string, reported: real, size: real, crossSettled: bool)
    requires size > EPS && !ShownOffBook(venue, id, size, Made(venue, id, reported, size, crossSettled))
    ensures Answer(Learn(venue, Some(id), reported, size, crossSettled).reports, size) != Some(0.0)
    ensures Answer(Recorded(venue, Some(id), reported, size, crossSettled), size) != Some(0.0)
  {
    hide Answer, Learn, ShownOffBook, ReadCountedZero, Made;
    var known, all := Learn(venue, Some(id), reported, size, crossSettled).reports,
      Recorded(venue, Some(id), reported, size, crossSettled);
    assert all == known + [WalletReport(venue, size)];
    if Answer(known, size) == Some(0.0) {
      CountedZeroIsATerminalRead(venue, Some(id), reported, size, crossSettled, known);
    }
    if Answer(all, size) == Some(0.0) {
      CountedZeroIsATerminalRead(venue, Some(id), reported, size, crossSettled, all);
    }
  }

  // What the settle holds of an order no answer showed off the book: the last refusal, and whether the
  // last read counted nought under an empty one.
  lemma RestingKnows(venue: Venue, id: string, reported: real, size: real, crossSettled: bool)
    requires !ShownOffBook(venue, id, size, Made(venue, id, reported, size, crossSettled))
    ensures var k := Learn(venue, Some(id), reported, size, crossSettled);
            var reason := RefusalReason(venue.attempts(Made(venue, id, reported, size, crossSettled) - 1).cancel, id);
            k.rests && (k.offBookZero <==> reason == "" && CountsZero(venue.finalRead))
  {
    hide ReportsOf, IsTerminal, CountsZero, RefusalReason, Acknowledged, FromAttempt, ExactOnlyLast, NoExact;
    LoopFacts(venue, id, size, 0.0, [CrossReport(reported, crossSettled)], []);
    assert !AttemptEnds(venue, id, size, Made(venue, id, reported, size, crossSettled) - 1);
  }

  // A venue that refuses every cancel with an empty reason while its reads still say LIVE.
  ghost function SilentVenue(): Venue {
    Venue((k: nat) => Attempt(CancelBody(Some([]), Reasons([(Text("7"), "")])), 0.0, OrderDoc(Number(0.0), "LIVE"),
                              0.0),
          OrderDoc(Number(0.0), "LIVE"), Moved(0.0))
  }

  lemma SilentVenueGivesAZeroThatRests()
    ensures SettleResult(SilentVenue(), Some("7"), 0.0, 5.0, false) == Settled(Some(0.0), true)
  {
    var venue := SilentVenue();
    LoopFacts(venue, "7", 5.0, 0.0, [CrossReport(0.0, false)], []);
    var made := Made(venue, "7", 0.0, 5.0, false);
    assert !AttemptEnds(venue, "7", 5.0, made - 1);
    RestsUnlessShownOffBook(venue, Some("7"), 0.0, 5.0, false);
    var all := Recorded(venue, Some("7"), 0.0, 5.0, false);
    forall r | r in all ensures Counted(r, 5.0) == None {
      RecordedSources(venue, Some("7"), 0.0, 5.0, false, r);
    }
    AnswerIsBestEvidence(all, 5.0);
    AnswerIsBestEvidence(Learn(venue, Some("7"), 0.0, 5.0, false).reports, 5.0);
    assert ReasonFor([(Text("7"), "")], "7") == "";
    ZeroWhileRestingNeedsAnEmptyReason(venue, "7", 0.0, 5.0, false);
  }

  // ---------- what the quantity means ----------

  // Every number the venue and the wallet offer this settle is a lower bound on the matched size.
  ghost predicate LowerBounds(venue: Venue, id: Option<string>, reported: real, size: real, crossSettled: bool,
                              final: real) {
    && 0.0 <= reported <= final
    && (forall r :: FromRead(r, venue, id, size, MadeOf(venue, id, reported, size, crossSettled))
                    && Counted(r, size).Some? ==>
          Counted(r, size).value.qty <= final)
    && (WalletDelta(venue.wallet, size).Some? ==> WalletDelta(venue.wallet, size).value <= final)
  }

  // What is booked is never more than the tolerance below a read the settle made, nor below a cross
  // the chain stamped.
  lemma SettleOutlastsItsReadings(venue: Venue, id: Option<string>, reported: real, size: real, crossSettled: bool,
                                  r: Report)
    requires reported < size - EPS && r in Learn(venue, id, reported, size, crossSettled).reports
    requires r.source == OrderRead || r == CrossReport(reported, true)
    requires Counted(r, size).Some?
    ensures SettleResult(venue, id, reported, size, crossSettled).qty.Some?
    ensures Counted(r, size).value.qty - EPS <= SettleResult(venue, id, reported, size, crossSettled).qty.value
  {
    hide CancelLoop, ReadTerminal, RefusalReason, WalletDelta, AnswerAgainst, LargestBound, Collect;
    var known := Learn(venue, id, reported, size, crossSettled).reports;
    var c := Collect(known, size);
    AnswerIsBestEvidence(known, size);
    CollectHoldsTheReports(known, size);
    if c.exact.Some? {
      var e :| e in known && e.exact && Counted(e, size) == c.exact;
      assert e in Recorded(venue, id, reported, size, crossSettled);
      RecordedSources(venue, id, reported, size, crossSettled, e);
      assert c.exact.value.source == OrderRead;
      if r.exact {
        OnlyOneExact(venue, id, reported, size, crossSettled, e, r);
      }
    }
  }

  lemma OnlyOneExact(venue: Venue, id: Option<string>, reported: real, size: real, crossSettled: bool, r: Report,
                     r': Report)
    requires r in Recorded(venue, id, reported, size, crossSettled) && r.exact
    requires r' in Recorded(venue, id, reported, size, crossSettled) && r'.exact
    ensures r == r'
  {
    var all := Recorded(venue, id, reported, size, crossSettled);
    AtMostOneFinalCount(venue, id, reported, size, crossSettled);
    var i :| 0 <= i < |all| && all[i] == r;
    var j :| 0 <= j < |all| && all[j] == r';
    assert i == j;
  }

  // A usable read of any attempt made and not acknowledged is never booked short by more than the
  // tolerance.
  lemma UsableReadsAreBooked(venue: Venue, id: string, reported: real, size: real, crossSettled: bool, k: nat,
                             matched: real, status: string)
    requires reported < size - EPS && IsOwed(venue, id, size, k) && !Acknowledged(venue.attempts(k).cancel, id)
    requires venue.attempts(k).read == OrderDoc(Number(matched), status) && 0.0 < matched <= size + EPS
    ensures SettleResult(venue, Some(id), reported, size, crossSettled).qty.Some?
    ensures matched - EPS <= SettleResult(venue, Some(id), reported, size, crossSettled).qty.value
  {
    hide CancelLoop, SettleResult, IsOwed, Acknowledged, ReadTerminal;
    var read := venue.attempts(k).read;
    SettleMakesWhatItOwes(venue, id, reported, size, crossSettled);
    var r := ReadReport(Some(matched), status, size, false);
    assert ReportsOf(read, size) == [r];
    assert r in ReportsOf(read, size);
    assert r in Learn(venue, Some(id), reported, size, crossSettled).reports;
    SettleOutlastsItsReadings(venue, Some(id), reported, size, crossSettled, r);
  }

  // So is the last read, made when no attempt read the order as terminal.
  lemma LastReadIsBooked(venue: Venue, id: string, reported: real, size: real, crossSettled: bool, matched: real,
                         status: string)
    requires reported < size - EPS && forall k: nat :: IsOwed(venue, id, size, k) ==>
                 !IsTerminal(venue.attempts(k).read, size)
    requires venue.finalRead == OrderDoc(Number(matched), status) && 0.0 < matched <= size + EPS
    ensures SettleResult(venue, Some(id), reported, size, crossSettled).qty.Some?
    ensures matched - EPS <= SettleResult(venue, Some(id), reported, size, crossSettled).qty.value
  {
    hide CancelLoop, SettleResult, IsOwed, Acknowledged, ReadTerminal, IsTerminal, RecordsEveryRead, AttemptEnds;
    SettleMakesWhatItOwes(venue, id, reported, size, crossSettled);
    LoopFacts(venue, id, size, 0.0, [CrossReport(reported, crossSettled)], []);
    var r := ReadReport(Some(matched), status, size, false);
    assert ReportsOf(venue.finalRead, size) == [r];
    assert r in Learn(venue, Some(id), reported, size, crossSettled).reports;
    SettleOutlastsItsReadings(venue, Some(id), reported, size, crossSettled, r);
  }

  // When neither the response nor any read says how much filled, what the wallet moved is booked, up to
  // the size of the order.
  lemma WalletIsBookedWhenNothingElseSays(venue: Venue, id: Option<string>, reported: real, size: real,
                                          crossSettled: bool, moved: real)
    requires reported < size - EPS && venue.wallet == Moved(moved) && 0.0 < moved && size > 0.0
    requires forall r :: r in Learn(venue, id, reported, size, crossSettled).reports ==> Counted(r, size) == None
    ensures SettleResult(venue, id, reported, size, crossSettled).qty == Some(if moved <= size then moved else size)
  {
    hide CancelLoop, Learn, Answer;
    var known := Learn(venue, id, reported, size, crossSettled).reports;
    var all := known + [WalletReport(venue, size)];
    AnswerIsBestEvidence(known, size);
    AnswerIsBestEvidence(all, size);
    assert WalletReport(venue, size) in all;
    assert Counted(WalletReport(venue, size), size).Some?;
  }

  // A settle never books more than the order matched, and never a negative quantity.
  lemma SettleNeverOverstates(venue: Venue, id: Option<string>, reported: real, size: real, crossSettled: bool,
                              final: real)
    requires LowerBounds(venue, id, reported, size, crossSettled, final)
    requires SettleResult(venue, id, reported, size, crossSettled).qty.Some?
    ensures 0.0 <= SettleResult(venue, id, reported, size, crossSettled).qty.value <= final
  {
    var known, all := Learn(venue, id, reported, size, crossSettled).reports,
      Recorded(venue, id, reported, size, crossSettled);
    forall r | r in all && Counted(r, size).Some? ensures Counted(r, size).value.qty <= final {
      RecordedSources(venue, id, reported, size, crossSettled, r);
    }
    assert forall r :: r in known ==> r in all;
    SoundEvidenceNeverOverstates(known, size, final);
    SoundEvidenceNeverOverstates(all, size, final);
    if Answer(known, size).Some? { AnswerIsPlausible(known, size); }
    if Answer(all, size).Some? { AnswerIsPlausible(all, size); }
  }

  // The read that ended the settle, when one did.
  ghost predicate EndedByTerminalRead(venue: Venue, id: string, reported: real, size: real, crossSettled: bool,
                                      read: ReadAnswer) {
    var o := Loop(venue, id, reported, size, crossSettled);
    IsTerminal(read, size) && read == if o.terminal then venue.attempts(|o.starts| - 1).read else venue.finalRead
  }

  // If the terminal read counted the matched size itself, the settle books exactly that.
  lemma TerminalCountIsBooked(venue: Venue, id: string, reported: real, size: real, crossSettled: bool, final: real,
                              read: ReadAnswer)
    requires LowerBounds(venue, Some(id), reported, size, crossSettled, final) && reported < size - EPS
    requires EndedByTerminalRead(venue, id, reported, size, crossSettled, read)
    requires ReadOrder(read).value.matched == Some(final) && final <= size + EPS
    ensures SettleResult(venue, Some(id), reported, size, crossSettled).qty == Some(final)
  {
    var known, all := Learn(venue, Some(id), reported, size, crossSettled).reports,
      Recorded(venue, Some(id), reported, size, crossSettled);
    forall r | r in all && Counted(r, size).Some? ensures Counted(r, size).value.qty <= final {
      RecordedSources(venue, Some(id), reported, size, crossSettled, r);
    }
    assert forall r :: r in known ==> r in all;
    LoopEndsWithItsTerminalRead(venue, id, size, 0.0, [CrossReport(reported, crossSettled)], []);
    var last := ReadReport(Some(final), ReadOrder(read).value.status, size, false);
    assert known[|known| - 1] == last;
    assert Counted(last, size) == Some(Evidence(final, OrderRead, false)) && last.exact;
    assert Collect(known, size).exact == Some(Evidence(final, OrderRead, false));
    SoundEvidenceNeverOverstates(known, size, final);
  }

  lemma {:induction false} LoopEndsWithItsTerminalRead(venue: Venue, id: string, size: real, elapsed: real,
                                                       reports: seq<Report>, starts: seq<real>)
    requires |starts| < SETTLE_ATTEMPTS && reports != []
    ensures var o := CancelLoop(venue, id, size, elapsed, reports, starts);
            && |starts| < |o.starts| && |o.reports| > 0
            && (o.terminal ==> ReportsOf(venue.attempts(|o.starts| - 1).read, size) == [o.reports[|o.reports| - 1]])
    decreases SETTLE_ATTEMPTS - |starts|
  {
    var a := venue.attempts(|starts|);
    var left := SETTLE_DEADLINE_S - (elapsed + a.cancelTook + a.readTook);
    if !AttemptEnds(venue, id, size, |starts|) && left > 0.0 && |starts| + 1 < SETTLE_ATTEMPTS {
      LoopEndsWithItsTerminalRead(venue, id, size, elapsed + a.cancelTook + a.readTook + Min(SETTLE_SLEEP, left),
                                  reports + ReportsOf(a.read, size), starts + [elapsed]);
    }
  }
}
