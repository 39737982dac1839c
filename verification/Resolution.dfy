// openpoly/runtime/settlement_monitor.py:47-65: when a market counts as resolved, and at what price
// its positions settle.
module Resolution {
  import opened Common
  import opened Sizing

  // `round(x, 4)`
  function Round4(x: real): real {
    RoundHalfEven(x * 10000.0) as real / 10000.0
  }

  function SettlementPrice(yes: real, no: real, side: string): Option<real> {
    if {Round4(yes), Round4(no)} != {0.0, 1.0} then None
    else if side == "yes" then Some(yes)
    else if side == "no" then Some(no)
    else None
  }

  // Within half a unit of the fourth digit.
  predicate Near(x: real, v: real) { v - 0.00005 <= x <= v + 0.00005 }

  lemma RoundsToOutcome(x: real)
    ensures Round4(x) == 0.0 <==> Near(x, 0.0)
    ensures Round4(x) == 1.0 <==> Near(x, 1.0)
  {
    var y := x * 10000.0;
    var n := RoundHalfEven(y);
    assert n == 0 <==> -0.5 <= y <= 0.5;
    assert n == 10000 <==> 9999.5 <= y <= 10000.5;
    assert Round4(x) == n as real / 10000.0;
  }

  // A market settles exactly when one outcome is priced at one and the other at zero, to four digits;
  // then both sides settle, the winner near one and the loser near zero, and no other side does.
  lemma SettlesIffOneOutcomeWins(yes: real, no: real)
    ensures SettlementPrice(yes, no, "yes").Some? <==>
                (Near(yes, 1.0) && Near(no, 0.0)) || (Near(yes, 0.0) && Near(no, 1.0))
    ensures SettlementPrice(yes, no, "yes").Some? <==> SettlementPrice(yes, no, "no").Some?
    ensures forall side :: side != "yes" && side != "no" ==> SettlementPrice(yes, no, side) == None
    ensures SettlementPrice(yes, no, "yes").Some? ==>
              Near((SettlementPrice(yes, no, "yes").value + SettlementPrice(yes, no, "no").value) / 2.0, 0.5)
  {
    RoundsToOutcome(yes);
    RoundsToOutcome(no);
    var a, b := Round4(yes), Round4(no);
    assert {a, b} == {0.0, 1.0} <==> (a == 1.0 && b == 0.0) || (a == 0.0 && b == 1.0) by {
      assert 0.0 in {0.0, 1.0} && 1.0 in {0.0, 1.0} && a in {a, b} && b in {a, b};
      assert a == 1.0 && b == 0.0 ==> {a, b} == {0.0, 1.0};
    }
  }

  // The price booked is the venue's own, not the outcome it rounds to: it is that outcome's zero or one
  // exactly when the venue prices the side at zero or one, and otherwise near it.
  lemma SettlesAtItsOutcomeExactlyWhenTheVenueDoes(yes: real, no: real, side: string)
    requires SettlementPrice(yes, no, side).Some?
    ensures var price, venue := SettlementPrice(yes, no, side).value, if side == "yes" then yes else no;
            && (Round4(venue) == 0.0 || Round4(venue) == 1.0) && Near(price, Round4(venue))
            && (price == Round4(venue) <==> venue == 0.0 || venue == 1.0)
  {
    RoundsToOutcome(yes);
    RoundsToOutcome(no);
    assert Round4(yes) in {0.0, 1.0} && Round4(no) in {0.0, 1.0};
  }

  // It does settle at such prices: at 0.99996 the price booked is 0.99996.
  lemma SettlementMayMissZeroOrOne()
    ensures SettlementPrice(0.99996, 0.00004, "yes") == Some(0.99996)
  {
    RoundsToOutcome(0.99996);
    RoundsToOutcome(0.00004);
    assert {Round4(0.99996), Round4(0.00004)} == {0.0, 1.0};
  }
}
