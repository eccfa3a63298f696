/** The client-side copy of the curve formulas in the integration test,
    written with BigNum arithmetic: products and differences are exact and
    signed, and division truncates toward zero and throws on a zero divisor.
    The lemmas show the copy computes the program's integers wherever the
    program does not abort, and what it computes where the program aborts. */
module Mirror {
  import opened Amm

  /** BigNum `div`: the quotient truncated toward zero, so -7 / 2 == -3,
      where Dafny's own `/` on `int` would give -4. */
  function TruncDiv(a: int, d: int): (q: int)
    requires d != 0
    ensures a >= 0 && d > 0 ==> q == a / d
    ensures a >= 0 && d < 0 ==> q == -(a / -d)
  {
    var m := (if a < 0 then -a else a) / (if d < 0 then -d else d);
    if (a < 0) == (d < 0) then m else -m
  }

  /** BigNum `div`, which throws on a zero divisor. */
  function BnDiv(a: int, d: int): Option<int> {
    if d == 0 then None else Some(TruncDiv(a, d))
  }

  /** `ammPrice` of the test: k / (reservedHype - hypeBought) - reservedSol. */
  function AmmPriceMirror(reservedSol: int, reservedHype: int, hypeBought: int): Option<int> {
    var k := reservedSol * reservedHype;
    var newReservedSol :- BnDiv(k, reservedHype - hypeBought);
    Some(newReservedSol - reservedSol)
  }

  /** `ammRefund` of the test: reservedSol - k / (reservedHype + hypeSold). */
  function AmmRefundMirror(reservedSol: int, reservedHype: int, hypeSold: int): Option<int> {
    var k := reservedSol * reservedHype;
    var newReservedSol :- BnDiv(k, reservedHype + hypeSold);
    Some(reservedSol - newReservedSol)
  }

  /** `quote.mul(percent).div(100)`: a slippage bound `percent`% of a quote. */
  function WithTolerance(quote: int, percent: int): int {
    TruncDiv(quote * percent, 100)
  }

  /** Where the product of the reserves fits in u128, the program's price is
      the mirror's for every buy that leaves HYPE in the pool, and the program
      aborts on every other buy. */
  lemma AmmPriceMirrorAgrees(reservedSol: U128, reservedHype: U128, bought: U128)
    requires reservedSol * reservedHype <= U128_MAX
    ensures bought < reservedHype ==>
      AmmPriceMirror(reservedSol, reservedHype, bought) == AmmPrice(reservedSol, reservedHype, bought)
    ensures bought >= reservedHype ==> AmmPrice(reservedSol, reservedHype, bought).None?
  {
    if bought < reservedHype {
      var k := reservedSol * reservedHype;
      var d := reservedHype - bought;
      assert TruncDiv(k, d) == k / d;
    }
  }

  /** When a buy asks for exactly the whole reserve, the mirror throws just as
      the program aborts; when it asks for more, the program aborts but the
      mirror returns a quote of at most minus the SOL reserve. */
  lemma AmmPriceMirrorBeyondReserve(reservedSol: U128, reservedHype: U128, bought: U128)
    requires reservedHype <= bought
    ensures AmmPrice(reservedSol, reservedHype, bought).None?
    ensures bought == reservedHype <==> AmmPriceMirror(reservedSol, reservedHype, bought).None?
    ensures bought > reservedHype ==> AmmPriceMirror(reservedSol, reservedHype, bought).value + reservedSol <= 0
  {
    if bought > reservedHype {
      NegativeDivisor(reservedSol * reservedHype, reservedHype - bought);
    }
  }

  /** BigNum division of a non-negative number by a negative one is not
      positive. */
  lemma NegativeDivisor(k: nat, d: int)
    requires d < 0
    ensures TruncDiv(k, d) <= 0
  {
  }

  /** Where the product of the reserves and the new HYPE reserve fit in u128,
      the program's refund and the mirror's are the same, including the
      abort of both when the pool holds no HYPE and nothing is sold. */
  lemma AmmRefundMirrorAgrees(reservedSol: U128, reservedHype: U128, sold: U128)
    requires reservedSol * reservedHype <= U128_MAX && reservedHype + sold <= U128_MAX
    ensures AmmRefundMirror(reservedSol, reservedHype, sold) == AmmRefund(reservedSol, reservedHype, sold)
  {
    if reservedHype + sold > 0 {
      var k := reservedSol * reservedHype;
      var d := reservedHype + sold;
      assert TruncDiv(k, d) == k / d;
    }
  }

  /** A non-negative quote raised by a tolerance is at least the quote, and
      lowered by one is at most the quote and not negative. */
  lemma ToleranceBrackets(quote: nat, percent: nat)
    ensures percent >= 100 ==> quote <= WithTolerance(quote, percent)
    ensures percent <= 100 ==> 0 <= WithTolerance(quote, percent) <= quote
  {
    if percent >= 100 {
      MulMonotone(quote, 100, percent);
      assert quote * 100 == 100 * quote;
      DivLowerBound(quote * percent, 100, quote);
    } else {
      MulMonotone(quote, percent, 100);
      assert quote * 100 == 100 * quote;
      DivUpperBound(quote * percent, 100, quote);
    }
  }
}
