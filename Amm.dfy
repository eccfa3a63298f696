/** The constant-product pricing engine of the Trender program: Rust's checked
    u128 arithmetic and the two curve formulas built from it.  `None` stands for
    a `checked_*().unwrap()` that panics, which aborts the whole transaction. */
module Amm {

  const U64_MAX: nat := 0xFFFF_FFFF_FFFF_FFFF
  const U128_MAX: nat := 0xFFFF_FFFF_FFFF_FFFF_FFFF_FFFF_FFFF_FFFF

  type U64 = x: nat | x <= U64_MAX
  type U128 = x: nat | x <= U128_MAX

  datatype Option<+T> = None | Some(value: T) {
    predicate IsFailure() { None? }
    function PropagateFailure<U>(): Option<U> requires None? { None }
    function Extract(): T requires Some? { value }
  }

  // u128::checked_add and friends: `None` exactly where Rust returns `None`.

  function CheckedAdd(a: U128, b: U128): Option<U128> {
    if a + b <= U128_MAX then Some(a + b) else None
  }

  function CheckedSub(a: U128, b: U128): Option<U128> {
    if b <= a then Some(a - b) else None
  }

  function CheckedMul(a: U128, b: U128): Option<U128> {
    if a * b <= U128_MAX then Some(a * b) else None
  }

  function CheckedDiv(a: U128, b: U128): Option<U128> {
    if b == 0 then None else Some(a / b)
  }

  /** `u64::try_from(x)`: fails when `x` does not fit in 64 bits. */
  predicate FitsU64(x: nat) {
    x <= U64_MAX
  }

  /** Lamports a buyer pays for `bought` HYPE from a pool holding
      `reservedSol` lamports against `reservedHype` HYPE:
      (reservedSol * reservedHype) / (reservedHype - bought) - reservedSol.
      It is defined exactly when the product fits in u128 and the buy leaves
      some HYPE in the pool; it is then the largest payment that does not
      raise the product of the reserves. */
  function AmmPrice(reservedSol: U128, reservedHype: U128, bought: U128): (r: Option<U128>)
    ensures r.Some? <==> reservedSol * reservedHype <= U128_MAX && bought < reservedHype
    ensures r.Some? ==> reservedSol + r.value <= U128_MAX
  {
    var k :- CheckedMul(reservedSol, reservedHype);
    var newReservedHype :- CheckedSub(reservedHype, bought);
    var newReservedSol :- CheckedDiv(k, newReservedHype);
    assert newReservedSol >= reservedSol by { QuotientAtLeast(reservedSol, reservedHype, newReservedHype); }
    assert newReservedSol <= k by { DivAtMost(k, newReservedHype); }
    CheckedSub(newReservedSol, reservedSol)
  }

  /** The price is the largest payment that does not raise the product of the
      reserves: paying one lamport more would take the product above k. */
  lemma AmmPriceBounds(reservedSol: U128, reservedHype: U128, bought: U128)
    requires AmmPrice(reservedSol, reservedHype, bought).Some?
    ensures var price := AmmPrice(reservedSol, reservedHype, bought).value;
      (reservedSol + price) * (reservedHype - bought) <= reservedSol * reservedHype
      < (reservedSol + price + 1) * (reservedHype - bought)
  {
    var k := reservedSol * reservedHype;
    var d := reservedHype - bought;
    var q := k / d;
    assert k == q * d + k % d;
    assert (q + 1) * d == q * d + d;
  }

  /** Lamports a seller gets back for `sold` HYPE:
      reservedSol - (reservedSol * reservedHype) / (reservedHype + sold).
      It is defined exactly when the product and the new HYPE reserve fit in
      u128 and the new reserve is not zero; it never exceeds `reservedSol`, and
      it is the smallest refund that does not raise the product of the reserves. */
  function AmmRefund(reservedSol: U128, reservedHype: U128, sold: U128): (r: Option<U128>)
    ensures r.Some? <==>
      reservedSol * reservedHype <= U128_MAX && reservedHype + sold <= U128_MAX && reservedHype + sold > 0
    ensures r.Some? ==> r.value <= reservedSol
  {
    var k :- CheckedMul(reservedSol, reservedHype);
    var newReservedHype :- CheckedAdd(reservedHype, sold);
    var newReservedSol :- CheckedDiv(k, newReservedHype);
    assert newReservedSol <= reservedSol by { QuotientAtMost(reservedSol, reservedHype, newReservedHype); }
    CheckedSub(reservedSol, newReservedSol)
  }

  /** The refund is the smallest one that does not raise the product of the
      reserves: refunding one lamport less would take the product above k. */
  lemma AmmRefundBounds(reservedSol: U128, reservedHype: U128, sold: U128)
    requires AmmRefund(reservedSol, reservedHype, sold).Some?
    ensures var refund := AmmRefund(reservedSol, reservedHype, sold).value;
      (reservedSol - refund) * (reservedHype + sold) <= reservedSol * reservedHype
      < (reservedSol - refund + 1) * (reservedHype + sold)
  {
    var k := reservedSol * reservedHype;
    var d := reservedHype + sold;
    var q := k / d;
    assert k == q * d + k % d;
    assert (q + 1) * d == q * d + d;
  }

  /** Dividing s * h by a positive divisor no larger than h gives at least s. */
  lemma QuotientAtLeast(s: nat, h: nat, d: nat)
    requires 0 < d <= h
    ensures (s * h) / d >= s
  {
    assert s * h >= s * d by { MulMonotone(s, d, h); }
    DivLowerBound(s * h, d, s);
  }

  /** Dividing s * h by a divisor no smaller than h gives at most s. */
  lemma QuotientAtMost(s: nat, h: nat, d: nat)
    requires h <= d && 0 < d
    ensures (s * h) / d <= s
  {
    assert s * h <= s * d by { MulMonotone(s, h, d); }
    DivUpperBound(s * h, d, s);
  }

  lemma MulMonotone(s: nat, a: nat, b: nat)
    requires a <= b
    ensures s * a <= s * b
  {
    assert s * b == s * a + s * (b - a);
  }

  lemma DivLowerBound(n: nat, d: nat, q: nat)
    requires 0 < d && q * d <= n
    ensures n / d >= q
  {
    var r := n / d;
    assert n == r * d + n % d;
    if r < q {
      MulMonotone(d, r + 1, q);
    }
  }

  lemma DivUpperBound(n: nat, d: nat, q: nat)
    requires 0 < d && n <= q * d
    ensures n / d <= q
  {
    var r := n / d;
    assert n == r * d + n % d;
    if r > q {
      MulMonotone(d, q + 1, r);
    }
  }

  lemma DivAtMost(n: nat, d: nat)
    requires 0 < d
    ensures n / d <= n
  {
    DivUpperBound(n, d, n);
  }
}
