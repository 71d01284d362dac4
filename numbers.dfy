/** The twelve Rust integer widths the math types are instantiated with,
    the `SignCheck` and `Zero` traits over them, and the checked arithmetic
    of a debug build (overflow and division by zero abort). `usize` and
    `isize` are taken as 64-bit. */
module Numbers {
  import opened Wrappers

  datatype IntKind = Usize | U8 | U16 | U32 | U64 | U128 | Isize | I8 | I16 | I32 | I64 | I128

  predicate IsSigned(k: IntKind)
  {
    k.Isize? || k.I8? || k.I16? || k.I32? || k.I64? || k.I128?
  }

  function Bits(k: IntKind): (n: nat)
    ensures n >= 8
  {
    match k
    case U8 | I8 => 8
    case U16 | I16 => 16
    case U32 | I32 => 32
    case Usize | Isize | U64 | I64 => 64
    case U128 | I128 => 128
  }

  function Pow2(n: nat): (p: nat)
    ensures p >= 1
  {
    if n == 0 then 1 else 2 * Pow2(n - 1)
  }

  lemma {:induction false} Pow2Monotone(m: nat, n: nat)
    requires m <= n
    ensures Pow2(m) <= Pow2(n)
  {
    if m < n {
      Pow2Monotone(m, n - 1);
    }
  }

  function MinOf(k: IntKind): int
  {
    if IsSigned(k) then -(Pow2(Bits(k) - 1) as int) else 0
  }

  function MaxOf(k: IntKind): int
  {
    if IsSigned(k) then Pow2(Bits(k) - 1) - 1 else Pow2(Bits(k)) - 1
  }

  /** The values a variable of kind `k` can hold. */
  predicate InRange(k: IntKind, v: int)
  {
    MinOf(k) <= v <= MaxOf(k)
  }

  /** `SignCheck::is_positive`: the sign test of signed kinds, and a constant
      true for unsigned kinds. */
  function IsPositive(k: IntKind, v: int): bool
  {
    if IsSigned(k) then v > 0 else true
  }

  /** `SignCheck::is_negative`: the sign test of signed kinds, and a
      constant false for unsigned kinds. */
  function IsNegative(k: IntKind, v: int): bool
  {
    if IsSigned(k) then v < 0 else false
  }

  /** On every value a kind can hold, `is_negative` is exactly "below zero". */
  lemma IsNegativeExact(k: IntKind, v: int)
    requires InRange(k, v)
    ensures IsNegative(k, v) <==> v < 0
  {
  }

  /** `is_positive` is "above zero" for signed kinds, but holds for 0 too
      for unsigned kinds: 0 is neither positive nor negative only when
      signed. */
  lemma IsPositiveOfZero(k: IntKind)
    ensures IsPositive(k, 0) <==> !IsSigned(k)
    ensures !IsNegative(k, 0)
  {
  }

  /** `Zero::zero`: the kind's zero, a value it holds that is not negative. */
  function Zero(k: IntKind): (z: int)
    ensures InRange(k, z) && !IsNegative(k, z) && !(IsSigned(k) && IsPositive(k, z))
  {
    0
  }

  /** The error `TryInto` reports for a value the target kind cannot hold. */
  datatype ConversionError = TryFromIntError

  /** `TryInto` from one integer kind to another. */
  function TryConvert(to: IntKind, v: int): (r: Result<int, ConversionError>)
    ensures r.Success? <==> InRange(to, v)
    ensures r.Success? ==> r.value == v
  {
    if InRange(to, v) then Success(v) else Failure(TryFromIntError)
  }

  datatype Operator = Plus | Minus | Times | Over

  const AddOverflow := "attempt to add with overflow"
  const SubOverflow := "attempt to subtract with overflow"
  const MulOverflow := "attempt to multiply with overflow"
  const DivOverflow := "attempt to divide with overflow"
  const DivByZero := "attempt to divide by zero"

  /** Integer division rounding toward zero, as Rust's `/` does. */
  function TruncDiv(a: int, b: int): int
    requires b != 0
  {
    if a >= 0 && b > 0 then a / b
    else if a >= 0 then -(a / -b)
    else if b > 0 then -((-a) / b)
    else (-a) / (-b)
  }

  /** The exact result of a binary operator, before range checking. */
  function Exact(op: Operator, x: int, y: int): int
    requires op == Over ==> y != 0
  {
    match op
    case Plus => x + y
    case Minus => x - y
    case Times => x * y
    case Over => TruncDiv(x, y)
  }

  function OverflowMessage(op: Operator): string
  {
    match op
    case Plus => AddOverflow
    case Minus => SubOverflow
    case Times => MulOverflow
    case Over => DivOverflow
  }

  /** A binary operator on kind `k` as a debug build runs it: division by
      zero aborts, and so does a result the kind cannot hold. */
  function Apply(k: IntKind, op: Operator, x: int, y: int): (r: Abortable<int>)
    ensures op == Over && y == 0 ==> r == Abort(DivByZero)
    ensures !(op == Over && y == 0) ==>
      (r.Done? <==> InRange(k, Exact(op, x, y)))
      && (r.Done? ==> r.value == Exact(op, x, y))
      && (r.Abort? ==> r.message == OverflowMessage(op))
  {
    if op == Over && y == 0 then Abort(DivByZero)
    else if InRange(k, Exact(op, x, y)) then Done(Exact(op, x, y))
    else Abort(OverflowMessage(op))
  }

  /** Truncating division undoes multiplication by a non-zero divisor. */
  lemma TruncDivOfProduct(a: int, b: int)
    requires b != 0
    ensures TruncDiv(a * b, b) == a
  {
    if a >= 0 && b > 0 {
      DivOfProduct(a, b);
    } else if a >= 0 {
      assert a * b == -(a * -b);
      DivOfProduct(a, -b);
    } else if b > 0 {
      assert a * b == -((-a) * b);
      DivOfProduct(-a, b);
    } else {
      assert a * b == (-a) * (-b);
      DivOfProduct(-a, -b);
    }
  }

  lemma DivOfProduct(a: nat, b: nat)
    requires b > 0
    ensures (a * b) / b == a
  {
    var q := (a * b) / b;
    var r := (a * b) % b;
    assert a * b == q * b + r && 0 <= r < b;
    assert (a - q) * b == r;
    if a > q {
      ProductAtLeast(a - q, b);
    } else if a < q {
      ProductAtLeast(q - a, b);
    }
  }

  lemma ProductAtLeast(x: int, b: nat)
    requires x >= 1
    ensures x * b >= b
  {
    assert x * b == (x - 1) * b + b;
  }

  /** Subtracting what was added gives back the original value. */
  lemma PlusThenMinus(k: IntKind, x: int, y: int)
    requires InRange(k, x) && InRange(k, y) && Apply(k, Plus, x, y).Done?
    ensures Apply(k, Minus, Apply(k, Plus, x, y).value, y) == Done(x)
  {
  }

  /** Dividing by the factor multiplied in gives back the original value. */
  lemma TimesThenOver(k: IntKind, x: int, y: int)
    requires InRange(k, x) && y != 0 && Apply(k, Times, x, y).Done?
    ensures Apply(k, Over, Apply(k, Times, x, y).value, y) == Done(x)
  {
    TruncDivOfProduct(x, y);
  }
}
