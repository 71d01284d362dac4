/** The buffer-size arithmetic of the renderer, as a debug build runs it:
    the row pitch of a staging buffer (a width rounded up with a bit mask)
    and the padding of a buffer length to the device's non-coherent atom
    size. Every checked `u32`/`u64` operation aborts on overflow, underflow
    or division by zero. */
module Layouts {
  import opened Wrappers
  import Numbers

  const U32Limit: nat := 0x1_0000_0000
  const U64Limit: nat := 0x1_0000_0000_0000_0000

  type U32 = x: nat | x < U32Limit
  type U64 = x: nat | x < U64Limit

  /** Bitwise `&` of two non-negative integers. */
  function And(a: nat, b: nat): nat
  {
    if a == 0 || b == 0 then 0
    else 2 * And(a / 2, b / 2) + (if a % 2 == 1 && b % 2 == 1 then 1 else 0)
  }

  /** Bitwise `!` of a `u32`. */
  function Not32(m: U32): U32
  {
    U32Limit - 1 - m
  }

  /** `((len + atom - 1) / atom) * atom` in `u64`: the sum may overflow,
      the decrement underflows when both are 0, and the division needs a
      non-zero atom; the final product never exceeds the sum, so it cannot
      overflow. */
  function PadToAtom(len: U64, atom: U64): (r: Abortable<U64>)
    ensures r.Done? <==> len + atom < U64Limit && atom > 0
    ensures len + atom >= U64Limit ==> r == Abort(Numbers.AddOverflow)
    ensures len + atom == 0 ==> r == Abort(Numbers.SubOverflow)
    ensures len + atom < U64Limit && len > 0 && atom == 0 ==> r == Abort(Numbers.DivByZero)
  {
    if len + atom >= U64Limit then Abort(Numbers.AddOverflow)
    else if len + atom == 0 then Abort(Numbers.SubOverflow)
    else if atom == 0 then Abort(Numbers.DivByZero)
    else
      CeilMultiple(len, atom);
      Done(RoundDown(len + atom - 1, atom))
  }

  /** The padded length is the least multiple of the atom size that is at
      least the length. */
  lemma PadToAtomIsLeastMultiple(len: U64, atom: U64)
    requires len + atom < U64Limit && atom > 0
    ensures PadToAtom(len, atom).Done?
    ensures LeastMultipleFrom(PadToAtom(len, atom).value, len, atom)
  {
    CeilMultiple(len, atom);
  }

  /** `r` is the least multiple of `a` that is at least `x`. */
  predicate LeastMultipleFrom(r: nat, x: nat, a: nat)
    requires a > 0
  {
    r % a == 0 && x <= r < x + a
  }

  /** The largest multiple of `a` that is at most `v`. */
  function RoundDown(v: nat, a: nat): nat
    requires a > 0
  {
    (v / a) * a
  }

  /** `(x + a - 1) / a * a` is the least multiple of `a` from `x` on. */
  lemma CeilMultiple(x: nat, a: nat)
    requires a > 0
    ensures LeastMultipleFrom(RoundDown(x + a - 1, a), x, a)
  {
    var q := (x + a - 1) / a;
    var rem := (x + a - 1) % a;
    assert x + a - 1 == q * a + rem && 0 <= rem < a;
    MultipleMod(q, a);
  }

  lemma MultipleMod(q: int, a: nat)
    requires a > 0
    ensures (q * a) % a == 0
  {
    var r := (q * a) % a;
    var d := (q * a) / a;
    assert q * a == d * a + r;
    assert (q - d) * a == r;
    if q - d >= 1 {
      Numbers.ProductAtLeast(q - d, a);
    } else if q - d <= -1 {
      Numbers.ProductAtLeast(d - q, a);
    }
  }

  /** The layout of a staging buffer: bytes per row and the upload sizes. */
  datatype Layout = Layout(rowPitch: U32, uploadSize: U64, paddedUploadSize: U64)

  /** `row_alignment_mask = alignment as u32 - 1` (the cast keeps the low
      32 bits; the decrement underflows on 0) and
      `row_pitch = (width * 4 + mask) & !mask`, all in `u32`; a pixel is
      4 bytes. */
  function RowPitch(width: U32, alignment: U64): (r: Abortable<U32>)
    ensures r.Done? <==> alignment % U32Limit != 0 && width * 4 + alignment % U32Limit - 1 < U32Limit
    ensures alignment % U32Limit == 0 ==> r == Abort(Numbers.SubOverflow)
  {
    var mask := alignment % U32Limit - 1;
    if mask < 0 then Abort(Numbers.SubOverflow)
    else if width * 4 >= U32Limit then Abort(Numbers.MulOverflow)
    else if width * 4 + mask >= U32Limit then Abort(Numbers.AddOverflow)
    else
      AndAtMost(width * 4 + mask, Not32(mask));
      Done(And(width * 4 + mask, Not32(mask)))
  }

  /** The whole layout computed when texture bindings are created:
      `upload_size = (height * row_pitch) as u64` (the product is checked in
      `u32`), then padded to the atom. */
  function LayoutFor(width: U32, height: U32, alignment: U64, atom: U64): (r: Abortable<Layout>)
    ensures r.Done? <==>
      RowPitch(width, alignment).Done? && height * RowPitch(width, alignment).value < U32Limit
      && PadToAtom(height * RowPitch(width, alignment).value, atom).Done?
    ensures r.Done? ==>
      r.value.rowPitch == RowPitch(width, alignment).value
      && r.value.uploadSize == height * r.value.rowPitch
      && r.value.paddedUploadSize == PadToAtom(r.value.uploadSize, atom).value
  {
    match RowPitch(width, alignment)
    case Abort(m) => Abort(m)
    case Done(pitch) =>
      if height * pitch >= U32Limit then Abort(Numbers.MulOverflow)
      else
        match PadToAtom(height * pitch, atom)
        case Abort(m) => Abort(m)
        case Done(padded) => Done(Layout(pitch, height * pitch, padded))
  }

  /** A computed layout has room for every row: the pitch covers a row of
      pixels and the padded size covers all rows. */
  lemma LayoutFits(width: U32, height: U32, alignment: U64, atom: U64)
    requires LayoutFor(width, height, alignment, atom).Done?
    ensures width * 4 <= LayoutFor(width, height, alignment, atom).value.rowPitch
    ensures height * LayoutFor(width, height, alignment, atom).value.rowPitch
      <= LayoutFor(width, height, alignment, atom).value.paddedUploadSize
  {
    var l := LayoutFor(width, height, alignment, atom).value;
    RowPitchCoversRow(width, alignment);
    PadToAtomIsLeastMultiple(l.uploadSize, atom);
  }

  /** Whatever the alignment, a row pitch that is computed covers a whole
      row: it is at least `width * 4` and exceeds it by less than the
      alignment's low 32 bits. */
  lemma RowPitchCoversRow(width: U32, alignment: U64)
    requires RowPitch(width, alignment).Done?
    ensures width * 4 <= RowPitch(width, alignment).value < width * 4 + alignment % U32Limit
  {
    var mask := alignment % U32Limit - 1;
    var sum := width * 4 + mask;
    Pow2Of32();
    AndSplit(sum, mask, 32);
    AndAtMost(sum, mask);
    AndAtMost(sum, Not32(mask));
    AndAtMostLeft(sum, Not32(mask));
  }

  /** A mask and its complement split a value into two parts. */
  lemma {:induction false} AndSplit(v: nat, m: nat, n: nat)
    requires v < Numbers.Pow2(n) && m < Numbers.Pow2(n)
    ensures And(v, m) + And(v, Numbers.Pow2(n) - 1 - m) == v
  {
    if n > 0 && v > 0 {
      var c := Numbers.Pow2(n) - 1 - m;
      assert c / 2 == Numbers.Pow2(n - 1) - 1 - m / 2;
      assert c % 2 == 1 - m % 2;
      AndHalves(v, m);
      AndHalves(v, c);
      AndSplit(v / 2, m / 2, n - 1);
    }
  }

  /** One step of `And`, valid for all arguments. */
  lemma AndHalves(a: nat, b: nat)
    ensures And(a, b) == 2 * And(a / 2, b / 2) + (if a % 2 == 1 && b % 2 == 1 then 1 else 0)
  {
    if a == 0 || b == 0 {
      assert And(a / 2, b / 2) == 0;
    }
  }

  lemma AndAtMostLeft(a: nat, b: nat)
    ensures And(a, b) <= a
  {
  }

  /** For a power-of-two alignment that a `u32` holds, and a width whose
      rounding does not overflow, the row pitch is the least multiple of
      the alignment that is at least `width * 4`. */
  lemma RowPitchIsLeastMultiple(width: U32, p: nat)
    requires p < 32
    requires width * 4 + Numbers.Pow2(p) - 1 < U32Limit
    ensures RowPitch(width, Numbers.Pow2(p)).Done?
    ensures LeastMultipleFrom(RowPitch(width, Numbers.Pow2(p)).value, width * 4, Numbers.Pow2(p))
  {
    var a := Numbers.Pow2(p);
    assert a < U32Limit by {
      Pow2Below(p, 32);
      Pow2Of32();
    }
    RowPitchOfCast(width, a);
    RoundUpMask(width * 4, a, p);
  }

  /** An alignment that fits a `u32` is kept by the cast, and its mask's
      complement is `2^32 - alignment`. */
  lemma RowPitchOfCast(width: U32, a: U64)
    requires 0 < a < U32Limit && width * 4 + a - 1 < U32Limit
    ensures RowPitch(width, a) == Done(And(width * 4 + a - 1, U32Limit - a))
  {
    SmallMod(a, U32Limit);
  }

  /** Adding `2^p - 1` and masking off the low `p` bits rounds up to a
      multiple of `2^p`. */
  lemma RoundUpMask(x: nat, a: nat, p: nat)
    requires a == Numbers.Pow2(p) && p < 32 && x + a - 1 < U32Limit
    ensures LeastMultipleFrom(And(x + a - 1, U32Limit - a), x, a)
  {
    assert a <= Numbers.Pow2(32) == U32Limit by {
      Numbers.Pow2Monotone(p, 32);
      Pow2Of32();
    }
    AndHighMask(x + a - 1, 32, p);
    CeilMultiple(x, a);
  }

  lemma SmallMod(a: nat, b: nat)
    requires a < b
    ensures a % b == a
  {
    DivUnique(a, b, 0, a);
  }

  /** Masking with `2^n - 2^p` clears the low `p` bits of a value below `2^n`. */
  lemma {:induction false} AndHighMask(v: nat, n: nat, p: nat)
    requires p <= n && v < Numbers.Pow2(n) && Numbers.Pow2(p) <= Numbers.Pow2(n)
    ensures And(v, Numbers.Pow2(n) - Numbers.Pow2(p)) == RoundDown(v, Numbers.Pow2(p))
  {
    var m := Numbers.Pow2(n) - Numbers.Pow2(p);
    if p == 0 {
      AndAllOnes(v, n);
    } else if v == 0 {
    } else if m == 0 {
      DivUnique(v, Numbers.Pow2(p), 0, v);
    } else {
      var c := Numbers.Pow2(p - 1);
      var m2 := Numbers.Pow2(n - 1) - c;
      Numbers.Pow2Monotone(p - 1, n - 1);
      assert Numbers.Pow2(p) == 2 * c && m == 2 * m2;
      AndEven(v, m2);
      AndHighMask(v / 2, n - 1, p - 1);
      AndHighMaskHalf(v, c, m2);
    }
  }

  /** The step of `AndHighMask`: masking `v` with `2 m2` rounds it down to a
      multiple of `2 c` when masking `v / 2` with `m2` rounds down to `c`. */
  lemma AndHighMaskHalf(v: nat, c: nat, m2: nat)
    requires c > 0
    requires And(v, 2 * m2) == 2 * And(v / 2, m2)
    requires And(v / 2, m2) == RoundDown(v / 2, c)
    ensures And(v, 2 * m2) == RoundDown(v, 2 * c)
  {
    DivHalf(v, c);
    Twice(v / (2 * c), c);
  }

  /** `v & 2k` is twice `(v / 2) & k`. */
  lemma AndEven(v: nat, k: nat)
    requires v > 0 && k > 0
    ensures And(v, 2 * k) == 2 * And(v / 2, k)
  {
  }

  lemma Twice(q: int, c: int)
    ensures 2 * (q * c) == q * (2 * c)
  {
  }

  /** Masking with `2^n - 1` keeps every value below `2^n`. */
  lemma {:induction false} AndAllOnes(v: nat, n: nat)
    requires v < Numbers.Pow2(n)
    ensures And(v, Numbers.Pow2(n) - 1) == v
  {
    if n > 0 && v > 0 {
      assert (Numbers.Pow2(n) - 1) / 2 == Numbers.Pow2(n - 1) - 1 && (Numbers.Pow2(n) - 1) % 2 == 1;
      AndAllOnes(v / 2, n - 1);
    }
  }

  /** Halving first, then dividing by `c`, divides by `2 * c`. */
  lemma DivHalf(v: nat, c: nat)
    requires c > 0
    ensures (v / 2) / c == v / (2 * c)
  {
    var q := v / (2 * c);
    var r := v % (2 * c);
    var qc := q * c;
    assert q * (2 * c) == 2 * qc;
    assert v == 2 * qc + r;
    assert v / 2 == qc + r / 2;
    DivUnique(v / 2, c, q, r / 2);
  }

  /** Quotient and remainder are determined by `v == q * d + r`, `0 <= r < d`. */
  lemma DivUnique(v: int, d: nat, q: int, r: int)
    requires d > 0 && v == q * d + r && 0 <= r < d
    ensures v / d == q && v % d == r
  {
    var q' := v / d;
    var r' := v % d;
    assert v == q' * d + r';
    assert (q - q') * d == r' - r;
    if q - q' >= 1 {
      Numbers.ProductAtLeast(q - q', d);
    } else if q' - q >= 1 {
      Numbers.ProductAtLeast(q' - q, d);
    }
  }

  lemma AndAtMost(a: nat, b: nat)
    ensures And(a, b) <= b
  {
  }

  lemma Pow2Below(p: nat, n: nat)
    requires p < n
    ensures Numbers.Pow2(p) < Numbers.Pow2(n)
  {
    Numbers.Pow2Monotone(p + 1, n);
  }

  /** `2^(a + b) == 2^a * 2^b`. */
  lemma {:induction false} Pow2Add(a: nat, b: nat)
    ensures Numbers.Pow2(a + b) == Numbers.Pow2(a) * Numbers.Pow2(b)
  {
    if b > 0 {
      Pow2Add(a, b - 1);
      assert Numbers.Pow2(a + b) == 2 * Numbers.Pow2(a + b - 1);
    }
  }

  lemma Pow2Of32()
    ensures Numbers.Pow2(32) == U32Limit
  {
    assert Numbers.Pow2(2) == 4;
    assert Numbers.Pow2(4) == 16 by { Pow2Add(2, 2); }
    assert Numbers.Pow2(8) == 256 by { Pow2Add(4, 4); }
    assert Numbers.Pow2(16) == 65536 by { Pow2Add(8, 8); }
    Pow2Add(16, 16);
  }
}
