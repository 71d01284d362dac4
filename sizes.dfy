/** `Size<T>`: a width and a height of one integer kind, meant never to be
    negative. */
module Sizes {
  import opened Wrappers
  import opened Numbers

  datatype Size = Size(width: int, height: int)

  const WidthNegative := "Size doesn't accepts negative values. Width can't be negative."
  const HeightNegative := "Size doesn't accepts negative values. Height can't be negative."

  /** Both components are values kind `k` holds. */
  predicate Holds(k: IntKind, s: Size)
  {
    InRange(k, s.width) && InRange(k, s.height)
  }

  /** `Size::new`: refuses a negative width, then a negative height. */
  function New(k: IntKind, width: int, height: int): (r: Result<Size, string>)
    requires InRange(k, width) && InRange(k, height)
    ensures width < 0 ==> r == Failure(WidthNegative)
    ensures width >= 0 && height < 0 ==> r == Failure(HeightNegative)
    ensures width >= 0 && height >= 0 ==> r == Success(Size(width, height))
  {
    IsNegativeExact(k, width);
    IsNegativeExact(k, height);
    if IsNegative(k, width) then Failure(WidthNegative)
    else if IsNegative(k, height) then Failure(HeightNegative)
    else Success(Size(width, height))
  }

  /** `Size::with`: each negative argument is replaced by zero before
      `new`, so the result is never negative and `new` never fails. */
  function With(k: IntKind, width: int, height: int): (s: Size)
    requires InRange(k, width) && InRange(k, height)
    ensures s.width >= 0 && s.height >= 0 && Holds(k, s)
    ensures width >= 0 ==> s.width == width
    ensures height >= 0 ==> s.height == height
    ensures width < 0 ==> s.width == 0
    ensures height < 0 ==> s.height == 0
  {
    IsNegativeExact(k, width);
    IsNegativeExact(k, height);
    match New(k, if IsNegative(k, width) then Zero(k) else width, if IsNegative(k, height) then Zero(k) else height)
    case Success(s) => s
    case Failure(_) => Size(0, 0)
  }

  /** `with` agrees with `new` wherever `new` succeeds. */
  lemma WithAgreesWithNew(k: IntKind, width: int, height: int)
    requires InRange(k, width) && InRange(k, height)
    requires New(k, width, height).Success?
    ensures With(k, width, height) == New(k, width, height).value
  {
  }

  /** `Size::try_with`: converts the width, then the height, from kind
      `from` to kind `k`, returning the first conversion error; otherwise
      it is `with`. */
  function TryWith(from: IntKind, k: IntKind, width: int, height: int): (r: Result<Size, ConversionError>)
    requires InRange(from, width) && InRange(from, height)
    ensures r.Failure? <==> !InRange(k, width) || !InRange(k, height)
    ensures r.Success? ==> r.value == With(k, width, height)
  {
    match TryConvert(k, width)
    case Failure(e) => Failure(e)
    case Success(w) =>
      match TryConvert(k, height)
      case Failure(e) => Failure(e)
      case Success(h) => Success(With(k, w, h))
  }

  /** `From<(T, T)>`: copies the pair, with no sign check at all. */
  function FromPair(pair: (int, int)): (s: Size)
    ensures s.width == pair.0 && s.height == pair.1
  {
    Size(pair.0, pair.1)
  }

  /** Unlike `new` and `with`, the tuple conversion yields a negative size. */
  lemma FromPairAdmitsNegative()
    ensures FromPair((-1, 0)).width < 0 && New(I32, -1, 0).Failure?
  {
  }

  /** The width's result first, so the width's abort is the one reported. */
  function Combine(width: Abortable<int>, height: Abortable<int>): (r: Abortable<Size>)
    ensures r.Done? <==> width.Done? && height.Done?
    ensures r.Done? ==> r.value == Size(width.value, height.value)
    ensures width.Abort? ==> r == Abort(width.message)
    ensures width.Done? && height.Abort? ==> r == Abort(height.message)
  {
    if width.Abort? then Abort(width.message)
    else if height.Abort? then Abort(height.message)
    else Done(Size(width.value, height.value))
  }

  /** `+`, `-`, `*` and `/` (and `+=` with a size): componentwise. */
  function Binary(k: IntKind, op: Operator, a: Size, b: Size): (r: Abortable<Size>)
    ensures r.Done? <==> Apply(k, op, a.width, b.width).Done? && Apply(k, op, a.height, b.height).Done?
    ensures r.Done? ==>
      r.value == Size(Apply(k, op, a.width, b.width).value, Apply(k, op, a.height, b.height).value)
  {
    Combine(Apply(k, op, a.width, b.width), Apply(k, op, a.height, b.height))
  }

  /** `+=` with a scalar: the scalar is added to both components. */
  function AddScalar(k: IntKind, s: Size, x: int): (r: Abortable<Size>)
    ensures r == Binary(k, Plus, s, Size(x, x))
  {
    Combine(Apply(k, Plus, s.width, x), Apply(k, Plus, s.height, x))
  }

  /** Subtracting a size that was added gives the original size back. */
  lemma PlusThenMinus(k: IntKind, a: Size, b: Size)
    requires Holds(k, a) && Holds(k, b) && Binary(k, Plus, a, b).Done?
    ensures Binary(k, Minus, Binary(k, Plus, a, b).value, b) == Done(a)
  {
    Numbers.PlusThenMinus(k, a.width, b.width);
    Numbers.PlusThenMinus(k, a.height, b.height);
  }

  /** Dividing by a size with non-zero components undoes multiplying by it. */
  lemma TimesThenOver(k: IntKind, a: Size, b: Size)
    requires Holds(k, a) && b.width != 0 && b.height != 0 && Binary(k, Times, a, b).Done?
    ensures Binary(k, Over, Binary(k, Times, a, b).value, b) == Done(a)
  {
    Numbers.TimesThenOver(k, a.width, b.width);
    Numbers.TimesThenOver(k, a.height, b.height);
  }

  function SetWidth(s: Size, width: int): (r: Size)
    ensures r.width == width && r.height == s.height
  {
    s.(width := width)
  }

  function SetHeight(s: Size, height: int): (r: Size)
    ensures r.height == height && r.width == s.width
  {
    s.(height := height)
  }

  /** `set` is `set_width` followed by `set_height`, in either order. */
  function Set(s: Size, width: int, height: int): (r: Size)
    ensures r == SetHeight(SetWidth(s, width), height) == SetWidth(SetHeight(s, height), width)
  {
    Size(width, height)
  }
}
