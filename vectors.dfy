/** `Vector2<T>`: two coordinates of one integer kind, readable and
    writable by index. */
module Vectors {
  import opened Wrappers
  import opened Numbers

  datatype Vector2 = Vector2(x: int, y: int)

  const IndexOutOfRange := "Index is out of range, accepted indexes are [0, 1]"

  predicate Holds(k: IntKind, v: Vector2)
  {
    InRange(k, v.x) && InRange(k, v.y)
  }

  /** `Vector2::new`: both coordinates at the default, 0. */
  function New(): (v: Vector2)
    ensures v.x == 0 && v.y == 0
  {
    Vector2(0, 0)
  }

  /** `Vector2::with`: exactly the given coordinates. */
  function With(x: int, y: int): (v: Vector2)
    ensures v.x == x && v.y == y
  {
    Vector2(x, y)
  }

  /** `Vector2::try_with`: converts x, then y, returning the first
      conversion error; no sign check. */
  function TryWith(from: IntKind, k: IntKind, x: int, y: int): (r: Result<Vector2, ConversionError>)
    requires InRange(from, x) && InRange(from, y)
    ensures r.Failure? <==> !InRange(k, x) || !InRange(k, y)
    ensures r.Success? ==> r.value == Vector2(x, y)
  {
    match TryConvert(k, x)
    case Failure(e) => Failure(e)
    case Success(a) =>
      match TryConvert(k, y)
      case Failure(e) => Failure(e)
      case Success(b) => Success(Vector2(a, b))
  }

  /** `v[index]`: 0 is x, 1 is y, anything else aborts. */
  function Index(v: Vector2, index: nat): (r: Abortable<int>)
    ensures r.Done? <==> index <= 1
    ensures index == 0 ==> r == Done(v.x)
    ensures index == 1 ==> r == Done(v.y)
    ensures index > 1 ==> r == Abort(IndexOutOfRange)
  {
    if index == 0 then Done(v.x)
    else if index == 1 then Done(v.y)
    else Abort(IndexOutOfRange)
  }

  /** `v[index] = value` through `IndexMut`, with the same bounds. */
  function SetIndex(v: Vector2, index: nat, value: int): (r: Abortable<Vector2>)
    ensures r.Done? <==> index <= 1
    ensures index > 1 ==> r == Abort(IndexOutOfRange)
  {
    if index == 0 then Done(v.(x := value))
    else if index == 1 then Done(v.(y := value))
    else Abort(IndexOutOfRange)
  }

  /** A write through an index is read back at that index and leaves the
      other coordinate as it was. */
  lemma ReadAfterWrite(v: Vector2, index: nat, value: int, other: nat)
    requires index <= 1 && other <= 1 && other != index
    ensures Index(SetIndex(v, index, value).value, index) == Done(value)
    ensures Index(SetIndex(v, index, value).value, other) == Index(v, other)
  {
  }

  function Combine(x: Abortable<int>, y: Abortable<int>): (r: Abortable<Vector2>)
    ensures r.Done? <==> x.Done? && y.Done?
    ensures r.Done? ==> r.value == Vector2(x.value, y.value)
    ensures x.Abort? ==> r == Abort(x.message)
    ensures x.Done? && y.Abort? ==> r == Abort(y.message)
  {
    if x.Abort? then Abort(x.message)
    else if y.Abort? then Abort(y.message)
    else Done(Vector2(x.value, y.value))
  }

  /** `+`, `-`, `*` and `/` (and `+=` with a vector): componentwise. */
  function Binary(k: IntKind, op: Operator, a: Vector2, b: Vector2): (r: Abortable<Vector2>)
    ensures r.Done? <==> Apply(k, op, a.x, b.x).Done? && Apply(k, op, a.y, b.y).Done?
    ensures r.Done? ==> r.value == Vector2(Apply(k, op, a.x, b.x).value, Apply(k, op, a.y, b.y).value)
  {
    Combine(Apply(k, op, a.x, b.x), Apply(k, op, a.y, b.y))
  }

  /** `+=` with a scalar: the scalar is added to both coordinates. */
  function AddScalar(k: IntKind, v: Vector2, s: int): (r: Abortable<Vector2>)
    ensures r == Binary(k, Plus, v, Vector2(s, s))
  {
    Combine(Apply(k, Plus, v.x, s), Apply(k, Plus, v.y, s))
  }

  /** Subtracting a vector that was added gives the original vector back. */
  lemma PlusThenMinus(k: IntKind, a: Vector2, b: Vector2)
    requires Holds(k, a) && Holds(k, b) && Binary(k, Plus, a, b).Done?
    ensures Binary(k, Minus, Binary(k, Plus, a, b).value, b) == Done(a)
  {
    Numbers.PlusThenMinus(k, a.x, b.x);
    Numbers.PlusThenMinus(k, a.y, b.y);
  }

  /** Multiplying, then dividing by the same non-zero factors, gives `a` back. */
  lemma TimesThenOver(k: IntKind, a: Vector2, b: Vector2)
    requires Holds(k, a) && b.x != 0 && b.y != 0 && Binary(k, Times, a, b).Done?
    ensures Binary(k, Over, Binary(k, Times, a, b).value, b) == Done(a)
  {
    Numbers.TimesThenOver(k, a.x, b.x);
    Numbers.TimesThenOver(k, a.y, b.y);
  }

  function SetX(v: Vector2, x: int): (r: Vector2)
    ensures r.x == x && r.y == v.y
  {
    v.(x := x)
  }

  function SetY(v: Vector2, y: int): (r: Vector2)
    ensures r.y == y && r.x == v.x
  {
    v.(y := y)
  }

  /** `set` is `set_x` followed by `set_y`, in either order. */
  function Set(v: Vector2, x: int, y: int): (r: Vector2)
    ensures r == SetY(SetX(v, x), y) == SetX(SetY(v, y), x)
  {
    Vector2(x, y)
  }
}
