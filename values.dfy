/**
 * The values an evaluation produces, with the parts of Python's object
 * semantics the reduction actions rely on: `bool` is a subtype of `int`
 * (True is 1, False is 0), truthiness, and structural `==` between
 * numbers, lists and the `(name, list-or-None)` pairs built for `ID(...)`.
 */
module Values {
  import opened Wrappers

  datatype Value =
    | Int(i: int)
    | Bool(b: bool)
    | List(items: seq<Value>)
    | Pair(name: string, args: Option<Value>)  // args: Some(List(...)) or None

  /** Python ints and bools: the operands arithmetic and ordering accept. */
  predicate IsNumeric(v: Value) {
    v.Int? || v.Bool?
  }

  /** The integer a number stands for; a bool counts as 1 or 0. */
  function AsInt(v: Value): int
    requires IsNumeric(v)
  {
    match v
    case Int(i) => i
    case Bool(b) => if b then 1 else 0
  }

  /** Python's `bool(v)`: zero is false, an empty list is false, a pair (a 2-tuple) is true. */
  predicate Truthy(v: Value) {
    match v
    case Int(i) => i != 0
    case Bool(b) => b
    case List(xs) => |xs| > 0
    case Pair(_, _) => true
  }

  /**
   * Python's `==` on these values: numbers compare by integer value (so
   * True == 1), lists element by element, pairs by name and argument list;
   * values of different shapes are unequal.
   */
  predicate PyEq(a: Value, b: Value)
    decreases a
  {
    match a
    case Int(_) => IsNumeric(b) && AsInt(a) == AsInt(b)
    case Bool(_) => IsNumeric(b) && AsInt(a) == AsInt(b)
    case List(xs) =>
      b.List? && |xs| == |b.items| &&
      forall k :: 0 <= k < |xs| ==> PyEq(xs[k], b.items[k])
    case Pair(m, None) => b.Pair? && b.name == m && b.args.None?
    case Pair(m, Some(x)) => b.Pair? && b.name == m && b.args.Some? && PyEq(x, b.args.value)
  }

  lemma {:induction false} PyEqReflexive(a: Value)
    ensures PyEq(a, a)
    decreases a
  {
    match a
    case Int(_) =>
    case Bool(_) =>
    case List(xs) =>
      forall k | 0 <= k < |xs| ensures PyEq(xs[k], xs[k]) {
        PyEqReflexive(xs[k]);
      }
    case Pair(_, None) =>
    case Pair(_, Some(x)) => PyEqReflexive(x);
  }

  lemma {:induction false} PyEqSymmetric(a: Value, b: Value)
    requires PyEq(a, b)
    ensures PyEq(b, a)
    decreases a
  {
    match a
    case Int(_) =>
    case Bool(_) =>
    case List(xs) =>
      forall k | 0 <= k < |xs| ensures PyEq(b.items[k], xs[k]) {
        PyEqSymmetric(xs[k], b.items[k]);
      }
    case Pair(_, None) =>
    case Pair(_, Some(x)) => PyEqSymmetric(x, b.args.value);
  }

  lemma {:induction false} PyEqTransitive(a: Value, b: Value, c: Value)
    requires PyEq(a, b) && PyEq(b, c)
    ensures PyEq(a, c)
    decreases a
  {
    match a
    case Int(_) =>
    case Bool(_) =>
    case List(xs) =>
      forall k | 0 <= k < |xs| ensures PyEq(xs[k], c.items[k]) {
        PyEqTransitive(xs[k], b.items[k], c.items[k]);
      }
    case Pair(_, None) =>
    case Pair(_, Some(x)) => PyEqTransitive(x, b.args.value, c.args.value);
  }

  /** `True == 1` and `False == 0`, while the tags stay distinct (`result is True`). */
  lemma BoolEqualsItsInt(b: bool)
    ensures PyEq(Bool(b), Int(if b then 1 else 0))
    ensures PyEq(Int(if b then 1 else 0), Bool(b))
    ensures Bool(b) != Int(if b then 1 else 0)
  {
  }

  /** Equal numbers have the same truthiness. */
  lemma PyEqNumericTruthy(a: Value, b: Value)
    requires IsNumeric(a) && PyEq(a, b)
    ensures Truthy(a) == Truthy(b)
  {
  }
}
