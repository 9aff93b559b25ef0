/**
 * Properties of the reduction actions: the arithmetic actions undo one
 * another, the comparison actions are dual to one another, the logical
 * actions obey De Morgan's laws, and membership agrees with `==`.
 */
module ActionFacts {
  import opened Wrappers
  import opened Values
  import opened Actions

  /** Subtraction undoes addition, and `a - b` is `a + (-b)`. */
  lemma MinusUndoesPlus(a: Value, b: Value)
    requires BothNumeric(a, b)
    ensures Minus(Plus(a, b), b) == Int(AsInt(a))
    ensures Minus(a, b) == Plus(a, Negate(b))
    ensures Plus(a, b) == Plus(b, a)
  {
  }

  /** Multiplying by a non-zero number and dividing by it again gives the number back. */
  lemma DivideUndoesTimes(a: Value, b: Value)
    requires BothNumeric(a, b) && AsInt(b) != 0
    ensures AsInt(Times(a, b)) % AsInt(b) == 0
    ensures Divide(Times(a, b), b) == Int(AsInt(a))
  {
    var x, y := AsInt(a), AsInt(b);
    MultipleMod(x, y);
  }

  lemma MultipleMod(x: int, y: int)
    requires y != 0
    ensures (x * y) % y == 0 && (x * y) / y == x
  {
    var q, r := (x * y) / y, (x * y) % y;
    var d := x - q;
    assert d * y == r by {
      assert x * y == q * y + r;
      assert d * y == x * y - q * y;
    }
    ProductMagnitude(d, y);
  }

  /** A non-zero multiple of `y` is at least as large as `y` in magnitude. */
  lemma ProductMagnitude(d: int, y: int)
    requires y != 0
    ensures d != 0 ==> (if d * y >= 0 then d * y else -(d * y)) >= (if y > 0 then y else -y)
  {
    if d != 0 {
      var m := if y > 0 then y else -y;
      var e := if d > 0 then d else -d;
      ProductAtLeast(e, m);
      assert e * m == (if d * y >= 0 then d * y else -(d * y));
    }
  }

  lemma {:induction false} ProductAtLeast(e: int, m: int)
    requires e >= 1 && m >= 1
    ensures e * m >= m
    decreases e
  {
    if e > 1 {
      ProductAtLeast(e - 1, m);
      assert e * m == (e - 1) * m + m;
    }
  }

  /** A list times a count has that many copies of the list. */
  lemma {:induction false} RepeatLength(xs: seq<Value>, n: nat)
    ensures |Repeat(xs, n)| == |xs| * n
    decreases n
  {
    if n > 0 {
      RepeatLength(xs, n - 1);
    }
  }

  /** Unary minus twice is the integer value again: `--True` is 1. */
  lemma NegateTwice(a: Value)
    requires IsNumeric(a)
    ensures Negate(Negate(a)) == Int(AsInt(a))
  {
  }

  /** Each comparison is the mirror image, or the negation, of another one. */
  lemma ComparisonDuality(a: Value, b: Value)
    requires BothNumeric(a, b)
    ensures Gt(a, b) == Lt(b, a) && Ge(a, b) == Le(b, a)
    ensures Ge(a, b) == Not(Lt(a, b)) && Le(a, b) == Not(Gt(a, b))
    ensures Ne(a, b) == Not(Eq(a, b))
  {
  }

  /** Of `a < b`, `a == b` and `a > b` exactly one holds between numbers. */
  lemma Trichotomy(a: Value, b: Value)
    requires BothNumeric(a, b)
    ensures Lt(a, b).b || Eq(a, b).b || Gt(a, b).b
    ensures !(Lt(a, b).b && Eq(a, b).b) && !(Lt(a, b).b && Gt(a, b).b) && !(Eq(a, b).b && Gt(a, b).b)
  {
  }

  /** `not` exchanges `and` and `or`; `not not x` is `bool(x)`. */
  lemma DeMorgan(a: Value, b: Value)
    ensures Not(And(a, b)) == Or(Not(a), Not(b))
    ensures Not(Or(a, b)) == And(Not(a), Not(b))
    ensures Not(Not(a)) == Bool(Truthy(a))
    ensures And(a, b) == And(b, a) && Or(a, b) == Or(b, a)
  {
  }

  /**
   * Python's bools are ints: `True + True` is 2, `-True` is -1, `True < 3`
   * holds and `True == 1`, while the result of a comparison is the bool
   * itself, not the int.
   */
  lemma BoolsAreInts()
    ensures Plus(Bool(true), Bool(true)) == Int(2)
    ensures Negate(Bool(true)) == Int(-1)
    ensures Lt(Bool(true), Int(3)) == Bool(true)
    ensures Eq(Bool(true), Int(1)) == Bool(true) && Bool(true) != Int(1)
  {
  }

  /**
   * Comparisons fold left on one level: `1 <= 2 < 3` is `True < 3`, which
   * holds, and `1 <= 2 > 3` is `True > 3`, which does not.
   */
  lemma ComparisonChains()
    ensures Lt(Le(Int(1), Int(2)), Int(3)) == Bool(true)
    ensures Gt(Le(Int(1), Int(2)), Int(3)) == Bool(false)
  {
  }

  /** Membership in a concatenation is membership in either part. */
  lemma {:induction false} InConcat(v: Value, xs: seq<Value>, ys: seq<Value>)
    ensures In(v, xs + ys) == Or(In(v, xs), In(v, ys))
  {
    var zs := xs + ys;
    if In(v, zs).b {
      var k :| 0 <= k < |zs| && PyEq(v, zs[k]);
      if k < |xs| {
        assert zs[k] == xs[k];
      } else {
        assert zs[k] == ys[k - |xs|];
      }
    }
    if In(v, xs).b {
      var k :| 0 <= k < |xs| && PyEq(v, xs[k]);
      assert zs[k] == xs[k];
    }
    if In(v, ys).b {
      var k :| 0 <= k < |ys| && PyEq(v, ys[k]);
      assert zs[|xs| + k] == ys[k];
    }
  }

  /** `in` gives the same answer for equal values: `True in [1]` holds. */
  lemma InRespectsEquality(v: Value, w: Value, xs: seq<Value>)
    requires PyEq(v, w)
    ensures In(v, xs) == In(w, xs)
  {
    PyEqSymmetric(v, w);
    if In(v, xs).b {
      var k :| 0 <= k < |xs| && PyEq(v, xs[k]);
      PyEqTransitive(w, v, xs[k]);
    }
    if In(w, xs).b {
      var k :| 0 <= k < |xs| && PyEq(w, xs[k]);
      PyEqTransitive(v, w, xs[k]);
    }
  }

  /** Every element of a list is in it, and nothing is in the empty list. */
  lemma InElements(xs: seq<Value>, v: Value)
    ensures forall k :: 0 <= k < |xs| ==> In(xs[k], xs) == Bool(true)
    ensures In(v, []) == Bool(false)
  {
    forall k | 0 <= k < |xs| ensures In(xs[k], xs) == Bool(true) {
      PyEqReflexive(xs[k]);
    }
  }

  /** `2 in [2, 3]` and `3 in [2, 3]` hold, `4 in [2, 3]` does not. */
  lemma InSmallList()
    ensures In(Int(2), [Int(2), Int(3)]) == Bool(true)
    ensures In(Int(3), [Int(2), Int(3)]) == Bool(true)
    ensures In(Int(4), [Int(2), Int(3)]) == Bool(false)
  {
    var xs := [Int(2), Int(3)];
    InElements(xs, Int(4));
    assert In(Int(4), xs) == Bool(false) by {
      forall k | 0 <= k < |xs| ensures !PyEq(Int(4), xs[k]) {
        assert xs[k] == Int(2) || xs[k] == Int(3);
      }
    }
  }
}
