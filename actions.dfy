/**
 * The reduction actions of the parser (class ProcessorParser) as pure
 * functions of the values of a rule's children. Each function requires the
 * operand types under which Python evaluates the action without raising
 * TypeError.
 */
module Actions {
  import opened Wrappers
  import opened Values

  predicate BothNumeric(a: Value, b: Value) {
    IsNumeric(a) && IsNumeric(b)
  }

  /** `xs` repeated `n` times (Python's `list * int`; a count below one gives the empty list). */
  function Repeat(xs: seq<Value>, n: int): (r: seq<Value>)
    ensures n <= 0 ==> r == []
    ensures n > 0 ==> |r| == |xs| * n && r[..|xs|] == xs && r[|xs|..] == Repeat(xs, n - 1)
    decreases n
  {
    if n <= 0 then [] else xs + Repeat(xs, n - 1)
  }

  // ---------------------------------------------------------------------
  // Arithmetic: `expr PLUS expr`, `MINUS`, `TIMES`, `DIVIDE`, `MINUS expr %prec UMINUS`

  /** Numbers add (a bool counting as 1 or 0, the sum an int); lists concatenate. */
  function Plus(a: Value, b: Value): (r: Value)
    requires BothNumeric(a, b) || (a.List? && b.List?)
    ensures BothNumeric(a, b) ==> r.Int? && r.i == AsInt(a) + AsInt(b)
    ensures a.List? ==> r.List? && r.items == a.items + b.items
  {
    if a.List? then List(a.items + b.items) else Int(AsInt(a) + AsInt(b))
  }

  function Minus(a: Value, b: Value): (r: Value)
    requires BothNumeric(a, b)
    ensures r.Int? && r.i + AsInt(b) == AsInt(a)
  {
    Int(AsInt(a) - AsInt(b))
  }

  /** Numbers multiply; a list times a number (either way round) repeats the list. */
  function Times(a: Value, b: Value): (r: Value)
    requires BothNumeric(a, b) || (a.List? && IsNumeric(b)) || (IsNumeric(a) && b.List?)
    ensures BothNumeric(a, b) ==> r.Int? && r.i == AsInt(a) * AsInt(b)
    ensures a.List? ==> r.List? && r.items == Repeat(a.items, AsInt(b))
    ensures b.List? ==> r.List? && r.items == Repeat(b.items, AsInt(a))
  {
    if a.List? then List(Repeat(a.items, AsInt(b)))
    else if b.List? then List(Repeat(b.items, AsInt(a)))
    else Int(AsInt(a) * AsInt(b))
  }

  /** True division where the quotient is a whole number: its value as an int. */
  function Divide(a: Value, b: Value): (r: Value)
    requires BothNumeric(a, b) && AsInt(b) != 0 && AsInt(a) % AsInt(b) == 0
    ensures r.Int? && r.i * AsInt(b) == AsInt(a)
  {
    Int(AsInt(a) / AsInt(b))
  }

  /** Unary minus: `-True` is -1. */
  function Negate(a: Value): (r: Value)
    requires IsNumeric(a)
    ensures r.Int? && r.i + AsInt(a) == 0
  {
    Int(-AsInt(a))
  }

  // ---------------------------------------------------------------------
  // Comparisons: always a bool, numbers compared by integer value

  function Gt(a: Value, b: Value): (r: Value)
    requires BothNumeric(a, b)
    ensures r.Bool? && (r.b <==> AsInt(a) > AsInt(b))
  {
    Bool(AsInt(a) > AsInt(b))
  }

  function Lt(a: Value, b: Value): (r: Value)
    requires BothNumeric(a, b)
    ensures r.Bool? && (r.b <==> AsInt(a) < AsInt(b))
  {
    Bool(AsInt(a) < AsInt(b))
  }

  function Ge(a: Value, b: Value): (r: Value)
    requires BothNumeric(a, b)
    ensures r.Bool? && (r.b <==> AsInt(a) >= AsInt(b))
  {
    Bool(AsInt(a) >= AsInt(b))
  }

  function Le(a: Value, b: Value): (r: Value)
    requires BothNumeric(a, b)
    ensures r.Bool? && (r.b <==> AsInt(a) <= AsInt(b))
  {
    Bool(AsInt(a) <= AsInt(b))
  }

  function Eq(a: Value, b: Value): (r: Value)
    ensures r.Bool? && (r.b <==> PyEq(a, b))
  {
    Bool(PyEq(a, b))
  }

  function Ne(a: Value, b: Value): (r: Value)
    ensures r.Bool? && (r.b <==> !PyEq(a, b))
  {
    Bool(!PyEq(a, b))
  }

  // ---------------------------------------------------------------------
  // Logic: `bool` applied to the operands, a bool result

  function And(a: Value, b: Value): (r: Value)
    ensures r.Bool? && (r.b <==> Truthy(a) && Truthy(b))
  {
    Bool(Truthy(a) && Truthy(b))
  }

  function Or(a: Value, b: Value): (r: Value)
    ensures r.Bool? && (r.b <==> Truthy(a) || Truthy(b))
  {
    Bool(Truthy(a) || Truthy(b))
  }

  function Not(a: Value): (r: Value)
    ensures r.Bool? && (r.b <==> !Truthy(a))
  {
    Bool(!Truthy(a))
  }

  // ---------------------------------------------------------------------
  // Membership and lists

  /** Whether some element of `xs` equals `v`, scanning from the front as Python's `in` does. */
  function Contains(xs: seq<Value>, v: Value): (found: bool)
    ensures found <==> exists k :: 0 <= k < |xs| && PyEq(v, xs[k])
  {
    if xs == [] then false
    else if PyEq(v, xs[0]) then true
    else
      var found := Contains(xs[1..], v);
      assert found ==> exists k :: 0 <= k < |xs| && PyEq(v, xs[k]) by {
        if found {
          var k :| 0 <= k < |xs| - 1 && PyEq(v, xs[1..][k]);
          assert PyEq(v, xs[k + 1]);
        }
      }
      assert (exists k :: 0 <= k < |xs| && PyEq(v, xs[k])) ==> found by {
        if exists k :: 0 <= k < |xs| && PyEq(v, xs[k]) {
          var k :| 0 <= k < |xs| && PyEq(v, xs[k]);
          assert k != 0;
          assert PyEq(v, xs[1..][k - 1]);
        }
      }
      found
  }

  /** `expr IN arglist`: true exactly when the value equals some element of the list. */
  function In(v: Value, xs: seq<Value>): (r: Value)
    ensures r.Bool? && (r.b <==> exists k :: 0 <= k < |xs| && PyEq(v, xs[k]))
  {
    Bool(Contains(xs, v))
  }

  /** `expr { COMMA expr }`: the first value, then the others, in order. */
  function Arglist(first: Value, rest: seq<Value>): (r: seq<Value>)
    ensures |r| == |rest| + 1 && r[0] == first && r[1..] == rest
  {
    [first] + rest
  }

  /** `"(" [ arglist ] ")"` as an arglist: the inner list unchanged, or nothing when empty. */
  function Parenthesized(inner: Option<seq<Value>>): (r: Option<Value>)
    ensures r.None? <==> inner.None?
    ensures inner.Some? ==> r == Some(List(inner.value))
  {
    if inner.Some? then Some(List(inner.value)) else None
  }

  /** `ID "(" [ arglist ] ")"`: the pair of the name and the list, or of the name and None. */
  function Call(name: string, args: Option<seq<Value>>): (r: Value)
    ensures r.Pair? && r.name == name
    ensures r.args == Parenthesized(args)
  {
    Pair(name, Parenthesized(args))
  }
}
