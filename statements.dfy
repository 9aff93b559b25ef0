/**
 * Whole statements: an expression statement yields the value of its
 * expression, an assignment binds its name to that value, and a later
 * statement that names it reads the value back. The examples at the end
 * are statements of the repository's own tests.
 */
module Statements {
  import opened Wrappers
  import opened Values
  import opened Lexer
  import opened Actions
  import opened Parser
  import opened LexerFacts
  import opened ParserFacts
  import opened Expressions

  /** Whether a statement starts as an assignment `ID =` or a call `ID (`. */
  predicate AssignOrCall(toks: seq<Token>) {
    2 <= |toks| && IsKind(toks[0], ID) && (IsKind(toks[1], ASSIGN) || IsKind(toks[1], LPAREN))
  }

  /** A statement result carrying the expression's value, or its fault. */
  function Yielded(v: Result<Value, Fault>): Result<Option<Value>, Fault> {
    match v
    case Ok(x) => Ok(Some(x))
    case Err(f) => Err(f)
  }

  /**
   * A statement that is neither an assignment, a call nor a parenthesised
   * list, and whose expression fills the input, has that expression's value
   * or fault as its result and binds nothing.
   */
  lemma PlainStatement(names: map<string, Value>, toks: seq<Token>, v: Result<Value, Fault>)
    requires !AssignOrCall(toks) && !StartsParenList(names, toks)
    requires ExprAt(names, toks, 0, 1) == Ends(v, |toks|)
    ensures ParseStatement(names, toks).outcome == Yielded(v)
    ensures ParseStatement(names, toks).binding == None
  {
    assert ParseStatement(names, toks) == ParseArglist(names, toks);
    var first := ParseExpr(names, toks, 0, 1);
    assert first.outcome == v;
    if v.Ok? {
      assert first.next == |toks|;
      assert Arglist(v.value, []) == [v.value];
      assert ParseItems(names, toks, 0).outcome == Ok([v.value]);
    }
  }

  /** A token a well-formed tree starts with is never a closing parenthesis. */
  lemma {:induction false} ExtentHead(toks: seq<Token>, pos: nat, e: Expr)
    requires WellFormed(e) && Extent(toks, pos, e).Some?
    ensures pos < |toks| && !IsKind(toks[pos], RPAREN)
    decreases e
  {
    if e.Binary? {
      ExtentHead(toks, pos, e.l);
    }
  }

  /**
   * A `(` where the tokens of a grouped tree start never opens a
   * parenthesised list: such a `(` belongs to the leftmost group of the
   * tree, which is a parenthesised expression.
   */
  lemma {:induction false} OpenNotList(names: map<string, Value>, toks: seq<Token>, p: nat, e: Expr)
    requires Grouped(e) && Extent(toks, p, e).Some?
    ensures !ParenListAt(names, toks, p)
    decreases e, 0
  {
    match e
    case Binary(_, l, _) =>
      OpenNotList(names, toks, p, l);
    case Group(x) =>
      ClosedNotList(names, toks, p, x, Extent(toks, p + 1, x).value);
    case _ =>
  }

  /**
   * A `(` closed by the `)` after a grouped tree is not a parenthesised
   * list: it is not closed at once, it does not open such a list, and no
   * comma follows the expression inside it.
   */
  lemma {:induction false} ClosedNotList(names: map<string, Value>, toks: seq<Token>, p: nat, x: Expr, close: nat)
    requires Grouped(x) && p < |toks| && IsKind(toks[p], LPAREN)
    requires Extent(toks, p + 1, x) == Some(close) && close < |toks| && IsKind(toks[close], RPAREN)
    ensures !ParenListAt(names, toks, p)
    decreases x, 1
  {
    ExtentHead(toks, p + 1, x);
    OpenNotList(names, toks, p + 1, x);
    ParseShown(names, toks, x, p + 1, close, 1);
    if Eval(names, x).Ok? {
      TailStop(names, toks, Eval(names, x).value, close, 1);
    }
    NoCommaAfter(names, toks, p, Eval(names, x), close);
  }

  /** A `(` whose expression is not followed by a comma does not open a parenthesised list. */
  lemma NoCommaAfter(names: map<string, Value>, toks: seq<Token>, p: nat, v: Result<Value, Fault>, k: nat)
    requires p + 1 < |toks| && IsKind(toks[p], LPAREN) && !IsKind(toks[p + 1], RPAREN)
    requires !ParenListAt(names, toks, p + 1) && ExprAt(names, toks, p + 1, 1) == Ends(v, k)
    requires v.Ok? ==> k < |toks| && !IsKind(toks[k], COMMA)
    ensures !ParenListAt(names, toks, p)
  {
  }

  /** The printed tokens of a grouped tree are never taken for a parenthesised list. */
  lemma NotParenList(names: map<string, Value>, e: Expr)
    requires Grouped(e)
    ensures !StartsParenList(names, Show(e))
  {
    assert Occurs(Show(e), 0, Show(e));
    OccursExtent(Show(e), 0, e);
    OpenNotList(names, Show(e), 0, e);
  }

  /** The second token of a printed tree that starts with a name is a binary operator. */
  lemma {:induction false} AfterLeadingName(e: Expr)
    requires WellFormed(e) && |Show(e)| > 1 && IsKind(Show(e)[0], ID)
    ensures BinaryPrec(Show(e)[1]) > 0
  {
    match e
    case Binary(op, l, r) =>
      assert Show(e) == Show(l) + ([OpToken(op)] + Show(r));
      if |Show(l)| > 1 {
        AfterLeadingName(l);
      }
  }

  /** No printed tree reads as an assignment or a call. */
  lemma PrintedNotAssignOrCall(e: Expr)
    requires WellFormed(e)
    ensures !AssignOrCall(Show(e))
  {
    if |Show(e)| > 1 && IsKind(Show(e)[0], ID) {
      AfterLeadingName(e);
    }
  }

  /**
   * A statement made of the printed tokens of a grouped tree has the tree's
   * value as its result, or the tree's fault, and binds nothing; the names
   * it reports undefined are those its ID tokens name, in order.
   */
  lemma PrintedStatement(names: map<string, Value>, e: Expr)
    requires Grouped(e)
    ensures ParseStatement(names, Show(e)).outcome == Yielded(Eval(names, e))
    ensures ParseStatement(names, Show(e)).binding == None
    ensures Eval(names, e).Ok? ==> ParseStatement(names, Show(e)).log == UndefinedIn(names, Show(e), 0, |Show(e)|)
  {
    PrintedNotAssignOrCall(e);
    ParseGrouped(names, e);
    NotParenList(names, e);
    PlainStatement(names, Show(e), Eval(names, e));
    StatementLog(names, Show(e));
  }

  /** The tokens of `x = ` followed by the printed tokens of a tree. */
  function AssignTokens(x: string, e: Expr): (toks: seq<Token>)
    ensures |toks| == 2 + |Show(e)| && IsKind(toks[0], ID) && IsKind(toks[1], ASSIGN)
  {
    [Token(ID, x, 1), Token(ASSIGN, "=", 1)] + Show(e)
  }

  /**
   * `x = e` for a grouped tree `e` has no result and binds `x` to the value
   * of `e`; when `e` faults, the statement has that fault and binds nothing.
   */
  lemma AssignPrinted(names: map<string, Value>, x: string, e: Expr)
    requires Grouped(e)
    ensures var s := ParseStatement(names, AssignTokens(x, e));
      match Eval(names, e)
      case Ok(v) => s.outcome == Ok(None) && s.binding == Some(Binding(x, v))
      case Err(f) => s.outcome == Err(f) && s.binding == None
  {
    var toks := AssignTokens(x, e);
    forall k | 0 <= k < |Show(e)| ensures toks[2 + k] == Show(e)[k] {
    }
    ParseTrailing(names, toks, 2, e);
    assert ParseStatement(names, toks) == ParseAssignment(names, toks);
  }

  /** A statement of one name reads its value, or 0 and reports the name when it is unbound. */
  lemma ReadName(names: map<string, Value>, x: string, line: int)
    ensures var s := ParseStatement(names, [Token(ID, x, line)]);
      && s.outcome == Ok(Some(if x in names then names[x] else Int(0)))
      && s.binding == None
      && s.log == (if x in names then [] else [x])
  {
    var toks := [Token(ID, x, line)];
    OperandName(names, toks, 0, x);
    TailStop(names, toks, Lookup(names, x).0, 1, 1);
    assert ParseStatement(names, toks) == ParseArglist(names, toks);
  }

  /**
   * After `x = e` the bindings map `x` to the value of `e`, and a later
   * statement `x` on that state yields the value without reporting anything.
   */
  lemma AssignThenRead(names: map<string, Value>, x: string, e: Expr, line: int)
    requires Grouped(e) && Eval(names, e).Ok?
    ensures var s := ParseStatement(names, AssignTokens(x, e));
      && s.binding.Some?
      && var after := names[s.binding.value.name := s.binding.value.value];
      && ParseStatement(after, [Token(ID, x, line)]).outcome == Ok(Some(Eval(names, e).value))
      && ParseStatement(after, [Token(ID, x, line)]).log == []
  {
    AssignPrinted(names, x, e);
    ReadName(names[x := Eval(names, e).value], x, line);
  }

  // ---------------------------------------------------------------------
  // Statements of the repository's tests

  /** `3 + 4 * (5 + 6)`: multiplication binds tighter, parentheses tighter still. */
  function Example47(): Expr {
    Binary(PLUS, Const(3), Binary(TIMES, Const(4), Group(Binary(PLUS, Const(5), Const(6)))))
  }

  /** `3 + 4 * (5 + 6)` is 47, and `a = 3 + 4 * (5 + 6)` binds `a` to 47, which `a` then reads back. */
  lemma Arithmetic(names: map<string, Value>)
    ensures ParseStatement(names, Show(Example47())).outcome == Ok(Some(Int(47)))
    ensures ParseStatement(names, AssignTokens("a", Example47())).binding == Some(Binding("a", Int(47)))
    ensures ParseStatement(names["a" := Int(47)], [Token(ID, "a", 1)]).outcome == Ok(Some(Int(47)))
  {
    var e := Example47();
    var sum := Binary(PLUS, Const(5), Const(6));
    assert Eval(names, sum) == Ok(Int(11));
    var product := Binary(TIMES, Const(4), Group(sum));
    assert Eval(names, product) == Ok(Int(44));
    assert Grouped(e) && Eval(names, e) == Ok(Int(47));
    PrintedStatement(names, e);
    AssignPrinted(names, "a", e);
    ReadName(names["a" := Int(47)], "a", 1);
  }

  /** `-5 - 10` is -15: unary minus binds tighter than subtraction. */
  lemma NegativeMinus(names: map<string, Value>)
    ensures ParseStatement(names, Show(Binary(MINUS, Unary(MINUS, Const(5)), Const(10)))).outcome == Ok(Some(Int(-15)))
  {
    var e := Binary(MINUS, Unary(MINUS, Const(5)), Const(10));
    assert Eval(names, Unary(MINUS, Const(5))) == Ok(Int(-5));
    assert Grouped(e) && Eval(names, e) == Ok(Int(-15));
    PrintedStatement(names, e);
  }

  /** `-5 - -10` is 5: a unary minus may follow a binary one. */
  lemma MinusNegative(names: map<string, Value>)
    ensures ParseStatement(names, Show(Binary(MINUS, Unary(MINUS, Const(5)), Unary(MINUS, Const(10))))).outcome == Ok(Some(Int(5)))
  {
    var e := Binary(MINUS, Unary(MINUS, Const(5)), Unary(MINUS, Const(10)));
    assert Eval(names, Unary(MINUS, Const(5))) == Ok(Int(-5));
    assert Eval(names, Unary(MINUS, Const(10))) == Ok(Int(-10));
    assert Grouped(e) && Eval(names, e) == Ok(Int(5));
    PrintedStatement(names, e);
  }

  /** `-5 - (-10)` is 5 as well: the parentheses change nothing. */
  lemma MinusGroupedNegative(names: map<string, Value>)
    ensures ParseStatement(names, Show(Binary(MINUS, Unary(MINUS, Const(5)), Group(Unary(MINUS, Const(10)))))).outcome == Ok(Some(Int(5)))
  {
    var e := Binary(MINUS, Unary(MINUS, Const(5)), Group(Unary(MINUS, Const(10))));
    assert Eval(names, Unary(MINUS, Const(5))) == Ok(Int(-5));
    assert Eval(names, Unary(MINUS, Const(10))) == Ok(Int(-10));
    assert Grouped(e) && Eval(names, e) == Ok(Int(5));
    PrintedStatement(names, e);
  }

  /** `1 <= 2 < 3` is True: comparisons on one level group to the left, so this is `True < 3`. */
  lemma ChainedLess(names: map<string, Value>)
    ensures ParseStatement(names, Show(Binary(LT, Binary(LE, Const(1), Const(2)), Const(3)))).outcome == Ok(Some(Bool(true)))
  {
    var e := Binary(LT, Binary(LE, Const(1), Const(2)), Const(3));
    assert Eval(names, Binary(LE, Const(1), Const(2))) == Ok(Bool(true));
    assert Grouped(e) && Eval(names, e) == Ok(Bool(true));
    PrintedStatement(names, e);
  }

  /** `1 <= 2 > 3` is False: it is `True > 3`. */
  lemma ChainedGreater(names: map<string, Value>)
    ensures ParseStatement(names, Show(Binary(GT, Binary(LE, Const(1), Const(2)), Const(3)))).outcome == Ok(Some(Bool(false)))
  {
    var e := Binary(GT, Binary(LE, Const(1), Const(2)), Const(3));
    assert Eval(names, Binary(LE, Const(1), Const(2))) == Ok(Bool(true));
    assert Grouped(e) && Eval(names, e) == Ok(Bool(false));
    PrintedStatement(names, e);
  }

  /** `(1 + 4) > (4 + 0)` is True: a statement may open with a parenthesised operand. */
  lemma ParenthesisedComparison(names: map<string, Value>)
    ensures ParseStatement(names, Show(Binary(GT, Group(Binary(PLUS, Const(1), Const(4))), Group(Binary(PLUS, Const(4), Const(0)))))).outcome == Ok(Some(Bool(true)))
  {
    var a := Binary(GT, Group(Binary(PLUS, Const(1), Const(4))), Group(Binary(PLUS, Const(4), Const(0))));
    assert Eval(names, Binary(PLUS, Const(1), Const(4))) == Ok(Int(5));
    assert Eval(names, Binary(PLUS, Const(4), Const(0))) == Ok(Int(4));
    assert Grouped(a) && Eval(names, a) == Ok(Bool(true));
    PrintedStatement(names, a);
  }

  /** `not (5 < 4)` is True: `not` applies to the value of the whole group. */
  lemma NotOfGroup(names: map<string, Value>)
    ensures ParseStatement(names, Show(Unary(NOT, Group(Binary(LT, Const(5), Const(4)))))).outcome == Ok(Some(Bool(true)))
  {
    var b := Unary(NOT, Group(Binary(LT, Const(5), Const(4))));
    assert Eval(names, Binary(LT, Const(5), Const(4))) == Ok(Bool(false));
    assert Grouped(b) && Eval(names, b) == Ok(Bool(true));
    PrintedStatement(names, b);
  }

  /** `not 5 < 4` is True as well: `not` binds looser than the comparisons, so this is `not (5 < 4)`. */
  lemma NotBelowComparison(names: map<string, Value>)
    ensures ParseStatement(names, Show(Unary(NOT, Binary(LT, Const(5), Const(4))))).outcome == Ok(Some(Bool(true)))
  {
    var b := Unary(NOT, Binary(LT, Const(5), Const(4)));
    assert Eval(names, Binary(LT, Const(5), Const(4))) == Ok(Bool(false));
    assert Grouped(b) && Eval(names, b) == Ok(Bool(true));
    PrintedStatement(names, b);
  }

  /** `8 , 9` is the list [8, 9]: two expressions separated by a comma form a two-element arglist. */
  lemma TwoItems(names: map<string, Value>, toks: seq<Token>)
    requires toks == [Number(8, 1), Token(COMMA, ",", 1), Number(9, 1)]
    ensures ParseStatement(names, toks).outcome == Ok(Some(List([Int(8), Int(9)])))
  {
    OperandConst(names, toks, 0, 8);
    TailStop(names, toks, Int(8), 1, 1);
    OperandConst(names, toks, 2, 9);
    TailStop(names, toks, Int(9), 3, 1);
    assert ParseExpr(names, toks, 0, 1).outcome == Ok(Int(8)) && ParseExpr(names, toks, 0, 1).next == 1;
    assert ParseExpr(names, toks, 2, 1).outcome == Ok(Int(9)) && ParseExpr(names, toks, 2, 1).next == 3;
    assert Arglist(Int(9), []) == [Int(9)];
    assert ParseItems(names, toks, 2).outcome == Ok([Int(9)]) && ParseItems(names, toks, 2).next == 3;
    assert Arglist(Int(8), [Int(9)]) == [Int(8), Int(9)];
    assert ParseItems(names, toks, 0).outcome == Ok([Int(8), Int(9)]) && ParseItems(names, toks, 0).next == 3;
    assert ParseStatement(names, toks) == ParseArglist(names, toks);
  }

  /**
   * `[8, 9]` is the list [8, 9]: the lexer reports both brackets as errors
   * and drops them, and the parser reads `8 , 9` as a two-element arglist.
   */
  lemma BracketedList(names: map<string, Value>)
    ensures Scan("[8, 9]").errors == "[]"
    ensures ParseStatement(names, Scan("[8, 9]").tokens).outcome == Ok(Some(List([Int(8), Int(9)])))
  {
    ScanBracketedList();
    TwoItems(names, Scan("[8, 9]").tokens);
  }
}
