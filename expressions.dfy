/**
 * An independent reference for the expression grammar: expression trees,
 * the value Python gives them, and their printing as tokens. Parsing the
 * printed tokens of a tree gives the tree's value, which is what the
 * precedence declarations (OR below AND below NOT below the comparisons
 * below PLUS/MINUS below TIMES/DIVIDE below UMINUS, every level grouping
 * to the left) promise.
 */
module Expressions {
  import opened Wrappers
  import opened Values
  import opened Lexer
  import opened Actions
  import opened Parser

  /** An expression tree; `Group` is a pair of parentheses written around its operand. */
  datatype Expr =
    | Const(n: int)
    | Name(x: string)
    | Group(e: Expr)
    | Unary(op: Kind, e: Expr)
    | Binary(op: Kind, l: Expr, r: Expr)

  /** Unary operators are MINUS and NOT; binary operators are those with a precedence. */
  predicate WellFormed(e: Expr) {
    match e
    case Const(_) => true
    case Name(_) => true
    case Group(x) => WellFormed(x)
    case Unary(op, x) => (op == MINUS || op == NOT) && WellFormed(x)
    case Binary(op, l, r) => Precedence(op) > 0 && WellFormed(l) && WellFormed(r)
  }

  /** The level the operand of a prefix operator is parsed at. */
  function OperandLevel(op: Kind): nat {
    if op == MINUS then UminusOperand else NotOperand
  }

  /**
   * The loosest level at which a tree's top operator binds: atoms and
   * groups above everything, a prefix expression just below its operand's
   * level (`-x` at 7, `not x` at 3), a binary expression at its operator's.
   */
  function Level(e: Expr): (p: nat)
    ensures WellFormed(e) ==> 1 <= p
  {
    match e
    case Const(_) => 9
    case Name(_) => 9
    case Group(_) => 9
    case Unary(op, _) => OperandLevel(op) - 1
    case Binary(op, _, _) => Precedence(op)
  }

  /**
   * Every operand binds at the level its operator asks for: the operand of
   * a prefix operator at that operator's operand level, the left operand of
   * a binary operator at the operator's level (left grouping), the right
   * one above it. An operand that would not is written in a `Group`.
   */
  predicate Grouped(e: Expr)
    ensures Grouped(e) ==> WellFormed(e)
  {
    match e
    case Const(_) => true
    case Name(_) => true
    case Group(x) => Grouped(x)
    case Unary(op, x) => (op == MINUS || op == NOT) && OperandLevel(op) <= Level(x) && Grouped(x)
    case Binary(op, l, r) =>
      Precedence(op) > 0 && Precedence(op) <= Level(l) && Precedence(op) < Level(r) && Grouped(l) && Grouped(r)
  }

  /** The value of a tree, operands evaluated left to right, with Python's verdict on each operator. */
  function Eval(names: map<string, Value>, e: Expr): Result<Value, Fault>
    requires WellFormed(e)
  {
    match e
    case Const(n) => Ok(Int(n))
    case Name(x) => Ok(Lookup(names, x).0)
    case Group(x) => Eval(names, x)
    case Unary(op, x) => Prefix(op, Eval(names, x))
    case Binary(op, l, r) => Combine(op, Eval(names, l), Eval(names, r))
  }

  /** A prefix operator applied to its operand's value: the operand's error, else `-v` or `not v`. */
  function Prefix(op: Kind, x: Result<Value, Fault>): Result<Value, Fault> {
    match x
    case Err(f) => Err(f)
    case Ok(v) => if op == MINUS then ApplyNegate(v) else Ok(Not(v))
  }

  /** A binary operator applied to its operands' values: the first error, else the operator's verdict. */
  function Combine(op: Kind, l: Result<Value, Fault>, r: Result<Value, Fault>): Result<Value, Fault>
    requires Precedence(op) > 0
  {
    match l
    case Err(f) => Err(f)
    case Ok(a) =>
      match r
      case Err(f) => Err(f)
      case Ok(b) => ApplyBinary(op, a, b)
  }

  // ---------------------------------------------------------------------
  // Parentheses where the precedence table needs them

  /** `e` as an operand that must bind at `level`: unchanged, or in a group when it binds looser. */
  function Operand(e: Expr, level: nat): (o: Expr)
    requires level <= 9
    ensures level <= Level(o)
  {
    if level <= Level(e) then e else Group(e)
  }

  /** A tree with a group added around each operand that binds too loosely for its operator, and nowhere else. */
  function Bracket(e: Expr): (b: Expr)
    ensures Level(b) == Level(e)
  {
    match e
    case Const(_) => e
    case Name(_) => e
    case Group(x) => Group(Bracket(x))
    case Unary(op, x) => Unary(op, Operand(Bracket(x), OperandLevel(op)))
    case Binary(op, l, r) => Binary(op, Operand(Bracket(l), Precedence(op)), Operand(Bracket(r), Precedence(op) + 1))
  }

  /** Bracketing a well-formed tree makes it grouped without changing its value. */
  lemma {:induction false} BracketGrouped(names: map<string, Value>, e: Expr)
    requires WellFormed(e)
    ensures Grouped(Bracket(e)) && Eval(names, Bracket(e)) == Eval(names, e)
  {
    match e
    case Const(_) =>
    case Name(_) =>
    case Group(x) =>
      BracketGrouped(names, x);
    case Unary(op, x) =>
      BracketGrouped(names, x);
    case Binary(op, l, r) =>
      BracketGrouped(names, l);
      BracketGrouped(names, r);
  }

  /** A tree that is already grouped gets no further parentheses. */
  lemma {:induction false} BracketKeepsGrouped(e: Expr)
    requires Grouped(e)
    ensures Bracket(e) == e
  {
    match e
    case Const(_) =>
    case Name(_) =>
    case Group(x) =>
      BracketKeepsGrouped(x);
    case Unary(op, x) =>
      BracketKeepsGrouped(x);
    case Binary(op, l, r) =>
      BracketKeepsGrouped(l);
      BracketKeepsGrouped(r);
  }

  // ---------------------------------------------------------------------
  // Printing

  /** How the lexer's patterns spell each operator and parenthesis. */
  function Spelling(op: Kind): string {
    match op
    case PLUS => "+"
    case MINUS => "-"
    case TIMES => "*"
    case DIVIDE => "/"
    case GT => ">"
    case LT => "<"
    case GE => ">="
    case LE => "<="
    case AND => "and"
    case OR => "or"
    case NOT => "not"
    case LPAREN => "("
    case RPAREN => ")"
    case _ => ""
  }

  function OpToken(op: Kind): Token {
    Token(op, Spelling(op), 1)
  }

  /** The tokens of a tree, as the lexer makes them from its text on one line. */
  function Show(e: Expr): (s: seq<Token>)
    ensures |s| > 0
  {
    match e
    case Const(n) => [Number(n, 1)]
    case Name(x) => [Token(ID, x, 1)]
    case Group(x) => [OpToken(LPAREN)] + Show(x) + [OpToken(RPAREN)]
    case Unary(op, x) => [OpToken(op)] + Show(x)
    case Binary(op, l, r) => Show(l) + [OpToken(op)] + Show(r)
  }

  /**
   * Where the tokens of `e` end when they appear in `toks` from `pos`, told
   * apart as the parser tells them: a NUMBER by its value, an ID by its
   * name, every other token by its type alone.
   */
  function Extent(toks: seq<Token>, pos: nat, e: Expr): (k: Option<nat>)
    ensures k.Some? ==> pos < k.value <= |toks|
    decreases e
  {
    if pos >= |toks| then None
    else
      match e
      case Const(n) => if toks[pos].Number? && toks[pos].value == n then Some(pos + 1) else None
      case Name(x) => if IsKind(toks[pos], ID) && toks[pos].text == x then Some(pos + 1) else None
      case Group(x) =>
        if !IsKind(toks[pos], LPAREN) then None
        else
          (match Extent(toks, pos + 1, x)
           case None => None
           case Some(k) => if k < |toks| && IsKind(toks[k], RPAREN) then Some(k + 1) else None)
      case Unary(op, x) => if IsKind(toks[pos], op) then Extent(toks, pos + 1, x) else None
      case Binary(op, l, r) =>
        match Extent(toks, pos, l)
        case None => None
        case Some(k) => if k < |toks| && IsKind(toks[k], op) then Extent(toks, k + 1, r) else None
  }

  /** The tokens of `e` are `toks[pos..end]`, as `Extent` tells them apart. */
  predicate Spans(toks: seq<Token>, pos: nat, e: Expr, end: nat) {
    Extent(toks, pos, e) == Some(end)
  }

  // ---------------------------------------------------------------------
  // Token stretches

  /** `s` appears in `toks` from `pos`, token by token. */
  predicate Occurs(toks: seq<Token>, pos: nat, s: seq<Token>) {
    pos + |s| <= |toks| && forall k :: 0 <= k < |s| ==> toks[pos + k] == s[k]
  }

  /** Three stretches in a row, the middle one a single token. */
  lemma OccursAround(toks: seq<Token>, pos: nat, a: seq<Token>, t: Token, b: seq<Token>)
    requires Occurs(toks, pos, a + [t] + b)
    ensures Occurs(toks, pos, a) && pos + |a| < |toks| && toks[pos + |a|] == t && Occurs(toks, pos + |a| + 1, b)
  {
    var s := a + [t] + b;
    forall k | 0 <= k < |a|
      ensures toks[pos + k] == a[k]
    {
      assert s[k] == a[k];
    }
    assert s[|a|] == t;
    forall k | 0 <= k < |b|
      ensures toks[pos + |a| + 1 + k] == b[k]
    {
      assert s[|a| + 1 + k] == b[k];
    }
  }

  /** The number of tokens of a tree. */
  function Size(e: Expr): (n: nat)
    ensures n >= 1
  {
    match e
    case Const(_) => 1
    case Name(_) => 1
    case Group(x) => Size(x) + 2
    case Unary(_, x) => 1 + Size(x)
    case Binary(_, l, r) => Size(l) + 1 + Size(r)
  }

  lemma {:induction false} ShowSize(e: Expr)
    ensures |Show(e)| == Size(e)
  {
    match e
    case Const(_) =>
    case Name(_) =>
    case Group(x) =>
      ShowSize(x);
    case Unary(_, x) =>
      ShowSize(x);
    case Binary(_, l, r) =>
      ShowSize(l);
      ShowSize(r);
  }

  /** Wherever the tokens of `e` occur, they are where `Extent` finds them. */
  lemma {:induction false} OccursExtent(toks: seq<Token>, pos: nat, e: Expr)
    requires Occurs(toks, pos, Show(e))
    ensures Spans(toks, pos, e, pos + Size(e))
    decreases e, 1
  {
    if e.Const? || e.Name? {
      AtomOccurs(toks, pos, e);
    } else if e.Group? {
      GroupExtent(toks, pos, e);
    } else if e.Unary? {
      UnaryExtent(toks, pos, e);
    } else {
      BinaryExtent(toks, pos, e);
    }
  }

  lemma {:induction false} GroupExtent(toks: seq<Token>, pos: nat, g: Expr)
    requires g.Group? && Occurs(toks, pos, Show(g))
    ensures Spans(toks, pos, g, pos + Size(g))
    decreases g, 0
  {
    GroupOccurs(toks, pos, g.e);
    OccursExtent(toks, pos + 1, g.e);
    GroupSpans(toks, pos, g.e, pos + 1 + Size(g.e));
  }

  lemma {:induction false} UnaryExtent(toks: seq<Token>, pos: nat, u: Expr)
    requires u.Unary? && Occurs(toks, pos, Show(u))
    ensures Spans(toks, pos, u, pos + Size(u))
    decreases u, 0
  {
    UnaryOccurs(toks, pos, u.op, u.e);
    OccursExtent(toks, pos + 1, u.e);
    UnarySpans(toks, pos, u.op, u.e, pos + 1 + Size(u.e));
  }

  lemma {:induction false} BinaryExtent(toks: seq<Token>, pos: nat, b: Expr)
    requires b.Binary? && Occurs(toks, pos, Show(b))
    ensures Spans(toks, pos, b, pos + Size(b))
    decreases b, 0
  {
    BinaryOccurs(toks, pos, b.op, b.l, b.r);
    OccursExtent(toks, pos, b.l);
    OccursExtent(toks, pos + Size(b.l) + 1, b.r);
    BinarySpans(toks, pos, b.op, b.l, b.r, pos + Size(b.l), pos + Size(b.l) + 1 + Size(b.r));
  }

  lemma AtomOccurs(toks: seq<Token>, pos: nat, e: Expr)
    requires (e.Const? || e.Name?) && Occurs(toks, pos, Show(e))
    ensures Spans(toks, pos, e, pos + Size(e))
  {
    assert Show(e)[0] == toks[pos];
  }

  /** Where a parenthesised tree's tokens occur: the bracket, the inner tokens, the closing bracket. */
  lemma GroupOccurs(toks: seq<Token>, pos: nat, x: Expr)
    requires Occurs(toks, pos, Show(Group(x)))
    ensures pos < |toks| && toks[pos] == OpToken(LPAREN) && Occurs(toks, pos + 1, Show(x))
    ensures pos + 1 + Size(x) < |toks| && toks[pos + 1 + Size(x)] == OpToken(RPAREN)
  {
    var s := Show(x);
    ShowSize(x);
    assert Show(Group(x)) == [] + [OpToken(LPAREN)] + (s + [OpToken(RPAREN)]);
    OccursAround(toks, pos, [], OpToken(LPAREN), s + [OpToken(RPAREN)]);
    assert s + [OpToken(RPAREN)] == s + [OpToken(RPAREN)] + [];
    OccursAround(toks, pos + 1, s, OpToken(RPAREN), []);
  }

  /** Where a prefix tree's tokens occur: the operator, then the operand's tokens. */
  lemma UnaryOccurs(toks: seq<Token>, pos: nat, op: Kind, x: Expr)
    requires Occurs(toks, pos, Show(Unary(op, x)))
    ensures pos < |toks| && toks[pos] == OpToken(op) && Occurs(toks, pos + 1, Show(x))
  {
    assert Show(Unary(op, x)) == [] + [OpToken(op)] + Show(x);
    OccursAround(toks, pos, [], OpToken(op), Show(x));
  }

  /** Where a binary tree's tokens occur: the left operand's, the operator, the right operand's. */
  lemma BinaryOccurs(toks: seq<Token>, pos: nat, op: Kind, l: Expr, r: Expr)
    requires Occurs(toks, pos, Show(Binary(op, l, r)))
    ensures Occurs(toks, pos, Show(l)) && Occurs(toks, pos + Size(l) + 1, Show(r))
    ensures pos + Size(l) < |toks| && toks[pos + Size(l)] == OpToken(op)
  {
    ShowSize(l);
    OccursAround(toks, pos, Show(l), OpToken(op), Show(r));
  }

  lemma GroupSpans(toks: seq<Token>, pos: nat, x: Expr, k: nat)
    requires pos < |toks| && toks[pos] == OpToken(LPAREN) && Spans(toks, pos + 1, x, k)
    requires k < |toks| && toks[k] == OpToken(RPAREN)
    ensures Spans(toks, pos, Group(x), k + 1)
  {
  }

  lemma UnarySpans(toks: seq<Token>, pos: nat, op: Kind, x: Expr, k: nat)
    requires pos < |toks| && toks[pos] == OpToken(op) && Spans(toks, pos + 1, x, k)
    ensures Spans(toks, pos, Unary(op, x), k)
  {
  }

  lemma BinarySpans(toks: seq<Token>, pos: nat, op: Kind, l: Expr, r: Expr, mid: nat, k: nat)
    requires Spans(toks, pos, l, mid) && mid < |toks| && toks[mid] == OpToken(op) && Spans(toks, mid + 1, r, k)
    ensures Spans(toks, pos, Binary(op, l, r), k)
  {
  }

  /** After `k` comes the end of the tokens or a token that binds at `level` or below. */
  predicate EndsBelow(toks: seq<Token>, k: nat, level: nat) {
    k <= |toks| && (k == |toks| || BinaryPrec(toks[k]) <= level)
  }

  // ---------------------------------------------------------------------
  // Single steps of the parser

  lemma OperandConst(names: map<string, Value>, toks: seq<Token>, pos: nat, n: int)
    requires pos < |toks| && toks[pos].Number? && toks[pos].value == n
    ensures ParseOperand(names, toks, pos) == Parsed(Ok(Int(n)), pos + 1, [])
  {
  }

  lemma OperandName(names: map<string, Value>, toks: seq<Token>, pos: nat, x: string)
    requires pos < |toks| && IsKind(toks[pos], ID) && toks[pos].text == x
    ensures ParseOperand(names, toks, pos) == Parsed(Ok(Lookup(names, x).0), pos + 1, Lookup(names, x).1)
  {
  }

  lemma OperandGroupErr(names: map<string, Value>, toks: seq<Token>, pos: nat)
    requires pos < |toks| && IsKind(toks[pos], LPAREN)
    requires ParseExpr(names, toks, pos + 1, 1).outcome.Err?
    ensures ParseOperand(names, toks, pos).outcome == ParseExpr(names, toks, pos + 1, 1).outcome
  {
    assert ParseOperand(names, toks, pos) == ParseGroup(names, toks, pos);
  }

  lemma OperandGroupOk(names: map<string, Value>, toks: seq<Token>, pos: nat, v: Value, close: nat)
    requires pos < |toks| && IsKind(toks[pos], LPAREN)
    requires close < |toks| && IsKind(toks[close], RPAREN)
    requires ParseExpr(names, toks, pos + 1, 1).outcome == Ok(v) && ParseExpr(names, toks, pos + 1, 1).next == close
    ensures ParseOperand(names, toks, pos).outcome == Ok(v) && ParseOperand(names, toks, pos).next == close + 1
  {
    assert ParseOperand(names, toks, pos) == ParseGroup(names, toks, pos);
  }

  lemma OperandPrefixErr(names: map<string, Value>, toks: seq<Token>, pos: nat, op: Kind)
    requires pos < |toks| && IsKind(toks[pos], op) && (op == MINUS || op == NOT)
    requires ParseExpr(names, toks, pos + 1, OperandLevel(op)).outcome.Err?
    ensures ParseOperand(names, toks, pos).outcome
         == ParseExpr(names, toks, pos + 1, OperandLevel(op)).outcome
  {
    assert ParseOperand(names, toks, pos) == ParsePrefix(names, toks, pos);
  }

  lemma OperandPrefixOk(names: map<string, Value>, toks: seq<Token>, pos: nat, op: Kind, v: Value, end: nat)
    requires pos < |toks| && IsKind(toks[pos], op) && (op == MINUS || op == NOT)
    requires var operand := ParseExpr(names, toks, pos + 1, OperandLevel(op));
      operand.outcome == Ok(v) && operand.next == end
    ensures ParseOperand(names, toks, pos).outcome == (if op == MINUS then ApplyNegate(v) else Ok(Not(v)))
    ensures ParseOperand(names, toks, pos).next == end
  {
    assert ParseOperand(names, toks, pos) == ParsePrefix(names, toks, pos);
  }

  /** An expression is its first operand extended by the operator tail. */
  lemma ExprOfOperand(names: map<string, Value>, toks: seq<Token>, pos: nat, m: nat)
    requires pos <= |toks|
    ensures var lhs := ParseOperand(names, toks, pos);
      lhs.outcome.Err? ==> ParseExpr(names, toks, pos, m).outcome == lhs.outcome
    ensures var lhs := ParseOperand(names, toks, pos);
      lhs.outcome.Ok? ==>
        var tail := ParseTail(names, toks, lhs.outcome.value, lhs.next, m);
        ParseExpr(names, toks, pos, m).outcome == tail.outcome && ParseExpr(names, toks, pos, m).next == tail.next
  {
  }

  lemma TailStop(names: map<string, Value>, toks: seq<Token>, v: Value, pos: nat, m: nat)
    requires pos <= |toks| && (pos == |toks| || BinaryPrec(toks[pos]) < m)
    ensures ParseTail(names, toks, v, pos, m).outcome == Ok(v) && ParseTail(names, toks, v, pos, m).next == pos
  {
  }

  lemma TailRhsErr(names: map<string, Value>, toks: seq<Token>, v: Value, pos: nat, m: nat)
    requires pos < |toks| && BinaryPrec(toks[pos]) > 0 && BinaryPrec(toks[pos]) >= m
    requires ParseExpr(names, toks, pos + 1, BinaryPrec(toks[pos]) + 1).outcome.Err?
    ensures ParseTail(names, toks, v, pos, m).outcome == ParseExpr(names, toks, pos + 1, BinaryPrec(toks[pos]) + 1).outcome
  {
  }

  lemma TailApplyErr(names: map<string, Value>, toks: seq<Token>, v: Value, pos: nat, m: nat, b: Value)
    requires pos < |toks| && BinaryPrec(toks[pos]) > 0 && BinaryPrec(toks[pos]) >= m
    requires ParseExpr(names, toks, pos + 1, BinaryPrec(toks[pos]) + 1).outcome == Ok(b)
    requires ApplyBinary(toks[pos].kind, v, b).Err?
    ensures ParseTail(names, toks, v, pos, m).outcome == ApplyBinary(toks[pos].kind, v, b)
  {
  }

  lemma TailApplyOk(names: map<string, Value>, toks: seq<Token>, v: Value, pos: nat, m: nat, b: Value, w: Value, end: nat)
    requires pos < |toks| && BinaryPrec(toks[pos]) > 0 && BinaryPrec(toks[pos]) >= m
    requires ParseExpr(names, toks, pos + 1, BinaryPrec(toks[pos]) + 1).outcome == Ok(b)
    requires ParseExpr(names, toks, pos + 1, BinaryPrec(toks[pos]) + 1).next == end
    requires ApplyBinary(toks[pos].kind, v, b) == Ok(w)
    ensures ParseTail(names, toks, v, pos, m).outcome == ParseTail(names, toks, w, end, m).outcome
    ensures ParseTail(names, toks, v, pos, m).next == ParseTail(names, toks, w, end, m).next
  {
  }

  // ---------------------------------------------------------------------
  // What a parse tells its caller

  /** The outcome of a parse and, when it produced a value, where it stopped. */
  function Summary(r: Parsed): (s: (Result<Value, Fault>, nat))
    ensures s.0 == r.outcome && (r.outcome.Ok? ==> s.1 == r.next)
  {
    (r.outcome, if r.outcome.Ok? then r.next else 0)
  }

  /** What parsing an expression at level `m` from `pos` tells its caller. */
  function ExprAt(names: map<string, Value>, toks: seq<Token>, pos: nat, m: nat): (Result<Value, Fault>, nat)
    requires pos <= |toks|
  {
    Summary(ParseExpr(names, toks, pos, m))
  }

  /** What parsing an operand from `pos` tells its caller. */
  function OperandAt(names: map<string, Value>, toks: seq<Token>, pos: nat): (Result<Value, Fault>, nat)
    requires pos <= |toks|
  {
    Summary(ParseOperand(names, toks, pos))
  }

  /** The summary of a stretch that yields `v` and, when `v` is a value, ends at `end`. */
  function Ends(v: Result<Value, Fault>, end: nat): (Result<Value, Fault>, nat) {
    (v, if v.Ok? then end else 0)
  }

  /**
   * How a parse at level `m` that meets a stretch yielding `v` and ending at
   * `end` must end: with `v`'s error, or as the operators after `end` make
   * of `v`'s value.
   */
  function After(names: map<string, Value>, toks: seq<Token>, v: Result<Value, Fault>, end: nat, m: nat): (Result<Value, Fault>, nat)
    requires end <= |toks|
  {
    match v
    case Err(_) => Ends(v, end)
    case Ok(x) => Summary(ParseTail(names, toks, x, end, m))
  }

  /** An expression whose first operand is such a stretch goes on after it. */
  lemma ExprFromOperand(names: map<string, Value>, toks: seq<Token>, pos: nat, m: nat, v: Result<Value, Fault>, end: nat)
    requires pos <= |toks| && end <= |toks|
    ensures OperandAt(names, toks, pos) == Ends(v, end) ==> ExprAt(names, toks, pos, m) == After(names, toks, v, end, m)
  {
    ExprOfOperand(names, toks, pos, m);
  }

  /** A parenthesized stretch is an operand with the stretch's outcome. */
  lemma GroupAs(names: map<string, Value>, toks: seq<Token>, pos: nat, v: Result<Value, Fault>, close: nat)
    requires pos < |toks| && IsKind(toks[pos], LPAREN)
    requires close < |toks| && IsKind(toks[close], RPAREN)
    ensures ExprAt(names, toks, pos + 1, 1) == After(names, toks, v, close, 1) ==>
      OperandAt(names, toks, pos) == Ends(v, close + 1)
  {
    if ExprAt(names, toks, pos + 1, 1) == After(names, toks, v, close, 1) {
      GroupStep(names, toks, pos, v, close);
    }
  }

  lemma GroupStep(names: map<string, Value>, toks: seq<Token>, pos: nat, v: Result<Value, Fault>, close: nat)
    requires pos < |toks| && IsKind(toks[pos], LPAREN)
    requires close < |toks| && IsKind(toks[close], RPAREN)
    requires ExprAt(names, toks, pos + 1, 1) == After(names, toks, v, close, 1)
    ensures OperandAt(names, toks, pos) == Ends(v, close + 1)
  {
    match v
    case Err(_) =>
      OperandGroupErr(names, toks, pos);
    case Ok(x) =>
      TailStop(names, toks, x, close, 1);
      OperandGroupOk(names, toks, pos, x, close);
  }

  /** A prefix operator before a stretch is an operand with the operator applied to the stretch's outcome. */
  lemma PrefixAs(names: map<string, Value>, toks: seq<Token>, pos: nat, op: Kind, v: Result<Value, Fault>, end: nat)
    requires pos < |toks| && IsKind(toks[pos], op) && (op == MINUS || op == NOT) && end <= |toks|
    requires end == |toks| || BinaryPrec(toks[end]) < OperandLevel(op)
    ensures ExprAt(names, toks, pos + 1, OperandLevel(op)) == After(names, toks, v, end, OperandLevel(op)) ==>
      OperandAt(names, toks, pos) == Ends(Prefix(op, v), end)
  {
    if ExprAt(names, toks, pos + 1, OperandLevel(op)) == After(names, toks, v, end, OperandLevel(op)) {
      PrefixStep(names, toks, pos, op, v, end);
    }
  }

  lemma PrefixStep(names: map<string, Value>, toks: seq<Token>, pos: nat, op: Kind, v: Result<Value, Fault>, end: nat)
    requires pos < |toks| && IsKind(toks[pos], op) && (op == MINUS || op == NOT) && end <= |toks|
    requires ExprAt(names, toks, pos + 1, OperandLevel(op)) == After(names, toks, v, end, OperandLevel(op))
    requires end == |toks| || BinaryPrec(toks[end]) < OperandLevel(op)
    ensures OperandAt(names, toks, pos) == Ends(Prefix(op, v), end)
  {
    match v
    case Err(_) =>
      OperandPrefixErr(names, toks, pos, op);
    case Ok(x) =>
      TailStop(names, toks, x, end, OperandLevel(op));
      OperandPrefixOk(names, toks, pos, op, x, end);
  }

  /**
   * A stretch at level `m`, a binary operator binding at `m` or above, and a
   * stretch at the level above the operator's, followed by nothing binding
   * tighter than the operator: the whole parses as the operator applied to
   * the two outcomes.
   */
  lemma BinaryAs(names: map<string, Value>, toks: seq<Token>, pos: nat, m: nat, op: Kind, u: Result<Value, Fault>, mid: nat, w: Result<Value, Fault>, end: nat)
    requires pos <= |toks| && mid < |toks| && IsKind(toks[mid], op) && Precedence(op) > 0 && m <= Precedence(op)
    requires end <= |toks| && (end == |toks| || BinaryPrec(toks[end]) <= Precedence(op))
    ensures ExprAt(names, toks, pos, m) == After(names, toks, u, mid, m) &&
            ExprAt(names, toks, mid + 1, Precedence(op) + 1) == After(names, toks, w, end, Precedence(op) + 1) ==>
      ExprAt(names, toks, pos, m) == After(names, toks, Combine(op, u, w), end, m)
  {
    if ExprAt(names, toks, pos, m) == After(names, toks, u, mid, m) &&
       ExprAt(names, toks, mid + 1, Precedence(op) + 1) == After(names, toks, w, end, Precedence(op) + 1) {
      BinaryStep(names, toks, pos, m, op, u, mid, w, end);
    }
  }

  lemma BinaryStep(names: map<string, Value>, toks: seq<Token>, pos: nat, m: nat, op: Kind, u: Result<Value, Fault>, mid: nat, w: Result<Value, Fault>, end: nat)
    requires pos <= |toks| && mid < |toks| && IsKind(toks[mid], op) && Precedence(op) > 0 && m <= Precedence(op)
    requires end <= |toks| && (end == |toks| || BinaryPrec(toks[end]) <= Precedence(op))
    requires ExprAt(names, toks, pos, m) == After(names, toks, u, mid, m)
    requires ExprAt(names, toks, mid + 1, Precedence(op) + 1) == After(names, toks, w, end, Precedence(op) + 1)
    ensures ExprAt(names, toks, pos, m) == After(names, toks, Combine(op, u, w), end, m)
  {
    match u
    case Err(_) =>
    case Ok(a) =>
      match w
      case Err(_) =>
        TailRhsErr(names, toks, a, mid, m);
      case Ok(b) =>
        TailStop(names, toks, b, end, Precedence(op) + 1);
        match ApplyBinary(op, a, b)
        case Err(_) =>
          TailApplyErr(names, toks, a, mid, m, b);
        case Ok(c) =>
          TailApplyOk(names, toks, a, mid, m, b, c, end);
  }

  // ---------------------------------------------------------------------
  // Parsing a printed tree

  /**
   * The grouped tree `e` stands at `toks[pos..end]`, is read at a level `m`
   * it satisfies, and what follows it binds no tighter than it does.
   */
  predicate Shown(toks: seq<Token>, e: Expr, pos: nat, end: nat, m: nat) {
    Grouped(e) && Extent(toks, pos, e) == Some(end) && m <= Level(e) && EndsBelow(toks, end, Level(e))
  }

  /** Both operands of a shown binary tree are shown, the left at the reading level, the right above the operator. */
  lemma BinaryParts(toks: seq<Token>, op: Kind, l: Expr, r: Expr, pos: nat, mid: nat, end: nat, m: nat)
    requires Shown(toks, Binary(op, l, r), pos, end, m) && Extent(toks, pos, l) == Some(mid)
    ensures Shown(toks, l, pos, mid, m) && Shown(toks, r, mid + 1, end, Precedence(op) + 1)
    ensures Precedence(op) > 0 && m <= Precedence(op) && mid < |toks| && IsKind(toks[mid], op)
    ensures end <= |toks| && (end == |toks| || BinaryPrec(toks[end]) <= Precedence(op))
  {
  }

  /**
   * Parsing the tokens of a grouped tree at any level `m` it satisfies, when
   * what follows binds no tighter than the tree, gives the tree's value and
   * then goes on with the operators after it exactly as if the value had
   * been an operand there; an error of the tree is the parse's error.
   */
  lemma {:induction false} ParseShown(names: map<string, Value>, toks: seq<Token>, e: Expr, pos: nat, end: nat, m: nat)
    requires Shown(toks, e, pos, end, m)
    ensures ExprAt(names, toks, pos, m) == After(names, toks, Eval(names, e), end, m)
    decreases e, 2
  {
    if e.Binary? {
      var mid := Extent(toks, pos, e.l).value;
      BinaryShown(names, toks, e.op, e.l, e.r, pos, mid, end, m);
    } else {
      OperandShown(names, toks, e, pos, end);
      ExprFromOperand(names, toks, pos, m, Eval(names, e), end);
    }
  }

  /** The tokens of a grouped tree that is not a binary expression form one operand with the tree's value. */
  lemma {:induction false} OperandShown(names: map<string, Value>, toks: seq<Token>, e: Expr, pos: nat, end: nat)
    requires !e.Binary? && Grouped(e) && Extent(toks, pos, e) == Some(end) && EndsBelow(toks, end, Level(e))
    ensures OperandAt(names, toks, pos) == Ends(Eval(names, e), end)
    decreases e, 1
  {
    match e
    case Const(n) =>
      OperandConst(names, toks, pos, n);
    case Name(x) =>
      OperandName(names, toks, pos, x);
    case Group(x) =>
      GroupShown(names, toks, x, pos, end - 1);
    case Unary(op, x) =>
      UnaryShown(names, toks, op, x, pos, end);
  }

  lemma {:induction false} GroupShown(names: map<string, Value>, toks: seq<Token>, x: Expr, pos: nat, close: nat)
    requires Grouped(x) && pos < |toks| && IsKind(toks[pos], LPAREN)
    requires Extent(toks, pos + 1, x) == Some(close) && close < |toks| && IsKind(toks[close], RPAREN)
    ensures OperandAt(names, toks, pos) == Ends(Eval(names, x), close + 1)
    decreases Group(x), 0
  {
    ParseShown(names, toks, x, pos + 1, close, 1);
    GroupAs(names, toks, pos, Eval(names, x), close);
  }

  lemma {:induction false} UnaryShown(names: map<string, Value>, toks: seq<Token>, op: Kind, x: Expr, pos: nat, end: nat)
    requires (op == MINUS || op == NOT) && OperandLevel(op) <= Level(x) && Grouped(x)
    requires pos < |toks| && IsKind(toks[pos], op) && Extent(toks, pos + 1, x) == Some(end)
    requires end == |toks| || BinaryPrec(toks[end]) < OperandLevel(op)
    ensures OperandAt(names, toks, pos) == Ends(Prefix(op, Eval(names, x)), end)
    decreases Unary(op, x), 0
  {
    ParseShown(names, toks, x, pos + 1, end, OperandLevel(op));
    PrefixAs(names, toks, pos, op, Eval(names, x), end);
  }

  lemma {:induction false} BinaryShown(names: map<string, Value>, toks: seq<Token>, op: Kind, l: Expr, r: Expr, pos: nat, mid: nat, end: nat, m: nat)
    requires Shown(toks, Binary(op, l, r), pos, end, m) && Extent(toks, pos, l) == Some(mid)
    ensures ExprAt(names, toks, pos, m) == After(names, toks, Combine(op, Eval(names, l), Eval(names, r)), end, m)
    decreases Binary(op, l, r), 0
  {
    BinaryParts(toks, op, l, r, pos, mid, end, m);
    ParseShown(names, toks, l, pos, mid, m);
    ParseShown(names, toks, r, mid + 1, end, Precedence(op) + 1);
    BinaryAs(names, toks, pos, m, op, Eval(names, l), mid, Eval(names, r), end);
  }

  /** The printed tokens of a grouped tree that end the input parse as the tree's value, consuming the rest of the input. */
  lemma ParseTrailing(names: map<string, Value>, toks: seq<Token>, pos: nat, e: Expr)
    requires Grouped(e) && Occurs(toks, pos, Show(e)) && pos + |Show(e)| == |toks|
    ensures ExprAt(names, toks, pos, 1) == Ends(Eval(names, e), |toks|)
  {
    ShowSize(e);
    OccursExtent(toks, pos, e);
    ParseShown(names, toks, e, pos, |toks|, 1);
    if Eval(names, e).Ok? {
      TailStop(names, toks, Eval(names, e).value, |toks|, 1);
    }
  }

  /** The parser reads the printed tokens of a grouped tree back as the tree's value, consuming all of them. */
  lemma ParseGrouped(names: map<string, Value>, e: Expr)
    requires Grouped(e)
    ensures ExprAt(names, Show(e), 0, 1) == Ends(Eval(names, e), |Show(e)|)
  {
    assert Occurs(Show(e), 0, Show(e));
    ParseTrailing(names, Show(e), 0, e);
  }

  /**
   * Any well-formed tree, printed with parentheses exactly where the
   * precedence table needs them, parses back to the tree's value.
   */
  lemma ParsePrinted(names: map<string, Value>, e: Expr)
    requires WellFormed(e)
    ensures ExprAt(names, Show(Bracket(e)), 0, 1) == Ends(Eval(names, e), |Show(Bracket(e))|)
  {
    BracketGrouped(names, e);
    ParseGrouped(names, Bracket(e));
  }
}
