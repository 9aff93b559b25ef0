/**
 * The parser of the condition language (class ProcessorParser), for the
 * part of its grammar whose binding the precedence table fixes:
 *
 *   statement : ID ASSIGN expr
 *             | ID "(" [ arglist ] ")"
 *             | "(" [ arglist ] ")"
 *             | arglist
 *   arglist   : expr { COMMA expr }
 *   expr      : NUMBER | ID | "(" expr ")" | MINUS expr | NOT expr
 *             | expr op expr    (op: OR, AND, LT, LE, GT, GE, PLUS, MINUS, TIMES, DIVIDE)
 *
 * Levels, loosest first: OR, AND, NOT, the comparisons, PLUS/MINUS,
 * TIMES/DIVIDE, unary minus; binary operators group to the left. The
 * reduction actions run as the phrase is recognised, so parsing and
 * evaluation happen together, left to right: each binary operator is
 * applied as soon as its right operand is complete, and an ID is looked
 * up when it is reached.
 */
module Parser {
  import opened Wrappers
  import opened Values
  import opened Lexer
  import opened Actions

  /** An entry of the parser's error list: an undefined name, or the token at a syntax error (None at the end). */
  datatype ParseError = Undefined(name: string) | Unexpected(token: Option<Token>)

  /** Why a statement has no value. */
  datatype Fault =
    | Syntax(at: nat)   // the token at `at`, or the end of input when `at` is the length, fits no rule
    | TypeError         // Python rejects the operand types of an action
    | ZeroDivision      // a division by zero
    | Unmodelled        // valid Python whose result this model does not represent (see README)

  /** A phrase parsed from some position: its value or fault, where it ends, and the undefined names it read. */
  datatype Parsed = Parsed(outcome: Result<Value, Fault>, next: nat, log: seq<string>)

  /** A comma-separated run of expressions. */
  datatype Items = Items(outcome: Result<seq<Value>, Fault>, next: nat, log: seq<string>)

  predicate IsKind(t: Token, k: Kind) {
    t.Token? && t.kind == k
  }

  // ---------------------------------------------------------------------
  // Name lookup (`expr : ID`)

  /** The value of `name`, or 0 and a record of the undefined name when it is not bound. */
  function Lookup(names: map<string, Value>, name: string): (r: (Value, seq<string>))
    ensures name in names ==> r == (names[name], [])
    ensures name !in names ==> r == (Int(0), [name])
  {
    if name in names then (names[name], []) else (Int(0), [name])
  }

  // ---------------------------------------------------------------------
  // Operators

  /** The level of a binary operator in the precedence table (1 loosest); 0 for any other kind. */
  function Precedence(k: Kind): (p: nat)
    ensures p <= 6
  {
    match k
    case OR => 1
    case AND => 2
    case LT => 4
    case LE => 4
    case GT => 4
    case GE => 4
    case PLUS => 5
    case MINUS => 5
    case TIMES => 6
    case DIVIDE => 6
    case _ => 0
  }

  /** The level at which the operand of NOT (level 3, right) starts to bind. */
  const NotOperand: nat := 4
  /** The level at which the operand of unary minus (UMINUS, level 7) starts to bind: above every binary operator. */
  const UminusOperand: nat := 8

  function BinaryPrec(t: Token): (p: nat)
    ensures p > 0 ==> t.Token? && Precedence(t.kind) == p
  {
    if t.Token? then Precedence(t.kind) else 0
  }

  /**
   * The action of binary operator `op`, with Python's verdict on the
   * operand types: a value where Python computes one, TypeError where it
   * raises, ZeroDivision for a zero divisor, and Unmodelled where the
   * result is a float, a tuple, or a lexicographic comparison.
   */
  function ApplyBinary(op: Kind, a: Value, b: Value): Result<Value, Fault>
    requires Precedence(op) > 0
  {
    if op == AND then Ok(And(a, b))
    else if op == OR then Ok(Or(a, b))
    else if BothNumeric(a, b) then
      if op == PLUS then Ok(Plus(a, b))
      else if op == MINUS then Ok(Minus(a, b))
      else if op == TIMES then Ok(Times(a, b))
      else if op == DIVIDE then
        if AsInt(b) == 0 then Err(ZeroDivision)
        else if AsInt(a) % AsInt(b) != 0 then Err(Unmodelled)
        else Ok(Divide(a, b))
      else if op == LT then Ok(Lt(a, b))
      else if op == LE then Ok(Le(a, b))
      else if op == GT then Ok(Gt(a, b))
      else Ok(Ge(a, b))
    else if op == PLUS && a.List? && b.List? then Ok(Plus(a, b))
    else if op == TIMES && ((a.List? && IsNumeric(b)) || (IsNumeric(a) && b.List?)) then Ok(Times(a, b))
    else if op == PLUS && a.Pair? && b.Pair? then Err(Unmodelled)
    else if op == TIMES && ((a.Pair? && IsNumeric(b)) || (IsNumeric(a) && b.Pair?)) then Err(Unmodelled)
    else if Precedence(op) == 4 && ((a.List? && b.List?) || (a.Pair? && b.Pair?)) then Err(Unmodelled)
    else Err(TypeError)
  }

  /**
   * Python's verdict on each binary operator: the action's value for
   * numbers (and for lists where Python defines one), a bool from every
   * comparison, ZeroDivision for a zero divisor, and TypeError exactly when
   * Python raises one.
   */
  lemma ApplyBinaryVerdict(op: Kind, a: Value, b: Value)
    requires Precedence(op) > 0
    ensures op == PLUS && (BothNumeric(a, b) || (a.List? && b.List?)) ==> ApplyBinary(op, a, b) == Ok(Plus(a, b))
    ensures op == MINUS && BothNumeric(a, b) ==> ApplyBinary(op, a, b) == Ok(Minus(a, b))
    ensures op == TIMES && (BothNumeric(a, b) || (a.List? && IsNumeric(b)) || (IsNumeric(a) && b.List?)) ==>
      ApplyBinary(op, a, b) == Ok(Times(a, b))
    ensures op == DIVIDE && BothNumeric(a, b) ==>
      ApplyBinary(op, a, b) == (if AsInt(b) == 0 then Err(ZeroDivision)
            else if AsInt(a) % AsInt(b) != 0 then Err(Unmodelled)
            else Ok(Divide(a, b)))
    ensures Precedence(op) == 4 && BothNumeric(a, b) ==> ApplyBinary(op, a, b).Ok? && ApplyBinary(op, a, b).value.Bool?
    ensures op == LT && BothNumeric(a, b) ==> ApplyBinary(op, a, b) == Ok(Lt(a, b))
    ensures op == LE && BothNumeric(a, b) ==> ApplyBinary(op, a, b) == Ok(Le(a, b))
    ensures op == GT && BothNumeric(a, b) ==> ApplyBinary(op, a, b) == Ok(Gt(a, b))
    ensures op == GE && BothNumeric(a, b) ==> ApplyBinary(op, a, b) == Ok(Ge(a, b))
    ensures op == AND ==> ApplyBinary(op, a, b) == Ok(And(a, b))
    ensures op == OR ==> ApplyBinary(op, a, b) == Ok(Or(a, b))
    ensures ApplyBinary(op, a, b) == Err(TypeError) <==>
      && op != AND && op != OR
      && !BothNumeric(a, b)
      && !(op == PLUS && ((a.List? && b.List?) || (a.Pair? && b.Pair?)))
      && !(op == TIMES && (((a.List? || a.Pair?) && IsNumeric(b)) || (IsNumeric(a) && (b.List? || b.Pair?))))
      && !(Precedence(op) == 4 && ((a.List? && b.List?) || (a.Pair? && b.Pair?)))
  {
  }

  /** Unary minus with Python's verdict: only numbers can be negated. */
  function ApplyNegate(a: Value): (r: Result<Value, Fault>)
    ensures IsNumeric(a) ==> r == Ok(Negate(a))
    ensures !IsNumeric(a) ==> r == Err(TypeError)
  {
    if IsNumeric(a) then Ok(Negate(a)) else Err(TypeError)
  }

  // ---------------------------------------------------------------------
  // Expressions, by precedence climbing

  /** An operand: NUMBER, ID, a parenthesised expression, or a prefix operator applied to its operand. */
  function ParseOperand(names: map<string, Value>, toks: seq<Token>, pos: nat): (r: Parsed)
    requires pos <= |toks|
    ensures pos <= r.next <= |toks| && (r.outcome.Ok? ==> pos < r.next)
    decreases |toks| - pos, 1
  {
    if pos == |toks| then Parsed(Err(Syntax(pos)), pos, [])
    else
      var t := toks[pos];
      if t.Number? then
        Parsed(Ok(Int(t.value)), pos + 1, [])
      else if t.kind == ID then
        var (v, log) := Lookup(names, t.text);
        Parsed(Ok(v), pos + 1, log)
      else if t.kind == LPAREN then ParseGroup(names, toks, pos)
      else if t.kind == MINUS || t.kind == NOT then ParsePrefix(names, toks, pos)
      else Parsed(Err(Syntax(pos)), pos, [])
  }

  /** `"(" expr ")"` from the `(` at `pos`: the inner value unchanged. */
  function ParseGroup(names: map<string, Value>, toks: seq<Token>, pos: nat): (r: Parsed)
    requires pos < |toks| && IsKind(toks[pos], LPAREN)
    ensures pos <= r.next <= |toks| && (r.outcome.Ok? ==> pos < r.next)
    decreases |toks| - pos, 0
  {
    var inner := ParseExpr(names, toks, pos + 1, 1);
    if inner.outcome.Ok? && inner.next < |toks| && IsKind(toks[inner.next], RPAREN) then
      Parsed(inner.outcome, inner.next + 1, inner.log)
    else
      Parsed(if inner.outcome.Err? then inner.outcome else Err(FaultAt(toks, inner.next)), inner.next, inner.log)
  }

  /** `MINUS expr %prec UMINUS` and `NOT expr` from the operator at `pos`. */
  function ParsePrefix(names: map<string, Value>, toks: seq<Token>, pos: nat): (r: Parsed)
    requires pos < |toks| && (IsKind(toks[pos], MINUS) || IsKind(toks[pos], NOT))
    ensures pos <= r.next <= |toks| && (r.outcome.Ok? ==> pos < r.next)
    decreases |toks| - pos, 0
  {
    var minus := IsKind(toks[pos], MINUS);
    var operand := ParseExpr(names, toks, pos + 1, if minus then UminusOperand else NotOperand);
    if operand.outcome.Err? then Parsed(operand.outcome, operand.next, operand.log)
    else
      var v := operand.outcome.value;
      Parsed(if minus then ApplyNegate(v) else Ok(Not(v)), operand.next, operand.log)
  }

  /** An expression from `pos` whose binary operators all bind at level `minPrec` or tighter. */
  function ParseExpr(names: map<string, Value>, toks: seq<Token>, pos: nat, minPrec: nat): (r: Parsed)
    requires pos <= |toks|
    ensures pos <= r.next <= |toks| && (r.outcome.Ok? ==> pos < r.next)
    decreases |toks| - pos, 2
  {
    var lhs := ParseOperand(names, toks, pos);
    if lhs.outcome.Err? then lhs
    else
      var tail := ParseTail(names, toks, lhs.outcome.value, lhs.next, minPrec);
      Parsed(tail.outcome, tail.next, lhs.log + tail.log)
  }

  /**
   * Extends the value `lhs`, which ends at `pos`, by binary operators of
   * level `minPrec` or tighter: each operator's right operand takes only
   * operators binding tighter than it (left grouping), and the operator is
   * applied before the next one is looked at.
   */
  function ParseTail(names: map<string, Value>, toks: seq<Token>, lhs: Value, pos: nat, minPrec: nat): (r: Parsed)
    requires pos <= |toks|
    ensures pos <= r.next <= |toks|
    ensures r.outcome.Ok? && r.next < |toks| ==> BinaryPrec(toks[r.next]) == 0 || BinaryPrec(toks[r.next]) < minPrec
    decreases |toks| - pos, 3
  {
    if pos == |toks| || BinaryPrec(toks[pos]) == 0 || BinaryPrec(toks[pos]) < minPrec then
      Parsed(Ok(lhs), pos, [])
    else
      var op := toks[pos].kind;
      var rhs := ParseExpr(names, toks, pos + 1, Precedence(op) + 1);
      if rhs.outcome.Err? then
        Parsed(rhs.outcome, rhs.next, rhs.log)
      else match ApplyBinary(op, lhs, rhs.outcome.value)
        case Err(f) =>
          Parsed(Err(f), rhs.next, rhs.log)
        case Ok(v) =>
          var rest := ParseTail(names, toks, v, rhs.next, minPrec);
          Parsed(rest.outcome, rest.next, rhs.log + rest.log)
  }

  /** The fault for a token that ends a phrase too early: `==`, `!=` and `in` are outside the fragment. */
  function FaultAt(toks: seq<Token>, k: nat): (f: Fault)
    ensures f.Syntax? ==> f.at == k
  {
    if k < |toks| && (IsKind(toks[k], EQ) || IsKind(toks[k], NE) || IsKind(toks[k], IN)) then Unmodelled
    else Syntax(k)
  }

  /** `arglist : expr { COMMA expr }`: the values in order. */
  function ParseItems(names: map<string, Value>, toks: seq<Token>, pos: nat): (r: Items)
    requires pos <= |toks|
    ensures pos <= r.next <= |toks|
    ensures r.outcome.Ok? ==>
      && pos < r.next && |r.outcome.value| > 0
      && (r.next < |toks| ==> !IsKind(toks[r.next], COMMA))
    decreases |toks| - pos
  {
    var first := ParseExpr(names, toks, pos, 1);
    if first.outcome.Err? then Items(Err(first.outcome.error), first.next, first.log)
    else if first.next < |toks| && IsKind(toks[first.next], COMMA) then
      var rest := ParseItems(names, toks, first.next + 1);
      Items(if rest.outcome.Ok? then Ok(Arglist(first.outcome.value, rest.outcome.value)) else Err(rest.outcome.error),
            rest.next, first.log + rest.log)
    else Items(Ok(Arglist(first.outcome.value, [])), first.next, first.log)
  }

  // ---------------------------------------------------------------------
  // Statements

  datatype Binding = Binding(name: string, value: Value)

  /** A statement's result (None for an assignment or an empty list), its binding, and the undefined names it read. */
  datatype Statement = Statement(outcome: Result<Option<Value>, Fault>, binding: Option<Binding>, log: seq<string>)

  /** A parenthesised argument list: nothing when empty, else its items. */
  datatype Args = Args(outcome: Result<Option<seq<Value>>, Fault>, next: nat, log: seq<string>)

  /**
   * `"(" [ arglist ] ")"` from the `(` at `open`; `next` is the position
   * after the `)`. The inner arglist is empty, itself such a parenthesised
   * list, or `expr { COMMA expr }`.
   */
  function ParseParenArgs(names: map<string, Value>, toks: seq<Token>, open: nat): (r: Args)
    requires open < |toks| && IsKind(toks[open], LPAREN)
    ensures open <= r.next <= |toks|
    ensures r.outcome.Ok? ==> open + 2 <= r.next
    decreases |toks| - open
  {
    if open + 1 < |toks| && IsKind(toks[open + 1], RPAREN) then Args(Ok(None), open + 2, [])
    else if ParenListAt(names, toks, open + 1) then
      var inner := ParseParenArgs(names, toks, open + 1);
      if inner.outcome.Ok? && inner.next < |toks| && IsKind(toks[inner.next], RPAREN) then
        Args(inner.outcome, inner.next + 1, inner.log)
      else
        Args(Err(if inner.outcome.Err? then inner.outcome.error else Syntax(inner.next)), inner.next, inner.log)
    else
      var items := ParseItems(names, toks, open + 1);
      if items.outcome.Ok? && items.next < |toks| && IsKind(toks[items.next], RPAREN) then
        Args(Ok(Some(items.outcome.value)), items.next + 1, items.log)
      else
        Args(Err(if items.outcome.Err? then items.outcome.error else FaultAt(toks, items.next)), items.next, items.log)
  }

  /**
   * Whether the `(` at `k` opens `"(" [ arglist ] ")"` rather than
   * `"(" expr ")"`, as the parser's preference for shifting decides: it is
   * closed at once, it opens another such list, or a comma follows the
   * first expression inside it.
   */
  predicate ParenListAt(names: map<string, Value>, toks: seq<Token>, k: nat)
    decreases |toks| - k
  {
    && k < |toks| && IsKind(toks[k], LPAREN)
    && ((k + 1 < |toks| && IsKind(toks[k + 1], RPAREN))
        || ParenListAt(names, toks, k + 1)
        || var first := ParseExpr(names, toks, k + 1, 1);
           first.outcome.Ok? && first.next < |toks| && IsKind(toks[first.next], COMMA))
  }

  /** Whether the statement is a parenthesised list rather than an expression. */
  predicate StartsParenList(names: map<string, Value>, toks: seq<Token>) {
    ParenListAt(names, toks, 0)
  }

  /** Where the expressions of a statement start: after `ID =` and `ID (`, else at the front. */
  function StatementStart(toks: seq<Token>): (k: nat)
    ensures k <= |toks|
  {
    if 2 <= |toks| && IsKind(toks[0], ID) && (IsKind(toks[1], ASSIGN) || IsKind(toks[1], LPAREN)) then 2 else 0
  }

  /** One statement, which must take up all of `toks`. */
  function ParseStatement(names: map<string, Value>, toks: seq<Token>): (r: Statement)
    ensures r.binding.Some? ==> r.outcome == Ok(None) && 2 <= |toks| && IsKind(toks[0], ID) && r.binding.value.name == toks[0].text
  {
    if 2 <= |toks| && IsKind(toks[0], ID) && IsKind(toks[1], ASSIGN) then ParseAssignment(names, toks)
    else if 2 <= |toks| && IsKind(toks[0], ID) && IsKind(toks[1], LPAREN) then ParseCall(names, toks)
    else if StartsParenList(names, toks) then ParseParenList(names, toks)
    else ParseArglist(names, toks)
  }

  /** `statement : ID ASSIGN expr`: no result; binds the name to the value. */
  function ParseAssignment(names: map<string, Value>, toks: seq<Token>): (r: Statement)
    requires 2 <= |toks| && IsKind(toks[0], ID) && IsKind(toks[1], ASSIGN)
    ensures r.binding.Some? ==> r.outcome == Ok(None) && r.binding.value.name == toks[0].text
    ensures r.outcome.Ok? ==> r.binding.Some?
  {
    var e := ParseExpr(names, toks, 2, 1);
    if e.outcome.Err? then Statement(Err(e.outcome.error), None, e.log)
    else if e.next < |toks| then Statement(Err(FaultAt(toks, e.next)), None, e.log)
    else Statement(Ok(None), Some(Binding(toks[0].text, e.outcome.value)), e.log)
  }

  /** `statement : ID "(" [ arglist ] ")"`: the pair of the name and the arguments. */
  function ParseCall(names: map<string, Value>, toks: seq<Token>): (r: Statement)
    requires 2 <= |toks| && IsKind(toks[0], ID) && IsKind(toks[1], LPAREN)
    ensures r.binding.None?
    ensures r.outcome.Ok? ==> r.outcome.value.Some? && r.outcome.value.value.Pair? && r.outcome.value.value.name == toks[0].text
  {
    var args := ParseParenArgs(names, toks, 1);
    if args.outcome.Err? then Statement(Err(args.outcome.error), None, args.log)
    else if args.next < |toks| then Statement(Err(Syntax(args.next)), None, args.log)
    else Statement(Ok(Some(Call(toks[0].text, args.outcome.value))), None, args.log)
  }

  /** `statement : arglist` with `arglist : "(" [ arglist ] ")"`: the inner list, or no result when empty. */
  function ParseParenList(names: map<string, Value>, toks: seq<Token>): (r: Statement)
    requires 0 < |toks| && IsKind(toks[0], LPAREN)
    ensures r.binding.None?
  {
    var args := ParseParenArgs(names, toks, 0);
    if args.outcome.Err? then Statement(Err(args.outcome.error), None, args.log)
    else if args.next < |toks| then Statement(Err(Syntax(args.next)), None, args.log)
    else Statement(Ok(Parenthesized(args.outcome.value)), None, args.log)
  }

  /**
   * `statement : expr` for a single expression (its value) and
   * `statement : arglist` for several (the list of their values).
   */
  function ParseArglist(names: map<string, Value>, toks: seq<Token>): (r: Statement)
    ensures r.binding.None?
    ensures r.outcome.Ok? ==> r.outcome.value.Some?
  {
    var items := ParseItems(names, toks, 0);
    if items.outcome.Err? then Statement(Err(items.outcome.error), None, items.log)
    else if items.next < |toks| then Statement(Err(FaultAt(toks, items.next)), None, items.log)
    else if |items.outcome.value| == 1 then Statement(Ok(Some(items.outcome.value[0])), None, items.log)
    else Statement(Ok(Some(List(items.outcome.value))), None, items.log)
  }

  /** The records the ID action leaves for the undefined names `log`, in order. */
  function UndefinedRecords(log: seq<string>): (r: seq<ParseError>)
    ensures |r| == |log|
    ensures forall k :: 0 <= k < |r| ==> r[k] == Undefined(log[k])
  {
    if log == [] then [] else [Undefined(log[0])] + UndefinedRecords(log[1..])
  }

  /** The token a syntax error at `k` reports: the token there, or None at the end of input. */
  function TokenAt(toks: seq<Token>, k: nat): Option<Token> {
    if k < |toks| then Some(toks[k]) else None
  }

  /** What `error(tok)` appends for the fault of a statement, if anything. */
  function FaultRecords(toks: seq<Token>, outcome: Result<Option<Value>, Fault>): seq<ParseError> {
    if outcome.Err? && outcome.error.Syntax? then [Unexpected(TokenAt(toks, outcome.error.at))] else []
  }

  // ---------------------------------------------------------------------
  // The parser object

  class ProcessorParser {
    /** The variables every statement so far has assigned; never cleared. */
    var names: map<string, Value>
    /** Every error of every parse so far, in order; only appended to. */
    var errors: seq<ParseError>

    constructor ()
      ensures names == map[] && errors == []
    {
      names := map[];
      errors := [];
    }

    /** `statement : ID ASSIGN expr`: bind the name. */
    method Assign(name: string, value: Value)
      modifies this`names
      ensures names == old(names)[name := value]
    {
      names := names[name := value];
    }

    /** `expr : ID`: the bound value, or 0 with an `undefined` record; what `Lookup` computes. */
    method LookupId(name: string) returns (v: Value)
      modifies this`errors
      ensures v == Lookup(names, name).0
      ensures errors == old(errors) + UndefinedRecords(Lookup(names, name).1)
      ensures name in names ==> v == names[name] && errors == old(errors)
      ensures name !in names ==> v == Int(0) && errors == old(errors) + [Undefined(name)]
    {
      if name in names {
        v := names[name];
      } else {
        errors := errors + [Undefined(name)];
        v := Int(0);
      }
    }

    /** `error(tok)`: record the offending token. */
    method Error(tok: Option<Token>)
      modifies this`errors
      ensures errors == old(errors) + [Unexpected(tok)]
    {
      errors := errors + [Unexpected(tok)];
    }

    /**
     * Parse one statement against the current names: log its undefined
     * names, then the offending token of a syntax error, and bind the name
     * of an assignment. Nothing else changes.
     */
    method Parse(toks: seq<Token>) returns (result: Result<Option<Value>, Fault>)
      modifies this
      ensures var s := ParseStatement(old(names), toks);
        && result == s.outcome
        && errors == old(errors) + UndefinedRecords(s.log) + FaultRecords(toks, s.outcome)
        && names == (if s.binding.Some? then old(names)[s.binding.value.name := s.binding.value.value] else old(names))
    {
      var s := ParseStatement(names, toks);
      errors := errors + UndefinedRecords(s.log);
      if s.outcome.Err? && s.outcome.error.Syntax? {
        Error(TokenAt(toks, s.outcome.error.at));
      }
      if s.binding.Some? {
        Assign(s.binding.value.name, s.binding.value.value);
      }
      result := s.outcome;
    }
  }
}
