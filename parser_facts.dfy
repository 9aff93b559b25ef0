/**
 * Properties of the parser: the undefined names a phrase reports are
 * exactly the unbound names of the ID tokens it covers, in order.
 */
module ParserFacts {
  import opened Wrappers
  import opened Values
  import opened Lexer
  import opened Actions
  import opened Parser

  // ---------------------------------------------------------------------
  // The undefined names a phrase reports

  /** What the ID action reports for token `t`: its name when `t` is an unbound ID, else nothing. */
  function IdLog(names: map<string, Value>, t: Token): (log: seq<string>)
    ensures IsKind(t, ID) ==> log == Lookup(names, t.text).1
  {
    if IsKind(t, ID) && t.text !in names then [t.text] else []
  }

  /** The undefined names among the ID tokens `toks[i..j]`, in order. */
  function UndefinedIn(names: map<string, Value>, toks: seq<Token>, i: nat, j: nat): seq<string>
    requires i <= j <= |toks|
    decreases j - i
  {
    if i == j then [] else IdLog(names, toks[i]) + UndefinedIn(names, toks, i + 1, j)
  }

  /** The undefined names of adjacent stretches of tokens add up. */
  lemma {:induction false} UndefinedInSplit(names: map<string, Value>, toks: seq<Token>, i: nat, j: nat, k: nat)
    requires i <= j <= k <= |toks|
    ensures UndefinedIn(names, toks, i, k) == UndefinedIn(names, toks, i, j) + UndefinedIn(names, toks, j, k)
    decreases j - i
  {
    if i < j {
      UndefinedInSplit(names, toks, i + 1, j, k);
    }
  }

  /** One token reports what the ID action reports for it. */
  lemma Single(names: map<string, Value>, toks: seq<Token>, i: nat)
    requires i < |toks|
    ensures UndefinedIn(names, toks, i, i + 1) == IdLog(names, toks[i])
  {
    assert UndefinedIn(names, toks, i + 1, i + 1) == [];
  }

  /** A token that is not an ID adds nothing: dropping it from the front. */
  lemma SkipFirst(names: map<string, Value>, toks: seq<Token>, i: nat, k: nat)
    requires i < k <= |toks| && !IsKind(toks[i], ID)
    ensures UndefinedIn(names, toks, i, k) == UndefinedIn(names, toks, i + 1, k)
  {
    assert IdLog(names, toks[i]) == [];
  }

  /** A token that is not an ID adds nothing: skipping it at the front. */
  lemma SkipOther(names: map<string, Value>, toks: seq<Token>, i: nat, j: nat, k: nat)
    requires i < j <= k <= |toks| && !IsKind(toks[i], ID)
    ensures UndefinedIn(names, toks, i, k) == UndefinedIn(names, toks, i + 1, j) + UndefinedIn(names, toks, j, k)
  {
    UndefinedInSplit(names, toks, i + 1, j, k);
  }

  /** A token that is not an ID adds nothing: skipping it in the middle. */
  lemma InnerOther(names: map<string, Value>, toks: seq<Token>, i: nat, j: nat, k: nat)
    requires i <= j < k <= |toks| && !IsKind(toks[j], ID)
    ensures UndefinedIn(names, toks, i, k) == UndefinedIn(names, toks, i, j) + UndefinedIn(names, toks, j + 1, k)
  {
    UndefinedInSplit(names, toks, i, j, k);
    assert UndefinedIn(names, toks, j, k) == UndefinedIn(names, toks, j + 1, k);
  }

  /** Brackets that are not IDs add nothing around what they enclose. */
  lemma Enclosed(names: map<string, Value>, toks: seq<Token>, i: nat, j: nat)
    requires i < j < |toks| && !IsKind(toks[i], ID) && !IsKind(toks[j], ID)
    ensures UndefinedIn(names, toks, i, j + 1) == UndefinedIn(names, toks, i + 1, j)
  {
    assert UndefinedIn(names, toks, i, j + 1) == UndefinedIn(names, toks, i + 1, j + 1);
    DropLastOther(names, toks, i + 1, j);
  }

  lemma {:induction false} DropLastOther(names: map<string, Value>, toks: seq<Token>, i: nat, j: nat)
    requires i <= j < |toks| && !IsKind(toks[j], ID)
    ensures UndefinedIn(names, toks, i, j + 1) == UndefinedIn(names, toks, i, j)
    decreases j - i
  {
    if i < j {
      DropLastOther(names, toks, i + 1, j);
    }
  }

  /** Exactly the unbound names of the ID tokens in range are reported. */
  lemma {:induction false} UndefinedInNames(names: map<string, Value>, toks: seq<Token>, i: nat, j: nat, x: string)
    requires i <= j <= |toks|
    ensures x in UndefinedIn(names, toks, i, j) <==>
      x !in names && exists k :: i <= k < j && IsKind(toks[k], ID) && toks[k].text == x
    decreases j - i
  {
    if i < j {
      UndefinedInNames(names, toks, i + 1, j, x);
      var rest := UndefinedIn(names, toks, i + 1, j);
      assert UndefinedIn(names, toks, i, j) == IdLog(names, toks[i]) + rest;
      if x !in names && IsKind(toks[i], ID) && toks[i].text == x {
        assert x in IdLog(names, toks[i]);
      }
      if exists k :: i + 1 <= k < j && IsKind(toks[k], ID) && toks[k].text == x {
        var k :| i + 1 <= k < j && IsKind(toks[k], ID) && toks[k].text == x;
        assert i <= k < j;
      }
      if exists k :: i <= k < j && IsKind(toks[k], ID) && toks[k].text == x {
        var k :| i <= k < j && IsKind(toks[k], ID) && toks[k].text == x;
        if k != i {
          assert i + 1 <= k < j;
        }
      }
    }
  }

  // The steps of the log proofs, stated over positions and logs alone.

  /** A phrase after a non-ID token at `pos`. */
  lemma AfterFirst(names: map<string, Value>, toks: seq<Token>, pos: nat, n: nat, log: seq<string>,
                   next: nat, result: seq<string>)
    requires pos < n <= |toks| && !IsKind(toks[pos], ID)
    requires log == UndefinedIn(names, toks, pos + 1, n) && next == n && result == log
    ensures result == UndefinedIn(names, toks, pos, next)
  {
    SkipFirst(names, toks, pos, n);
  }

  /** A phrase between a non-ID token at `pos` and a non-ID token at `n`. */
  lemma Between(names: map<string, Value>, toks: seq<Token>, pos: nat, n: nat, log: seq<string>,
                next: nat, result: seq<string>)
    requires pos < n < |toks| && !IsKind(toks[pos], ID) && !IsKind(toks[n], ID)
    requires log == UndefinedIn(names, toks, pos + 1, n) && next == n + 1 && result == log
    ensures result == UndefinedIn(names, toks, pos, next)
  {
    Enclosed(names, toks, pos, n);
  }

  /** Two adjacent phrases. */
  lemma Adjacent(names: map<string, Value>, toks: seq<Token>, pos: nat, m: nat, n: nat,
                 first: seq<string>, second: seq<string>, next: nat, result: seq<string>)
    requires pos <= m <= n <= |toks|
    requires first == UndefinedIn(names, toks, pos, m)
    requires second == UndefinedIn(names, toks, m, n) && next == n && result == first + second
    ensures result == UndefinedIn(names, toks, pos, next)
  {
    UndefinedInSplit(names, toks, pos, m, n);
  }

  /** Two adjacent phrases after a non-ID token at `pos`. */
  lemma AfterOperator(names: map<string, Value>, toks: seq<Token>, pos: nat, m: nat, n: nat,
                      first: seq<string>, second: seq<string>, next: nat, result: seq<string>)
    requires pos < m <= n <= |toks| && !IsKind(toks[pos], ID)
    requires first == UndefinedIn(names, toks, pos + 1, m)
    requires second == UndefinedIn(names, toks, m, n) && next == n && result == first + second
    ensures result == UndefinedIn(names, toks, pos, next)
  {
    SkipOther(names, toks, pos, m, n);
  }

  /** Two phrases separated by a non-ID token at `m`. */
  lemma Separated(names: map<string, Value>, toks: seq<Token>, pos: nat, m: nat, n: nat,
                  first: seq<string>, second: seq<string>, next: nat, result: seq<string>)
    requires pos <= m < n <= |toks| && !IsKind(toks[m], ID)
    requires first == UndefinedIn(names, toks, pos, m)
    requires second == UndefinedIn(names, toks, m + 1, n) && next == n && result == first + second
    ensures result == UndefinedIn(names, toks, pos, next)
  {
    InnerOther(names, toks, pos, m, n);
  }

  /**
   * The names logged while parsing an operand, an expression, an operator
   * tail, a list or a parenthesised list are the undefined IDs among the
   * tokens it consumed, in order, whether or not the parse succeeds.
   */
  lemma {:induction false} OperandLog(names: map<string, Value>, toks: seq<Token>, pos: nat)
    requires pos <= |toks|
    ensures var r := ParseOperand(names, toks, pos); r.log == UndefinedIn(names, toks, pos, r.next)
    decreases |toks| - pos, 1
  {
    if pos < |toks| {
      var t := toks[pos];
      if t.Number? || t.kind == ID {
        Single(names, toks, pos);
      } else if t.kind == LPAREN {
        GroupLog(names, toks, pos);
      } else if t.kind == MINUS || t.kind == NOT {
        PrefixLog(names, toks, pos);
      }
    }
  }

  lemma {:induction false} GroupLog(names: map<string, Value>, toks: seq<Token>, pos: nat)
    requires pos < |toks| && IsKind(toks[pos], LPAREN)
    ensures var r := ParseGroup(names, toks, pos); r.log == UndefinedIn(names, toks, pos, r.next)
    decreases |toks| - pos, 0
  {
    ExprLog(names, toks, pos + 1, 1);
    var inner := ParseExpr(names, toks, pos + 1, 1);
    if inner.outcome.Ok? && inner.next < |toks| && IsKind(toks[inner.next], RPAREN) {
      Between(names, toks, pos, inner.next, inner.log, ParseGroup(names, toks, pos).next, ParseGroup(names, toks, pos).log);
    } else {
      AfterFirst(names, toks, pos, inner.next, inner.log, ParseGroup(names, toks, pos).next, ParseGroup(names, toks, pos).log);
    }
  }

  lemma {:induction false} PrefixLog(names: map<string, Value>, toks: seq<Token>, pos: nat)
    requires pos < |toks| && (IsKind(toks[pos], MINUS) || IsKind(toks[pos], NOT))
    ensures var r := ParsePrefix(names, toks, pos); r.log == UndefinedIn(names, toks, pos, r.next)
    decreases |toks| - pos, 0
  {
    var minPrec := if IsKind(toks[pos], MINUS) then UminusOperand else NotOperand;
    ExprLog(names, toks, pos + 1, minPrec);
    var operand := ParseExpr(names, toks, pos + 1, minPrec);
    AfterFirst(names, toks, pos, operand.next, operand.log, ParsePrefix(names, toks, pos).next, ParsePrefix(names, toks, pos).log);
  }

  lemma {:induction false} ExprLog(names: map<string, Value>, toks: seq<Token>, pos: nat, minPrec: nat)
    requires pos <= |toks|
    ensures var r := ParseExpr(names, toks, pos, minPrec); r.log == UndefinedIn(names, toks, pos, r.next)
    decreases |toks| - pos, 2
  {
    OperandLog(names, toks, pos);
    var lhs := ParseOperand(names, toks, pos);
    if lhs.outcome.Ok? {
      TailLog(names, toks, lhs.outcome.value, lhs.next, minPrec);
      var tail := ParseTail(names, toks, lhs.outcome.value, lhs.next, minPrec);
      Adjacent(names, toks, pos, lhs.next, tail.next, lhs.log, tail.log,
               ParseExpr(names, toks, pos, minPrec).next, ParseExpr(names, toks, pos, minPrec).log);
    }
  }

  lemma {:induction false} TailLog(names: map<string, Value>, toks: seq<Token>, lhs: Value, pos: nat, minPrec: nat)
    requires pos <= |toks|
    ensures var r := ParseTail(names, toks, lhs, pos, minPrec); r.log == UndefinedIn(names, toks, pos, r.next)
    decreases |toks| - pos, 3
  {
    if pos == |toks| || BinaryPrec(toks[pos]) == 0 || BinaryPrec(toks[pos]) < minPrec {
      assert UndefinedIn(names, toks, pos, pos) == [];
    } else {
      var op := toks[pos].kind;
      ExprLog(names, toks, pos + 1, Precedence(op) + 1);
      var rhs := ParseExpr(names, toks, pos + 1, Precedence(op) + 1);
      if rhs.outcome.Ok? && ApplyBinary(op, lhs, rhs.outcome.value).Ok? {
        var v := ApplyBinary(op, lhs, rhs.outcome.value).value;
        TailLog(names, toks, v, rhs.next, minPrec);
        TailOkStep(names, toks, lhs, pos, minPrec, v);
      } else {
        TailErrStep(names, toks, lhs, pos, minPrec);
      }
    }
  }

  lemma TailOkStep(names: map<string, Value>, toks: seq<Token>, lhs: Value, pos: nat, minPrec: nat, v: Value)
    requires pos < |toks| && BinaryPrec(toks[pos]) != 0 && BinaryPrec(toks[pos]) >= minPrec
    requires var rhs := ParseExpr(names, toks, pos + 1, Precedence(toks[pos].kind) + 1);
      && rhs.outcome.Ok? && ApplyBinary(toks[pos].kind, lhs, rhs.outcome.value) == Ok(v)
      && rhs.log == UndefinedIn(names, toks, pos + 1, rhs.next)
      && var rest := ParseTail(names, toks, v, rhs.next, minPrec);
         rest.log == UndefinedIn(names, toks, rhs.next, rest.next)
    ensures var r := ParseTail(names, toks, lhs, pos, minPrec); r.log == UndefinedIn(names, toks, pos, r.next)
  {
    var rhs := ParseExpr(names, toks, pos + 1, Precedence(toks[pos].kind) + 1);
    var rest := ParseTail(names, toks, v, rhs.next, minPrec);
    AfterOperator(names, toks, pos, rhs.next, rest.next, rhs.log, rest.log,
                  ParseTail(names, toks, lhs, pos, minPrec).next, ParseTail(names, toks, lhs, pos, minPrec).log);
  }

  lemma TailErrStep(names: map<string, Value>, toks: seq<Token>, lhs: Value, pos: nat, minPrec: nat)
    requires pos < |toks| && BinaryPrec(toks[pos]) != 0 && BinaryPrec(toks[pos]) >= minPrec
    requires var rhs := ParseExpr(names, toks, pos + 1, Precedence(toks[pos].kind) + 1);
      && !(rhs.outcome.Ok? && ApplyBinary(toks[pos].kind, lhs, rhs.outcome.value).Ok?)
      && rhs.log == UndefinedIn(names, toks, pos + 1, rhs.next)
    ensures var r := ParseTail(names, toks, lhs, pos, minPrec); r.log == UndefinedIn(names, toks, pos, r.next)
  {
    var rhs := ParseExpr(names, toks, pos + 1, Precedence(toks[pos].kind) + 1);
    AfterFirst(names, toks, pos, rhs.next, rhs.log,
               ParseTail(names, toks, lhs, pos, minPrec).next, ParseTail(names, toks, lhs, pos, minPrec).log);
  }

  lemma {:induction false} ItemsLog(names: map<string, Value>, toks: seq<Token>, pos: nat)
    requires pos <= |toks|
    ensures var r := ParseItems(names, toks, pos); r.log == UndefinedIn(names, toks, pos, r.next)
    decreases |toks| - pos
  {
    ExprLog(names, toks, pos, 1);
    var first := ParseExpr(names, toks, pos, 1);
    if first.outcome.Ok? && first.next < |toks| && IsKind(toks[first.next], COMMA) {
      ItemsLog(names, toks, first.next + 1);
      var rest := ParseItems(names, toks, first.next + 1);
      Separated(names, toks, pos, first.next, rest.next, first.log, rest.log,
                ParseItems(names, toks, pos).next, ParseItems(names, toks, pos).log);
    }
  }

  lemma {:induction false} ParenArgsLog(names: map<string, Value>, toks: seq<Token>, open: nat)
    requires open < |toks| && IsKind(toks[open], LPAREN)
    ensures var r := ParseParenArgs(names, toks, open); r.log == UndefinedIn(names, toks, open, r.next)
    decreases |toks| - open
  {
    var r := ParseParenArgs(names, toks, open);
    if open + 1 < |toks| && IsKind(toks[open + 1], RPAREN) {
      assert UndefinedIn(names, toks, open + 1, open + 1) == [];
      Between(names, toks, open, open + 1, [], r.next, r.log);
    } else if ParenListAt(names, toks, open + 1) {
      ParenArgsLog(names, toks, open + 1);
      var inner := ParseParenArgs(names, toks, open + 1);
      if inner.outcome.Ok? && inner.next < |toks| && IsKind(toks[inner.next], RPAREN) {
        Between(names, toks, open, inner.next, inner.log, r.next, r.log);
      } else {
        AfterFirst(names, toks, open, inner.next, inner.log, r.next, r.log);
      }
    } else {
      ItemsLog(names, toks, open + 1);
      var items := ParseItems(names, toks, open + 1);
      if items.outcome.Ok? && items.next < |toks| && IsKind(toks[items.next], RPAREN) {
        Between(names, toks, open, items.next, items.log, r.next, r.log);
      } else {
        AfterFirst(names, toks, open, items.next, items.log, r.next, r.log);
      }
    }
  }

  /**
   * A statement that has a result reports exactly the undefined names
   * among its ID tokens, in order, except the name it assigns or calls,
   * which is not looked up.
   */
  lemma StatementLog(names: map<string, Value>, toks: seq<Token>)
    ensures var r := ParseStatement(names, toks);
      r.outcome.Ok? ==> r.log == UndefinedIn(names, toks, StatementStart(toks), |toks|)
  {
    if 2 <= |toks| && IsKind(toks[0], ID) && IsKind(toks[1], ASSIGN) {
      assert ParseStatement(names, toks) == ParseAssignment(names, toks);
      AssignmentLog(names, toks);
    } else if 2 <= |toks| && IsKind(toks[0], ID) && IsKind(toks[1], LPAREN) {
      assert ParseStatement(names, toks) == ParseCall(names, toks);
      CallLog(names, toks);
    } else if StartsParenList(names, toks) {
      assert ParseStatement(names, toks) == ParseParenList(names, toks);
      ParenListLog(names, toks);
    } else {
      assert ParseStatement(names, toks) == ParseArglist(names, toks);
      ArglistLog(names, toks);
    }
  }

  lemma AssignmentLog(names: map<string, Value>, toks: seq<Token>)
    requires 2 <= |toks| && IsKind(toks[0], ID) && IsKind(toks[1], ASSIGN)
    ensures var r := ParseAssignment(names, toks);
      r.outcome.Ok? ==> r.log == UndefinedIn(names, toks, 2, |toks|)
  {
    var e := ParseExpr(names, toks, 2, 1);
    ExprLog(names, toks, 2, 1);
    assert ParseAssignment(names, toks).log == e.log;
    assert ParseAssignment(names, toks).outcome.Ok? ==> e.next == |toks|;
  }

  lemma CallLog(names: map<string, Value>, toks: seq<Token>)
    requires 2 <= |toks| && IsKind(toks[0], ID) && IsKind(toks[1], LPAREN)
    ensures var r := ParseCall(names, toks);
      r.outcome.Ok? ==> r.log == UndefinedIn(names, toks, 2, |toks|)
  {
    var args := ParseParenArgs(names, toks, 1);
    ParenArgsLog(names, toks, 1);
    assert ParseCall(names, toks).log == args.log;
    if ParseCall(names, toks).outcome.Ok? {
      assert args.outcome.Ok? && args.next == |toks|;
      assert UndefinedIn(names, toks, 1, |toks|) == UndefinedIn(names, toks, 2, |toks|) by {
        SkipFirst(names, toks, 1, |toks|);
      }
    }
  }

  lemma ParenListLog(names: map<string, Value>, toks: seq<Token>)
    requires 0 < |toks| && IsKind(toks[0], LPAREN)
    ensures var r := ParseParenList(names, toks);
      r.outcome.Ok? ==> r.log == UndefinedIn(names, toks, 0, |toks|)
  {
    var args := ParseParenArgs(names, toks, 0);
    ParenArgsLog(names, toks, 0);
    assert ParseParenList(names, toks).log == args.log;
    assert ParseParenList(names, toks).outcome.Ok? ==> args.next == |toks|;
  }

  lemma ArglistLog(names: map<string, Value>, toks: seq<Token>)
    ensures var r := ParseArglist(names, toks);
      r.outcome.Ok? ==> r.log == UndefinedIn(names, toks, 0, |toks|)
  {
    var items := ParseItems(names, toks, 0);
    ItemsLog(names, toks, 0);
    assert ParseArglist(names, toks).log == items.log;
    assert ParseArglist(names, toks).outcome.Ok? ==> items.next == |toks|;
  }
}
