/**
 * Argument lists of printed trees: `e1 , e2 , ...` on its own, inside one
 * or more pairs of parentheses, and as the arguments of a call. Each form
 * yields the values of its trees in order, or the fault of the first tree
 * that faults; empty parentheses yield no list.
 */
module Lists {
  import opened Wrappers
  import opened Values
  import opened Lexer
  import opened LexerFacts
  import opened Actions
  import opened Parser
  import opened Expressions
  import opened Statements

  const Comma: Token := Token(COMMA, ",", 1)

  /** `()`: a parenthesised list with nothing inside. */
  const EmptyParens: seq<Token> := [OpToken(LPAREN), OpToken(RPAREN)]

  predicate AllGrouped(es: seq<Expr>) {
    forall k :: 0 <= k < |es| ==> Grouped(es[k])
  }

  /** The printed tokens of the trees, separated by commas. */
  function ShowItems(es: seq<Expr>): (s: seq<Token>)
    requires |es| > 0
    decreases |es|
  {
    if |es| == 1 then Show(es[0]) else Show(es[0]) + [Comma] + ShowItems(es[1..])
  }

  /** The printed trees in parentheses. */
  function ShowList(es: seq<Expr>): seq<Token>
    requires |es| > 0
  {
    [OpToken(LPAREN)] + ShowItems(es) + [OpToken(RPAREN)]
  }

  /** `s` inside `d` further pairs of parentheses. */
  function Nest(s: seq<Token>, d: nat): (t: seq<Token>)
    ensures |t| == |s| + 2 * d
  {
    if d == 0 then s else [OpToken(LPAREN)] + Nest(s, d - 1) + [OpToken(RPAREN)]
  }

  /** A value, or a fault, in front of a list of values, or of its fault; the first fault wins. */
  function Prepend(v: Result<Value, Fault>, rest: Result<seq<Value>, Fault>): (r: Result<seq<Value>, Fault>)
    ensures r.Ok? <==> v.Ok? && rest.Ok?
    ensures r.Ok? ==> r.value == [v.value] + rest.value
    ensures r.Err? ==> r.error == (if v.Err? then v.error else rest.error)
  {
    match v
    case Err(f) => Err(f)
    case Ok(x) =>
      match rest
      case Err(f) => Err(f)
      case Ok(xs) => Ok([x] + xs)
  }

  /** The values of the trees from left to right; the first fault ends the list. */
  function EvalItems(names: map<string, Value>, es: seq<Expr>): (r: Result<seq<Value>, Fault>)
    requires |es| > 0 && AllGrouped(es)
    ensures r.Ok? ==> |r.value| == |es|
    decreases |es|
  {
    Prepend(Eval(names, es[0]), if |es| == 1 then Ok([]) else EvalItems(names, es[1..]))
  }

  /**
   * The list has a value exactly when every tree has one, and then holds
   * the trees' values in order; otherwise its fault is that of the first
   * tree with a fault.
   */
  lemma EvalItemsValues(names: map<string, Value>, es: seq<Expr>)
    requires |es| > 0 && AllGrouped(es)
    ensures var r := EvalItems(names, es);
      r.Ok? ==> forall k :: 0 <= k < |es| ==> Eval(names, es[k]) == Ok(r.value[k])
    ensures var r := EvalItems(names, es);
      r.Err? ==> exists k :: 0 <= k < |es| && Eval(names, es[k]) == Err(r.error) && forall j :: 0 <= j < k ==> Eval(names, es[j]).Ok?
  {
    EvalItemsOk(names, es);
    EvalItemsErr(names, es);
  }

  lemma {:induction false} EvalItemsOk(names: map<string, Value>, es: seq<Expr>)
    requires |es| > 0 && AllGrouped(es)
    ensures var r := EvalItems(names, es);
      r.Ok? ==> forall k :: 0 <= k < |es| ==> Eval(names, es[k]) == Ok(r.value[k])
    decreases |es|
  {
    var r := EvalItems(names, es);
    if |es| > 1 && r.Ok? {
      AllGroupedTail(es);
      EvalItemsOk(names, es[1..]);
      var rest := EvalItems(names, es[1..]);
      forall k | 0 <= k < |es| ensures Eval(names, es[k]) == Ok(r.value[k]) {
        if k > 0 {
          assert es[k] == es[1..][k - 1] && r.value[k] == rest.value[k - 1];
        }
      }
    }
  }

  lemma {:induction false} EvalItemsErr(names: map<string, Value>, es: seq<Expr>)
    requires |es| > 0 && AllGrouped(es)
    ensures var r := EvalItems(names, es);
      r.Err? ==> exists k :: 0 <= k < |es| && Eval(names, es[k]) == Err(r.error) && forall j :: 0 <= j < k ==> Eval(names, es[j]).Ok?
    decreases |es|
  {
    var r := EvalItems(names, es);
    if |es| > 1 && Eval(names, es[0]).Ok? && r.Err? {
      AllGroupedTail(es);
      EvalItemsErr(names, es[1..]);
      var tail := es[1..];
      var f := EvalItems(names, tail).error;
      var k :| 0 <= k < |tail| && Eval(names, tail[k]) == Err(f) && forall j :: 0 <= j < k ==> Eval(names, tail[j]).Ok?;
      ErrAfterFirst(names, es, k, f);
    } else if r.Err? {
      assert Eval(names, es[0]) == Err(r.error);
    }
  }

  /** A fault at `k` in the tail of a list whose first tree has a value is a fault at `k + 1` in the list. */
  lemma ErrAfterFirst(names: map<string, Value>, es: seq<Expr>, k: nat, f: Fault)
    requires |es| > 1 && AllGrouped(es) && Eval(names, es[0]).Ok? && k < |es| - 1
    requires Eval(names, es[1..][k]) == Err(f) && forall j :: 0 <= j < k ==> Eval(names, es[1..][j]).Ok?
    ensures Eval(names, es[k + 1]) == Err(f) && forall j :: 0 <= j < k + 1 ==> Eval(names, es[j]).Ok?
  {
    assert es[1..][k] == es[k + 1];
    forall j | 0 <= j < k + 1 ensures Eval(names, es[j]).Ok? {
      if j > 0 {
        assert es[j] == es[1..][j - 1];
      }
    }
  }

  /** A list statement's result: the list of the values, or the fault. */
  function Listed(v: Result<seq<Value>, Fault>): Result<Option<Value>, Fault> {
    match v
    case Ok(vs) => Ok(Some(List(vs)))
    case Err(f) => Err(f)
  }

  /** A call statement's result: the name paired with the list of the values, or the fault. */
  function Called(name: string, v: Result<seq<Value>, Fault>): Result<Option<Value>, Fault> {
    match v
    case Ok(vs) => Ok(Some(Pair(name, Some(List(vs)))))
    case Err(f) => Err(f)
  }

  /** What a parenthesised argument list of items yields: the values, or the fault. */
  function SomeItems(v: Result<seq<Value>, Fault>): Result<Option<seq<Value>>, Fault> {
    match v
    case Ok(vs) => Ok(Some(vs))
    case Err(f) => Err(f)
  }

  // ---------------------------------------------------------------------
  // Where the tokens of a list occur

  /** The first tree of a list, then a comma and the rest, or the end of the list. */
  lemma FirstItem(toks: seq<Token>, pos: nat, es: seq<Expr>)
    requires |es| > 0 && Occurs(toks, pos, ShowItems(es))
    ensures Occurs(toks, pos, Show(es[0]))
    ensures |es| == 1 ==> pos + Size(es[0]) == pos + |ShowItems(es)|
    ensures |es| > 1 ==>
      && pos + Size(es[0]) < |toks| && toks[pos + Size(es[0])] == Comma
      && Occurs(toks, pos + Size(es[0]) + 1, ShowItems(es[1..]))
      && pos + |ShowItems(es)| == pos + Size(es[0]) + 1 + |ShowItems(es[1..])|
  {
    ShowSize(es[0]);
    if |es| > 1 {
      OccursAround(toks, pos, Show(es[0]), Comma, ShowItems(es[1..]));
    }
  }

  /** The tokens inside a pair of parentheses, and the parentheses. */
  lemma Enclosed(toks: seq<Token>, pos: nat, s: seq<Token>)
    requires Occurs(toks, pos, [OpToken(LPAREN)] + s + [OpToken(RPAREN)])
    ensures pos < |toks| && toks[pos] == OpToken(LPAREN) && Occurs(toks, pos + 1, s)
    ensures pos + 1 + |s| < |toks| && toks[pos + 1 + |s|] == OpToken(RPAREN)
  {
    assert [OpToken(LPAREN)] + s + [OpToken(RPAREN)] == [] + [OpToken(LPAREN)] + (s + [OpToken(RPAREN)]);
    OccursAround(toks, pos, [], OpToken(LPAREN), s + [OpToken(RPAREN)]);
    assert s + [OpToken(RPAREN)] == s + [OpToken(RPAREN)] + [];
    OccursAround(toks, pos + 1, s, OpToken(RPAREN), []);
  }

  /** A nest of parentheses around `s` is a pair of them around a shallower nest. */
  lemma NestEnclosed(toks: seq<Token>, pos: nat, s: seq<Token>, d: nat)
    requires d > 0 && Occurs(toks, pos, Nest(s, d))
    ensures pos < |toks| && toks[pos] == OpToken(LPAREN) && Occurs(toks, pos + 1, Nest(s, d - 1))
    ensures pos + 1 + |Nest(s, d - 1)| < |toks| && toks[pos + 1 + |Nest(s, d - 1)|] == OpToken(RPAREN)
  {
    Enclosed(toks, pos, Nest(s, d - 1));
  }

  // ---------------------------------------------------------------------
  // Parsing printed lists

  /** An arglist whose first expression faults has that fault. */
  lemma ItemsErr(names: map<string, Value>, toks: seq<Token>, pos: nat, f: Fault)
    requires pos <= |toks| && ParseExpr(names, toks, pos, 1).outcome == Err(f)
    ensures ParseItems(names, toks, pos).outcome == Err(f)
  {
  }

  /** An arglist whose first expression is not followed by a comma is that one value. */
  lemma ItemsLast(names: map<string, Value>, toks: seq<Token>, pos: nat, v: Value, end: nat)
    requires pos <= |toks| && ExprAt(names, toks, pos, 1) == Ends(Ok(v), end)
    requires end == |toks| || (end < |toks| && !IsKind(toks[end], COMMA))
    ensures ParseItems(names, toks, pos).outcome == Ok([v]) && ParseItems(names, toks, pos).next == end
  {
    assert Arglist(v, []) == [v];
  }

  /** An arglist whose first expression is followed by a comma goes on with the arglist after it. */
  lemma ItemsMore(names: map<string, Value>, toks: seq<Token>, pos: nat, v: Value, end: nat, rest: Result<seq<Value>, Fault>, next: nat)
    requires pos <= |toks| && ExprAt(names, toks, pos, 1) == Ends(Ok(v), end)
    requires end < |toks| && IsKind(toks[end], COMMA)
    requires ParseItems(names, toks, end + 1).outcome == rest && ParseItems(names, toks, end + 1).next == next
    ensures ParseItems(names, toks, pos).outcome == (if rest.Ok? then Ok([v] + rest.value) else Err(rest.error))
    ensures ParseItems(names, toks, pos).next == next
  {
  }

  lemma AllGroupedTail(es: seq<Expr>)
    requires |es| > 1 && AllGrouped(es)
    ensures AllGrouped(es[1..])
  {
    forall k | 0 <= k < |es| - 1 ensures Grouped(es[1..][k]) {
      assert es[1..][k] == es[k + 1];
    }
  }

  /**
   * One step of an arglist: the first expression's outcome `v`, ending at
   * `end`, then either the end of the list (`single`) or a comma and a
   * list whose outcome is `rest`, ending at `full`.
   */
  lemma ItemsStep(names: map<string, Value>, toks: seq<Token>, pos: nat, v: Result<Value, Fault>, end: nat,
                  rest: Result<seq<Value>, Fault>, full: nat, single: bool)
    requires pos <= |toks| && ExprAt(names, toks, pos, 1) == Ends(v, end)
    requires single ==> end == full && rest == Ok([]) && (full == |toks| || (full < |toks| && !IsKind(toks[full], COMMA)))
    requires !single ==> end < |toks| && IsKind(toks[end], COMMA)
    requires !single && v.Ok? ==>
      ParseItems(names, toks, end + 1).outcome == rest && (rest.Ok? ==> ParseItems(names, toks, end + 1).next == full)
    ensures ParseItems(names, toks, pos).outcome == Prepend(v, rest)
    ensures Prepend(v, rest).Ok? ==> ParseItems(names, toks, pos).next == full
  {
    match v
    case Err(f) =>
      ItemsErr(names, toks, pos, f);
    case Ok(x) =>
      if single {
        ItemsLast(names, toks, pos, x, end);
        assert [x] + [] == [x];
      } else {
        var r := ParseItems(names, toks, end + 1);
        ItemsMore(names, toks, pos, x, end, r.outcome, r.next);
      }
  }

  /**
   * Where the trees of a list end when they appear in `toks` from `pos`,
   * separated by commas, as `Extent` tells tokens apart.
   */
  function ItemsExtent(toks: seq<Token>, pos: nat, es: seq<Expr>): (k: Option<nat>)
    requires |es| > 0
    ensures k.Some? ==> pos < k.value <= |toks|
    decreases |es|
  {
    match Extent(toks, pos, es[0])
    case None => None
    case Some(k) =>
      if |es| == 1 then Some(k)
      else if k < |toks| && IsKind(toks[k], COMMA) then ItemsExtent(toks, k + 1, es[1..])
      else None
  }

  /** Where the first tree of a list ends, and what follows it. */
  lemma ItemsExtentFirst(toks: seq<Token>, pos: nat, es: seq<Expr>, end: nat)
    requires |es| > 0 && ItemsExtent(toks, pos, es) == Some(end)
    ensures Extent(toks, pos, es[0]).Some?
    ensures var k := Extent(toks, pos, es[0]).value;
      && (|es| == 1 ==> k == end)
      && (|es| > 1 ==> k < |toks| && IsKind(toks[k], COMMA) && ItemsExtent(toks, k + 1, es[1..]) == Some(end))
  {
  }

  /** Wherever the printed tokens of a list occur, they are where `ItemsExtent` finds them. */
  lemma {:induction false} OccursItems(toks: seq<Token>, pos: nat, es: seq<Expr>)
    requires |es| > 0 && Occurs(toks, pos, ShowItems(es))
    ensures ItemsExtent(toks, pos, es) == Some(pos + |ShowItems(es)|)
    decreases |es|, 1
  {
    FirstSpans(toks, pos, es);
    if |es| > 1 {
      OccursMoreItems(toks, pos, es);
    }
  }

  lemma {:induction false} OccursMoreItems(toks: seq<Token>, pos: nat, es: seq<Expr>)
    requires |es| > 1 && Occurs(toks, pos, ShowItems(es))
    ensures ItemsExtent(toks, pos, es) == Some(pos + |ShowItems(es)|)
    decreases |es|, 0
  {
    FirstSpans(toks, pos, es);
    var k := pos + Size(es[0]);
    OccursItems(toks, k + 1, es[1..]);
    ItemsExtentNext(toks, pos, es, k, k + 1 + |ShowItems(es[1..])|);
  }

  /** Where the first tree of a printed list ends, and what follows it. */
  lemma FirstSpans(toks: seq<Token>, pos: nat, es: seq<Expr>)
    requires |es| > 0 && Occurs(toks, pos, ShowItems(es))
    ensures Extent(toks, pos, es[0]) == Some(pos + Size(es[0]))
    ensures |es| == 1 ==> Size(es[0]) == |ShowItems(es)|
    ensures |es| > 1 ==>
      && pos + Size(es[0]) < |toks| && toks[pos + Size(es[0])] == Comma
      && Occurs(toks, pos + Size(es[0]) + 1, ShowItems(es[1..]))
      && |ShowItems(es)| == Size(es[0]) + 1 + |ShowItems(es[1..])|
  {
    FirstItem(toks, pos, es);
    OccursExtent(toks, pos, es[0]);
  }

  lemma ItemsExtentNext(toks: seq<Token>, pos: nat, es: seq<Expr>, k: nat, end: nat)
    requires |es| > 1 && Extent(toks, pos, es[0]) == Some(k)
    requires k < |toks| && toks[k] == Comma && ItemsExtent(toks, k + 1, es[1..]) == Some(end)
    ensures ItemsExtent(toks, pos, es) == Some(end)
  {
  }

  /**
   * Trees of a list standing at `toks[pos..end]`, followed by the end of
   * the input or by a token that is neither an operator nor a comma, parse
   * as an arglist to their values in order, ending at `end`; a fault of a
   * tree is the fault of the first tree that faults.
   */
  lemma {:induction false} ItemsParse(names: map<string, Value>, toks: seq<Token>, pos: nat, es: seq<Expr>, end: nat)
    requires |es| > 0 && AllGrouped(es) && ItemsExtent(toks, pos, es) == Some(end)
    requires end == |toks| || (end < |toks| && BinaryPrec(toks[end]) == 0 && !IsKind(toks[end], COMMA))
    ensures var r := ParseItems(names, toks, pos);
      r.outcome == EvalItems(names, es) && (r.outcome.Ok? ==> r.next == end)
    decreases |es|, 1
  {
    if |es| == 1 {
      LastItem(names, toks, pos, es, end);
    } else {
      MoreItems(names, toks, pos, es, end);
    }
  }

  lemma LastItem(names: map<string, Value>, toks: seq<Token>, pos: nat, es: seq<Expr>, end: nat)
    requires |es| == 1 && AllGrouped(es) && ItemsExtent(toks, pos, es) == Some(end)
    requires end == |toks| || (end < |toks| && BinaryPrec(toks[end]) == 0 && !IsKind(toks[end], COMMA))
    ensures var r := ParseItems(names, toks, pos);
      r.outcome == EvalItems(names, es) && (r.outcome.Ok? ==> r.next == end)
  {
    FirstOfItems(names, toks, pos, es, end);
    ItemsStep(names, toks, pos, Eval(names, es[0]), end, Ok([]), end, true);
  }

  lemma {:induction false} MoreItems(names: map<string, Value>, toks: seq<Token>, pos: nat, es: seq<Expr>, end: nat)
    requires |es| > 1 && AllGrouped(es) && ItemsExtent(toks, pos, es) == Some(end)
    requires end == |toks| || (end < |toks| && BinaryPrec(toks[end]) == 0 && !IsKind(toks[end], COMMA))
    ensures var r := ParseItems(names, toks, pos);
      r.outcome == EvalItems(names, es) && (r.outcome.Ok? ==> r.next == end)
    decreases |es|, 0
  {
    FirstOfItems(names, toks, pos, es, end);
    var k := Extent(toks, pos, es[0]).value;
    var v, tail := Eval(names, es[0]), es[1..];
    AllGroupedTail(es);
    if v.Ok? {
      ItemsParse(names, toks, k + 1, tail, end);
    }
    ItemsCons(names, toks, pos, v, k, EvalItems(names, tail), end);
  }

  /** A first expression followed by a comma and an arglist with outcome `rest`, ending at `full`. */
  lemma ItemsCons(names: map<string, Value>, toks: seq<Token>, pos: nat, v: Result<Value, Fault>, k: nat,
                  rest: Result<seq<Value>, Fault>, full: nat)
    requires pos <= |toks| && ExprAt(names, toks, pos, 1) == Ends(v, k)
    requires k < |toks| && IsKind(toks[k], COMMA)
    requires v.Ok? ==> ParseItems(names, toks, k + 1).outcome == rest && (rest.Ok? ==> ParseItems(names, toks, k + 1).next == full)
    ensures ParseItems(names, toks, pos).outcome == Prepend(v, rest)
    ensures Prepend(v, rest).Ok? ==> ParseItems(names, toks, pos).next == full
  {
    ItemsStep(names, toks, pos, v, k, rest, full, false);
  }

  /** The first tree of such a list is an expression with the tree's value, ended by a comma or the list's end. */
  lemma FirstOfItems(names: map<string, Value>, toks: seq<Token>, pos: nat, es: seq<Expr>, end: nat)
    requires |es| > 0 && AllGrouped(es) && ItemsExtent(toks, pos, es) == Some(end)
    requires end == |toks| || (end < |toks| && BinaryPrec(toks[end]) == 0 && !IsKind(toks[end], COMMA))
    ensures Extent(toks, pos, es[0]).Some?
    ensures var k := Extent(toks, pos, es[0]).value;
      && ExprAt(names, toks, pos, 1) == Ends(Eval(names, es[0]), k)
      && (|es| == 1 ==> k == end)
      && (|es| > 1 ==> k < |toks| && IsKind(toks[k], COMMA) && ItemsExtent(toks, k + 1, es[1..]) == Some(end))
  {
    ItemsExtentFirst(toks, pos, es, end);
    var k := Extent(toks, pos, es[0]).value;
    ParseShown(names, toks, es[0], pos, k, 1);
    if Eval(names, es[0]).Ok? {
      TailStop(names, toks, Eval(names, es[0]).value, k, 1);
    }
  }

  /**
   * The printed trees, followed by the end of the input or by a token that
   * is neither an operator nor a comma, parse as an arglist to their values
   * in order, consuming exactly their tokens; a fault of a tree is the
   * fault of the first tree that faults.
   */
  lemma ItemsShown(names: map<string, Value>, toks: seq<Token>, pos: nat, es: seq<Expr>)
    requires |es| > 0 && AllGrouped(es) && Occurs(toks, pos, ShowItems(es))
    requires var end := pos + |ShowItems(es)|;
      end == |toks| || (end < |toks| && BinaryPrec(toks[end]) == 0 && !IsKind(toks[end], COMMA))
    ensures var r := ParseItems(names, toks, pos);
      r.outcome == EvalItems(names, es) && (r.outcome.Ok? ==> r.next == pos + |ShowItems(es)|)
  {
    OccursItems(toks, pos, es);
    ItemsParse(names, toks, pos, es, pos + |ShowItems(es)|);
  }

  /**
   * Where a parenthesised list of the trees, inside `d` further pairs of
   * parentheses, ends when it appears in `toks` from `p`.
   */
  function NestExtent(toks: seq<Token>, p: nat, es: seq<Expr>, d: nat): (k: Option<nat>)
    requires |es| > 0
    ensures k.Some? ==> p < k.value <= |toks|
    decreases d
  {
    if p >= |toks| || !IsKind(toks[p], LPAREN) then None
    else
      match (if d == 0 then ItemsExtent(toks, p + 1, es) else NestExtent(toks, p + 1, es, d - 1))
      case None => None
      case Some(k) => if k < |toks| && IsKind(toks[k], RPAREN) then Some(k + 1) else None
  }

  /** The opening parenthesis of a nest, what it encloses, and its closing parenthesis. */
  lemma NestExtentFirst(toks: seq<Token>, p: nat, es: seq<Expr>, d: nat, end: nat)
    requires |es| > 0 && NestExtent(toks, p, es, d) == Some(end)
    ensures p < |toks| && IsKind(toks[p], LPAREN) && p + 1 < end && IsKind(toks[end - 1], RPAREN)
    ensures d == 0 ==> ItemsExtent(toks, p + 1, es) == Some(end - 1)
    ensures d > 0 ==> NestExtent(toks, p + 1, es, d - 1) == Some(end - 1) && IsKind(toks[p + 1], LPAREN)
  {
    if d > 0 {
      NestExtentOpens(toks, p + 1, es, d - 1, end - 1);
    }
  }

  lemma NestExtentOpens(toks: seq<Token>, p: nat, es: seq<Expr>, d: nat, end: nat)
    requires |es| > 0 && NestExtent(toks, p, es, d) == Some(end)
    ensures p < |toks| && IsKind(toks[p], LPAREN)
  {
  }

  lemma NestExtentClose(toks: seq<Token>, p: nat, es: seq<Expr>, d: nat, k: nat)
    requires |es| > 0 && p < |toks| && toks[p] == OpToken(LPAREN)
    requires d == 0 ==> ItemsExtent(toks, p + 1, es) == Some(k)
    requires d > 0 ==> NestExtent(toks, p + 1, es, d - 1) == Some(k)
    requires k < |toks| && toks[k] == OpToken(RPAREN)
    ensures NestExtent(toks, p, es, d) == Some(k + 1)
  {
  }

  /** Wherever the printed tokens of a nest occur, they are where `NestExtent` finds them. */
  lemma {:induction false} OccursNest(toks: seq<Token>, p: nat, es: seq<Expr>, d: nat)
    requires |es| > 0 && Occurs(toks, p, Nest(ShowList(es), d))
    ensures NestExtent(toks, p, es, d) == Some(p + |Nest(ShowList(es), d)|)
    decreases d
  {
    if d == 0 {
      OccursList(toks, p, es);
    } else {
      NestEnclosed(toks, p, ShowList(es), d);
      OccursNest(toks, p + 1, es, d - 1);
      NestExtentClose(toks, p, es, d, p + 1 + |Nest(ShowList(es), d - 1)|);
    }
  }

  /** Wherever the printed tokens of a parenthesised list occur, they are where `NestExtent` finds them. */
  lemma OccursList(toks: seq<Token>, p: nat, es: seq<Expr>)
    requires |es| > 0 && Occurs(toks, p, ShowList(es))
    ensures NestExtent(toks, p, es, 0) == Some(p + |ShowList(es)|)
  {
    Enclosed(toks, p, ShowItems(es));
    OccursItems(toks, p + 1, es);
    NestExtentClose(toks, p, es, 0, p + 1 + |ShowItems(es)|);
  }

  /** A `(` followed by an expression with a value and a comma opens a parenthesised list. */
  lemma ListOpensAt(names: map<string, Value>, toks: seq<Token>, p: nat, v: Value, k: nat)
    requires p < |toks| && IsKind(toks[p], LPAREN)
    requires ExprAt(names, toks, p + 1, 1) == Ends(Ok(v), k) && k < |toks| && IsKind(toks[k], COMMA)
    ensures ParenListAt(names, toks, p)
  {
  }

  /** A `(` that opens a parenthesised list right after another `(` makes that one a list too. */
  lemma NestedListAt(names: map<string, Value>, toks: seq<Token>, p: nat)
    requires p < |toks| && IsKind(toks[p], LPAREN) && ParenListAt(names, toks, p + 1)
    ensures ParenListAt(names, toks, p)
  {
  }

  /**
   * A `(` not closed at once, not opening a list, and followed by an
   * expression with a fault is an expression with that fault.
   */
  lemma GroupFault(names: map<string, Value>, toks: seq<Token>, p: nat, f: Fault)
    requires p + 1 < |toks| && IsKind(toks[p], LPAREN) && !IsKind(toks[p + 1], RPAREN)
    requires !ParenListAt(names, toks, p + 1) && ParseExpr(names, toks, p + 1, 1).outcome == Err(f)
    ensures ParseExpr(names, toks, p, 1).outcome == Err(f) && !ParenListAt(names, toks, p)
  {
    OperandGroupErr(names, toks, p);
    ExprOfOperand(names, toks, p, 1);
  }

  /** A `(` before a list whose first tree has a value opens a parenthesised list. */
  lemma FlatList(names: map<string, Value>, toks: seq<Token>, p: nat, es: seq<Expr>)
    requires |es| > 1 && AllGrouped(es) && Eval(names, es[0]).Ok?
    requires p < |toks| && IsKind(toks[p], LPAREN) && ItemsExtent(toks, p + 1, es).Some?
    ensures ParenListAt(names, toks, p)
  {
    ItemsExtentFirst(toks, p + 1, es, ItemsExtent(toks, p + 1, es).value);
    var k := Extent(toks, p + 1, es[0]).value;
    var v := Eval(names, es[0]).value;
    ParseShown(names, toks, es[0], p + 1, k, 1);
    TailStop(names, toks, v, k, 1);
    ListOpensAt(names, toks, p, v, k);
  }

  /** A nest around a list whose first tree has a value is taken for a parenthesised list. */
  lemma {:induction false} NestList(names: map<string, Value>, toks: seq<Token>, p: nat, es: seq<Expr>, d: nat, end: nat)
    requires |es| > 1 && AllGrouped(es) && Eval(names, es[0]).Ok?
    requires NestExtent(toks, p, es, d) == Some(end)
    ensures ParenListAt(names, toks, p)
    decreases d
  {
    NestExtentFirst(toks, p, es, d, end);
    if d == 0 {
      FlatList(names, toks, p, es);
    } else {
      NestList(names, toks, p + 1, es, d - 1, end - 1);
      NestedListAt(names, toks, p);
    }
  }

  /** The first tree of a parenthesised list ends before a comma or the closing `)`. */
  lemma FirstExtent(toks: seq<Token>, p: nat, es: seq<Expr>)
    requires |es| > 0 && NestExtent(toks, p, es, 0).Some?
    ensures p < |toks| && IsKind(toks[p], LPAREN) && Extent(toks, p + 1, es[0]).Some?
    ensures var k := Extent(toks, p + 1, es[0]).value; k < |toks| && BinaryPrec(toks[k]) == 0
  {
    NestExtentFirst(toks, p, es, 0, NestExtent(toks, p, es, 0).value);
    ItemsExtentFirst(toks, p + 1, es, NestExtent(toks, p, es, 0).value - 1);
  }

  /** What follows the `(` of a parenthesised list: its first tree, where no list opens. */
  lemma FirstInside(names: map<string, Value>, toks: seq<Token>, p: nat, es: seq<Expr>)
    requires |es| > 0 && AllGrouped(es) && NestExtent(toks, p, es, 0).Some?
    ensures p + 1 < |toks| && IsKind(toks[p], LPAREN) && !IsKind(toks[p + 1], RPAREN)
    ensures !ParenListAt(names, toks, p + 1)
    ensures ParseExpr(names, toks, p + 1, 1).outcome == Eval(names, es[0])
  {
    FirstExtent(toks, p, es);
    var k := Extent(toks, p + 1, es[0]).value;
    ExtentHead(toks, p + 1, es[0]);
    OpenNotList(names, toks, p + 1, es[0]);
    ParseShown(names, toks, es[0], p + 1, k, 1);
  }

  /** A `(` before a list whose first tree faults is an expression with that fault. */
  lemma FlatErr(names: map<string, Value>, toks: seq<Token>, p: nat, es: seq<Expr>)
    requires |es| > 0 && AllGrouped(es) && Eval(names, es[0]).Err?
    requires NestExtent(toks, p, es, 0).Some?
    ensures p <= |toks| && ParseExpr(names, toks, p, 1).outcome == Eval(names, es[0])
    ensures !ParenListAt(names, toks, p)
  {
    FirstInside(names, toks, p, es);
    GroupFault(names, toks, p, Eval(names, es[0]).error);
  }

  /**
   * A nest around a list whose first tree faults is not taken for a
   * parenthesised list, and as an expression it has that fault.
   */
  lemma {:induction false} NestErr(names: map<string, Value>, toks: seq<Token>, p: nat, es: seq<Expr>, d: nat, end: nat)
    requires |es| > 0 && AllGrouped(es) && Eval(names, es[0]).Err?
    requires NestExtent(toks, p, es, d) == Some(end)
    ensures p <= |toks| && ParseExpr(names, toks, p, 1).outcome == Eval(names, es[0])
    ensures !ParenListAt(names, toks, p)
    decreases d
  {
    NestExtentFirst(toks, p, es, d, end);
    if d == 0 {
      FlatErr(names, toks, p, es);
    } else {
      NestErr(names, toks, p + 1, es, d - 1, end - 1);
      GroupFault(names, toks, p, Eval(names, es[0]).error);
    }
  }

  /** A `(` not closed at once and not opening a list encloses an arglist. */
  lemma ArgsOfItems(names: map<string, Value>, toks: seq<Token>, open: nat, rest: Result<seq<Value>, Fault>, k: nat)
    requires open + 1 < |toks| && IsKind(toks[open], LPAREN) && !IsKind(toks[open + 1], RPAREN)
    requires !ParenListAt(names, toks, open + 1)
    requires ParseItems(names, toks, open + 1).outcome == rest && (rest.Ok? ==> ParseItems(names, toks, open + 1).next == k)
    requires k < |toks| && IsKind(toks[k], RPAREN)
    ensures var r := ParseParenArgs(names, toks, open);
      r.outcome == SomeItems(rest) && (r.outcome.Ok? ==> r.next == k + 1)
  {
  }

  /** A `(` around a parenthesised list is that list. */
  lemma ArgsOfNested(names: map<string, Value>, toks: seq<Token>, open: nat, out: Result<Option<seq<Value>>, Fault>, k: nat)
    requires open + 1 < |toks| && IsKind(toks[open], LPAREN) && IsKind(toks[open + 1], LPAREN)
    requires ParenListAt(names, toks, open + 1)
    requires ParseParenArgs(names, toks, open + 1).outcome == out && (out.Ok? ==> ParseParenArgs(names, toks, open + 1).next == k)
    requires k < |toks| && IsKind(toks[k], RPAREN)
    ensures var r := ParseParenArgs(names, toks, open);
      r.outcome == out && (r.outcome.Ok? ==> r.next == k + 1)
  {
  }

  /** The arglist inside the parentheses of a list, and its closing `)`. */
  lemma ItemsInside(names: map<string, Value>, toks: seq<Token>, open: nat, es: seq<Expr>, end: nat)
    requires |es| > 0 && AllGrouped(es) && NestExtent(toks, open, es, 0) == Some(end)
    ensures end - 1 < |toks| && IsKind(toks[end - 1], RPAREN)
    ensures var r := ParseItems(names, toks, open + 1);
      r.outcome == EvalItems(names, es) && (r.outcome.Ok? ==> r.next == end - 1)
  {
    NestExtentFirst(toks, open, es, 0, end);
    ItemsParse(names, toks, open + 1, es, end - 1);
  }

  /** A parenthesised list of trees yields their values, or the first fault, and ends after its `)`. */
  lemma FlatArgs(names: map<string, Value>, toks: seq<Token>, open: nat, es: seq<Expr>, end: nat)
    requires |es| > 0 && AllGrouped(es) && NestExtent(toks, open, es, 0) == Some(end)
    ensures var r := ParseParenArgs(names, toks, open);
      r.outcome == SomeItems(EvalItems(names, es)) && (r.outcome.Ok? ==> r.next == end)
  {
    InsideNotList(names, toks, open, es);
    ItemsInside(names, toks, open, es, end);
    ArgsOfItems(names, toks, open, EvalItems(names, es), end - 1);
  }

  /** The `(` of a parenthesised list of trees is not closed at once, and no list opens after it. */
  lemma InsideNotList(names: map<string, Value>, toks: seq<Token>, p: nat, es: seq<Expr>)
    requires |es| > 0 && AllGrouped(es) && NestExtent(toks, p, es, 0).Some?
    ensures p + 1 < |toks| && IsKind(toks[p], LPAREN) && !IsKind(toks[p + 1], RPAREN)
    ensures !ParenListAt(names, toks, p + 1)
  {
    FirstInside(names, toks, p, es);
  }

  /** Parentheses around a list whose first tree faults have that fault. */
  lemma NestedArgsErr(names: map<string, Value>, toks: seq<Token>, open: nat, es: seq<Expr>, d: nat, end: nat)
    requires |es| > 0 && d > 0 && AllGrouped(es) && Eval(names, es[0]).Err?
    requires NestExtent(toks, open, es, d) == Some(end)
    ensures ParseParenArgs(names, toks, open).outcome == SomeItems(EvalItems(names, es))
  {
    NestExtentFirst(toks, open, es, d, end);
    NestErr(names, toks, open + 1, es, d - 1, end - 1);
    ItemsErr(names, toks, open + 1, Eval(names, es[0]).error);
    ArgsOfItems(names, toks, open, EvalItems(names, es), end - 1);
  }

  /** Parentheses around a parenthesised list whose first tree has a value are that list. */
  lemma {:induction false} NestedArgs(names: map<string, Value>, toks: seq<Token>, open: nat, es: seq<Expr>, d: nat, end: nat)
    requires |es| > 1 && d > 0 && AllGrouped(es) && Eval(names, es[0]).Ok?
    requires NestExtent(toks, open, es, d) == Some(end)
    ensures var r := ParseParenArgs(names, toks, open);
      r.outcome == SomeItems(EvalItems(names, es)) && (r.outcome.Ok? ==> r.next == end)
    decreases d, 0
  {
    NestExtentFirst(toks, open, es, d, end);
    ParenArgsParse(names, toks, open + 1, es, d - 1, end - 1);
    NestedClose(names, toks, open, es, d, end);
  }

  /** The `)` after a parenthesised list that a `(` encloses closes the outer list. */
  lemma NestedClose(names: map<string, Value>, toks: seq<Token>, open: nat, es: seq<Expr>, d: nat, end: nat)
    requires |es| > 1 && d > 0 && AllGrouped(es) && Eval(names, es[0]).Ok?
    requires NestExtent(toks, open, es, d) == Some(end) && open + 1 < |toks| && IsKind(toks[open + 1], LPAREN)
    requires var r := ParseParenArgs(names, toks, open + 1);
      r.outcome == SomeItems(EvalItems(names, es)) && (r.outcome.Ok? ==> r.next == end - 1)
    ensures var r := ParseParenArgs(names, toks, open);
      r.outcome == SomeItems(EvalItems(names, es)) && (r.outcome.Ok? ==> r.next == end)
  {
    NestExtentFirst(toks, open, es, d, end);
    NestList(names, toks, open + 1, es, d - 1, end - 1);
    ArgsOfNested(names, toks, open, SomeItems(EvalItems(names, es)), end - 1);
  }

  /**
   * A parenthesised list of trees, inside any number of further
   * parentheses (at least one more tree then), yields the trees' values,
   * or the first fault, and ends after its last `)`.
   */
  lemma {:induction false} ParenArgsParse(names: map<string, Value>, toks: seq<Token>, open: nat, es: seq<Expr>, d: nat, end: nat)
    requires |es| > 0 && (d == 0 || |es| > 1) && AllGrouped(es)
    requires NestExtent(toks, open, es, d) == Some(end)
    ensures open < |toks| && IsKind(toks[open], LPAREN)
    ensures var r := ParseParenArgs(names, toks, open);
      r.outcome == SomeItems(EvalItems(names, es)) && (r.outcome.Ok? ==> r.next == end)
    decreases d, 1
  {
    NestExtentOpens(toks, open, es, d, end);
    if d == 0 {
      FlatArgs(names, toks, open, es, end);
    } else if Eval(names, es[0]).Ok? {
      NestedArgs(names, toks, open, es, d, end);
    } else {
      NestedArgsErr(names, toks, open, es, d, end);
    }
  }

  /** Empty parentheses, inside any number of further pairs, are a parenthesised list with no items. */
  lemma {:induction false} EmptyArgs(names: map<string, Value>, toks: seq<Token>, open: nat, d: nat)
    requires Occurs(toks, open, Nest(EmptyParens, d))
    ensures ParenListAt(names, toks, open)
    ensures ParseParenArgs(names, toks, open).outcome == Ok(None)
    ensures ParseParenArgs(names, toks, open).next == open + 2 + 2 * d
    decreases d
  {
    if d == 0 {
      assert toks[open] == EmptyParens[0] && toks[open + 1] == EmptyParens[1];
    } else {
      NestEnclosed(toks, open, EmptyParens, d);
      EmptyArgs(names, toks, open + 1, d - 1);
      ArgsOfNested(names, toks, open, Ok(None), open + 1 + 2 * d);
    }
  }

  // ---------------------------------------------------------------------
  // List statements

  /**
   * Two or more printed trees separated by commas form a list statement:
   * its result is the list of their values, or the first fault.
   */
  lemma ItemsStatement(names: map<string, Value>, es: seq<Expr>)
    requires |es| > 1 && AllGrouped(es)
    ensures ParseStatement(names, ShowItems(es)).outcome == Listed(EvalItems(names, es))
    ensures ParseStatement(names, ShowItems(es)).binding == None
  {
    var toks := ShowItems(es);
    FirstItem(toks, 0, es) by {
      assert Occurs(toks, 0, toks);
    }
    OccursExtent(toks, 0, es[0]);
    OpenNotList(names, toks, 0, es[0]);
    PrintedNotAssignOrCall(es[0]);
    assert toks[0] == Show(es[0])[0];
    assert |Show(es[0])| > 1 ==> toks[1] == Show(es[0])[1];
    assert !AssignOrCall(toks);
    ItemsShown(names, toks, 0, es);
    assert ParseStatement(names, toks) == ParseArglist(names, toks);
  }

  /**
   * Two or more printed trees in parentheses, inside any number of further
   * pairs, form a list statement with the same result as without them.
   */
  lemma ParenListStatement(names: map<string, Value>, es: seq<Expr>, d: nat)
    requires |es| > 1 && AllGrouped(es)
    ensures ParseStatement(names, Nest(ShowList(es), d)).outcome == Listed(EvalItems(names, es))
    ensures ParseStatement(names, Nest(ShowList(es), d)).binding == None
  {
    var toks := Nest(ShowList(es), d);
    assert Occurs(toks, 0, toks);
    OccursNest(toks, 0, es, d);
    NestExtentOpens(toks, 0, es, d, |toks|);
    if Eval(names, es[0]).Ok? {
      NestList(names, toks, 0, es, d, |toks|);
      ParenArgsParse(names, toks, 0, es, d, |toks|);
      assert ParseStatement(names, toks) == ParseParenList(names, toks);
    } else {
      NestErr(names, toks, 0, es, d, |toks|);
      ItemsErr(names, toks, 0, Eval(names, es[0]).error);
      assert ParseStatement(names, toks) == ParseArglist(names, toks);
    }
  }

  /** A name and a `(` make a call, whose result is that of the parenthesised arguments when they reach the end. */
  lemma CallOutcome(names: map<string, Value>, toks: seq<Token>, v: Result<Option<seq<Value>>, Fault>)
    requires 2 <= |toks| && IsKind(toks[0], ID) && IsKind(toks[1], LPAREN)
    requires ParseParenArgs(names, toks, 1).outcome == v && (v.Ok? ==> ParseParenArgs(names, toks, 1).next == |toks|)
    ensures ParseStatement(names, toks).outcome == (if v.Ok? then Ok(Some(Call(toks[0].text, v.value))) else Err(v.error))
    ensures ParseStatement(names, toks).binding == None
  {
    assert ParseStatement(names, toks) == ParseCall(names, toks);
  }

  /**
   * A name followed by a parenthesised list of printed trees, with any
   * number of further parentheses around it when it has two or more trees,
   * calls the name: the result pairs the name with the list of the values,
   * or is the first fault.
   */
  lemma CallStatement(names: map<string, Value>, f: string, es: seq<Expr>, d: nat)
    requires |es| > 0 && (d == 0 || |es| > 1) && AllGrouped(es)
    ensures ParseStatement(names, [Token(ID, f, 1)] + Nest(ShowList(es), d)).outcome == Called(f, EvalItems(names, es))
    ensures ParseStatement(names, [Token(ID, f, 1)] + Nest(ShowList(es), d)).binding == None
  {
    var n := Nest(ShowList(es), d);
    var toks := [Token(ID, f, 1)] + n;
    assert Occurs(toks, 1, n);
    CallOfNest(names, toks, es, d);
  }

  lemma CallOfNest(names: map<string, Value>, toks: seq<Token>, es: seq<Expr>, d: nat)
    requires |es| > 0 && (d == 0 || |es| > 1) && AllGrouped(es)
    requires 0 < |toks| && IsKind(toks[0], ID) && Occurs(toks, 1, Nest(ShowList(es), d))
    requires |toks| == 1 + |Nest(ShowList(es), d)|
    ensures ParseStatement(names, toks).outcome == Called(toks[0].text, EvalItems(names, es))
    ensures ParseStatement(names, toks).binding == None
  {
    OccursNest(toks, 1, es, d);
    ParenArgsParse(names, toks, 1, es, d, |toks|);
    CallOutcome(names, toks, SomeItems(EvalItems(names, es)));
  }

  /** Empty parentheses, inside any number of further pairs, are a statement without a result. */
  lemma EmptyListStatement(names: map<string, Value>, d: nat)
    ensures ParseStatement(names, Nest(EmptyParens, d)).outcome == Ok(None)
    ensures ParseStatement(names, Nest(EmptyParens, d)).binding == None
  {
    var toks := Nest(EmptyParens, d);
    assert Occurs(toks, 0, toks);
    EmptyArgs(names, toks, 0, d);
    assert ParseStatement(names, toks) == ParseParenList(names, toks);
  }

  /** A name followed by empty parentheses, inside any number of further pairs, pairs the name with None. */
  lemma EmptyCallStatement(names: map<string, Value>, f: string, d: nat)
    ensures ParseStatement(names, [Token(ID, f, 1)] + Nest(EmptyParens, d)).outcome == Ok(Some(Pair(f, None)))
    ensures ParseStatement(names, [Token(ID, f, 1)] + Nest(EmptyParens, d)).binding == None
  {
    var toks := [Token(ID, f, 1)] + Nest(EmptyParens, d);
    assert Occurs(toks, 1, Nest(EmptyParens, d));
    EmptyArgs(names, toks, 1, d);
    CallOutcome(names, toks, Ok(None));
  }

  // ---------------------------------------------------------------------
  // Examples from the repository's tests

  lemma TwoThreeTokens()
    ensures Nest(ShowList([Const(2), Const(3)]), 1) ==
      [Token(LPAREN, "(", 1), Token(LPAREN, "(", 1), Number(2, 1), Token(COMMA, ",", 1), Number(3, 1),
       Token(RPAREN, ")", 1), Token(RPAREN, ")", 1)]
  {
  }

  lemma TwoThreeList(names: map<string, Value>, toks: seq<Token>)
    requires toks == [Token(LPAREN, "(", 1), Token(LPAREN, "(", 1), Number(2, 1), Token(COMMA, ",", 1), Number(3, 1),
                      Token(RPAREN, ")", 1), Token(RPAREN, ")", 1)]
    ensures ParseStatement(names, toks).outcome == Ok(Some(List([Int(2), Int(3)])))
  {
    TwoThreeTokens();
    var es := [Const(2), Const(3)];
    assert AllGrouped(es);
    assert es[1..] == [Const(3)] && AllGrouped(es[1..]);
    assert [Int(3)] + [] == [Int(3)] && [Int(2)] + [Int(3)] == [Int(2), Int(3)];
    assert EvalItems(names, es) == Ok([Int(2), Int(3)]);
    ParenListStatement(names, es, 1);
  }

  /**
   * `(([2, 3]))` is the list [2, 3]: the brackets are logged and dropped,
   * and the nested parentheses around the arglist `2 , 3` change nothing.
   */
  lemma NestedList(names: map<string, Value>)
    ensures Scan("(([2, 3]))").errors == "[]"
    ensures ParseStatement(names, Scan("(([2, 3]))").tokens).outcome == Ok(Some(List([Int(2), Int(3)])))
  {
    ScanNestedList();
    TwoThreeList(names, Scan("(([2, 3]))").tokens);
  }

  lemma EmptyNestedCallParse(names: map<string, Value>, toks: seq<Token>)
    requires toks == [Token(ID, "f", 1), Token(LPAREN, "(", 1), Token(LPAREN, "(", 1), Token(RPAREN, ")", 1), Token(RPAREN, ")", 1)]
    ensures ParseStatement(names, toks).outcome == Ok(Some(Pair("f", None)))
  {
    assert [Token(ID, "f", 1)] + Nest(EmptyParens, 1) == toks;
    EmptyCallStatement(names, "f", 1);
  }

  /** `f(())` pairs `f` with None: empty parentheses inside the call's own are no arguments. */
  lemma EmptyNestedCall(names: map<string, Value>)
    ensures Scan("f(())").errors == []
    ensures ParseStatement(names, Scan("f(())").tokens).outcome == Ok(Some(Pair("f", None)))
  {
    ScanEmptyNestedCall();
    EmptyNestedCallParse(names, Scan("f(())").tokens);
  }

  lemma OneTwoCallTokens()
    ensures [Token(ID, "f", 1)] + Nest(ShowList([Const(1), Const(2)]), 1) ==
      [Token(ID, "f", 1), Token(LPAREN, "(", 1), Token(LPAREN, "(", 1), Number(1, 1), Token(COMMA, ",", 1), Number(2, 1),
       Token(RPAREN, ")", 1), Token(RPAREN, ")", 1)]
  {
  }

  lemma OneTwoCall(names: map<string, Value>, toks: seq<Token>)
    requires toks == [Token(ID, "f", 1), Token(LPAREN, "(", 1), Token(LPAREN, "(", 1), Number(1, 1), Token(COMMA, ",", 1),
                      Number(2, 1), Token(RPAREN, ")", 1), Token(RPAREN, ")", 1)]
    ensures ParseStatement(names, toks).outcome == Ok(Some(Pair("f", Some(List([Int(1), Int(2)])))))
  {
    OneTwoCallTokens();
    var es := [Const(1), Const(2)];
    assert AllGrouped(es);
    assert es[1..] == [Const(2)] && AllGrouped(es[1..]);
    assert [Int(2)] + [] == [Int(2)] && [Int(1)] + [Int(2)] == [Int(1), Int(2)];
    assert EvalItems(names, es) == Ok([Int(1), Int(2)]);
    CallStatement(names, "f", es, 1);
  }

  /** `f((1, 2))` pairs `f` with the list [1, 2]. */
  lemma NestedCall(names: map<string, Value>)
    ensures Scan("f((1, 2))").errors == []
    ensures ParseStatement(names, Scan("f((1, 2))").tokens).outcome == Ok(Some(Pair("f", Some(List([Int(1), Int(2)])))))
  {
    ScanNestedCall();
    OneTwoCall(names, Scan("f((1, 2))").tokens);
  }
}
