/**
 * Properties of the scanner: first-match priority among the rules, the
 * decoding of NUMBER literals in three bases, what blanks, comments,
 * newlines and unknown characters do, and invariants of a whole scan.
 */
module LexerFacts {
  import opened Wrappers
  import opened Lexer

  // ---------------------------------------------------------------------
  // First-match priority

  /** The characters a match of `rule` can begin with. */
  predicate CanStart(rule: Rule, c: char) {
    match rule
    case Literal(_, w) => |w| > 0 && w[0] == c
    case Identifier => IsIdStart(c)
    case Numeral => IsDecimal(c)
    case Comment => c == '#'
    case Newline => IsNewline(c)
  }

  lemma MatchStartsWith(rule: Rule, text: string, i: nat)
    requires i <= |text|
    ensures MatchRule(rule, text, i).Some? ==> i < |text| && CanStart(rule, text[i])
  {
    if rule.Literal? && MatchRule(rule, text, i).Some? {
      assert text[i..i + |rule.pattern|][0] == text[i];
    }
  }

  /** A rule whose first character is not the one at `i` does not match there. */
  lemma CannotStartCannotMatch(text: string, i: nat, rank: nat)
    requires i < |text| && rank <= RuleCount
    requires forall r :: 0 <= r < rank ==> !CanStart(RuleAt(r), text[i])
    ensures forall r :: 0 <= r < rank ==> MatchRule(RuleAt(r), text, i).None?
  {
    forall r | 0 <= r < rank ensures MatchRule(RuleAt(r), text, i).None? {
      MatchStartsWith(RuleAt(r), text, i);
    }
  }

  /**
   * The rules are tried in declaration order and the first that matches
   * wins: when the rule of rank `rank` matches and none before it does,
   * the master pattern picks that rule and its match, whatever later
   * rules (say, a longer one) would have matched.
   */
  lemma FirstMatchWins(text: string, i: nat, rank: nat)
    requires i <= |text| && rank < RuleCount
    requires MatchRule(RuleAt(rank), text, i).Some?
    requires forall r :: 0 <= r < rank ==> MatchRule(RuleAt(r), text, i).None?
    ensures MasterMatch(text, i) == Some(Match(rank, MatchRule(RuleAt(rank), text, i).value))
  {
    var m := FirstMatchFrom(text, i, 0);
    assert m.Some? && m.value.rank <= rank;
    assert m.value.rank >= rank by {
      var found := m.value.rank;
      assert MatchRule(RuleAt(found), text, i).Some?;
    }
  }

  /** A rule of fixed text that wins at `i` emits one token of its kind whose value is that text. */
  lemma LiteralRuleStep(text: string, i: nat, lineno: int, rank: nat, k: Kind, w: string)
    requires i < |text| && rank < RuleCount && RuleAt(rank) == Literal(k, w) && !IsIgnored(text[i])
    requires MatchLiteral(text, i, w).Some?
    requires forall r :: 0 <= r < rank ==> !CanStart(RuleAt(r), text[i])
    ensures Step(text, i, lineno) == StepResult(i + |w|, lineno, Emitted(Token(k, w, lineno)))
  {
    LiteralMatch(text, i, rank, k, w);
    LiteralStep(text, i, lineno, Match(rank, i + |w|), k, w);
  }

  lemma LiteralMatch(text: string, i: nat, rank: nat, k: Kind, w: string)
    requires i < |text| && rank < RuleCount && RuleAt(rank) == Literal(k, w)
    requires MatchLiteral(text, i, w).Some?
    requires forall r :: 0 <= r < rank ==> !CanStart(RuleAt(r), text[i])
    ensures i + |w| <= |text| && text[i..i + |w|] == w && MasterMatch(text, i) == Some(Match(rank, i + |w|))
  {
    assert MatchRule(RuleAt(rank), text, i) == Some(i + |w|);
    StartWins(text, i, rank, i + |w|);
  }

  /** A matching rule wins when no earlier rule can begin with the character at `i`. */
  lemma StartWins(text: string, i: nat, rank: nat, end: nat)
    requires i < |text| && rank < RuleCount && MatchRule(RuleAt(rank), text, i) == Some(end)
    requires forall r :: 0 <= r < rank ==> !CanStart(RuleAt(r), text[i])
    ensures MasterMatch(text, i) == Some(Match(rank, end))
  {
    CannotStartCannotMatch(text, i, rank);
    FirstMatchWins(text, i, rank);
  }

  lemma LiteralStep(text: string, i: nat, lineno: int, m: Match, k: Kind, w: string)
    requires i < |text| && !IsIgnored(text[i]) && MasterMatch(text, i) == Some(m)
    requires m.rank < RuleCount && RuleAt(m.rank) == Literal(k, w) && i <= m.end <= |text| && text[i..m.end] == w
    ensures Step(text, i, lineno) == StepResult(m.end, lineno, Emitted(Token(k, w, lineno)))
  {
  }

  /**
   * `==`, `!=`, `>=` and `<=` come out as one EQ, NE, GE or LE token:
   * their rules precede ASSIGN, GT and LT.
   */
  lemma TwoCharacterOperators(text: string, i: nat, lineno: int)
    requires i + 2 <= |text|
    ensures text[i..i + 2] == "==" ==> Step(text, i, lineno) == StepResult(i + 2, lineno, Emitted(Token(EQ, "==", lineno)))
    ensures text[i..i + 2] == "!=" ==> Step(text, i, lineno) == StepResult(i + 2, lineno, Emitted(Token(NE, "!=", lineno)))
    ensures text[i..i + 2] == ">=" ==> Step(text, i, lineno) == StepResult(i + 2, lineno, Emitted(Token(GE, ">=", lineno)))
    ensures text[i..i + 2] == "<=" ==> Step(text, i, lineno) == StepResult(i + 2, lineno, Emitted(Token(LE, "<=", lineno)))
  {
    var c := text[i];
    assert text[i..i + 2][0] == c;
    if text[i..i + 2] == "==" {
      LiteralRuleStep(text, i, lineno, 5, EQ, "==");
    } else if text[i..i + 2] == "!=" {
      LiteralRuleStep(text, i, lineno, 6, NE, "!=");
    } else if text[i..i + 2] == ">=" {
      LiteralRuleStep(text, i, lineno, 7, GE, ">=");
    } else if text[i..i + 2] == "<=" {
      LiteralRuleStep(text, i, lineno, 8, LE, "<=");
    }
  }

  /**
   * The keyword rules precede ID: at a position where the text continues
   * with `and`, `not`, `or` or `in`, the keyword's token is emitted for
   * those letters only, even inside a longer word such as `index`.
   */
  lemma KeywordsBeforeIdentifiers(text: string, i: nat, lineno: int)
    requires i <= |text|
    ensures i + 3 <= |text| && text[i..i + 3] == "and" ==>
      Step(text, i, lineno) == StepResult(i + 3, lineno, Emitted(Token(AND, "and", lineno)))
    ensures i + 3 <= |text| && text[i..i + 3] == "not" ==>
      Step(text, i, lineno) == StepResult(i + 3, lineno, Emitted(Token(NOT, "not", lineno)))
    ensures i + 2 <= |text| && text[i..i + 2] == "or" ==>
      Step(text, i, lineno) == StepResult(i + 2, lineno, Emitted(Token(OR, "or", lineno)))
    ensures i + 2 <= |text| && text[i..i + 2] == "in" ==>
      Step(text, i, lineno) == StepResult(i + 2, lineno, Emitted(Token(IN, "in", lineno)))
  {
    if i + 3 <= |text| && text[i..i + 3] == "and" {
      assert text[i..i + 3][0] == text[i];
      LiteralRuleStep(text, i, lineno, 0, AND, "and");
    }
    if i + 3 <= |text| && text[i..i + 3] == "not" {
      assert text[i..i + 3][0] == text[i];
      LiteralRuleStep(text, i, lineno, 1, NOT, "not");
    }
    if i + 2 <= |text| && text[i..i + 2] == "or" {
      assert text[i..i + 2][0] == text[i];
      LiteralRuleStep(text, i, lineno, 2, OR, "or");
    }
    if i + 2 <= |text| && text[i..i + 2] == "in" {
      assert text[i..i + 2][0] == text[i];
      LiteralRuleStep(text, i, lineno, 3, IN, "in");
    }
  }

  /** No keyword spelling begins at `i`. */
  predicate NoKeywordAt(text: string, i: nat)
    requires i <= |text|
  {
    && MatchLiteral(text, i, "and").None?
    && MatchLiteral(text, i, "not").None?
    && MatchLiteral(text, i, "or").None?
    && MatchLiteral(text, i, "in").None?
  }

  /**
   * Any other word is one greedy ID: its lexeme runs from `i` to the first
   * character that cannot continue an identifier.
   */
  lemma IdentifierIsGreedy(text: string, i: nat, lineno: int)
    requires i < |text| && IsIdStart(text[i]) && NoKeywordAt(text, i)
    ensures var s := Step(text, i, lineno);
      && s.lineno == lineno && s.effect == Emitted(Token(ID, text[i..s.next], lineno))
      && AllChars(text[i..s.next], IdChars)
      && (s.next == |text| || !IsIdChar(text[s.next]))
  {
    FirstMatchWins(text, i, 4);
    var j := SpanEnd(text, i + 1, IdChars);
    assert forall k :: 0 <= k < j - i ==> text[i..j][k] == text[i + k];
  }

  // ---------------------------------------------------------------------
  // NUMBER literals

  /** Appending a digit multiplies the value read so far by the base and adds the digit. */
  lemma DigitsValueSnoc(s: string, c: char, base: nat)
    requires AllChars(s, HexDigits) && IsHex(c)
    ensures AllChars(s + [c], HexDigits)
    ensures DigitsValue(s + [c], base) == DigitsValue(s, base) * base + DigitValue(c)
  {
    assert (s + [c])[..|s|] == s;
  }

  /** The digit of value `d`, lower case as Python prints it. */
  function DigitChar(d: nat): (c: char)
    requires d < 16
    ensures IsHex(c) && DigitValue(c) == d
    ensures d < 10 ==> IsDecimal(c)
    ensures d < 2 ==> IsBinary(c)
  {
    if d < 10 then ('0' as int + d) as char else ('a' as int + d - 10) as char
  }

  lemma DivMod(n: nat, base: nat)
    requires 2 <= base <= n
    ensures n / base < n && n % base < base
    ensures n == n / base * base + n % base
  {
  }

  /** The digits of `n` in `base`, lower case and without prefix, as Python's hex, bin and str print them. */
  function ToDigits(n: nat, base: nat): (s: string)
    requires 2 <= base <= 16
    ensures |s| > 0 && AllChars(s, HexDigits)
    ensures base <= 10 ==> AllChars(s, DecimalDigits)
    ensures base == 2 ==> AllChars(s, BinaryDigits)
    decreases n
  {
    if n < base then [DigitChar(n)]
    else
      DivMod(n, base);
      var init := ToDigits(n / base, base);
      var last := DigitChar(n % base);
      assert forall k :: 0 <= k < |init| ==> (init + [last])[k] == init[k];
      init + [last]
  }

  /** Reading back the digits of `n` in `base` gives `n`. */
  lemma {:induction false} DigitsRoundTrip(n: nat, base: nat)
    requires 2 <= base <= 16
    ensures DigitsValue(ToDigits(n, base), base) == n
    decreases n
  {
    if n < base {
      DigitsValueSnoc("", DigitChar(n), base);
      assert "" + [DigitChar(n)] == [DigitChar(n)];
    } else {
      DivMod(n, base);
      DigitsRoundTrip(n / base, base);
      DigitsValueSnoc(ToDigits(n / base, base), DigitChar(n % base), base);
    }
  }

  function PyHex(n: nat): string { "0x" + ToDigits(n, 16) }
  function PyBin(n: nat): string { "0b" + ToDigits(n, 2) }
  function PyStr(n: nat): string { ToDigits(n, 10) }

  /** The NUMBER action reads back what Python's hex, bin and str print. */
  lemma {:induction false} DecodePrinted(n: nat)
    ensures IsNumberLexeme(PyHex(n)) && DecodeNumber(PyHex(n)) == n
    ensures IsNumberLexeme(PyBin(n)) && DecodeNumber(PyBin(n)) == n
    ensures IsNumberLexeme(PyStr(n)) && DecodeNumber(PyStr(n)) == n
  {
    var h := PyHex(n);
    assert h[..2] == "0x" && h[2..] == ToDigits(n, 16);
    var b := PyBin(n);
    assert b[..2] == "0b" && b[2..] == ToDigits(n, 2);
    assert b[..2] != "0x" by { assert b[..2][1] == 'b'; }
    var d := PyStr(n);
    assert |d| >= 2 ==> d[..2] != "0x" && d[..2] != "0b" by {
      if |d| >= 2 { assert IsDecimal(d[1]) && d[..2][1] == d[1]; }
    }
    DigitsRoundTrip(n, 16);
    DigitsRoundTrip(n, 2);
    DigitsRoundTrip(n, 10);
  }

  /** "0xa" and "0b1010" are both the NUMBER 10. */
  lemma DecodeTen()
    ensures DecodeNumber("0xa") == 10
    ensures DecodeNumber("0b1010") == 10
  {
    HexTen();
    BinTen();
  }

  lemma HexTen()
    ensures DecodeNumber("0xa") == 10
  {
    DecodePrinted(10);
    assert PyHex(10) == "0xa";
  }

  lemma BinTen()
    ensures DecodeNumber("0b1010") == 10
  {
    DecodePrinted(10);
    BinaryTen();
    assert PyBin(10) == "0b1010";
  }

  lemma BinaryTen()
    ensures ToDigits(10, 2) == "1010"
  {
    assert ToDigits(1, 2) == "1";
    assert ToDigits(2, 2) == "10";
    assert ToDigits(5, 2) == "101";
  }

  lemma SpanToEnd(text: string, i: nat, cls: CharClass)
    requires i <= |text|
    requires forall k :: i <= k < |text| ==> InClass(text[k], cls)
    ensures SpanEnd(text, i, cls) == |text|
  {
  }

  /** A digit at `i` starts a NUMBER: no rule before it can begin with a digit. */
  lemma NumberStep(text: string, i: nat, lineno: int)
    requires i < |text| && IsDecimal(text[i])
    ensures var e := MatchNumber(text, i).value;
      Step(text, i, lineno) == StepResult(e, lineno, Emitted(Number(DecodeNumber(text[i..e]), lineno)))
  {
    CannotStartCannotMatch(text, i, 17);
    FirstMatchWins(text, i, 17);
  }

  /** A text that is one NUMBER lexeme from its first character to its last is scanned as that NUMBER alone. */
  lemma WholeNumberScan(text: string)
    requires 0 < |text| && IsDecimal(text[0]) && MatchNumber(text, 0) == Some(|text|)
    ensures Scan(text) == Scanned([Number(DecodeNumber(text), 1)], [], 1)
  {
    NumberStep(text, 0, 1);
    assert text[0..|text|] == text;
    assert Step(text, 0, 1) == StepResult(|text|, 1, Emitted(Number(DecodeNumber(text), 1)));
    assert ScanFrom(text, |text|, 1) == Scanned([], [], 1);
  }

  /** Python's `hex(n)` is scanned as the single NUMBER token `n`. */
  lemma ScanHexLiteral(n: nat)
    ensures Scan(PyHex(n)) == Scanned([Number(n, 1)], [], 1)
  {
    var text := PyHex(n);
    assert text[2..] == ToDigits(n, 16);
    assert text[2] == ToDigits(n, 16)[0];
    SpanToEnd(text, 2, HexDigits);
    DecodePrinted(n);
    WholeNumberScan(text);
  }

  /** Python's `bin(n)` is scanned as the single NUMBER token `n`, not as `0` followed by an identifier. */
  lemma ScanBinLiteral(n: nat)
    ensures Scan(PyBin(n)) == Scanned([Number(n, 1)], [], 1)
  {
    var text := PyBin(n);
    assert text[2..] == ToDigits(n, 2);
    assert text[2] == ToDigits(n, 2)[0];
    SpanToEnd(text, 2, BinaryDigits);
    DecodePrinted(n);
    WholeNumberScan(text);
  }

  /** Python's `str(n)` is scanned as the single NUMBER token `n`. */
  lemma ScanDecimalLiteral(n: nat)
    ensures Scan(PyStr(n)) == Scanned([Number(n, 1)], [], 1)
  {
    var text := PyStr(n);
    SpanToEnd(text, 0, DecimalDigits);
    DecodePrinted(n);
    assert |text| > 2 ==> text[1] != 'x' && text[1] != 'b' by {
      if |text| > 2 { assert IsDecimal(text[1]); }
    }
    WholeNumberScan(text);
  }

  // ---------------------------------------------------------------------
  // Blanks, comments, newlines and unknown characters

  /** A blank or a tab is stepped over without a token or an error. */
  lemma BlankStep(text: string, i: nat, lineno: int)
    requires i < |text| && IsIgnored(text[i])
    ensures ScanFrom(text, i, lineno) == ScanFrom(text, i + 1, lineno)
  {
    IgnoredStep(text, i, lineno);
    ScanSkipped(text, i, lineno, Step(text, i, lineno));
  }

  lemma IgnoredStep(text: string, i: nat, lineno: int)
    requires i < |text| && IsIgnored(text[i])
    ensures Step(text, i, lineno) == StepResult(i + 1, lineno, Skipped)
  {
  }

  /** A step that yields nothing leaves the rest of the scan to where it ends. */
  lemma ScanSkipped(text: string, i: nat, lineno: int, s: StepResult)
    requires i < |text| && s == Step(text, i, lineno) && s.effect.Skipped?
    ensures ScanFrom(text, i, lineno) == ScanFrom(text, s.next, s.lineno)
  {
    var rest := ScanFrom(text, s.next, s.lineno);
    ScanFromUnfold(text, i, lineno, s, rest);
    SkippedAddsNothing(s.effect, rest);
  }

  lemma SkippedAddsNothing(e: Effect, rest: Scanned)
    requires e.Skipped?
    ensures Scanned(TokensOf(e) + rest.tokens, ErrorsOf(e) + rest.errors, rest.lineno) == rest
  {
    assert TokensOf(e) + rest.tokens == rest.tokens;
    assert ErrorsOf(e) + rest.errors == rest.errors;
  }

  /** The rank of the comment rule and of the newline rule, the last two. */
  lemma LastRules()
    ensures RuleAt(18) == Comment && RuleAt(19) == Newline
  {
  }

  lemma CommentRuleStep(text: string, i: nat, lineno: int, m: Match)
    requires i < |text| && !IsIgnored(text[i]) && MasterMatch(text, i) == Some(m)
    requires m.rank < RuleCount && RuleAt(m.rank) == Comment && i <= m.end <= |text|
    ensures Step(text, i, lineno) == StepResult(m.end, lineno, Skipped)
  {
  }

  lemma NewlineRuleStep(text: string, i: nat, lineno: int, m: Match)
    requires i < |text| && !IsIgnored(text[i]) && MasterMatch(text, i) == Some(m)
    requires m.rank < RuleCount && RuleAt(m.rank) == Newline && i <= m.end <= |text|
    ensures Step(text, i, lineno) == StepResult(m.end, lineno + Count(text[i..m.end], '\n'), Skipped)
  {
  }

  /** A `#` comment, up to but not including the end of its line, produces no token and no error. */
  lemma CommentStep(text: string, i: nat, lineno: int)
    requires i < |text| && text[i] == '#'
    ensures var j := SpanEnd(text, i + 1, LineChars);
      && (j == |text| || text[j] == '\n')
      && ScanFrom(text, i, lineno) == ScanFrom(text, j, lineno)
  {
    LineEnd(text, i + 1);
    CommentSkip(text, i, lineno);
    ScanSkipped(text, i, lineno, Step(text, i, lineno));
  }

  /** The characters of a line end at a newline or at the end of the text. */
  lemma LineEnd(text: string, i: nat)
    requires i <= |text|
    ensures var j := SpanEnd(text, i, LineChars); j == |text| || text[j] == '\n'
  {
    var j := SpanEnd(text, i, LineChars);
    if j < |text| {
      assert !InClass(text[j], LineChars);
    }
  }

  /** At a `#` the scanner skips to the end of the line. */
  lemma CommentSkip(text: string, i: nat, lineno: int)
    requires i < |text| && text[i] == '#'
    ensures Step(text, i, lineno) == StepResult(SpanEnd(text, i + 1, LineChars), lineno, Skipped)
  {
    CommentMatch(text, i);
    LastRules();
    CommentRuleStep(text, i, lineno, Match(18, SpanEnd(text, i + 1, LineChars)));
  }

  /** The comment rule wins at a `#` and matches to the end of its line. */
  lemma CommentMatch(text: string, i: nat)
    requires i < |text| && text[i] == '#'
    ensures MasterMatch(text, i) == Some(Match(18, SpanEnd(text, i + 1, LineChars)))
  {
    LastRules();
    assert MatchRule(RuleAt(18), text, i) == Some(SpanEnd(text, i + 1, LineChars));
    CannotStartCannotMatch(text, i, 18);
    FirstMatchWins(text, i, 18);
  }

  /** A text of blanks, tabs and comments only scans to nothing. */
  lemma {:induction false} OnlyIgnoredText(text: string, i: nat, lineno: int)
    requires i <= |text|
    requires forall k :: i <= k < |text| ==> text[k] != '\n'
    requires forall k :: i <= k < |text| && !IsIgnored(text[k]) ==> exists h :: i <= h <= k && text[h] == '#'
    ensures ScanFrom(text, i, lineno) == Scanned([], [], lineno)
    decreases |text| - i
  {
    if i < |text| {
      if IsIgnored(text[i]) {
        BlankStep(text, i, lineno);
        forall k | i + 1 <= k < |text| && !IsIgnored(text[k])
          ensures exists h :: i + 1 <= h <= k && text[h] == '#'
        {
          var h :| i <= h <= k && text[h] == '#';
          assert h != i;
        }
        OnlyIgnoredText(text, i + 1, lineno);
      } else {
        var h :| i <= h <= i && text[h] == '#';
        CommentStep(text, i, lineno);
        SpanToEnd(text, i + 1, LineChars);
      }
    }
  }

  lemma CountAll(s: string, c: char)
    requires forall k :: 0 <= k < |s| ==> s[k] == c
    ensures Count(s, c) == |s|
  {
  }

  lemma CountNone(s: string, c: char)
    requires forall k :: 0 <= k < |s| ==> s[k] != c
    ensures Count(s, c) == 0
  {
  }

  lemma {:induction false} CountConcat(a: string, b: string, c: char)
    ensures Count(a + b, c) == Count(a, c) + Count(b, c)
  {
    if a == [] {
      assert a + b == b;
    } else {
      assert (a + b)[0] == a[0];
      assert (a + b)[1..] == a[1..] + b;
      CountConcat(a[1..], b, c);
    }
  }

  /** A run of `k` newlines emits nothing and raises the line number by exactly `k`. */
  lemma NewlineRun(text: string, i: nat, k: nat, lineno: int)
    requires 0 < k && i + k <= |text|
    requires forall h :: i <= h < i + k ==> text[h] == '\n'
    requires i + k == |text| || text[i + k] != '\n'
    ensures Step(text, i, lineno) == StepResult(i + k, lineno + k, Skipped)
  {
    NewlineMatch(text, i, k);
    LastRules();
    NewlineRuleStep(text, i, lineno, Match(19, i + k));
    NewlineCount(text, i, k);
  }

  lemma NewlineCount(text: string, i: nat, k: nat)
    requires i + k <= |text|
    requires forall h :: i <= h < i + k ==> text[h] == '\n'
    ensures Count(text[i..i + k], '\n') == k
  {
    var lexeme := text[i..i + k];
    forall h | 0 <= h < k
      ensures lexeme[h] == '\n'
    {
      assert lexeme[h] == text[i + h];
    }
    CountAll(lexeme, '\n');
  }

  /** A run of newlines is matched by the newline rule, to its end. */
  lemma NewlineMatch(text: string, i: nat, k: nat)
    requires 0 < k && i + k <= |text|
    requires forall h :: i <= h < i + k ==> text[h] == '\n'
    requires i + k == |text| || text[i + k] != '\n'
    ensures MasterMatch(text, i) == Some(Match(19, i + k))
  {
    NewlineSpan(text, i, k);
    LastRules();
    assert MatchRule(RuleAt(19), text, i) == Some(i + k);
    NewlineStartsNoEarlierRule(text[i]);
    StartWins(text, i, 19, i + k);
  }

  lemma NewlineSpan(text: string, i: nat, k: nat)
    requires 0 < k && i + k <= |text|
    requires forall h :: i <= h < i + k ==> text[h] == '\n'
    requires i + k == |text| || text[i + k] != '\n'
    ensures SpanEnd(text, i + 1, Newlines) == i + k
  {
  }

  /** Only the last rule can begin with a newline. */
  lemma NewlineStartsNoEarlierRule(c: char)
    requires c == '\n'
    ensures forall r :: 0 <= r < 19 ==> !CanStart(RuleAt(r), c)
  {
  }

  /** The characters no rule can begin with. */
  predicate StartsNoRule(c: char) {
    forall r :: 0 <= r < RuleCount ==> !CanStart(RuleAt(r), c)
  }

  /**
   * A character that no rule can begin with and that is neither ignored
   * nor a literal is logged on its own, and scanning resumes right after it.
   */
  lemma UnknownCharacter(text: string, i: nat, lineno: int)
    requires i < |text| && StartsNoRule(text[i]) && !IsIgnored(text[i]) && !IsLiteral(text[i])
    ensures Step(text, i, lineno) == StepResult(i + 1, lineno, Logged(text[i]))
    ensures var rest := ScanFrom(text, i + 1, lineno);
      ScanFrom(text, i, lineno) == Scanned(rest.tokens, [text[i]] + rest.errors, rest.lineno)
  {
    CannotStartCannotMatch(text, i, RuleCount);
  }

  lemma BracketsStartNoRule()
    ensures StartsNoRule('[') && StartsNoRule(']')
  {
    forall r | 0 <= r < RuleCount ensures !CanStart(RuleAt(r), '[') && !CanStart(RuleAt(r), ']') {
      var rule := RuleAt(r);
      if rule.Literal? {
        assert rule.pattern[0] != '[' && rule.pattern[0] != ']';
      }
    }
  }

  /** A comma is one COMMA token. */
  lemma CommaStep(text: string, i: nat, lineno: int)
    requires i < |text| && text[i] == ','
    ensures Step(text, i, lineno) == StepResult(i + 1, lineno, Emitted(Token(COMMA, ",", lineno)))
  {
    assert text[i..i + 1] == ",";
    CommaStartsNoEarlierRule();
    LiteralRuleStep(text, i, lineno, 14, COMMA, ",");
  }

  lemma CommaStartsNoEarlierRule()
    ensures forall r :: 0 <= r < 14 ==> !CanStart(RuleAt(r), ',')
  {
    forall r | 0 <= r < 14 ensures !CanStart(RuleAt(r), ',') {
      var rule := RuleAt(r);
      if rule.Literal? {
        assert rule.pattern[0] != ',';
      }
    }
  }

  /** The list brackets of "[8, 9]" are logged; the scan yields NUMBER 8, COMMA, NUMBER 9. */
  lemma ScanBracketedList()
    ensures Scan("[8, 9]") == Scanned([Number(8, 1), Token(COMMA, ",", 1), Number(9, 1)], "[]", 1)
  {
    var t := "[8, 9]";
    assert IsBracketedList(t);
    ScanBracketedListFrom(t, 0);
    assert [t[0]] + "]" == "[]";
  }

  /** What the scan of "[8, 9]" from position `k` yields. */
  function BracketedListRest(k: nat): Scanned
    requires k <= 6
  {
    if k == 6 then Scanned([], [], 1)
    else if k == 5 then Scanned([], "]", 1)
    else if k >= 3 then Scanned([Number(9, 1)], "]", 1)
    else if k == 2 then Scanned([Token(COMMA, ",", 1), Number(9, 1)], "]", 1)
    else if k == 1 then Scanned([Number(8, 1), Token(COMMA, ",", 1), Number(9, 1)], "]", 1)
    else Scanned([Number(8, 1), Token(COMMA, ",", 1), Number(9, 1)], "[]", 1)
  }

  predicate IsBracketedList(t: string) {
    |t| == 6 && t[0] == '[' && t[1] == '8' && t[2] == ',' && t[3] == ' ' && t[4] == '9' && t[5] == ']'
  }

  lemma {:induction false} ScanBracketedListFrom(t: string, k: nat)
    requires IsBracketedList(t) && k <= 6
    ensures ScanFrom(t, k, 1) == BracketedListRest(k)
    decreases 6 - k
  {
    if k < 6 {
      ScanBracketedListFrom(t, k + 1);
      if k == 5 || k == 0 {
        ListBracketStep(t, k);
      } else if k == 4 || k == 1 {
        ListDigitStep(t, k);
      } else if k == 3 {
        BlankStep(t, k, 1);
      } else {
        CommaScan(t, k, 1);
      }
    }
  }

  lemma ListBracketStep(t: string, k: nat)
    requires IsBracketedList(t) && (k == 0 || k == 5)
    requires ScanFrom(t, k + 1, 1) == BracketedListRest(k + 1)
    ensures ScanFrom(t, k, 1) == BracketedListRest(k)
  {
    BracketScan(t, k, 1);
    assert [t[k]] + BracketedListRest(k + 1).errors == BracketedListRest(k).errors;
  }

  lemma ListDigitStep(t: string, k: nat)
    requires IsBracketedList(t) && (k == 1 || k == 4)
    requires ScanFrom(t, k + 1, 1) == BracketedListRest(k + 1)
    ensures ScanFrom(t, k, 1) == BracketedListRest(k)
  {
    SingleDigitScan(t, k, 1);
  }

  /** A list bracket is not part of the language: it is logged and skipped. */
  lemma BracketScan(text: string, i: nat, lineno: int)
    requires i < |text| && (text[i] == '[' || text[i] == ']')
    ensures var rest := ScanFrom(text, i + 1, lineno);
      ScanFrom(text, i, lineno) == Scanned(rest.tokens, [text[i]] + rest.errors, rest.lineno)
  {
    BracketsStartNoRule();
    UnknownCharacter(text, i, lineno);
  }

  /** A digit followed by neither a digit nor a base letter is the NUMBER of that digit. */
  lemma SingleDigitScan(text: string, i: nat, lineno: int)
    requires i < |text| && IsDecimal(text[i])
    requires i + 1 == |text| || (!IsDecimal(text[i + 1]) && text[i + 1] != 'x' && text[i + 1] != 'b')
    ensures var rest := ScanFrom(text, i + 1, lineno);
      ScanFrom(text, i, lineno) == Scanned([Number(DigitValue(text[i]), lineno)] + rest.tokens, rest.errors, rest.lineno)
  {
    NumberStep(text, i, lineno);
    assert text[i..i + 1] == [text[i]];
    DecodeSingleDigit(text[i]);
    ScanEmitted(text, i, lineno, Step(text, i, lineno));
  }

  /** A comma is one COMMA token. */
  lemma CommaScan(text: string, i: nat, lineno: int)
    requires i < |text| && text[i] == ','
    ensures var rest := ScanFrom(text, i + 1, lineno);
      ScanFrom(text, i, lineno) == Scanned([Token(COMMA, ",", lineno)] + rest.tokens, rest.errors, rest.lineno)
  {
    CommaStep(text, i, lineno);
    ScanEmitted(text, i, lineno, Step(text, i, lineno));
  }

  lemma ParensStartNoRule()
    ensures StartsNoRule('(') && StartsNoRule(')')
  {
    forall r | 0 <= r < RuleCount ensures !CanStart(RuleAt(r), '(') && !CanStart(RuleAt(r), ')') {
      var rule := RuleAt(r);
      if rule.Literal? {
        assert rule.pattern[0] != '(' && rule.pattern[0] != ')';
      }
    }
  }

  /** A parenthesis, which no rule matches, is a literal: one LPAREN or RPAREN token. */
  lemma ParenScan(text: string, i: nat, lineno: int)
    requires i < |text| && (text[i] == '(' || text[i] == ')')
    ensures var rest := ScanFrom(text, i + 1, lineno);
      var t := if text[i] == '(' then Token(LPAREN, "(", lineno) else Token(RPAREN, ")", lineno);
      ScanFrom(text, i, lineno) == Scanned([t] + rest.tokens, rest.errors, rest.lineno)
  {
    ParensStartNoRule();
    CannotStartCannotMatch(text, i, RuleCount);
    ScanEmitted(text, i, lineno, Step(text, i, lineno));
  }

  /** A one-letter name that begins no keyword, followed by a parenthesis, is one ID token. */
  lemma LetterScan(text: string, i: nat, lineno: int)
    requires i + 1 < |text| && IsIdStart(text[i]) && text[i] != 'a' && text[i] != 'n' && text[i] != 'o' && text[i] != 'i'
    requires text[i + 1] == '('
    ensures var rest := ScanFrom(text, i + 1, lineno);
      ScanFrom(text, i, lineno) == Scanned([Token(ID, [text[i]], lineno)] + rest.tokens, rest.errors, rest.lineno)
  {
    NoKeywordStart(text, i);
    IdentifierIsGreedy(text, i, lineno);
    var s := Step(text, i, lineno);
    assert text[i..s.next] == [text[i]];
    ScanEmitted(text, i, lineno, s);
  }

  /** A step that emits a token puts it in front of the rest of the scan. */
  lemma ScanEmitted(text: string, i: nat, lineno: int, s: StepResult)
    requires i < |text| && s == Step(text, i, lineno) && s.effect.Emitted?
    ensures var rest := ScanFrom(text, s.next, s.lineno);
      ScanFrom(text, i, lineno) == Scanned([s.effect.token] + rest.tokens, rest.errors, rest.lineno)
  {
    var rest := ScanFrom(text, s.next, s.lineno);
    ScanFromUnfold(text, i, lineno, s, rest);
    assert ErrorsOf(s.effect) + rest.errors == rest.errors;
  }

  lemma DecodeSingleDigit(c: char)
    requires IsDecimal(c)
    ensures IsNumberLexeme([c]) && DecodeNumber([c]) == DigitValue(c)
  {
    DigitsValueSnoc("", c, 10);
    assert "" + [c] == [c];
  }

  /** No keyword can start with a character other than `a`, `n`, `o` or `i`. */
  lemma NoKeywordStart(text: string, i: nat)
    requires i < |text| && text[i] != 'a' && text[i] != 'n' && text[i] != 'o' && text[i] != 'i'
    ensures NoKeywordAt(text, i)
  {
    if i + 3 <= |text| { assert text[i..i + 3][0] == text[i]; }
    if i + 2 <= |text| { assert text[i..i + 2][0] == text[i]; }
  }

  /** A word that runs to the end of the text and begins no keyword is one ID token. */
  lemma IdentifierScan(text: string, i: nat, lineno: int)
    requires i < |text| && IsIdStart(text[i]) && NoKeywordAt(text, i)
    requires forall k :: i <= k < |text| ==> IsIdChar(text[k])
    ensures ScanFrom(text, i, lineno) == Scanned([Token(ID, text[i..], lineno)], [], lineno)
  {
    IdentifierIsGreedy(text, i, lineno);
    var s := Step(text, i, lineno);
    assert s.next == |text|;
    assert text[i..s.next] == text[i..];
    assert ScanFrom(text, s.next, s.lineno) == Scanned([], [], lineno);
  }

  /** Characters each scanned on their own: parentheses, commas, blanks, list brackets and digits. */
  predicate IsPunctuation(c: char) {
    c == '(' || c == ')' || c == ',' || c == ' ' || c == '[' || c == ']' || IsDecimal(c)
  }

  /** From `k` on, `t` holds only such characters, and no two digits in a row. */
  predicate PunctuationFrom(t: string, k: nat)
    decreases |t| - k
  {
    k >= |t| ||
      (&& IsPunctuation(t[k])
       && (IsDecimal(t[k]) ==> k + 1 == |t| || (IsPunctuation(t[k + 1]) && !IsDecimal(t[k + 1])))
       && PunctuationFrom(t, k + 1))
  }

  /** What one such character adds in front of the scan of the rest of the text. */
  function Punctuate(c: char, rest: Scanned): Scanned {
    if c == '(' then Scanned([Token(LPAREN, "(", 1)] + rest.tokens, rest.errors, rest.lineno)
    else if c == ')' then Scanned([Token(RPAREN, ")", 1)] + rest.tokens, rest.errors, rest.lineno)
    else if c == ',' then Scanned([Token(COMMA, ",", 1)] + rest.tokens, rest.errors, rest.lineno)
    else if IsDecimal(c) then Scanned([Number(DigitValue(c), 1)] + rest.tokens, rest.errors, rest.lineno)
    else if c == '[' || c == ']' then Scanned(rest.tokens, [c] + rest.errors, rest.lineno)
    else rest
  }

  /** What the lexer makes of such a text, character by character. */
  function PunctuationScan(t: string, k: nat): (r: Scanned)
    ensures r.lineno == 1
    decreases |t| - k
  {
    if k >= |t| then Scanned([], [], 1) else Punctuate(t[k], PunctuationScan(t, k + 1))
  }

  /** Scanning such a text from `k` on line 1 yields `PunctuationScan`. */
  lemma {:induction false} ScanPunctuation(t: string, k: nat)
    requires k <= |t| && PunctuationFrom(t, k)
    ensures ScanFrom(t, k, 1) == PunctuationScan(t, k)
    decreases |t| - k, 1
  {
    if k < |t| {
      PunctuationNext(t, k);
    }
  }

  lemma {:induction false} PunctuationNext(t: string, k: nat)
    requires k < |t| && PunctuationFrom(t, k)
    ensures ScanFrom(t, k, 1) == PunctuationScan(t, k)
    decreases |t| - k, 0
  {
    PunctuationRest(t, k);
    ScanPunctuation(t, k + 1);
    PunctuationStep(t, k);
  }

  lemma PunctuationRest(t: string, k: nat)
    requires k < |t| && PunctuationFrom(t, k)
    ensures PunctuationFrom(t, k + 1)
    ensures IsPunctuation(t[k]) && (IsDecimal(t[k]) ==> k + 1 == |t| || (IsPunctuation(t[k + 1]) && !IsDecimal(t[k + 1])))
  {
  }

  /** One such character, scanned on line 1, adds what `Punctuate` says. */
  lemma PunctuationStep(t: string, k: nat)
    requires k < |t| && IsPunctuation(t[k]) && (IsDecimal(t[k]) ==> k + 1 == |t| || (IsPunctuation(t[k + 1]) && !IsDecimal(t[k + 1])))
    ensures ScanFrom(t, k, 1) == Punctuate(t[k], ScanFrom(t, k + 1, 1))
  {
    var c := t[k];
    if c == '(' || c == ')' {
      ParenScan(t, k, 1);
    } else if c == ',' {
      CommaScan(t, k, 1);
    } else if IsDecimal(c) {
      SingleDigitScan(t, k, 1);
    } else if c == '[' || c == ']' {
      BracketScan(t, k, 1);
    } else {
      BlankStep(t, k, 1);
    }
  }

  /** A one-letter name and a `(`, then only such characters: the ID token, then `PunctuationScan`. */
  lemma ScanLetterPunctuation(t: string)
    requires 1 < |t| && IsIdStart(t[0]) && t[0] != 'a' && t[0] != 'n' && t[0] != 'o' && t[0] != 'i'
    requires t[1] == '(' && PunctuationFrom(t, 1)
    ensures Scan(t) == Scanned([Token(ID, [t[0]], 1)] + PunctuationScan(t, 1).tokens, PunctuationScan(t, 1).errors, 1)
  {
    LetterScan(t, 0, 1);
    ScanPunctuation(t, 1);
    var rest, p := ScanFrom(t, 1, 1), PunctuationScan(t, 1);
    assert rest == p;
  }

  /**
   * In "(([2, 3]))" the brackets are logged and dropped: the scan yields
   * two LPAREN, NUMBER 2, COMMA, NUMBER 3 and two RPAREN.
   */
  lemma ScanNestedList()
    ensures Scan("(([2, 3]))") == Scanned(
      [Token(LPAREN, "(", 1), Token(LPAREN, "(", 1), Number(2, 1), Token(COMMA, ",", 1), Number(3, 1),
       Token(RPAREN, ")", 1), Token(RPAREN, ")", 1)], "[]", 1)
  {
    ScanPunctuation("(([2, 3]))", 0);
    NestedListPunctuation();
  }

  lemma NestedListPunctuation()
    ensures PunctuationScan("(([2, 3]))", 0) == Scanned(
      [Token(LPAREN, "(", 1), Token(LPAREN, "(", 1), Number(2, 1), Token(COMMA, ",", 1), Number(3, 1),
       Token(RPAREN, ")", 1), Token(RPAREN, ")", 1)], "[]", 1)
  {
  }

  /** "f(())" is ID f, two LPAREN and two RPAREN. */
  lemma ScanEmptyNestedCall()
    ensures Scan("f(())") == Scanned(
      [Token(ID, "f", 1), Token(LPAREN, "(", 1), Token(LPAREN, "(", 1), Token(RPAREN, ")", 1), Token(RPAREN, ")", 1)], [], 1)
  {
    var t := "f(())";
    ScanLetterPunctuation(t);
    EmptyNestedCallPunctuation();
    assert [t[0]] == "f";
  }

  lemma EmptyNestedCallPunctuation()
    ensures PunctuationScan("f(())", 1).errors == []
    ensures [Token(ID, "f", 1)] + PunctuationScan("f(())", 1).tokens ==
      [Token(ID, "f", 1), Token(LPAREN, "(", 1), Token(LPAREN, "(", 1), Token(RPAREN, ")", 1), Token(RPAREN, ")", 1)]
  {
  }

  /** "f((1, 2))" is ID f, two LPAREN, NUMBER 1, COMMA, NUMBER 2 and two RPAREN. */
  lemma ScanNestedCall()
    ensures Scan("f((1, 2))") == Scanned(
      [Token(ID, "f", 1), Token(LPAREN, "(", 1), Token(LPAREN, "(", 1), Number(1, 1), Token(COMMA, ",", 1), Number(2, 1),
       Token(RPAREN, ")", 1), Token(RPAREN, ")", 1)], [], 1)
  {
    var t := "f((1, 2))";
    ScanLetterPunctuation(t);
    NestedCallPunctuation();
    assert [t[0]] == "f";
  }

  lemma NestedCallPunctuation()
    ensures PunctuationScan("f((1, 2))", 1).errors == []
    ensures [Token(ID, "f", 1)] + PunctuationScan("f((1, 2))", 1).tokens ==
      [Token(ID, "f", 1), Token(LPAREN, "(", 1), Token(LPAREN, "(", 1), Number(1, 1), Token(COMMA, ",", 1), Number(2, 1),
       Token(RPAREN, ")", 1), Token(RPAREN, ")", 1)]
  {
  }

  /** "AAA_Bbb_@" is one identifier: `@` may continue an identifier. */
  lemma ScanGreedyIdentifier()
    ensures Scan("AAA_Bbb_@") == Scanned([Token(ID, "AAA_Bbb_@", 1)], [], 1)
  {
    var t := "AAA_Bbb_@";
    NoKeywordStart(t, 0);
    IdentifierScan(t, 0, 1);
    assert t[0..] == t;
  }

  /** "index" is the keyword IN followed by the identifier "dex". */
  lemma ScanKeywordPrefix()
    ensures Scan("index") == Scanned([Token(IN, "in", 1), Token(ID, "dex", 1)], [], 1)
  {
    var t := "index";
    ScanInPrefixedWord(t, 0, 1);
    assert t[2..] == "dex";
  }

  lemma ScanInPrefixedWord(t: string, i: nat, lineno: int)
    requires i + 2 < |t| && t[i] == 'i' && t[i + 1] == 'n' && IsIdStart(t[i + 2])
    requires t[i + 2] != 'a' && t[i + 2] != 'n' && t[i + 2] != 'o' && t[i + 2] != 'i'
    requires forall k :: i + 2 <= k < |t| ==> IsIdChar(t[k])
    ensures ScanFrom(t, i, lineno) == Scanned([Token(IN, "in", lineno), Token(ID, t[i + 2..], lineno)], [], lineno)
  {
    assert t[i..i + 2] == "in";
    KeywordsBeforeIdentifiers(t, i, lineno);
    NoKeywordStart(t, i + 2);
    IdentifierScan(t, i + 2, lineno);
  }

  // ---------------------------------------------------------------------
  // Whole-scan invariants

  /** Only the newline rule's matches contain newlines, and they contain nothing else. */
  lemma MatchedNewlines(rule: Rule, text: string, i: nat)
    requires i <= |text| && MatchRule(rule, text, i).Some?
    ensures var lexeme := text[i..MatchRule(rule, text, i).value];
      && (rule.Newline? ==> forall k :: 0 <= k < |lexeme| ==> lexeme[k] == '\n')
      && (!rule.Newline? && (rule.Literal? ==> AllChars(rule.pattern, LineChars)) ==>
            forall k :: 0 <= k < |lexeme| ==> lexeme[k] != '\n')
  {
    var j := MatchRule(rule, text, i).value;
    var lexeme := text[i..j];
    assert forall k :: 0 <= k < |lexeme| ==> lexeme[k] == text[i + k];
    match rule
    case Literal(_, w) =>
      assert lexeme == w;
    case Numeral =>
      NumberLexemeHasNoNewline(lexeme);
    case _ =>
  }

  lemma NumberLexemeHasNoNewline(s: string)
    requires IsNumberLexeme(s)
    ensures forall k :: 0 <= k < |s| ==> s[k] != '\n'
  {
    forall k | 0 <= k < |s| ensures s[k] != '\n' {
      if |s| > 2 && (s[..2] == "0x" || s[..2] == "0b") {
        if k >= 2 {
          assert s[2..][k - 2] == s[k];
        } else {
          assert s[..2][k] == s[k];
        }
      }
    }
  }

  /** Every step counts exactly the newlines it consumes. */
  lemma StepCountsNewlines(text: string, i: nat, lineno: int)
    requires i < |text|
    ensures var s := Step(text, i, lineno); s.lineno == lineno + Count(text[i..s.next], '\n')
  {
    var s := Step(text, i, lineno);
    if IsIgnored(text[i]) || MasterMatch(text, i).None? {
      assert s.next == i + 1 && s.lineno == lineno;
      if MasterMatch(text, i).None? {
        UnmatchedIsNoNewline(text, i);
      }
      OneCharacter(text, i);
    } else {
      MatchedStepCountsNewlines(text, i, lineno);
    }
  }

  /** Where no rule matches, the character is not a newline: the newline rule would have matched it. */
  lemma UnmatchedIsNoNewline(text: string, i: nat)
    requires i < |text| && MasterMatch(text, i).None?
    ensures text[i] != '\n'
  {
    assert MatchRule(RuleAt(19), text, i).None?;
    NewlineRuleStarts(text, i);
  }

  /** The newline rule matches exactly where the text has a newline. */
  lemma NewlineRuleStarts(text: string, i: nat)
    requires i < |text|
    ensures MatchRule(RuleAt(19), text, i).Some? <==> text[i] == '\n'
  {
    assert RuleAt(19) == Newline;
  }

  /** A single character that is not a newline counts no newline. */
  lemma OneCharacter(text: string, i: nat)
    requires i < |text| && text[i] != '\n'
    ensures Count(text[i..i + 1], '\n') == 0
  {
    assert text[i..i + 1] == [text[i]];
  }

  lemma MatchedStepCountsNewlines(text: string, i: nat, lineno: int)
    requires i < |text| && !IsIgnored(text[i]) && MasterMatch(text, i).Some?
    ensures var s := Step(text, i, lineno); s.lineno == lineno + Count(text[i..s.next], '\n')
  {
    var m := MasterMatch(text, i).value;
    var rule := RuleAt(m.rank);
    var lexeme := text[i..m.end];
    assert Step(text, i, lineno).next == m.end;
    MatchedNewlines(rule, text, i);
    if rule.Newline? {
      CountAll(lexeme, '\n');
    } else {
      CountNone(lexeme, '\n');
    }
  }

  lemma CountSplit(text: string, i: nat, j: nat, c: char)
    requires i <= j <= |text|
    ensures Count(text[i..], c) == Count(text[i..j], c) + Count(text[j..], c)
  {
    assert text[i..] == text[i..j] + text[j..];
    CountConcat(text[i..j], text[j..], c);
  }

  /**
   * The line number after a scan is the starting one plus the number of
   * newlines in the scanned text: every newline is counted, once.
   */
  lemma {:induction false} ScanCountsLines(text: string, i: nat, lineno: int)
    requires i <= |text|
    ensures ScanFrom(text, i, lineno).lineno == lineno + Count(text[i..], '\n')
    decreases |text| - i
  {
    if i < |text| {
      var s := Step(text, i, lineno);
      ScanFromUnfold(text, i, lineno, s, ScanFrom(text, s.next, s.lineno));
      StepCountsNewlines(text, i, lineno);
      ScanCountsLines(text, s.next, s.lineno);
      CountSplit(text, i, s.next, '\n');
    } else {
      assert text[i..] == [];
    }
  }

  /** A step's token is on the step's line, and a NUMBER token is never negative. */
  lemma StepToken(text: string, i: nat, lineno: int)
    requires i < |text|
    ensures var e := Step(text, i, lineno).effect;
      e.Emitted? ==> e.token.lineno == lineno && (e.token.Number? ==> e.token.value >= 0)
  {
  }

  /** A tokenize call ends on line 1 plus the number of newlines in the text. */
  lemma ScanLineCount(text: string)
    ensures Scan(text).lineno == 1 + Count(text, '\n')
  {
    ScanCountsLines(text, 0, 1);
    assert text[0..] == text;
  }

  /** Each step consumes at least one character, so a scan yields at most one token or error per character. */
  lemma {:induction false} ScanOutputBound(text: string, i: nat, lineno: int)
    requires i <= |text|
    ensures var s := ScanFrom(text, i, lineno); |s.tokens| + |s.errors| <= |text| - i
    decreases |text| - i
  {
    if i < |text| {
      var st := Step(text, i, lineno);
      ScanOutputBound(text, st.next, st.lineno);
    }
  }

  /** The tokens of `s` are in line order, between line `lineno` and the final line. */
  predicate InLineOrder(s: Scanned, lineno: int) {
    && lineno <= s.lineno
    && (forall k :: 0 <= k < |s.tokens| ==> lineno <= s.tokens[k].lineno <= s.lineno)
    && (forall k :: 0 <= k < |s.tokens| - 1 ==> s.tokens[k].lineno <= s.tokens[k + 1].lineno)
  }

  /** Every NUMBER token of `tokens` is non-negative. */
  predicate NumbersNonNegative(tokens: seq<Token>) {
    forall k :: 0 <= k < |tokens| && tokens[k].Number? ==> tokens[k].value >= 0
  }

  lemma PrependInLineOrder(e: Effect, lineno: int, next: int, rest: Scanned)
    requires lineno <= next && InLineOrder(rest, next)
    requires e.Emitted? ==> e.token.lineno == lineno
    ensures InLineOrder(Scanned(TokensOf(e) + rest.tokens, ErrorsOf(e) + rest.errors, rest.lineno), lineno)
  {
    if e.Emitted? {
      ConsInLineOrder(e.token, lineno, next, ErrorsOf(e) + rest.errors, rest);
    } else {
      assert TokensOf(e) + rest.tokens == rest.tokens;
    }
  }

  lemma ConsInLineOrder(t: Token, lineno: int, next: int, errors: seq<char>, rest: Scanned)
    requires lineno <= next && InLineOrder(rest, next) && t.lineno == lineno
    ensures InLineOrder(Scanned([t] + rest.tokens, errors, rest.lineno), lineno)
  {
    var tokens := [t] + rest.tokens;
    forall k | 0 <= k < |tokens| ensures lineno <= tokens[k].lineno <= rest.lineno {
      if k > 0 { assert tokens[k] == rest.tokens[k - 1]; }
    }
    forall k | 0 <= k < |tokens| - 1 ensures tokens[k].lineno <= tokens[k + 1].lineno {
      assert tokens[k + 1] == rest.tokens[k];
      if k > 0 { assert tokens[k] == rest.tokens[k - 1]; }
    }
  }

  lemma PrependNumbersNonNegative(e: Effect, rest: seq<Token>)
    requires NumbersNonNegative(rest)
    requires e.Emitted? && e.token.Number? ==> e.token.value >= 0
    ensures NumbersNonNegative(TokensOf(e) + rest)
  {
    var tokens := TokensOf(e) + rest;
    if e.Emitted? {
      assert forall k :: 1 <= k < |tokens| ==> tokens[k] == rest[k - 1];
    } else {
      assert tokens == rest;
    }
  }

  /**
   * Tokens come out in source order: their line numbers never decrease and
   * stay between the starting line and the final one.
   */
  lemma {:induction false} ScanTokensInOrder(text: string, i: nat, lineno: int)
    requires i <= |text|
    ensures InLineOrder(ScanFrom(text, i, lineno), lineno)
    decreases |text| - i
  {
    if i < |text| {
      var st := Step(text, i, lineno);
      ScanTokensInOrder(text, st.next, st.lineno);
      StepToken(text, i, lineno);
      PrependInLineOrder(st.effect, lineno, st.lineno, ScanFrom(text, st.next, st.lineno));
    }
  }

  /** No NUMBER pattern admits a sign, so every NUMBER token of a scan is non-negative. */
  lemma {:induction false} ScanNumbersNonNegative(text: string, i: nat, lineno: int)
    requires i <= |text|
    ensures NumbersNonNegative(ScanFrom(text, i, lineno).tokens)
    decreases |text| - i
  {
    if i < |text| {
      var st := Step(text, i, lineno);
      ScanNumbersNonNegative(text, st.next, st.lineno);
      StepToken(text, i, lineno);
      PrependNumbersNonNegative(st.effect, ScanFrom(text, st.next, st.lineno).tokens);
    }
  }
}
