/**
 * The scanner of the condition language (class ProcessorLexer).
 *
 * A line of text is cut into tokens by one master pattern whose
 * alternatives are the lexer's rules in declaration order; the first
 * alternative that matches at the current position wins (this is not a
 * longest-match scanner). Blanks and tabs are skipped before any rule is
 * tried, a `#` comment and a run of newlines produce no token, `(` and `)`
 * are literal tokens tried only when no rule matches, and any other
 * character is logged and skipped on its own.
 */
module Lexer {
  import opened Wrappers

  /** Token types other than NUMBER; LPAREN and RPAREN are the literals `(` and `)`. */
  datatype Kind =
    | ID | PLUS | MINUS | TIMES | DIVIDE | ASSIGN | COMMA | GT | LT
    | EQ | NE | GE | LE | AND | OR | NOT | IN | LPAREN | RPAREN

  /** A token: its type, its value (the lexeme, or the decoded integer of a NUMBER) and its line. */
  datatype Token =
    | Token(kind: Kind, text: string, lineno: int)
    | Number(value: int, lineno: int)

  // ---------------------------------------------------------------------
  // Character classes of the patterns

  predicate IsIgnored(c: char) { c == ' ' || c == '\t' }
  predicate IsIdStart(c: char) { 'a' <= c <= 'z' || 'A' <= c <= 'Z' || c == '_' }
  predicate IsDecimal(c: char) { '0' <= c <= '9' }
  predicate IsIdChar(c: char) { IsIdStart(c) || IsDecimal(c) || c == '@' }
  predicate IsHex(c: char) { IsDecimal(c) || 'a' <= c <= 'f' || 'A' <= c <= 'F' }
  predicate IsBinary(c: char) { c == '0' || c == '1' }
  predicate IsNewline(c: char) { c == '\n' }
  /** What `.` matches in a regular expression: anything but a newline. */
  predicate IsNotNewline(c: char) { c != '\n' }
  predicate IsLiteral(c: char) { c == '(' || c == ')' }

  /** The character classes a pattern repeats with `*` or `+`. */
  datatype CharClass = HexDigits | BinaryDigits | DecimalDigits | IdChars | LineChars | Newlines

  predicate InClass(c: char, cls: CharClass) {
    match cls
    case HexDigits => IsHex(c)
    case BinaryDigits => IsBinary(c)
    case DecimalDigits => IsDecimal(c)
    case IdChars => IsIdChar(c)
    case LineChars => IsNotNewline(c)
    case Newlines => IsNewline(c)
  }

  predicate AllChars(s: string, cls: CharClass) {
    forall k :: 0 <= k < |s| ==> InClass(s[k], cls)
  }

  /** The end of the longest run of characters of class `cls` that starts at `i` (a greedy `*`). */
  function SpanEnd(text: string, i: nat, cls: CharClass): (j: nat)
    requires i <= |text|
    ensures i <= j <= |text|
    ensures forall k :: i <= k < j ==> InClass(text[k], cls)
    ensures j == |text| || !InClass(text[j], cls)
    decreases |text| - i
  {
    if i < |text| && InClass(text[i], cls) then SpanEnd(text, i + 1, cls) else i
  }

  // ---------------------------------------------------------------------
  // The rules of the master pattern

  datatype Rule =
    | Literal(kind: Kind, pattern: string)   // a fixed-text token pattern
    | Identifier                              // [a-zA-Z_][a-zA-Z0-9_@]*
    | Numeral                                 // 0x[0-9a-fA-F]+ | 0b[01]+ | \d+
    | Comment                                 // \#.*   (ignored)
    | Newline                                 // \n+    (counted, no token)

  const RuleCount: nat := 20

  /** The rules in the order the lexer class declares them; `rank` is the position. */
  function RuleAt(rank: nat): (rule: Rule)
    requires rank < RuleCount
    ensures rule.Literal? ==> 0 < |rule.pattern| && AllChars(rule.pattern, LineChars)
  {
    if rank == 0 then Literal(AND, "and")
    else if rank == 1 then Literal(NOT, "not")
    else if rank == 2 then Literal(OR, "or")
    else if rank == 3 then Literal(IN, "in")
    else if rank == 4 then Identifier
    else if rank == 5 then Literal(EQ, "==")
    else if rank == 6 then Literal(NE, "!=")
    else if rank == 7 then Literal(GE, ">=")
    else if rank == 8 then Literal(LE, "<=")
    else if rank == 9 then Literal(PLUS, "+")
    else if rank == 10 then Literal(MINUS, "-")
    else if rank == 11 then Literal(TIMES, "*")
    else if rank == 12 then Literal(DIVIDE, "/")
    else if rank == 13 then Literal(ASSIGN, "=")
    else if rank == 14 then Literal(COMMA, ",")
    else if rank == 15 then Literal(GT, ">")
    else if rank == 16 then Literal(LT, "<")
    else if rank == 17 then Numeral
    else if rank == 18 then Comment
    else Newline
  }

  /** A fixed-text pattern matches when the text continues with exactly that text. */
  function MatchLiteral(text: string, i: nat, w: string): (m: Option<nat>)
    requires i <= |text|
    ensures m.Some? <==> 0 < |w| && i + |w| <= |text| && text[i..i + |w|] == w
    ensures m.Some? ==> m.value == i + |w|
  {
    if 0 < |w| && i + |w| <= |text| && text[i..i + |w|] == w then Some(i + |w|) else None
  }

  /** The lexemes the NUMBER rule can match. */
  predicate IsNumberLexeme(s: string) {
    || (|s| > 2 && s[..2] == "0x" && AllChars(s[2..], HexDigits))
    || (|s| > 2 && s[..2] == "0b" && AllChars(s[2..], BinaryDigits))
    || (|s| > 0 && AllChars(s, DecimalDigits))
  }

  /** The NUMBER rule: its three alternatives tried in order, each greedy. */
  function MatchNumber(text: string, i: nat): (m: Option<nat>)
    requires i <= |text|
    ensures m.Some? ==> i < m.value <= |text| && IsNumberLexeme(text[i..m.value])
    ensures m.None? <==> i == |text| || !IsDecimal(text[i])
  {
    if i + 2 < |text| && text[i] == '0' && text[i + 1] == 'x' && IsHex(text[i + 2]) then
      var j := SpanEnd(text, i + 2, HexDigits);
      assert text[i..j][..2] == "0x";
      assert forall k :: 0 <= k < j - i - 2 ==> text[i..j][2..][k] == text[i + 2 + k];
      Some(j)
    else if i + 2 < |text| && text[i] == '0' && text[i + 1] == 'b' && IsBinary(text[i + 2]) then
      var j := SpanEnd(text, i + 2, BinaryDigits);
      assert text[i..j][..2] == "0b";
      assert forall k :: 0 <= k < j - i - 2 ==> text[i..j][2..][k] == text[i + 2 + k];
      Some(j)
    else if i < |text| && IsDecimal(text[i]) then
      var j := SpanEnd(text, i, DecimalDigits);
      assert forall k :: 0 <= k < j - i ==> text[i..j][k] == text[i + k];
      Some(j)
    else
      None
  }

  /** Where `rule` matches at `i`, the end of its match. */
  function MatchRule(rule: Rule, text: string, i: nat): (m: Option<nat>)
    requires i <= |text|
    ensures m.Some? ==> i < m.value <= |text|
    ensures m.Some? && rule.Numeral? ==> IsNumberLexeme(text[i..m.value])
  {
    match rule
    case Literal(_, w) => MatchLiteral(text, i, w)
    case Identifier =>
      if i < |text| && IsIdStart(text[i]) then Some(SpanEnd(text, i + 1, IdChars)) else None
    case Numeral => MatchNumber(text, i)
    case Comment =>
      if i < |text| && text[i] == '#' then Some(SpanEnd(text, i + 1, LineChars)) else None
    case Newline =>
      if i < |text| && IsNewline(text[i]) then Some(SpanEnd(text, i + 1, Newlines)) else None
  }

  datatype Match = Match(rank: nat, end: nat)

  /** The first rule, from rank `from` on, that matches at `i`: alternation tries its branches in order. */
  function FirstMatchFrom(text: string, i: nat, from: nat): (m: Option<Match>)
    requires i <= |text| && from <= RuleCount
    ensures m.Some? ==>
      && from <= m.value.rank < RuleCount
      && MatchRule(RuleAt(m.value.rank), text, i) == Some(m.value.end)
      && forall r :: from <= r < m.value.rank ==> MatchRule(RuleAt(r), text, i).None?
    ensures m.None? ==> forall r :: from <= r < RuleCount ==> MatchRule(RuleAt(r), text, i).None?
    decreases RuleCount - from
  {
    if from == RuleCount then None
    else match MatchRule(RuleAt(from), text, i)
      case Some(end) => Some(Match(from, end))
      case None => FirstMatchFrom(text, i, from + 1)
  }

  /** The master pattern at `i`. */
  function MasterMatch(text: string, i: nat): Option<Match>
    requires i <= |text|
  {
    FirstMatchFrom(text, i, 0)
  }

  // ---------------------------------------------------------------------
  // Decoding NUMBER lexemes

  function DigitValue(c: char): (d: nat)
    requires IsHex(c)
    ensures d < 16
    ensures IsDecimal(c) ==> d < 10
    ensures IsBinary(c) ==> d < 2
  {
    if IsDecimal(c) then c as int - '0' as int
    else if 'a' <= c <= 'f' then c as int - 'a' as int + 10
    else c as int - 'A' as int + 10
  }

  /** The value of a digit string in `base`, most significant digit first (Python's `int(s, base)`). */
  function DigitsValue(s: string, base: nat): nat
    requires AllChars(s, HexDigits)
  {
    if s == [] then 0
    else DigitsValue(s[..|s| - 1], base) * base + DigitValue(s[|s| - 1])
  }

  /** The NUMBER action: a `0x` lexeme in base 16, a `0b` lexeme in base 2, anything else in base 10. */
  function DecodeNumber(lexeme: string): (n: int)
    requires IsNumberLexeme(lexeme)
    ensures n >= 0
  {
    if |lexeme| >= 2 && lexeme[..2] == "0x" then DigitsValue(lexeme[2..], 16)
    else if |lexeme| >= 2 && lexeme[..2] == "0b" then DigitsValue(lexeme[2..], 2)
    else DigitsValue(lexeme, 10)
  }

  /** The number of occurrences of `c` in `s` (Python's `s.count(c)`). */
  function Count(s: string, c: char): (n: nat)
    ensures n <= |s|
  {
    if s == [] then 0 else (if s[0] == c then 1 else 0) + Count(s[1..], c)
  }

  // ---------------------------------------------------------------------
  // One scanning step, and a whole scan

  /** What one step does: nothing visible, emit a token, or log a bad character. */
  datatype Effect = Skipped | Emitted(token: Token) | Logged(bad: char)

  datatype StepResult = StepResult(next: nat, lineno: int, effect: Effect)

  /** One step of the scanner at position `i` on line `lineno`. */
  function Step(text: string, i: nat, lineno: int): (r: StepResult)
    requires i < |text|
    ensures i < r.next <= |text|
    ensures r.lineno >= lineno
  {
    if IsIgnored(text[i]) then StepResult(i + 1, lineno, Skipped)
    else match MasterMatch(text, i)
      case Some(m) =>
        var lexeme := text[i..m.end];
        (match RuleAt(m.rank)
         case Literal(k, _) => StepResult(m.end, lineno, Emitted(Token(k, lexeme, lineno)))
         case Identifier => StepResult(m.end, lineno, Emitted(Token(ID, lexeme, lineno)))
         case Numeral => StepResult(m.end, lineno, Emitted(Number(DecodeNumber(lexeme), lineno)))
         case Comment => StepResult(m.end, lineno, Skipped)
         case Newline => StepResult(m.end, lineno + Count(lexeme, '\n'), Skipped))
      case None =>
        if text[i] == '(' then StepResult(i + 1, lineno, Emitted(Token(LPAREN, "(", lineno)))
        else if text[i] == ')' then StepResult(i + 1, lineno, Emitted(Token(RPAREN, ")", lineno)))
        else StepResult(i + 1, lineno, Logged(text[i]))
  }

  /** The tokens, logged characters and final line number of a scan. */
  datatype Scanned = Scanned(tokens: seq<Token>, errors: seq<char>, lineno: int)

  /** The tokens an effect contributes. */
  function TokensOf(e: Effect): seq<Token> {
    if e.Emitted? then [e.token] else []
  }

  /** The logged characters an effect contributes. */
  function ErrorsOf(e: Effect): seq<char> {
    if e.Logged? then [e.bad] else []
  }

  /** Scanning from position `i` on line `lineno` to the end of the text. */
  function ScanFrom(text: string, i: nat, lineno: int): Scanned
    requires i <= |text|
    decreases |text| - i
  {
    if i == |text| then Scanned([], [], lineno)
    else
      var s := Step(text, i, lineno);
      var rest := ScanFrom(text, s.next, s.lineno);
      Scanned(TokensOf(s.effect) + rest.tokens, ErrorsOf(s.effect) + rest.errors, rest.lineno)
  }

  /** Output so far plus one step plus the scan of the rest is output so far plus the scan from here. */
  lemma ScanFromStep(text: string, i: nat, lineno: int, tokens: seq<Token>, errors: seq<char>)
    requires i < |text|
    ensures var s := Step(text, i, lineno); var rest := ScanFrom(text, s.next, s.lineno);
      && (tokens + TokensOf(s.effect)) + rest.tokens == tokens + ScanFrom(text, i, lineno).tokens
      && (errors + ErrorsOf(s.effect)) + rest.errors == errors + ScanFrom(text, i, lineno).errors
      && rest.lineno == ScanFrom(text, i, lineno).lineno
  {
    var s := Step(text, i, lineno);
    var rest := ScanFrom(text, s.next, s.lineno);
    ScanFromUnfold(text, i, lineno, s, rest);
    ConcatAssoc(tokens, TokensOf(s.effect), rest.tokens);
    ConcatAssoc(errors, ErrorsOf(s.effect), rest.errors);
  }

  lemma ConcatAssoc<T>(a: seq<T>, b: seq<T>, c: seq<T>)
    ensures (a + b) + c == a + (b + c)
  {
  }

  lemma ScanFromUnfold(text: string, i: nat, lineno: int, s: StepResult, rest: Scanned)
    requires i < |text| && s == Step(text, i, lineno) && rest == ScanFrom(text, s.next, s.lineno)
    ensures ScanFrom(text, i, lineno) == Scanned(TokensOf(s.effect) + rest.tokens, ErrorsOf(s.effect) + rest.errors, rest.lineno)
  {
  }

  /** A tokenize call: from the start of the text, on line 1. */
  function Scan(text: string): Scanned {
    ScanFrom(text, 0, 1)
  }

  // ---------------------------------------------------------------------
  // The lexer object

  class ProcessorLexer {
    /** Every character any tokenize call on this lexer could not classify, in order. */
    var errors: seq<char>
    var index: nat
    var lineno: int

    constructor ()
      ensures errors == [] && index == 0 && lineno == 1
    {
      errors := [];
      index := 0;
      lineno := 1;
    }

    /** The `newline` rule's action: count the newlines of the matched run. */
    method CountNewlines(lexeme: string)
      modifies this`lineno
      ensures lineno == old(lineno) + Count(lexeme, '\n')
    {
      lineno := lineno + Count(lexeme, '\n');
    }

    /** The `error` action: log the first character of the unmatched rest and step over it. */
    method Error(rest: string)
      requires |rest| > 0
      modifies this`errors, this`index
      ensures errors == old(errors) + [rest[0]]
      ensures index == old(index) + 1
    {
      errors := errors + [rest[0]];
      index := index + 1;
    }

    /**
     * One pass of the tokenize loop at `index`: skip an ignored character,
     * act on the first rule that matches, emit a literal, or log an error.
     */
    method Advance(text: string) returns (emitted: seq<Token>)
      requires index < |text|
      modifies this`index, this`lineno, this`errors
      ensures var s := Step(text, old(index), old(lineno));
        && index == s.next && lineno == s.lineno
        && emitted == TokensOf(s.effect)
        && errors == old(errors) + ErrorsOf(s.effect)
    {
      emitted := [];
      if IsIgnored(text[index]) {
        index := index + 1;
        return;
      }
      var m := MasterMatch(text, index);
      if m.Some? {
        var lexeme := text[index..m.value.end];
        index := m.value.end;
        match RuleAt(m.value.rank)
        case Literal(k, _) => emitted := [Token(k, lexeme, lineno)];
        case Identifier => emitted := [Token(ID, lexeme, lineno)];
        case Numeral => emitted := [Number(DecodeNumber(lexeme), lineno)];
        case Comment =>
        case Newline => CountNewlines(lexeme);
      } else if IsLiteral(text[index]) {
        var kind := if text[index] == '(' then LPAREN else RPAREN;
        emitted := [Token(kind, [text[index]], lineno)];
        index := index + 1;
      } else {
        Error(text[index..]);
      }
    }

    /**
     * Scan `text` from its start on line 1. The tokens are those of `Scan`,
     * and the characters `Scan` logs are appended to `errors`, which keeps
     * whatever earlier calls logged.
     */
    method Tokenize(text: string) returns (tokens: seq<Token>)
      modifies this
      ensures tokens == Scan(text).tokens
      ensures errors == old(errors) + Scan(text).errors
      ensures lineno == Scan(text).lineno
      ensures index == |text|
    {
      index, lineno, tokens := 0, 1, [];
      while index < |text|
        invariant index <= |text|
        invariant tokens + ScanFrom(text, index, lineno).tokens == Scan(text).tokens
        invariant errors + ScanFrom(text, index, lineno).errors == old(errors) + Scan(text).errors
        invariant ScanFrom(text, index, lineno).lineno == Scan(text).lineno
        decreases |text| - index
      {
        ScanFromStep(text, index, lineno, tokens, errors);
        var emitted := Advance(text);
        tokens := tokens + emitted;
      }
    }
  }
}
