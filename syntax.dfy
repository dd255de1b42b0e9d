/** The syntax analyzer of parser.py (class SyntaxAnalyzer): a recursive
    descent recognizer for one assignment statement

      <assignment-statement> -> <identifier> = <term> {<operator> <term>}
      <term>                 -> <identifier> | <numerical-literal>

    that drives a LexicalAnalyzer token by token and records every syntax
    error together with a caret line pointing at it.

    As for the lexer, every step is a function on the value ParseState, and
    the class SyntaxAnalyzer, whose methods update the lexer and the error
    list in place, is proved to follow those functions. */
module Syntax {
  import opened Tokens
  import opened Lexer
  import opened LexerFacts

  /** The five reasons the analyzer reports. */
  datatype Reason =
    | MissingAssignOperator
    | MissingTerm
    | InvalidIdentifier
    | InvalidNumericLiteral
    | MissingOperator

  /** The wording of each reason in the error message. */
  function ReasonText(r: Reason): string {
    match r
    case MissingAssignOperator => "expected an assignment operator"
    case MissingTerm => "expected an identifier or numerical-literal"
    case InvalidIdentifier => "invalid identifier"
    case InvalidNumericLiteral => "invalid numerical literal"
    case MissingOperator => "expected an operator"
  }

  /** One entry of errorsFound: the values its message is built from (the
      reason, the position and the offending lexeme) and the caret line. */
  datatype ErrorRecord = ErrorRecord(reason: Reason, position: nat, got: string, caretLine: string)

  /** The decimal digit of `d`. */
  function DigitChar(d: nat): (c: char)
    requires d < 10
    ensures IsDigit(c) && c as int - '0' as int == d
  {
    ('0' as int + d) as char
  }

  /** The number a string of decimal digits stands for, most significant
      digit first. */
  function NumeralValue(r: string): int {
    if r == "" then 0 else 10 * NumeralValue(r[..|r| - 1]) + (r[|r| - 1] as int - '0' as int)
  }

  /** The decimal numeral of `n`, as an f-string renders an int: digits
      that spell `n`, with no leading zero unless `n` is 0. */
  function DecimalText(n: nat): (r: string)
    ensures |r| >= 1 && forall i :: 0 <= i < |r| ==> IsDigit(r[i])
    ensures NumeralValue(r) == n
    ensures r[0] == '0' ==> r == "0"
  {
    if n < 10 then [DigitChar(n)]
    else
      var w := DecimalText(n / 10);
      var r := w + [DigitChar(n % 10)];
      assert r[..|r| - 1] == w;
      r
  }

  /** The first component of an errorsFound entry, as addError formats it. */
  function Message(e: ErrorRecord): string {
    "Syntax error: " + ReasonText(e.reason) + " at position " + DecimalText(e.position)
      + " (got: " + e.got + ")\n"
  }

  /** The fields of a SyntaxAnalyzer: its lexer and the errors found. */
  datatype ParseState = ParseState(lex: LexState, errors: seq<ErrorRecord>)

  /** How many columns the caret of an error on the current token spans:
      the lexeme, or one column at the end of the line. */
  function Width(s: LexState): nat {
    if s.nextToken != Eol then |s.lexeme| else 1
  }

  /** `n` carets. */
  function Carets(n: nat): string {
    Repeat('^', n)
  }

  /** addError: record the error at errorPos and move errorPos past the
      current token. */
  function Report(p: ParseState, reason: Reason): ParseState {
    var position := p.lex.errorPos;
    var length := Width(p.lex);
    var e := ErrorRecord(reason, position, p.lex.lexeme, Spaces(position) + Carets(length));
    ParseState(p.lex.(errorPos := position + length), p.errors + [e])
  }

  /** `self.lex.errorPos += n`. */
  function Skip(p: ParseState, n: nat): ParseState {
    p.(lex := p.lex.(errorPos := p.lex.errorPos + n))
  }

  /** `self.lex.lex()`. */
  function Advance(p: ParseState): (r: ParseState)
    requires Wf(p.lex)
    ensures Wf(r.lex)
  {
    p.(lex := LexToken(p.lex))
  }

  /** The test of identifier's loop at index i: the first character is not
      a letter, or the character is not alphanumeric. */
  predicate BadIdentChar(w: string, i: nat)
    requires i < |w|
  {
    (i == 0 && !IsAlpha(w[i])) || !IsAlnum(w[i])
  }

  /** identifier's loop runs to its end. */
  predicate IdentOk(w: string) {
    forall i :: 0 <= i < |w| ==> !BadIdentChar(w, i)
  }

  /** identifier before its final lex: report an invalid identifier, or
      step past it. */
  function IdentifierBody(p: ParseState): ParseState {
    if IdentOk(p.lex.lexeme) then Skip(p, |p.lex.lexeme|) else Report(p, InvalidIdentifier)
  }

  /** identifier. */
  function CheckIdentifier(p: ParseState): (r: ParseState)
    requires Wf(p.lex)
    ensures Wf(r.lex)
  {
    Advance(IdentifierBody(p))
  }

  /** The test of numerical_literal's loop at index i: the character is
      neither a digit nor `.`, or the lexeme does not end in a digit. */
  predicate BadNumChar(w: string, i: nat)
    requires i < |w|
  {
    (!IsDigit(w[i]) && w[i] != '.') || !IsDigit(w[|w| - 1])
  }

  /** numerical_literal's loop runs to its end. */
  predicate NumOk(w: string) {
    forall i :: 0 <= i < |w| ==> !BadNumChar(w, i)
  }

  /** The optional sign of numerical_literal: on `+` or `-`, lex and count
      the sign's column. */
  function Sign(p: ParseState): (r: ParseState)
    requires Wf(p.lex)
    ensures Wf(r.lex)
  {
    if p.lex.nextToken in {AddOp, SubOp} then Skip(Advance(p), 1) else p
  }

  /** numerical_literal after its sign and before its final lex: report an
      invalid literal, or step past it. */
  function NumberBody(q: ParseState): ParseState {
    if NumOk(q.lex.lexeme) then Skip(q, |q.lex.lexeme|) else Report(q, InvalidNumericLiteral)
  }

  /** numerical_literal. */
  function CheckNumber(p: ParseState): (r: ParseState)
    requires Wf(p.lex)
    ensures Wf(r.lex)
  {
    Advance(NumberBody(Sign(p)))
  }

  /** The outcome of operators: whether the token is an operator, and the
      state after the call. */
  datatype Checked = Checked(found: bool, after: ParseState)

  /** operators: accept one of + - * / %, report anything else but the end
      of the line. The token is not consumed. */
  function CheckOperator(p: ParseState): Checked {
    if IsArithOp(p.lex.nextToken) then Checked(true, Skip(p, 1))
    else if p.lex.nextToken != Eol then Checked(false, Report(p, MissingOperator))
    else Checked(false, Skip(p, 1))
  }

  /** The branch of assignment_statement's loop on the token just lexed. */
  function Term(p: ParseState): (r: ParseState)
    requires Wf(p.lex)
    ensures Wf(r.lex)
  {
    if p.lex.nextToken == Ident then CheckIdentifier(p)
    else if p.lex.nextToken in {NumLit, AddOp, SubOp} then CheckNumber(p)
    else Advance(Report(p, MissingTerm))
  }

  /** The outcome of one round of assignment_statement's loop: whether
      another round follows, and the state after the round. */
  datatype Step = Step(more: bool, after: ParseState)

  /** One round of assignment_statement's loop: lex, the branch on the
      token, operators; the loop breaks when operators fails at the end of
      the line. */
  function Round(p: ParseState): (r: Step)
    requires Wf(p.lex)
    ensures Wf(r.after.lex)
  {
    var c := CheckOperator(Term(Advance(p)));
    Step(c.found || c.after.lex.nextToken != Eol, c.after)
  }

  /** assignment_statement's loop. */
  function Rounds(p: ParseState): (r: ParseState)
    requires Wf(p.lex)
    ensures Wf(r.lex)
    decreases Remaining(p.lex)
  {
    var c := Round(p);
    if !c.more then c.after
    else
      RoundShrinks(p);
      Rounds(c.after)
  }

  /** assignment_statement before its loop: an identifier, then the
      assignment operator, which is counted but not consumed. */
  function Head(p: ParseState): (r: ParseState)
    requires Wf(p.lex)
    ensures Wf(r.lex)
  {
    var a := CheckIdentifier(p);
    if a.lex.nextToken != AssignOp then Report(a, MissingAssignOperator) else Skip(a, 1)
  }

  /** assignment_statement. */
  function ParseAssignment(p: ParseState): (r: ParseState)
    requires Wf(p.lex)
    ensures Wf(r.lex)
  {
    Rounds(Head(p))
  }

  /** Analyzing one line: LexicalAnalyzer(line) followed by
      SyntaxAnalyzer(lexer), whose __init__ lexes the first token and runs
      assignment_statement. */
  function Analyze(line: string): (r: ParseState)
    ensures Wf(r.lex)
  {
    ParseAssignment(Advance(ParseState(Start(line), [])))
  }

  // Termination of assignment_statement's loop.

  /** lex never makes the unread text longer. */
  lemma AdvanceNoGrow(p: ParseState)
    requires Wf(p.lex)
    ensures Remaining(Advance(p).lex) <= Remaining(p.lex)
    ensures Finished(p.lex) ==> Finished(Advance(p).lex)
  {
    LexStep(p.lex);
    if Finished(p.lex) {
      LexEolSticky(p.lex);
    }
  }

  lemma CheckIdentifierNoGrow(p: ParseState)
    requires Wf(p.lex)
    ensures Remaining(CheckIdentifier(p).lex) <= Remaining(p.lex)
  {
    AdvanceNoGrow(IdentifierBody(p));
  }

  lemma CheckNumberNoGrow(p: ParseState)
    requires Wf(p.lex)
    ensures Remaining(CheckNumber(p).lex) <= Remaining(p.lex)
  {
    var q := Sign(p);
    if p.lex.nextToken in {AddOp, SubOp} {
      AdvanceNoGrow(p);
    }
    AdvanceNoGrow(NumberBody(q));
  }

  /** The branch of the loop never makes the unread text longer, and at the
      end of the line it stays there. */
  lemma TermNoGrow(p: ParseState)
    requires Wf(p.lex)
    ensures Remaining(Term(p).lex) <= Remaining(p.lex)
    ensures Finished(p.lex) ==> Finished(Term(p).lex)
  {
    if p.lex.nextToken == Ident {
      CheckIdentifierNoGrow(p);
    } else if p.lex.nextToken in {NumLit, AddOp, SubOp} {
      CheckNumberNoGrow(p);
    } else {
      AdvanceNoGrow(Report(p, MissingTerm));
    }
  }

  /** A round either ends the loop or consumes input. */
  lemma RoundShrinks(p: ParseState)
    requires Wf(p.lex)
    ensures Round(p).more ==> Remaining(Round(p).after.lex) < Remaining(p.lex)
  {
    var a := Advance(p);
    LexStep(p.lex);
    TermNoGrow(a);
  }

  /** The analyzer, holding its lexer. */
  class SyntaxAnalyzer {
    const lex: LexicalAnalyzer
    var errorsFound: seq<ErrorRecord>

    function State(): ParseState
      reads this, lex
    {
      ParseState(lex.State(), errorsFound)
    }

    predicate Valid()
      reads this, lex
    {
      lex.Valid()
    }

    /** __init__: lex the first token, then analyze the statement. */
    constructor (lex: LexicalAnalyzer)
      requires lex.Valid()
      modifies lex
      ensures this.lex == lex && Valid()
      ensures State() == ParseAssignment(Advance(ParseState(old(lex.State()), [])))
    {
      this.lex := lex;
      errorsFound := [];
      new;
      Next();
      AssignmentStatement();
    }

    method AssignmentStatement()
      requires Valid()
      modifies this, lex
      ensures Valid() && State() == ParseAssignment(old(State()))
    {
      Identifier();
      if lex.nextToken != AssignOp {
        AddError(MissingAssignOperator);
      } else {
        SkipColumns(1);
      }
      ghost var start := State();
      assert start == Head(old(State()));
      while true
        invariant Valid() && Rounds(State()) == Rounds(start)
        decreases Remaining(lex.State())
      {
        ghost var before := State();
        var more := Pass();
        if !more {
          assert Rounds(before) == State();
          break;
        }
        RoundShrinks(before);
      }
    }

    /** One pass of assignment_statement's loop: lex, a term, then
        operators(); `more` is false when the loop breaks. */
    method Pass() returns (more: bool)
      requires Valid()
      modifies this, lex
      ensures Valid() && Step(more, State()) == Round(old(State()))
    {
      Next();
      ParseTerm();
      var isOperator := Operators();
      more := isOperator || lex.nextToken != Eol;
    }

    /** The branch of assignment_statement's loop on the token just lexed. */
    method ParseTerm()
      requires Valid()
      modifies this, lex
      ensures Valid() && State() == Term(old(State()))
    {
      if lex.nextToken == Ident {
        Identifier();
      } else if lex.nextToken in {NumLit, AddOp, SubOp} {
        NumericalLiteral();
      } else {
        AddError(MissingTerm);
        Next();
      }
    }

    method Identifier()
      requires Valid()
      modifies this, lex
      ensures Valid() && State() == CheckIdentifier(old(State()))
    {
      for i := 0 to |lex.lexeme|
        invariant State() == old(State())
        invariant forall j :: 0 <= j < i ==> !BadIdentChar(lex.lexeme, j)
      {
        if BadIdentChar(lex.lexeme, i) {
          AddError(InvalidIdentifier);
          assert State() == IdentifierBody(old(State()));
          Next();
          return;
        }
      }
      SkipColumns(|lex.lexeme|);
      assert State() == IdentifierBody(old(State()));
      Next();
    }

    method NumericalLiteral()
      requires Valid()
      modifies this, lex
      ensures Valid() && State() == CheckNumber(old(State()))
    {
      SkipSign();
      ghost var signed := State();
      for i := 0 to |lex.lexeme|
        invariant State() == signed
        invariant forall j :: 0 <= j < i ==> !BadNumChar(lex.lexeme, j)
      {
        if BadNumChar(lex.lexeme, i) {
          AddError(InvalidNumericLiteral);
          assert State() == NumberBody(signed);
          Next();
          return;
        }
      }
      SkipColumns(|lex.lexeme|);
      assert State() == NumberBody(signed);
      Next();
    }

    /** The sign step of numerical_literal: a leading `+` or `-` is lexed
        past and then counted as one column. */
    method SkipSign()
      requires Valid()
      modifies lex
      ensures Valid() && State() == Sign(old(State()))
    {
      if lex.nextToken in {AddOp, SubOp} {
        Next();
        SkipColumns(1);
      }
    }

    method Operators() returns (isOperator: bool)
      modifies lex, this
      ensures Checked(isOperator, State()) == CheckOperator(old(State()))
    {
      if lex.nextToken in OperatorTable().Values {
        SkipColumns(1);
        return true;
      }
      if lex.nextToken != Eol {
        AddError(MissingOperator);
      } else {
        SkipColumns(1);
      }
      return false;
    }

    /** `self.lex.lex()`. */
    method Next()
      requires Valid()
      modifies lex
      ensures Valid() && State() == Advance(old(State()))
    {
      var _ := lex.Lex();
    }

    /** `self.lex.errorPos += n`. */
    method SkipColumns(n: nat)
      modifies lex
      ensures State() == Skip(old(State()), n)
    {
      lex.errorPos := lex.errorPos + n;
    }

    method AddError(reason: Reason)
      modifies lex, this
      ensures State() == Report(old(State()), reason)
    {
      var length := 1;
      var position := lex.errorPos;
      if lex.nextToken != Eol {
        length := |lex.lexeme|;
      }
      var errorLine := Spaces(position) + Carets(length);
      lex.errorPos := lex.errorPos + length;
      errorsFound := errorsFound + [ErrorRecord(reason, position, lex.lexeme, errorLine)];
    }
  }
}
