/** Five statements analyzed end to end: two well-formed assignments, one
    whose numeric literal ends in `.`, one with a second sign after an
    operator, and one without its assignment operator. Each call of lex is worked out
    on its own (the spaces it skips, then the branch it takes), then each
    part of assignment_statement, then the whole analysis. */
module Scenarios {
  import opened Tokens
  import opened Lexer
  import opened LexerFacts
  import opened Syntax

  // Single steps of lex on any line.

  /** lex is getNonBlank, the match, and the audit step. */
  lemma LexVia(s: LexState, b: LexState, d: LexState)
    requires Wf(s) && Wf(b)
    requires SkipBlanks(s.(lexeme := "")) == b && Dispatch(b) == d
    ensures LexToken(s) == Logged(d)
  {
  }

  /** getNonBlank over one space before the character `c`. */
  lemma SkipOne(s: LexState, c: char, rest: string)
    requires Wf(s) && s.nextChar == " " && s.line == [c] + rest && c != ' '
    ensures SkipBlanks(s) == LexState(rest, [c], CharClass([c]), s.nextToken, s.lexeme, s.errorPos + 1, s.output)
  {
    var t := ReadChar(s.(errorPos := s.errorPos + 1));
    assert t.nextChar == [c];
    assert SkipBlanks(t) == t;
  }

  /** The default branch of lex on the character `ch`, before `c`. */
  lemma OtherOne(b: LexState, ch: char, c: char, rest: string)
    requires Wf(b) && b.nextChar == [ch] && b.charClass == Unknown && b.line == [c] + rest
    ensures Dispatch(b) == LexState(rest, [c], CharClass([c]), LookupKind(ch), b.lexeme + [ch], b.errorPos, b.output)
  {
  }

  /** getChar depends only on the line and the fields it does not set. */
  lemma ReadCharCongruent(x: LexState, y: LexState)
    requires x.line == y.line && x.nextToken == y.nextToken && x.lexeme == y.lexeme
    requires x.errorPos == y.errorPos && x.output == y.output
    ensures ReadChar(x) == ReadChar(y)
  {
  }

  /** A scanning loop of lex that reads the word `w` and stops before the
      text `after`: the result is getChar on the line `after`, with the
      pending character and `w` appended to the lexeme. */
  lemma {:induction false} ReadWord(b: LexState, ks: set<Token>, w: string, after: string)
    requires Wf(b) && Eol !in ks && b.line == w + after
    requires forall i :: 0 <= i < |w| ==> CharClass([w[i]]) in ks
    requires after == "" || CharClass([after[0]]) !in ks
    ensures ScanWhile(ReadChar(AddChar(b)), ks) == ReadChar(b.(lexeme := b.lexeme + b.nextChar + w, line := after))
    decreases |w|
  {
    var u := ReadChar(AddChar(b));
    if w == "" {
      assert b.line == after;
      ReadCharCongruent(AddChar(b), b.(lexeme := b.lexeme + b.nextChar + w, line := after));
      if after != "" {
        assert u.nextChar == [after[0]];
      }
    } else {
      assert b.line == [w[0]] + (w[1..] + after);
      assert u.nextChar == [w[0]] && u.line == w[1..] + after;
      assert u.charClass in ks;
      ReadWord(u, ks, w[1..], after);
      assert w == [w[0]] + w[1..];
      Assoc(b.lexeme + b.nextChar, [w[0]], w[1..]);
      ReadCharCongruent(u.(lexeme := u.lexeme + u.nextChar + w[1..], line := after),
                        b.(lexeme := b.lexeme + b.nextChar + w, line := after));
    }
  }

  /** The LETTER branch reads the word `w` up to the text `after`. */
  lemma ScanIdentWord(b: LexState, w: string, after: string)
    requires Wf(b) && b.charClass == Letter && b.line == w + after
    requires forall i :: 0 <= i < |w| ==> CharClass([w[i]]) in {Letter, Digit}
    requires after == "" || CharClass([after[0]]) !in {Letter, Digit}
    ensures ScanIdent(b) == ReadChar(b.(lexeme := b.lexeme + b.nextChar + w, line := after)).(nextToken := Ident)
  {
    ReadWord(b, {Letter, Digit}, w, after);
  }

  /** The DIGIT branch reads the digits `w` up to the text `after`, which
      does not go on with `.`. */
  lemma ScanInteger(b: LexState, w: string, after: string)
    requires Wf(b) && b.charClass == Digit && b.line == w + after
    requires forall i :: 0 <= i < |w| ==> CharClass([w[i]]) == Digit
    requires after == "" || CharClass([after[0]]) !in {Digit, Decimal}
    ensures ScanNumber(b) == ReadChar(b.(lexeme := b.lexeme + b.nextChar + w, line := after)).(nextToken := NumLit)
  {
    ReadWord(b, {Digit}, w, after);
    var y := ReadChar(b.(lexeme := b.lexeme + b.nextChar + w, line := after));
    if after != "" {
      assert y.nextChar == [after[0]];
    }
    assert y.charClass != Decimal;
  }

  /** The DIGIT branch reads the digits `w`, the `.` and the digits `f` up
      to the text `after`. */
  lemma ScanDecimal(b: LexState, w: string, f: string, after: string)
    requires Wf(b) && b.charClass == Digit && b.line == w + ("." + (f + after))
    requires forall i :: 0 <= i < |w| ==> CharClass([w[i]]) == Digit
    requires forall i :: 0 <= i < |f| ==> CharClass([f[i]]) == Digit
    requires after == "" || CharClass([after[0]]) != Digit
    ensures ScanNumber(b) == ReadChar(b.(lexeme := b.lexeme + b.nextChar + w + "." + f, line := after)).(nextToken := NumLit)
  {
    ClassOfCharSpec('.');
    ReadWord(b, {Digit}, w, "." + (f + after));
    var y := ReadChar(b.(lexeme := b.lexeme + b.nextChar + w, line := "." + (f + after)));
    assert y.nextChar == "." && y.line == f + after && y.charClass == Decimal;
    ReadWord(y, {Digit}, f, after);
    ReadCharCongruent(y.(lexeme := y.lexeme + y.nextChar + f, line := after),
                      b.(lexeme := b.lexeme + b.nextChar + w + "." + f, line := after));
  }

  /** The match of lex on a letter: the word `w` up to the text `after`. */
  lemma DispatchIdent(b: LexState, w: string, after: string)
    requires Wf(b) && b.charClass == Letter && b.line == w + after
    requires forall i :: 0 <= i < |w| ==> CharClass([w[i]]) in {Letter, Digit}
    requires after == "" || CharClass([after[0]]) !in {Letter, Digit}
    ensures Dispatch(b) == ReadChar(b.(lexeme := b.lexeme + b.nextChar + w, line := after)).(nextToken := Ident)
  {
    ScanIdentWord(b, w, after);
  }

  /** The match of lex on a digit: the digits `w` up to the text `after`. */
  lemma DispatchInteger(b: LexState, w: string, after: string)
    requires Wf(b) && b.charClass == Digit && b.line == w + after
    requires forall i :: 0 <= i < |w| ==> CharClass([w[i]]) == Digit
    requires after == "" || CharClass([after[0]]) !in {Digit, Decimal}
    ensures Dispatch(b) == ReadChar(b.(lexeme := b.lexeme + b.nextChar + w, line := after)).(nextToken := NumLit)
  {
    ScanInteger(b, w, after);
  }

  /** The match of lex on a digit: the digits `w`, `.` and the digits `f`
      up to the text `after`. */
  lemma DispatchDecimal(b: LexState, w: string, f: string, after: string)
    requires Wf(b) && b.charClass == Digit && b.line == w + ("." + (f + after))
    requires forall i :: 0 <= i < |w| ==> CharClass([w[i]]) == Digit
    requires forall i :: 0 <= i < |f| ==> CharClass([f[i]]) == Digit
    requires after == "" || CharClass([after[0]]) != Digit
    ensures Dispatch(b) == ReadChar(b.(lexeme := b.lexeme + b.nextChar + w + "." + f, line := after)).(nextToken := NumLit)
  {
    ScanDecimal(b, w, f, after);
  }

  /** getChar on a line that starts with `c`. */
  lemma ReadFront(u: LexState, c: char, rest: string)
    requires u.line == [c] + rest
    ensures ReadChar(u) == u.(nextChar := [c], line := rest, charClass := CharClass([c]))
  {
  }

  /** getChar on the empty line. */
  lemma ReadEnd(u: LexState)
    requires u.line == ""
    ensures ReadChar(u) == u.(nextChar := "", charClass := Eol)
  {
  }

  /** One round of assignment_statement's loop: lex, a term, an operator. */
  lemma RoundVia(p: ParseState, a: ParseState, t: ParseState)
    requires Wf(p.lex) && Wf(a.lex) && Advance(p) == a && Term(a) == t
    ensures Round(p) == Step(CheckOperator(t).found || CheckOperator(t).after.lex.nextToken != Eol, CheckOperator(t).after)
  {
  }

  /** operators() at the end of the line: no operator, no error. */
  lemma OperatorAtEnd(t: ParseState)
    requires t.lex.nextToken == Eol
    ensures CheckOperator(t) == Checked(false, Skip(t, 1))
  {
    OperatorTableSpec();
  }

  /** lex at the end of the line. */
  lemma LexAtEnd(s: LexState)
    requires Wf(s) && Text(s) == ""
    ensures LexToken(s) == s.(nextToken := Eol, lexeme := "EOL")
  {
    var s0 := s.(lexeme := "");
    assert SkipBlanks(s0) == s0;
    CharClassSpec("");
  }

  /** The first lex of a line `x rest`: the identifier `x`, stopped by the
      blank that follows it. */
  lemma LexX(rest: string)
    ensures LexToken(LexState([' '] + rest, "x", Letter, Unknown, "", 0, []))
         == LexState(rest, " ", Unknown, Ident, "x", 0, [LogEntry(Ident, "x")])
  {
    var line := [' '] + rest;
    assert line == "" + line;
    assert "" + "x" + "" == "x";
    var b := LexState(line, "x", Letter, Unknown, "", 0, []);
    assert b.(lexeme := "") == b;
    assert SkipBlanks(b) == b;
    DispatchIdent(b, "", line);
    ReadFront(b.(lexeme := "x", line := line), ' ', rest);
    assert CharClass([' ']) == Unknown;
    LexVia(b, b, LexState(rest, " ", Unknown, Ident, "x", 0, []));
  }

  // "x = 1"

  const SimpleLog1 := [LogEntry(Ident, "x")]
  const SimpleLog2 := SimpleLog1 + [LogEntry(AssignOp, "=")]
  const SimpleLog3 := SimpleLog2 + [LogEntry(NumLit, "1")]

  lemma SimpleInit()
    ensures Start("x = 1") == LexState(" = 1", "x", Letter, Unknown, "", 0, [])
  {
    assert "x = 1" == ['x'] + " = 1";
    ReadFront(Blank("x = 1"), 'x', " = 1");
    assert CharClass(['x']) == Letter;
  }

  lemma SimpleLexX()
    ensures LexToken(LexState(" = 1", "x", Letter, Unknown, "", 0, [])) == LexState("= 1", " ", Unknown, Ident, "x", 0, SimpleLog1)
  {
    assert " = 1" == [' '] + "= 1";
    LexX("= 1");
  }

  lemma SimpleLexAssign()
    ensures LexToken(LexState("= 1", " ", Unknown, Ident, "x", 1, SimpleLog1))
         == LexState("1", " ", Unknown, AssignOp, "=", 2, SimpleLog1 + [LogEntry(AssignOp, "=")])
  {
    assert "= 1" == ['='] + " 1";
    assert " 1" == [' '] + "1";
    var s := LexState("= 1", " ", Unknown, Ident, "x", 1, SimpleLog1);
    SkipOne(s.(lexeme := ""), '=', " 1");
    var b := LexState(" 1", "=", Unknown, Ident, "", 2, SimpleLog1);
    OtherOne(b, '=', ' ', "1");
    LookupKindSpec('=');
    LexVia(s, b, LexState("1", " ", Unknown, AssignOp, "=", 2, SimpleLog1));
  }

  lemma SimpleLexOne()
    ensures LexToken(LexState("1", " ", Unknown, AssignOp, "=", 3, SimpleLog2))
         == LexState("", "", Eol, NumLit, "1", 4, SimpleLog3)
  {
    assert "1" == ['1'] + ("" + "");
    assert "" + "1" + "" == "1";
    var s := LexState("1", " ", Unknown, AssignOp, "=", 3, SimpleLog2);
    SkipOne(s.(lexeme := ""), '1', "");
    var b := LexState("", "1", Digit, AssignOp, "", 4, SimpleLog2);
    DispatchInteger(b, "", "");
    ReadEnd(b.(lexeme := "1", line := ""));
    LexVia(s, b, LexState("", "", Eol, NumLit, "1", 4, SimpleLog2));
  }

  lemma SimpleLogEntries()
    ensures SimpleLog3 == [LogEntry(Ident, "x"), LogEntry(AssignOp, "="), LogEntry(NumLit, "1")]
  {
  }

  lemma SimpleStart()
    ensures Advance(ParseState(Start("x = 1"), [])) == ParseState(LexState("= 1", " ", Unknown, Ident, "x", 0, SimpleLog1), [])
  {
    SimpleInit();
    SimpleLexX();
  }

  lemma SimpleHead()
    ensures Head(ParseState(LexState("= 1", " ", Unknown, Ident, "x", 0, SimpleLog1), []))
         == ParseState(LexState("1", " ", Unknown, AssignOp, "=", 3, SimpleLog2), [])
  {
    var p := ParseState(LexState("= 1", " ", Unknown, Ident, "x", 0, SimpleLog1), []);
    assert IdentOk("x");
    assert IdentifierBody(p) == ParseState(LexState("= 1", " ", Unknown, Ident, "x", 1, SimpleLog1), []);
    SimpleLexAssign();
  }

  lemma SimpleTerm()
    ensures CheckNumber(ParseState(LexState("", "", Eol, NumLit, "1", 4, SimpleLog3), []))
         == ParseState(LexState("", "", Eol, Eol, "EOL", 5, SimpleLog3), [])
  {
    var p := ParseState(LexState("", "", Eol, NumLit, "1", 4, SimpleLog3), []);
    assert Sign(p) == p;
    assert NumOk("1");
    assert NumberBody(p) == ParseState(LexState("", "", Eol, NumLit, "1", 5, SimpleLog3), []);
    LexAtEnd(NumberBody(p).lex);
  }

  lemma SimpleRound()
    ensures Round(ParseState(LexState("1", " ", Unknown, AssignOp, "=", 3, SimpleLog2), []))
         == Step(false, ParseState(LexState("", "", Eol, Eol, "EOL", 6, SimpleLog3), []))
  {
    var p := ParseState(LexState("1", " ", Unknown, AssignOp, "=", 3, SimpleLog2), []);
    var a := ParseState(LexState("", "", Eol, NumLit, "1", 4, SimpleLog3), []);
    var t := ParseState(LexState("", "", Eol, Eol, "EOL", 5, SimpleLog3), []);
    SimpleLexOne();
    assert Advance(p) == a;
    SimpleTerm();
    assert Term(a) == CheckNumber(a);
    RoundVia(p, a, t);
    OperatorAtEnd(t);
    assert CheckOperator(t) == Checked(false, ParseState(LexState("", "", Eol, Eol, "EOL", 6, SimpleLog3), []));
  }

  /** `x = 1` is a well-formed assignment: no error is recorded, and the
      audit log holds its three tokens. */
  lemma AcceptsSimpleAssignment()
    ensures Analyze("x = 1").errors == []
    ensures Analyze("x = 1").lex.output == [LogEntry(Ident, "x"), LogEntry(AssignOp, "="), LogEntry(NumLit, "1")]
  {
    SimpleStart();
    SimpleHead();
    SimpleRound();
    assert Rounds(ParseState(LexState("1", " ", Unknown, AssignOp, "=", 3, SimpleLog2), []))
        == ParseState(LexState("", "", Eol, Eol, "EOL", 6, SimpleLog3), []);
    SimpleLogEntries();
  }

  // "x = 1."

  const DotLog1 := [LogEntry(Ident, "x")]
  const DotLog2 := DotLog1 + [LogEntry(AssignOp, "=")]
  const DotLog3 := DotLog2 + [LogEntry(NumLit, "1.")]

  lemma DotInit()
    ensures Start("x = 1.") == LexState(" = 1.", "x", Letter, Unknown, "", 0, [])
  {
    assert "x = 1." == ['x'] + " = 1.";
    ReadFront(Blank("x = 1."), 'x', " = 1.");
    assert CharClass(['x']) == Letter;
  }

  lemma DotLexX()
    ensures LexToken(LexState(" = 1.", "x", Letter, Unknown, "", 0, [])) == LexState("= 1.", " ", Unknown, Ident, "x", 0, DotLog1)
  {
    assert " = 1." == [' '] + "= 1.";
    LexX("= 1.");
  }

  lemma DotLexAssign()
    ensures LexToken(LexState("= 1.", " ", Unknown, Ident, "x", 1, DotLog1))
         == LexState("1.", " ", Unknown, AssignOp, "=", 2, DotLog1 + [LogEntry(AssignOp, "=")])
  {
    assert "= 1." == ['='] + " 1.";
    assert " 1." == [' '] + "1.";
    var s := LexState("= 1.", " ", Unknown, Ident, "x", 1, DotLog1);
    SkipOne(s.(lexeme := ""), '=', " 1.");
    var b := LexState(" 1.", "=", Unknown, Ident, "", 2, DotLog1);
    OtherOne(b, '=', ' ', "1.");
    LookupKindSpec('=');
    LexVia(s, b, LexState("1.", " ", Unknown, AssignOp, "=", 2, DotLog1));
  }

  /** The DIGIT branch of lex takes the `.` into the literal even with no
      digit after it. */
  lemma DotLexNumber()
    ensures LexToken(LexState("1.", " ", Unknown, AssignOp, "=", 3, DotLog2))
         == LexState("", "", Eol, NumLit, "1.", 4, DotLog2 + [LogEntry(NumLit, "1.")])
  {
    assert "1." == ['1'] + ("" + ("." + ("" + "")));
    assert "" + "1" + "" + "." + "" == "1.";
    var s := LexState("1.", " ", Unknown, AssignOp, "=", 3, DotLog2);
    SkipOne(s.(lexeme := ""), '1', ".");
    var b := LexState(".", "1", Digit, AssignOp, "", 4, DotLog2);
    DispatchDecimal(b, "", "", "");
    ReadEnd(b.(lexeme := "1.", line := ""));
    LexVia(s, b, LexState("", "", Eol, NumLit, "1.", 4, DotLog2));
  }

  const DotError := ErrorRecord(InvalidNumericLiteral, 4, "1.", "    ^^")

  lemma DotStart()
    ensures Advance(ParseState(Start("x = 1."), [])) == ParseState(LexState("= 1.", " ", Unknown, Ident, "x", 0, DotLog1), [])
  {
    DotInit();
    DotLexX();
  }

  lemma DotHead()
    ensures Head(ParseState(LexState("= 1.", " ", Unknown, Ident, "x", 0, DotLog1), []))
         == ParseState(LexState("1.", " ", Unknown, AssignOp, "=", 3, DotLog2), [])
  {
    var p := ParseState(LexState("= 1.", " ", Unknown, Ident, "x", 0, DotLog1), []);
    assert IdentOk("x");
    assert IdentifierBody(p) == ParseState(LexState("= 1.", " ", Unknown, Ident, "x", 1, DotLog1), []);
    DotLexAssign();
  }

  /** `1.` fails numerical_literal's test: its last character is no digit. */
  lemma DotTerm()
    ensures CheckNumber(ParseState(LexState("", "", Eol, NumLit, "1.", 4, DotLog3), []))
         == ParseState(LexState("", "", Eol, Eol, "EOL", 6, DotLog3), [DotError])
  {
    assert Spaces(4) + Carets(2) == "    ^^";
    var p := ParseState(LexState("", "", Eol, NumLit, "1.", 4, DotLog3), []);
    assert Sign(p) == p;
    assert BadNumChar("1.", 0);
    assert NumberBody(p) == ParseState(LexState("", "", Eol, NumLit, "1.", 6, DotLog3), [DotError]);
    LexAtEnd(NumberBody(p).lex);
  }

  lemma DotRound()
    ensures Round(ParseState(LexState("1.", " ", Unknown, AssignOp, "=", 3, DotLog2), []))
         == Step(false, ParseState(LexState("", "", Eol, Eol, "EOL", 7, DotLog3), [DotError]))
  {
    var p := ParseState(LexState("1.", " ", Unknown, AssignOp, "=", 3, DotLog2), []);
    var a := ParseState(LexState("", "", Eol, NumLit, "1.", 4, DotLog3), []);
    var t := ParseState(LexState("", "", Eol, Eol, "EOL", 6, DotLog3), [DotError]);
    DotLexNumber();
    assert Advance(p) == a;
    DotTerm();
    assert Term(a) == CheckNumber(a);
    RoundVia(p, a, t);
    OperatorAtEnd(t);
    assert CheckOperator(t) == Checked(false, ParseState(LexState("", "", Eol, Eol, "EOL", 7, DotLog3), [DotError]));
  }

  lemma DotMessage()
    ensures Message(DotError) == "Syntax error: " + "invalid numerical literal" + " at position " + "4" + " (got: " + "1." + ")\n"
  {
    assert DigitChar(4) == '4';
    assert DecimalText(4) == "4";
  }

  /** `x = 1.` draws exactly one error: an invalid numerical literal at
      position 4, the column of `1.`, with two carets under it. */
  lemma RejectsTrailingDot()
    ensures Analyze("x = 1.").errors == [ErrorRecord(InvalidNumericLiteral, 4, "1.", "    ^^")]
    ensures Message(Analyze("x = 1.").errors[0])
         == "Syntax error: " + "invalid numerical literal" + " at position " + "4" + " (got: " + "1." + ")\n"
  {
    DotStart();
    DotHead();
    DotRound();
    assert Rounds(ParseState(LexState("1.", " ", Unknown, AssignOp, "=", 3, DotLog2), []))
        == ParseState(LexState("", "", Eol, Eol, "EOL", 7, DotLog3), [DotError]);
    DotMessage();
  }

  // "total = a + 2.5 * b"

  const ExprLog1 := [LogEntry(Ident, "total")]
  const ExprLog2 := ExprLog1 + [LogEntry(AssignOp, "=")]
  const ExprLog3 := ExprLog2 + [LogEntry(Ident, "a")]
  const ExprLog4 := ExprLog3 + [LogEntry(AddOp, "+")]
  const ExprLog5 := ExprLog4 + [LogEntry(NumLit, "2.5")]
  const ExprLog6 := ExprLog5 + [LogEntry(MultOp, "*")]
  const ExprLog7 := ExprLog6 + [LogEntry(Ident, "b")]

  /** The first token's letters after its first one. */
  const TotalTail := "otal"

  lemma ExprInit()
    ensures Start("total = a + 2.5 * b") == LexState(TotalTail + " = a + 2.5 * b", "t", Letter, Unknown, "", 0, [])
  {
    assert "total = a + 2.5 * b" == ['t'] + (TotalTail + " = a + 2.5 * b");
    ReadFront(Blank("total = a + 2.5 * b"), 't', TotalTail + " = a + 2.5 * b");
    assert CharClass(['t']) == Letter;
  }

  /** The LETTER branch of lex reads letters up to the first space. */
  lemma ExprWordTotal()
    ensures Dispatch(LexState(TotalTail + " = a + 2.5 * b", "t", Letter, Unknown, "", 0, []))
         == LexState("= a + 2.5 * b", " ", Unknown, Ident, "total", 0, [])
  {
    assert " = a + 2.5 * b" == [' '] + "= a + 2.5 * b";
    assert "" + "t" + TotalTail == "total";
    var b := LexState(TotalTail + " = a + 2.5 * b", "t", Letter, Unknown, "", 0, []);
    DispatchIdent(b, TotalTail, " = a + 2.5 * b");
    ReadFront(b.(lexeme := "total", line := " = a + 2.5 * b"), ' ', "= a + 2.5 * b");
    assert CharClass([' ']) == Unknown;
  }

  lemma ExprLexTotal()
    ensures LexToken(LexState(TotalTail + " = a + 2.5 * b", "t", Letter, Unknown, "", 0, []))
         == LexState("= a + 2.5 * b", " ", Unknown, Ident, "total", 0, ExprLog1)
  {
    var b := LexState(TotalTail + " = a + 2.5 * b", "t", Letter, Unknown, "", 0, []);
    assert b.(lexeme := "") == b;
    assert SkipBlanks(b) == b;
    ExprWordTotal();
    LexVia(b, b, LexState("= a + 2.5 * b", " ", Unknown, Ident, "total", 0, []));
  }

  lemma ExprLexAssign()
    ensures LexToken(LexState("= a + 2.5 * b", " ", Unknown, Ident, "total", 5, ExprLog1))
         == LexState("a + 2.5 * b", " ", Unknown, AssignOp, "=", 6, ExprLog1 + [LogEntry(AssignOp, "=")])
  {
    assert "= a + 2.5 * b" == ['='] + " a + 2.5 * b";
    assert " a + 2.5 * b" == [' '] + "a + 2.5 * b";
    var s := LexState("= a + 2.5 * b", " ", Unknown, Ident, "total", 5, ExprLog1);
    SkipOne(s.(lexeme := ""), '=', " a + 2.5 * b");
    var b := LexState(" a + 2.5 * b", "=", Unknown, Ident, "", 6, ExprLog1);
    OtherOne(b, '=', ' ', "a + 2.5 * b");
    LookupKindSpec('=');
    LexVia(s, b, LexState("a + 2.5 * b", " ", Unknown, AssignOp, "=", 6, ExprLog1));
  }

  lemma ExprLexA()
    ensures LexToken(LexState("a + 2.5 * b", " ", Unknown, AssignOp, "=", 7, ExprLog2))
         == LexState("+ 2.5 * b", " ", Unknown, Ident, "a", 8, ExprLog2 + [LogEntry(Ident, "a")])
  {
    assert "a + 2.5 * b" == ['a'] + ("" + " + 2.5 * b");
    assert " + 2.5 * b" == [' '] + "+ 2.5 * b";
    assert "" + "a" + "" == "a";
    var s := LexState("a + 2.5 * b", " ", Unknown, AssignOp, "=", 7, ExprLog2);
    SkipOne(s.(lexeme := ""), 'a', " + 2.5 * b");
    var b := LexState(" + 2.5 * b", "a", Letter, AssignOp, "", 8, ExprLog2);
    DispatchIdent(b, "", " + 2.5 * b");
    ReadFront(b.(lexeme := "a", line := " + 2.5 * b"), ' ', "+ 2.5 * b");
    assert CharClass([' ']) == Unknown;
    LexVia(s, b, LexState("+ 2.5 * b", " ", Unknown, Ident, "a", 8, ExprLog2));
  }

  lemma ExprLexPlus()
    ensures LexToken(LexState("+ 2.5 * b", " ", Unknown, Ident, "a", 9, ExprLog3))
         == LexState("2.5 * b", " ", Unknown, AddOp, "+", 10, ExprLog3 + [LogEntry(AddOp, "+")])
  {
    assert "+ 2.5 * b" == ['+'] + " 2.5 * b";
    assert " 2.5 * b" == [' '] + "2.5 * b";
    var s := LexState("+ 2.5 * b", " ", Unknown, Ident, "a", 9, ExprLog3);
    SkipOne(s.(lexeme := ""), '+', " 2.5 * b");
    var b := LexState(" 2.5 * b", "+", Unknown, Ident, "", 10, ExprLog3);
    OtherOne(b, '+', ' ', "2.5 * b");
    LookupKindSpec('+');
    LexVia(s, b, LexState("2.5 * b", " ", Unknown, AddOp, "+", 10, ExprLog3));
  }

  /** The DIGIT branch of lex reads digits, one `.`, and digits again. */
  lemma ExprLexNumber()
    ensures LexToken(LexState("2.5 * b", " ", Unknown, AddOp, "+", 11, ExprLog4))
         == LexState("* b", " ", Unknown, NumLit, "2.5", 12, ExprLog4 + [LogEntry(NumLit, "2.5")])
  {
    assert "2.5 * b" == ['2'] + ("" + ("." + ("5" + " * b")));
    assert " * b" == [' '] + "* b";
    assert "" + "2" + "" + "." + "5" == "2.5";
    var s := LexState("2.5 * b", " ", Unknown, AddOp, "+", 11, ExprLog4);
    SkipOne(s.(lexeme := ""), '2', ".5 * b");
    var b := LexState(".5 * b", "2", Digit, AddOp, "", 12, ExprLog4);
    DispatchDecimal(b, "", "5", " * b");
    ReadFront(b.(lexeme := "2.5", line := " * b"), ' ', "* b");
    assert CharClass([' ']) == Unknown;
    LexVia(s, b, LexState("* b", " ", Unknown, NumLit, "2.5", 12, ExprLog4));
  }

  lemma ExprLexTimes()
    ensures LexToken(LexState("* b", " ", Unknown, NumLit, "2.5", 15, ExprLog5))
         == LexState("b", " ", Unknown, MultOp, "*", 16, ExprLog5 + [LogEntry(MultOp, "*")])
  {
    assert "* b" == ['*'] + " b";
    assert " b" == [' '] + "b";
    var s := LexState("* b", " ", Unknown, NumLit, "2.5", 15, ExprLog5);
    SkipOne(s.(lexeme := ""), '*', " b");
    var b := LexState(" b", "*", Unknown, NumLit, "", 16, ExprLog5);
    OtherOne(b, '*', ' ', "b");
    LookupKindSpec('*');
    LexVia(s, b, LexState("b", " ", Unknown, MultOp, "*", 16, ExprLog5));
  }

  lemma ExprLexB()
    ensures LexToken(LexState("b", " ", Unknown, MultOp, "*", 17, ExprLog6))
         == LexState("", "", Eol, Ident, "b", 18, ExprLog6 + [LogEntry(Ident, "b")])
  {
    assert "b" == ['b'] + ("" + "");
    assert "" + "b" + "" == "b";
    var s := LexState("b", " ", Unknown, MultOp, "*", 17, ExprLog6);
    SkipOne(s.(lexeme := ""), 'b', "");
    var b := LexState("", "b", Letter, MultOp, "", 18, ExprLog6);
    DispatchIdent(b, "", "");
    ReadEnd(b.(lexeme := "b", line := ""));
    LexVia(s, b, LexState("", "", Eol, Ident, "b", 18, ExprLog6));
  }

  lemma ExprStart()
    ensures Advance(ParseState(Start("total = a + 2.5 * b"), []))
         == ParseState(LexState("= a + 2.5 * b", " ", Unknown, Ident, "total", 0, ExprLog1), [])
  {
    ExprInit();
    ExprLexTotal();
  }

  lemma ExprHead()
    ensures Head(ParseState(LexState("= a + 2.5 * b", " ", Unknown, Ident, "total", 0, ExprLog1), []))
         == ParseState(LexState("a + 2.5 * b", " ", Unknown, AssignOp, "=", 7, ExprLog2), [])
  {
    var p := ParseState(LexState("= a + 2.5 * b", " ", Unknown, Ident, "total", 0, ExprLog1), []);
    assert IdentOk("total");
    assert IdentifierBody(p) == ParseState(LexState("= a + 2.5 * b", " ", Unknown, Ident, "total", 5, ExprLog1), []);
    ExprLexAssign();
  }

  lemma ExprTermA()
    ensures CheckIdentifier(ParseState(LexState("+ 2.5 * b", " ", Unknown, Ident, "a", 8, ExprLog3), []))
         == ParseState(LexState("2.5 * b", " ", Unknown, AddOp, "+", 10, ExprLog4), [])
  {
    var p := ParseState(LexState("+ 2.5 * b", " ", Unknown, Ident, "a", 8, ExprLog3), []);
    assert IdentOk("a");
    assert IdentifierBody(p) == ParseState(LexState("+ 2.5 * b", " ", Unknown, Ident, "a", 9, ExprLog3), []);
    ExprLexPlus();
  }

  lemma ExprRound1()
    ensures Round(ParseState(LexState("a + 2.5 * b", " ", Unknown, AssignOp, "=", 7, ExprLog2), []))
         == Step(true, ParseState(LexState("2.5 * b", " ", Unknown, AddOp, "+", 11, ExprLog4), []))
  {
    ExprLexA();
    assert Advance(ParseState(LexState("a + 2.5 * b", " ", Unknown, AssignOp, "=", 7, ExprLog2), []))
        == ParseState(LexState("+ 2.5 * b", " ", Unknown, Ident, "a", 8, ExprLog3), []);
    ExprTermA();
    OperatorTableSpec();
  }

  lemma ExprTermNumber()
    ensures CheckNumber(ParseState(LexState("* b", " ", Unknown, NumLit, "2.5", 12, ExprLog5), []))
         == ParseState(LexState("b", " ", Unknown, MultOp, "*", 16, ExprLog6), [])
  {
    var p := ParseState(LexState("* b", " ", Unknown, NumLit, "2.5", 12, ExprLog5), []);
    assert Sign(p) == p;
    assert NumOk("2.5");
    ExprLexTimes();
  }

  lemma ExprRound2()
    ensures Round(ParseState(LexState("2.5 * b", " ", Unknown, AddOp, "+", 11, ExprLog4), []))
         == Step(true, ParseState(LexState("b", " ", Unknown, MultOp, "*", 17, ExprLog6), []))
  {
    ExprLexNumber();
    assert Advance(ParseState(LexState("2.5 * b", " ", Unknown, AddOp, "+", 11, ExprLog4), []))
        == ParseState(LexState("* b", " ", Unknown, NumLit, "2.5", 12, ExprLog5), []);
    ExprTermNumber();
    OperatorTableSpec();
  }

  lemma ExprTermB()
    ensures CheckIdentifier(ParseState(LexState("", "", Eol, Ident, "b", 18, ExprLog7), []))
         == ParseState(LexState("", "", Eol, Eol, "EOL", 19, ExprLog7), [])
  {
    assert IdentOk("b");
    LexAtEnd(LexState("", "", Eol, Ident, "b", 19, ExprLog7));
  }

  lemma ExprRound3()
    ensures Round(ParseState(LexState("b", " ", Unknown, MultOp, "*", 17, ExprLog6), []))
         == Step(false, ParseState(LexState("", "", Eol, Eol, "EOL", 20, ExprLog7), []))
  {
    ExprLexB();
    assert Advance(ParseState(LexState("b", " ", Unknown, MultOp, "*", 17, ExprLog6), []))
        == ParseState(LexState("", "", Eol, Ident, "b", 18, ExprLog7), []);
    ExprTermB();
  }

  /** `total = a + 2.5 * b` is a well-formed assignment: assignment_statement
      goes round its loop three times and records no error. */
  lemma AcceptsExpression()
    ensures Analyze("total = a + 2.5 * b").errors == []
  {
    ExprStart();
    ExprHead();
    ExprRound1();
    ExprRound2();
    ExprRound3();
    var p3 := ParseState(LexState("b", " ", Unknown, MultOp, "*", 17, ExprLog6), []);
    var p2 := ParseState(LexState("2.5 * b", " ", Unknown, AddOp, "+", 11, ExprLog4), []);
    var p1 := ParseState(LexState("a + 2.5 * b", " ", Unknown, AssignOp, "=", 7, ExprLog2), []);
    assert Rounds(p3).errors == [];
    assert Rounds(p2) == Rounds(p3);
    assert Rounds(p1) == Rounds(p2);
  }

  // "x = 1 + + 2"

  const SignedLog1 := [LogEntry(Ident, "x")]
  const SignedLog2 := SignedLog1 + [LogEntry(AssignOp, "=")]
  const SignedLog3 := SignedLog2 + [LogEntry(NumLit, "1")]
  const SignedLog4 := SignedLog3 + [LogEntry(AddOp, "+")]
  const SignedLog5 := SignedLog4 + [LogEntry(AddOp, "+")]
  const SignedLog6 := SignedLog5 + [LogEntry(NumLit, "2")]

  lemma SignedInit()
    ensures Start("x = 1 + + 2") == LexState(" = 1 + + 2", "x", Letter, Unknown, "", 0, [])
  {
    assert "x = 1 + + 2" == ['x'] + " = 1 + + 2";
    ReadFront(Blank("x = 1 + + 2"), 'x', " = 1 + + 2");
    assert CharClass(['x']) == Letter;
  }

  lemma SignedLexX()
    ensures LexToken(LexState(" = 1 + + 2", "x", Letter, Unknown, "", 0, []))
         == LexState("= 1 + + 2", " ", Unknown, Ident, "x", 0, SignedLog1)
  {
    assert " = 1 + + 2" == [' '] + "= 1 + + 2";
    LexX("= 1 + + 2");
  }

  lemma SignedLexAssign()
    ensures LexToken(LexState("= 1 + + 2", " ", Unknown, Ident, "x", 1, SignedLog1))
         == LexState("1 + + 2", " ", Unknown, AssignOp, "=", 2, SignedLog2)
  {
    assert "= 1 + + 2" == ['='] + " 1 + + 2";
    assert " 1 + + 2" == [' '] + "1 + + 2";
    var s := LexState("= 1 + + 2", " ", Unknown, Ident, "x", 1, SignedLog1);
    SkipOne(s.(lexeme := ""), '=', " 1 + + 2");
    var b := LexState(" 1 + + 2", "=", Unknown, Ident, "", 2, SignedLog1);
    OtherOne(b, '=', ' ', "1 + + 2");
    LookupKindSpec('=');
    LexVia(s, b, LexState("1 + + 2", " ", Unknown, AssignOp, "=", 2, SignedLog1));
  }

  lemma SignedLexOne()
    ensures LexToken(LexState("1 + + 2", " ", Unknown, AssignOp, "=", 3, SignedLog2))
         == LexState("+ + 2", " ", Unknown, NumLit, "1", 4, SignedLog3)
  {
    assert "1 + + 2" == ['1'] + ("" + " + + 2");
    assert " + + 2" == [' '] + "+ + 2";
    assert "" + "1" + "" == "1";
    var s := LexState("1 + + 2", " ", Unknown, AssignOp, "=", 3, SignedLog2);
    SkipOne(s.(lexeme := ""), '1', " + + 2");
    var b := LexState(" + + 2", "1", Digit, AssignOp, "", 4, SignedLog2);
    assert CharClass([' ']) == Unknown;
    DispatchInteger(b, "", " + + 2");
    ReadFront(b.(lexeme := "1", line := " + + 2"), ' ', "+ + 2");
    LexVia(s, b, LexState("+ + 2", " ", Unknown, NumLit, "1", 4, SignedLog2));
  }

  lemma SignedLexPlus()
    ensures LexToken(LexState("+ + 2", " ", Unknown, NumLit, "1", 5, SignedLog3))
         == LexState("+ 2", " ", Unknown, AddOp, "+", 6, SignedLog4)
  {
    assert "+ + 2" == ['+'] + " + 2";
    assert " + 2" == [' '] + "+ 2";
    var s := LexState("+ + 2", " ", Unknown, NumLit, "1", 5, SignedLog3);
    SkipOne(s.(lexeme := ""), '+', " + 2");
    var b := LexState(" + 2", "+", Unknown, NumLit, "", 6, SignedLog3);
    OtherOne(b, '+', ' ', "+ 2");
    LookupKindSpec('+');
    LexVia(s, b, LexState("+ 2", " ", Unknown, AddOp, "+", 6, SignedLog3));
  }

  lemma SignedLexSign()
    ensures LexToken(LexState("+ 2", " ", Unknown, AddOp, "+", 7, SignedLog4))
         == LexState("2", " ", Unknown, AddOp, "+", 8, SignedLog5)
  {
    assert "+ 2" == ['+'] + " 2";
    assert " 2" == [' '] + "2";
    var s := LexState("+ 2", " ", Unknown, AddOp, "+", 7, SignedLog4);
    SkipOne(s.(lexeme := ""), '+', " 2");
    var b := LexState(" 2", "+", Unknown, AddOp, "", 8, SignedLog4);
    OtherOne(b, '+', ' ', "2");
    LookupKindSpec('+');
    LexVia(s, b, LexState("2", " ", Unknown, AddOp, "+", 8, SignedLog4));
  }

  lemma SignedLexTwo()
    ensures LexToken(LexState("2", " ", Unknown, AddOp, "+", 8, SignedLog5))
         == LexState("", "", Eol, NumLit, "2", 9, SignedLog6)
  {
    assert "2" == ['2'] + ("" + "");
    assert "" + "2" + "" == "2";
    var s := LexState("2", " ", Unknown, AddOp, "+", 8, SignedLog5);
    SkipOne(s.(lexeme := ""), '2', "");
    var b := LexState("", "2", Digit, AddOp, "", 9, SignedLog5);
    DispatchInteger(b, "", "");
    ReadEnd(b.(lexeme := "2", line := ""));
    LexVia(s, b, LexState("", "", Eol, NumLit, "2", 9, SignedLog5));
  }

  lemma SignedLogEntries()
    ensures SignedLog6 == [LogEntry(Ident, "x"), LogEntry(AssignOp, "="), LogEntry(NumLit, "1"),
                           LogEntry(AddOp, "+"), LogEntry(AddOp, "+"), LogEntry(NumLit, "2")]
  {
  }

  lemma SignedStart()
    ensures Advance(ParseState(Start("x = 1 + + 2"), []))
         == ParseState(LexState("= 1 + + 2", " ", Unknown, Ident, "x", 0, SignedLog1), [])
  {
    SignedInit();
    SignedLexX();
  }

  lemma SignedHead()
    ensures Head(ParseState(LexState("= 1 + + 2", " ", Unknown, Ident, "x", 0, SignedLog1), []))
         == ParseState(LexState("1 + + 2", " ", Unknown, AssignOp, "=", 3, SignedLog2), [])
  {
    var p := ParseState(LexState("= 1 + + 2", " ", Unknown, Ident, "x", 0, SignedLog1), []);
    assert IdentOk("x");
    assert IdentifierBody(p) == ParseState(LexState("= 1 + + 2", " ", Unknown, Ident, "x", 1, SignedLog1), []);
    SignedLexAssign();
  }

  lemma SignedTermOne()
    ensures CheckNumber(ParseState(LexState("+ + 2", " ", Unknown, NumLit, "1", 4, SignedLog3), []))
         == ParseState(LexState("+ 2", " ", Unknown, AddOp, "+", 6, SignedLog4), [])
  {
    var p := ParseState(LexState("+ + 2", " ", Unknown, NumLit, "1", 4, SignedLog3), []);
    assert Sign(p) == p;
    assert NumOk("1");
    SignedLexPlus();
  }

  lemma SignedRound1()
    ensures Round(ParseState(LexState("1 + + 2", " ", Unknown, AssignOp, "=", 3, SignedLog2), []))
         == Step(true, ParseState(LexState("+ 2", " ", Unknown, AddOp, "+", 7, SignedLog4), []))
  {
    SignedLexOne();
    assert Advance(ParseState(LexState("1 + + 2", " ", Unknown, AssignOp, "=", 3, SignedLog2), []))
        == ParseState(LexState("+ + 2", " ", Unknown, NumLit, "1", 4, SignedLog3), []);
    SignedTermOne();
    OperatorTableSpec();
  }

  /** The second `+` stands where a term is expected, so numerical_literal
      takes it as the sign of `2`. */
  lemma SignedSignTwo()
    ensures Sign(ParseState(LexState("2", " ", Unknown, AddOp, "+", 8, SignedLog5), []))
         == ParseState(LexState("", "", Eol, NumLit, "2", 10, SignedLog6), [])
  {
    SignedLexTwo();
  }

  lemma SignedTermTwo()
    ensures CheckNumber(ParseState(LexState("2", " ", Unknown, AddOp, "+", 8, SignedLog5), []))
         == ParseState(LexState("", "", Eol, Eol, "EOL", 11, SignedLog6), [])
  {
    var b := ParseState(LexState("", "", Eol, NumLit, "2", 11, SignedLog6), []);
    SignedSignTwo();
    assert NumOk("2");
    assert NumberBody(ParseState(LexState("", "", Eol, NumLit, "2", 10, SignedLog6), [])) == b;
    LexAtEnd(b.lex);
  }

  lemma SignedRound2()
    ensures Round(ParseState(LexState("+ 2", " ", Unknown, AddOp, "+", 7, SignedLog4), []))
         == Step(false, ParseState(LexState("", "", Eol, Eol, "EOL", 12, SignedLog6), []))
  {
    var p := ParseState(LexState("+ 2", " ", Unknown, AddOp, "+", 7, SignedLog4), []);
    var a := ParseState(LexState("2", " ", Unknown, AddOp, "+", 8, SignedLog5), []);
    var t := ParseState(LexState("", "", Eol, Eol, "EOL", 11, SignedLog6), []);
    SignedLexSign();
    assert Advance(p) == a;
    SignedTermTwo();
    assert Term(a) == CheckNumber(a);
    RoundVia(p, a, t);
    OperatorAtEnd(t);
    assert CheckOperator(t) == Checked(false, ParseState(LexState("", "", Eol, Eol, "EOL", 12, SignedLog6), []));
  }

  /** `x = 1 + + 2` draws no error: after the operator `+`, the second `+`
      is read as the sign of the literal `2`. */
  lemma AcceptsSecondSign()
    ensures Analyze("x = 1 + + 2").errors == []
    ensures Analyze("x = 1 + + 2").lex.output
         == [LogEntry(Ident, "x"), LogEntry(AssignOp, "="), LogEntry(NumLit, "1"),
             LogEntry(AddOp, "+"), LogEntry(AddOp, "+"), LogEntry(NumLit, "2")]
  {
    SignedStart();
    SignedHead();
    SignedRound1();
    SignedRound2();
    var p2 := ParseState(LexState("+ 2", " ", Unknown, AddOp, "+", 7, SignedLog4), []);
    var p1 := ParseState(LexState("1 + + 2", " ", Unknown, AssignOp, "=", 3, SignedLog2), []);
    assert Rounds(p2) == ParseState(LexState("", "", Eol, Eol, "EOL", 12, SignedLog6), []);
    assert Rounds(p1) == Rounds(p2);
    SignedLogEntries();
  }

  // "x 1"

  const GapLog1 := [LogEntry(Ident, "x")]
  const GapLog2 := GapLog1 + [LogEntry(NumLit, "1")]
  const GapAssignError := ErrorRecord(MissingAssignOperator, 2, "1", "  ^")
  const GapTermError := ErrorRecord(MissingTerm, 3, "EOL", "   ^")

  lemma GapInit()
    ensures Start("x 1") == LexState(" 1", "x", Letter, Unknown, "", 0, [])
  {
    assert "x 1" == ['x'] + " 1";
    ReadFront(Blank("x 1"), 'x', " 1");
    assert CharClass(['x']) == Letter;
  }

  lemma GapLexX()
    ensures LexToken(LexState(" 1", "x", Letter, Unknown, "", 0, [])) == LexState("1", " ", Unknown, Ident, "x", 0, GapLog1)
  {
    assert " 1" == [' '] + "1";
    LexX("1");
  }

  lemma GapLexOne()
    ensures LexToken(LexState("1", " ", Unknown, Ident, "x", 1, GapLog1))
         == LexState("", "", Eol, NumLit, "1", 2, GapLog2)
  {
    assert "1" == ['1'] + ("" + "");
    assert "" + "1" + "" == "1";
    var s := LexState("1", " ", Unknown, Ident, "x", 1, GapLog1);
    SkipOne(s.(lexeme := ""), '1', "");
    var b := LexState("", "1", Digit, Ident, "", 2, GapLog1);
    DispatchInteger(b, "", "");
    ReadEnd(b.(lexeme := "1", line := ""));
    LexVia(s, b, LexState("", "", Eol, NumLit, "1", 2, GapLog1));
  }

  lemma GapStart()
    ensures Advance(ParseState(Start("x 1"), [])) == ParseState(LexState("1", " ", Unknown, Ident, "x", 0, GapLog1), [])
  {
    GapInit();
    GapLexX();
  }

  /** The token after `x` is `1`, not `=`: addError spans the one column of
      `1` at position 2. */
  lemma GapHead()
    ensures Head(ParseState(LexState("1", " ", Unknown, Ident, "x", 0, GapLog1), []))
         == ParseState(LexState("", "", Eol, NumLit, "1", 3, GapLog2), [GapAssignError])
  {
    assert Spaces(2) + Carets(1) == "  ^";
    var p := ParseState(LexState("1", " ", Unknown, Ident, "x", 0, GapLog1), []);
    assert IdentOk("x");
    assert IdentifierBody(p) == ParseState(LexState("1", " ", Unknown, Ident, "x", 1, GapLog1), []);
    GapLexOne();
  }

  /** The loop lexes the end of the line where a term is expected: addError
      spans one column at position 3, and operators then ends the loop. */
  lemma GapRound()
    ensures Round(ParseState(LexState("", "", Eol, NumLit, "1", 3, GapLog2), [GapAssignError]))
         == Step(false, ParseState(LexState("", "", Eol, Eol, "EOL", 5, GapLog2), [GapAssignError, GapTermError]))
  {
    assert Spaces(3) + Carets(1) == "   ^";
    var p := ParseState(LexState("", "", Eol, NumLit, "1", 3, GapLog2), [GapAssignError]);
    var a := ParseState(LexState("", "", Eol, Eol, "EOL", 3, GapLog2), [GapAssignError]);
    var r := ParseState(LexState("", "", Eol, Eol, "EOL", 4, GapLog2), [GapAssignError, GapTermError]);
    LexAtEnd(p.lex);
    assert Advance(p) == a;
    assert Report(a, MissingTerm) == r;
    LexAtEnd(r.lex);
    assert Term(a) == r;
    RoundVia(p, a, r);
    OperatorAtEnd(r);
    assert CheckOperator(r) == Checked(false, ParseState(LexState("", "", Eol, Eol, "EOL", 5, GapLog2), [GapAssignError, GapTermError]));
  }

  /** `x 1` draws two errors: the missing assignment operator, reported on
      `1`, and then the missing term, reported at the end of the line. */
  lemma RejectsMissingAssignment()
    ensures Analyze("x 1").errors
         == [ErrorRecord(MissingAssignOperator, 2, "1", "  ^"), ErrorRecord(MissingTerm, 3, "EOL", "   ^")]
  {
    GapStart();
    GapHead();
    GapRound();
    assert Rounds(ParseState(LexState("", "", Eol, NumLit, "1", 3, GapLog2), [GapAssignError]))
        == ParseState(LexState("", "", Eol, Eol, "EOL", 5, GapLog2), [GapAssignError, GapTermError]);
  }
}
