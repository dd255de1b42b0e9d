/** Properties of the syntax analyzer, stated on the functions of module
    Syntax that the methods of SyntaxAnalyzer are proved to follow. */
module SyntaxFacts {
  import opened Tokens
  import opened Lexer
  import opened LexerFacts
  import opened Syntax

  // addError.

  lemma {:induction false} RepeatAt(c: char, n: nat, i: nat)
    requires i < n
    ensures Repeat(c, n)[i] == c
  {
    if i > 0 {
      RepeatAt(c, n - 1, i - 1);
    }
  }

  /** addError appends exactly one record, at the current errorPos, naming
      the current lexeme; its caret line is blank up to that position and
      then carries one caret per column of the token (one at the end of the
      line), and errorPos moves to the end of the carets. Nothing else of
      the lexer changes. */
  lemma ReportSpec(p: ParseState, reason: Reason)
    ensures var r := Report(p, reason); var e := r.errors[|r.errors| - 1];
      && |r.errors| == |p.errors| + 1 && r.errors[..|p.errors|] == p.errors
      && e.reason == reason && e.position == p.lex.errorPos && e.got == p.lex.lexeme
      && r.lex.errorPos == p.lex.errorPos + (if p.lex.nextToken == Eol then 1 else |p.lex.lexeme|)
      && r.lex == p.lex.(errorPos := r.lex.errorPos)
      && |e.caretLine| == r.lex.errorPos
      && (forall i :: 0 <= i < e.position ==> e.caretLine[i] == ' ')
      && (forall i :: e.position <= i < r.lex.errorPos ==> e.caretLine[i] == '^')
  {
    var r := Report(p, reason);
    var e := r.errors[|r.errors| - 1];
    var n := p.lex.errorPos;
    var w := Width(p.lex);
    assert e.caretLine == Spaces(n) + Carets(w);
    forall i | 0 <= i < n ensures e.caretLine[i] == ' ' {
      RepeatAt(' ', n, i);
    }
    forall i | n <= i < n + w ensures e.caretLine[i] == '^' {
      RepeatAt('^', w, i - n);
    }
  }

  // identifier and numerical_literal.

  /** Three characters of a reason text tell the five reasons apart. */
  lemma ReasonKey(r: Reason)
    ensures var t := ReasonText(r);
      && |t| >= 18
      && (r == MissingAssignOperator <==> t[0] == 'e' && t[12] == 'a')
      && (r == MissingTerm <==> t[0] == 'e' && t[12] == 'i')
      && (r == MissingOperator <==> t[0] == 'e' && t[12] == 'o')
      && (r == InvalidIdentifier <==> t[0] == 'i' && t[8] == 'i')
      && (r == InvalidNumericLiteral <==> t[0] == 'i' && t[8] == 'n')
  {
  }

  /** No reason text, followed by anything, reads as another reason text
      followed by something else. */
  lemma ReasonPrefix(r1: Reason, r2: Reason, s1: string, s2: string)
    requires ReasonText(r1) + s1 == ReasonText(r2) + s2
    ensures r1 == r2 && s1 == s2
  {
    var t1, t2 := ReasonText(r1), ReasonText(r2);
    ReasonKey(r1);
    ReasonKey(r2);
    assert t1[0] == (t1 + s1)[0] && t2[0] == (t2 + s2)[0];
    assert t1[8] == (t1 + s1)[8] && t2[8] == (t2 + s2)[8];
    assert t1[12] == (t1 + s1)[12] && t2[12] == (t2 + s2)[12];
    assert s1 == (t1 + s1)[|t1|..];
  }

  /** In a run of digits followed by a non-digit, the digits stand before
      the run's length and the non-digit at it. */
  lemma DigitRun(d: string, b: string)
    requires forall i :: 0 <= i < |d| ==> IsDigit(d[i])
    requires |b| > 0 && !IsDigit(b[0])
    ensures forall i :: 0 <= i < |d| ==> IsDigit((d + b)[i])
    ensures !IsDigit((d + b)[|d|])
  {
  }

  /** A run of digits ends where the first non-digit stands. */
  lemma DigitsPrefix(d1: string, b1: string, d2: string, b2: string)
    requires forall i :: 0 <= i < |d1| ==> IsDigit(d1[i])
    requires forall i :: 0 <= i < |d2| ==> IsDigit(d2[i])
    requires |b1| > 0 && |b2| > 0 && !IsDigit(b1[0]) && !IsDigit(b2[0])
    requires d1 + b1 == d2 + b2
    ensures d1 == d2 && b1 == b2
  {
    DigitRun(d1, b1);
    DigitRun(d2, b2);
    assert |d1| == |d2|;
    assert d1 == (d1 + b1)[..|d1|] && d2 == (d2 + b2)[..|d2|];
    assert b1 == (d1 + b1)[|d1|..] && b2 == (d2 + b2)[|d2|..];
  }

  /** The part of the message after the reason. */
  lemma TailDetermines(d1: string, g1: string, d2: string, g2: string)
    requires forall i :: 0 <= i < |d1| ==> IsDigit(d1[i])
    requires forall i :: 0 <= i < |d2| ==> IsDigit(d2[i])
    requires " at position " + (d1 + (" (got: " + g1 + ")\n")) == " at position " + (d2 + (" (got: " + g2 + ")\n"))
    ensures d1 == d2 && g1 == g2
  {
    var b1, b2 := " (got: " + g1 + ")\n", " (got: " + g2 + ")\n";
    assert (" at position " + (d1 + b1))[13..] == d1 + b1;
    assert (" at position " + (d2 + b2))[13..] == d2 + b2;
    DigitsPrefix(d1, b1, d2, b2);
    assert g1 == b1[7..|b1| - 2] && g2 == b2[7..|b2| - 2];
  }

  lemma MessageShape(e: ErrorRecord)
    ensures Message(e) == "Syntax error: " + (ReasonText(e.reason) + (" at position " + (DecimalText(e.position) + (" (got: " + e.got + ")\n"))))
  {
  }

  /** The message addError writes identifies the error: its reason, its
      position and the lexeme it got can all be read back from it. */
  lemma MessageDetermines(e1: ErrorRecord, e2: ErrorRecord)
    requires Message(e1) == Message(e2)
    ensures e1.reason == e2.reason && e1.position == e2.position && e1.got == e2.got
  {
    var d1, d2 := DecimalText(e1.position), DecimalText(e2.position);
    var s1 := " at position " + (d1 + (" (got: " + e1.got + ")\n"));
    var s2 := " at position " + (d2 + (" (got: " + e2.got + ")\n"));
    var m1, m2 := ReasonText(e1.reason) + s1, ReasonText(e2.reason) + s2;
    MessageShape(e1);
    MessageShape(e2);
    assert ("Syntax error: " + m1)[14..] == m1 && ("Syntax error: " + m2)[14..] == m2;
    ReasonPrefix(e1.reason, e2.reason, s1, s2);
    TailDetermines(d1, e1.got, d2, e2.got);
  }

  /** identifier's loop runs through exactly when the lexeme is empty or
      is a letter followed by letters and digits. */
  lemma IdentOkIff(w: string)
    ensures IdentOk(w) <==> w == "" || IsIdentLexeme(w)
  {
    if IdentOk(w) && w != "" {
      assert !BadIdentChar(w, 0);
      forall i | 1 <= i < |w| ensures IsAlnum(w[i]) {
        assert !BadIdentChar(w, i);
      }
    }
  }

  /** numerical_literal's loop runs through exactly when the lexeme is
      empty, or is made of digits and dots and ends in a digit. */
  lemma NumOkIff(w: string)
    ensures NumOk(w) <==> w == "" || ((forall i :: 0 <= i < |w| ==> IsDigit(w[i]) || w[i] == '.') && IsDigit(w[|w| - 1]))
  {
    if NumOk(w) && w != "" {
      assert !BadNumChar(w, 0);
      forall i | 0 <= i < |w| ensures IsDigit(w[i]) || w[i] == '.' {
        assert !BadNumChar(w, i);
      }
    }
  }

  /** Every identifier lexeme passes identifier's test; a numeric literal
      lexeme passes numerical_literal's test exactly when it does not end
      in `.`. */
  lemma ShapedTermsChecked(k: Token, w: string)
    requires TokenShape(k, w)
    ensures k == Ident ==> IdentOk(w)
    ensures k == NumLit ==> (NumOk(w) <==> w[|w| - 1] != '.')
  {
    IdentOkIff(w);
    NumOkIff(w);
  }

  /** The same of what lex assembles. */
  lemma LexedTermsChecked(s: LexState)
    requires Wf(s)
    ensures var t := LexToken(s);
      && (t.nextToken == Ident ==> IdentOk(t.lexeme))
      && (t.nextToken == NumLit ==> t.lexeme != "" && (NumOk(t.lexeme) <==> t.lexeme[|t.lexeme| - 1] != '.'))
  {
    var t := LexToken(s);
    LexLexemeShape(s);
    ShapedTermsChecked(t.nextToken, t.lexeme);
  }

  /** identifier reports an invalid identifier exactly when its test fails,
      counts the token's columns, and then lexes exactly one token, which
      is logged unless it is EOL. */
  lemma IdentifierOutcome(p: ParseState)
    requires Wf(p.lex)
    ensures var r := CheckIdentifier(p);
      && r.errors == p.errors + (if IdentOk(p.lex.lexeme) then [] else [Report(p, InvalidIdentifier).errors[|p.errors|]])
      && r.lex.output == p.lex.output + (if r.lex.nextToken == Eol then [] else [LogEntry(r.lex.nextToken, r.lex.lexeme)])
      && r.lex.errorPos == p.lex.errorPos + (if IdentOk(p.lex.lexeme) then |p.lex.lexeme| else Width(p.lex))
                           + LeadingBlanks(Text(p.lex))
  {
    LexLogEntry(IdentifierBody(p).lex);
    LexCount(IdentifierBody(p).lex);
  }

  /** numerical_literal consumes a leading `+` or `-` as a sign, lexing once
      for it and counting one column; any other token is left alone. */
  lemma SignOutcome(p: ParseState)
    requires Wf(p.lex)
    ensures var q := Sign(p);
      && q.errors == p.errors
      && (p.lex.nextToken in {AddOp, SubOp} ==>
            q.lex.errorPos == LexToken(p.lex).errorPos + 1
            && q.lex.output == p.lex.output + (if q.lex.nextToken == Eol then [] else [LogEntry(q.lex.nextToken, q.lex.lexeme)]))
      && (p.lex.nextToken !in {AddOp, SubOp} ==> q == p)
  {
    LexLogEntry(p.lex);
  }

  /** numerical_literal reports an invalid literal exactly when the test of
      the (signed-over) lexeme fails, and then lexes exactly one token. */
  lemma NumberOutcome(p: ParseState)
    requires Wf(p.lex)
    ensures var q := Sign(p); var r := CheckNumber(p);
      && r.errors == p.errors + (if NumOk(q.lex.lexeme) then [] else [Report(q, InvalidNumericLiteral).errors[|p.errors|]])
      && r.lex.output == q.lex.output + (if r.lex.nextToken == Eol then [] else [LogEntry(r.lex.nextToken, r.lex.lexeme)])
      && r.lex.errorPos == q.lex.errorPos + (if NumOk(q.lex.lexeme) then |q.lex.lexeme| else Width(q.lex))
                           + LeadingBlanks(Text(q.lex))
  {
    SignOutcome(p);
    LexLogEntry(NumberBody(Sign(p)).lex);
    LexCount(NumberBody(Sign(p)).lex);
  }

  // operators.

  /** operators answers true exactly on the five operator tokens and then
      only counts the token's column; at EOL it answers false and counts
      one column; on anything else it answers false and reports a missing
      operator. It never lexes. */
  lemma OperatorOutcome(p: ParseState)
    ensures var c := CheckOperator(p);
      && (c.found <==> p.lex.nextToken in {AddOp, SubOp, MultOp, DivOp, ModOp})
      && (c.found || p.lex.nextToken == Eol ==> c.after == Skip(p, 1) && c.after.errors == p.errors)
      && (!c.found && p.lex.nextToken != Eol ==>
            c.after.errors == p.errors + [ErrorRecord(MissingOperator, p.lex.errorPos, p.lex.lexeme, Report(p, MissingOperator).errors[|p.errors|].caretLine)])
      && c.after.lex == p.lex.(errorPos := c.after.lex.errorPos)
  {
    OperatorTableSpec();
  }

  // Positions: every error points at its token.

  /** Between two tokens: the unread text is the rest of `line` from
      errorPos on, or the line is used up and errorPos is at or past its
      end. */
  predicate Tracks(s: LexState, line: string) {
    Wf(s)
    && ((s.errorPos + Remaining(s) == |line| && line[s.errorPos..] == Text(s))
        || (Text(s) == "" && s.errorPos >= |line|))
  }

  /** On a token: the token stands in `line` at errorPos, followed by the
      unread text; at EOL, errorPos is at or past the end of the line. */
  predicate OnToken(s: LexState, line: string) {
    Wf(s) && TokenShape(s.nextToken, s.lexeme)
    && (if s.nextToken != Eol then
          s.errorPos + |s.lexeme| + Remaining(s) == |line| && line[s.errorPos..] == s.lexeme + Text(s)
        else Text(s) == "" && s.errorPos >= |line|)
  }

  /** The error `e` names the text of `line` at its position, or is an
      error at the end of the line. */
  predicate Points(e: ErrorRecord, line: string) {
    (e.got == "EOL" && e.position >= |line|)
    || (e.position + |e.got| <= |line| && line[e.position..e.position + |e.got|] == e.got)
  }

  /** The errors so far: positions strictly increasing and before `pos`,
      each pointing at its token. */
  predicate Recorded(errors: seq<ErrorRecord>, pos: nat, line: string) {
    (forall i, j :: 0 <= i < j < |errors| ==> errors[i].position < errors[j].position)
    && (forall i :: 0 <= i < |errors| ==> errors[i].position < pos && Points(errors[i], line))
  }

  predicate Between(p: ParseState, line: string) {
    Tracks(p.lex, line) && Recorded(p.errors, p.lex.errorPos, line)
  }

  predicate At(p: ParseState, line: string) {
    OnToken(p.lex, line) && Recorded(p.errors, p.lex.errorPos, line)
  }

  /** What one lex does to the cursor, as OnTokenAfter needs it: the
      token's lexeme follows the blanks that open the unread text. */
  predicate LexedFrom(s: LexState, t: LexState) {
    && Wf(t) && TokenShape(t.nextToken, t.lexeme)
    && t.errorPos == s.errorPos + LeadingBlanks(Text(s))
    && (t.nextToken != Eol ==> Text(s)[LeadingBlanks(Text(s))..] == t.lexeme + Text(t))
    && (t.nextToken == Eol ==> LeadingBlanks(Text(s)) == |Text(s)| && Text(t) == "")
    && (Text(s) == "" ==> t.nextToken == Eol)
  }

  lemma LexLexedFrom(s: LexState)
    requires Wf(s)
    ensures LexedFrom(s, LexToken(s))
  {
    LexColumns(s);
    LexLexemeShape(s);
    if Text(s) == "" {
      LexEolSticky(s);
    }
  }

  /** The column arithmetic behind LexOnToken, for any result `t` of lex
      on `s` that has the properties lex is proved to have. */
  lemma OnTokenAfter(s: LexState, t: LexState, d: nat, line: string)
    requires Wf(s) && Tracks(s.(errorPos := s.errorPos + d), line)
    requires LexedFrom(s, t)
    ensures OnToken(t.(errorPos := t.errorPos + d), line)
  {
    var u := t.(errorPos := t.errorPos + d);
    var e := s.errorPos + d;
    var k := LeadingBlanks(Text(s));
    assert Text(u) == Text(t) && Wf(u) && u.errorPos == e + k;
    if e + Remaining(s) == |line| && line[e..] == Text(s) {
      if t.nextToken != Eol {
        assert line[e + k..] == Text(s)[k..];
        assert u.errorPos + |u.lexeme| + Remaining(u) == |line|;
      } else {
        assert e + k == |line|;
      }
    } else {
      assert k == 0;
    }
  }

  /** lex from a state that is `d` columns short of tracking the line lands
      on a token, again `d` columns short. The sign of numerical_literal is
      counted after the lex that follows it, hence `d`. */
  lemma LexOnToken(s: LexState, d: nat, line: string)
    requires Wf(s) && Tracks(s.(errorPos := s.errorPos + d), line)
    ensures var t := LexToken(s);
      t.errorPos >= s.errorPos && OnToken(t.(errorPos := t.errorPos + d), line)
  {
    LexLexedFrom(s);
    OnTokenAfter(s, LexToken(s), d, line);
  }

  lemma RecordedGrow(errors: seq<ErrorRecord>, pos: nat, pos': nat, line: string)
    requires Recorded(errors, pos, line) && pos <= pos'
    ensures Recorded(errors, pos', line)
  {
  }

  lemma AdvanceAt(p: ParseState, line: string)
    requires Between(p, line)
    ensures At(Advance(p), line)
  {
    LexOnToken(p.lex, 0, line);
    assert p.lex.(errorPos := p.lex.errorPos + 0) == p.lex;
    var t := LexToken(p.lex);
    assert t.(errorPos := t.errorPos + 0) == t;
    RecordedGrow(p.errors, p.lex.errorPos, t.errorPos, line);
  }

  /** Counting the columns of the current token steps past it. */
  lemma SkipBetween(p: ParseState, n: nat, line: string)
    requires At(p, line)
    requires p.lex.nextToken != Eol ==> n == |p.lex.lexeme|
    ensures Between(Skip(p, n), line)
  {
    var s := p.lex;
    if s.nextToken != Eol {
      assert line[s.errorPos + n..] == Text(s);
    }
  }

  /** addError records the current token where it stands and steps past it. */
  lemma ReportBetween(p: ParseState, reason: Reason, line: string)
    requires At(p, line)
    ensures Between(Report(p, reason), line)
  {
    var s := p.lex;
    var r := Report(p, reason);
    var e := r.errors[|p.errors|];
    if s.nextToken != Eol {
      assert line[s.errorPos..s.errorPos + |s.lexeme|] == s.lexeme;
      assert line[s.errorPos + |s.lexeme|..] == Text(s);
    }
    assert Points(e, line);
    assert forall i :: 0 <= i < |p.errors| ==> r.errors[i] == p.errors[i];
  }

  lemma IdentifierAt(p: ParseState, line: string)
    requires At(p, line)
    ensures At(CheckIdentifier(p), line)
  {
    if IdentOk(p.lex.lexeme) {
      SkipBetween(p, |p.lex.lexeme|, line);
    } else {
      ReportBetween(p, InvalidIdentifier, line);
    }
    AdvanceAt(IdentifierBody(p), line);
  }

  /** The sign of numerical_literal moves to the next token, counting the
      sign's column. */
  lemma SignOnToken(p: ParseState, line: string)
    requires OnToken(p.lex, line) && p.lex.nextToken in {AddOp, SubOp}
    ensures OnToken(Sign(p).lex, line) && Sign(p).lex.errorPos > p.lex.errorPos && Sign(p).errors == p.errors
  {
    var s := p.lex;
    assert Tracks(s.(errorPos := s.errorPos + 1), line) by {
      assert line[s.errorPos + 1..] == Text(s);
    }
    LexOnToken(s, 1, line);
  }

  lemma SignAt(p: ParseState, line: string)
    requires At(p, line)
    ensures At(Sign(p), line)
  {
    if p.lex.nextToken in {AddOp, SubOp} {
      SignOnToken(p, line);
      RecordedGrow(p.errors, p.lex.errorPos, Sign(p).lex.errorPos, line);
    }
  }

  lemma NumberAt(p: ParseState, line: string)
    requires At(p, line)
    ensures At(CheckNumber(p), line)
  {
    var q := Sign(p);
    SignAt(p, line);
    if NumOk(q.lex.lexeme) {
      SkipBetween(q, |q.lex.lexeme|, line);
    } else {
      ReportBetween(q, InvalidNumericLiteral, line);
    }
    AdvanceAt(NumberBody(q), line);
  }

  lemma TermAt(p: ParseState, line: string)
    requires At(p, line)
    ensures At(Term(p), line)
  {
    if p.lex.nextToken == Ident {
      IdentifierAt(p, line);
    } else if p.lex.nextToken in {NumLit, AddOp, SubOp} {
      NumberAt(p, line);
    } else {
      ReportBetween(p, MissingTerm, line);
      AdvanceAt(Report(p, MissingTerm), line);
    }
  }

  lemma OperatorBetween(p: ParseState, line: string)
    requires At(p, line)
    ensures Between(CheckOperator(p).after, line)
  {
    OperatorTableSpec();
    if IsArithOp(p.lex.nextToken) || p.lex.nextToken == Eol {
      SkipBetween(p, 1, line);
    } else {
      ReportBetween(p, MissingOperator, line);
    }
  }

  /** One round of assignment_statement's loop keeps every error pointing
      at its token, and the loop ends only with the line used up. */
  lemma RoundBetween(p: ParseState, line: string)
    requires Between(p, line)
    ensures Between(Round(p).after, line)
    ensures !Round(p).more ==> Finished(Round(p).after.lex)
  {
    AdvanceAt(p, line);
    TermAt(Advance(p), line);
    OperatorBetween(Term(Advance(p)), line);
  }

  lemma {:induction false} RoundsBetween(p: ParseState, line: string)
    requires Between(p, line)
    ensures Between(Rounds(p), line) && Finished(Rounds(p).lex)
    decreases Remaining(p.lex)
  {
    RoundBetween(p, line);
    if Round(p).more {
      RoundShrinks(p);
      RoundsBetween(Round(p).after, line);
    }
  }

  lemma HeadBetween(p: ParseState, line: string)
    requires At(p, line)
    ensures Between(Head(p), line)
  {
    var a := CheckIdentifier(p);
    IdentifierAt(p, line);
    if a.lex.nextToken != AssignOp {
      ReportBetween(a, MissingAssignOperator, line);
    } else {
      SkipBetween(a, 1, line);
    }
  }

  /** Analyzing a line reads it to the end; the errors come in strictly
      increasing position, and each names the text of the line at its
      position, or the EOL sentinel at or past the end of the line. */
  lemma AnalyzeSound(line: string)
    ensures var r := Analyze(line);
      && r.lex.nextToken == Eol && Text(r.lex) == ""
      && (forall i, j :: 0 <= i < j < |r.errors| ==> r.errors[i].position < r.errors[j].position)
      && (forall i :: 0 <= i < |r.errors| ==> Points(r.errors[i], line))
  {
    var p := ParseState(Start(line), []);
    assert line[0..] == line;
    AdvanceAt(p, line);
    HeadBetween(Advance(p), line);
    RoundsBetween(Head(Advance(p)), line);
  }
}
