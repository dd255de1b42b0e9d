/** Which lines assignment_statement accepts. The grammar of parser.py is
    stated on the audit log of the lexer (the tokens of the line other than
    the end of line, in order), and the analysis of a line is proved to
    record no error exactly when its log is a statement of that grammar. */
module Grammar {
  import opened Tokens
  import opened Lexer
  import opened LexerFacts
  import opened Syntax
  import opened SyntaxFacts

  // The grammar on token logs.

  /** <term> {<operator> <term>}, where a term is an identifier, or a
      numerical literal with an optional sign whose lexeme passes the test
      of numerical_literal. */
  predicate Expression(r: seq<LogEntry>)
    decreases |r|
  {
    if r == [] then false
    else if r[0].kind == Ident then Continuation(r[1..])
    else if r[0].kind == NumLit then NumOk(r[0].lexeme) && Continuation(r[1..])
    else if r[0].kind in {AddOp, SubOp} then
      |r| >= 2 && r[1].kind == NumLit && NumOk(r[1].lexeme) && Continuation(r[2..])
    else false
  }

  /** {<operator> <term>}. */
  predicate Continuation(r: seq<LogEntry>)
    decreases |r|
  {
    r == [] || (IsArithOp(r[0].kind) && Expression(r[1..]))
  }

  /** <identifier> = <term> {<operator> <term>}. */
  predicate Statement(log: seq<LogEntry>) {
    |log| >= 2 && log[0].kind == Ident && log[1].kind == AssignOp && Expression(log[2..])
  }

  // Bookkeeping on parse states.

  /** The log entry that lex makes for the token of `s`: none at the end
      of the line. */
  function Entry(s: LexState): seq<LogEntry> {
    if s.nextToken == Eol then [] else [LogEntry(s.nextToken, s.lexeme)]
  }

  /** `q` comes later than `p`: both the errors and the log only grew. */
  predicate Extends(p: ParseState, q: ParseState) {
    && |p.errors| <= |q.errors| && q.errors[..|p.errors|] == p.errors
    && |p.lex.output| <= |q.lex.output| && q.lex.output[..|p.lex.output|] == p.lex.output
  }

  /** The entries logged between `p` and `q`. */
  function LogSince(p: ParseState, q: ParseState): seq<LogEntry>
    requires |p.lex.output| <= |q.lex.output|
  {
    q.lex.output[|p.lex.output|..]
  }

  /** A state just after lex: the lexeme has its token's shape, and an
      end-of-line token means the line is used up. */
  predicate OnLexed(s: LexState) {
    Wf(s) && TokenShape(s.nextToken, s.lexeme) && (s.nextToken == Eol ==> Text(s) == "")
  }

  /** `q` logged only the entry of its own token since `p`. */
  predicate Logs(p: ParseState, q: ParseState) {
    q.lex.output == p.lex.output + Entry(q.lex)
  }

  /** `q` recorded errors after those of `p`. */
  predicate Grew(p: ParseState, q: ParseState) {
    |p.errors| < |q.errors| && q.errors[..|p.errors|] == p.errors
  }

  /** What one branch of assignment_statement's loop, from `a` to `x`,
      decides: it records no error and the log goes on with
      {<operator> <term>} exactly when what it logged, followed by `r`, is
      an expression. */
  predicate TermChecked(a: ParseState, x: ParseState, r: seq<LogEntry>) {
    && Extends(a, x)
    && ((x.errors == a.errors && Continuation(Entry(x.lex) + r)) <==> Expression(Entry(a.lex) + LogSince(a, x) + r))
  }

  lemma ExtendsTrans(p: ParseState, q: ParseState, r: ParseState)
    requires Extends(p, q) && Extends(q, r)
    ensures Extends(p, r)
    ensures LogSince(p, r) == LogSince(p, q) + LogSince(q, r)
    ensures r.errors == p.errors <==> q.errors == p.errors && r.errors == q.errors
  {
    assert r.errors[..|p.errors|] == r.errors[..|q.errors|][..|p.errors|];
    assert r.lex.output[..|p.lex.output|] == r.lex.output[..|q.lex.output|][..|p.lex.output|];
    assert r.lex.output == q.lex.output + LogSince(q, r);
  }

  // The tests of identifier and numerical_literal on lexed tokens.

  /** identifier's test passes on a lexed token exactly when it is an
      identifier or the end-of-line sentinel. */
  lemma IdentOkOnShape(k: Token, w: string)
    requires TokenShape(k, w)
    ensures IdentOk(w) <==> k in {Ident, Eol}
  {
    IdentOkIff(w);
    if k == Eol {
      assert IsIdentLexeme(w) by { assert w == "EOL"; }
    } else if k != Ident {
      assert !IsAlpha(w[0]);
    }
  }

  /** numerical_literal's test passes on a lexed token only if it is a
      numeric literal. */
  lemma NumOkOnShape(k: Token, w: string)
    requires TokenShape(k, w)
    ensures NumOk(w) ==> k == NumLit
  {
    NumOkIff(w);
    if k != NumLit {
      assert BadNumChar(w, 0);
    }
  }

  // What each step of the analysis logs and records.

  /** lex puts the new token in the log (unless it ends the line) and
      leaves a state just after lex; at the end of the line it stays
      there. */
  lemma AdvanceLog(p: ParseState)
    requires Wf(p.lex)
    ensures var a := Advance(p);
      && OnLexed(a.lex) && a.errors == p.errors && Logs(p, a)
      && (Finished(p.lex) ==> Finished(a.lex))
  {
    LexLexemeShape(p.lex);
    LexEol(p.lex);
    LexLogEntry(p.lex);
    if Text(p.lex) == "" {
      LexEolSticky(p.lex);
    }
  }

  /** identifier records an error exactly when its test fails. */
  lemma IdentifierLog(p: ParseState)
    requires OnLexed(p.lex)
    ensures var a := CheckIdentifier(p);
      && OnLexed(a.lex) && Logs(p, a) && (Finished(p.lex) ==> Finished(a.lex))
      && (if IdentOk(p.lex.lexeme) then a.errors == p.errors else Grew(p, a))
  {
    AdvanceLog(IdentifierBody(p));
  }

  /** The sign of numerical_literal is logged and records nothing. */
  lemma SignLog(p: ParseState)
    requires OnLexed(p.lex) && p.lex.nextToken in {AddOp, SubOp}
    ensures var q := Sign(p);
      OnLexed(q.lex) && Logs(p, q) && q.errors == p.errors
  {
    AdvanceLog(p);
  }

  /** numerical_literal after its sign records an error exactly when its
      test fails. */
  lemma NumberBodyLog(q: ParseState)
    requires OnLexed(q.lex)
    ensures var x := Advance(NumberBody(q));
      && OnLexed(x.lex) && Logs(q, x) && (Finished(q.lex) ==> Finished(x.lex))
      && (if NumOk(q.lex.lexeme) then x.errors == q.errors else Grew(q, x))
  {
    AdvanceLog(NumberBody(q));
  }

  /** The branch of the loop for a missing term always records an error. */
  lemma MissingTermLog(a: ParseState)
    requires OnLexed(a.lex) && a.lex.nextToken !in {Ident, NumLit, AddOp, SubOp}
    ensures var x := Term(a);
      && OnLexed(x.lex) && Logs(a, x) && Grew(a, x) && (Finished(a.lex) ==> Finished(x.lex))
  {
    AdvanceLog(Report(a, MissingTerm));
  }

  // The branches of assignment_statement's loop against the grammar.

  lemma IdentTermAlgebra(a: ParseState, x: ParseState, r: seq<LogEntry>)
    requires a.lex.nextToken == Ident && x.errors == a.errors && Logs(a, x)
    ensures TermChecked(a, x, r)
  {
    var e := Entry(a.lex) + LogSince(a, x) + r;
    assert e == [LogEntry(Ident, a.lex.lexeme)] + (Entry(x.lex) + r);
    assert e[1..] == Entry(x.lex) + r;
  }

  lemma NumberTermAlgebra(a: ParseState, x: ParseState, r: seq<LogEntry>)
    requires a.lex.nextToken == NumLit && Logs(a, x)
    requires if NumOk(a.lex.lexeme) then x.errors == a.errors else Grew(a, x)
    ensures TermChecked(a, x, r)
  {
    var e := Entry(a.lex) + LogSince(a, x) + r;
    assert e == [LogEntry(NumLit, a.lex.lexeme)] + (Entry(x.lex) + r);
    assert e[1..] == Entry(x.lex) + r;
  }

  /** A log that starts with a sign is an expression exactly when the sign
      is followed by a numeric literal that passes the test and the rest
      goes on with {<operator> <term>}. */
  lemma SignedSplit(s: LexState, t: LexState, r: seq<LogEntry>)
    requires s.nextToken in {AddOp, SubOp}
    requires t.nextToken == Eol ==> r == []
    ensures Expression(Entry(s) + Entry(t) + r) <==> t.nextToken == NumLit && NumOk(t.lexeme) && Continuation(r)
  {
    var e := Entry(s) + Entry(t) + r;
    if t.nextToken == Eol {
      assert e == [LogEntry(s.nextToken, s.lexeme)];
    } else {
      assert e == [LogEntry(s.nextToken, s.lexeme), LogEntry(t.nextToken, t.lexeme)] + r;
      assert e[2..] == r;
    }
  }

  lemma SignedTermAlgebra(a: ParseState, q: ParseState, x: ParseState, r: seq<LogEntry>)
    requires a.lex.nextToken in {AddOp, SubOp} && Logs(a, q) && q.errors == a.errors && OnLexed(q.lex)
    requires Logs(q, x) && (Finished(q.lex) ==> Finished(x.lex))
    requires if NumOk(q.lex.lexeme) then x.errors == q.errors else Grew(q, x)
    requires x.lex.nextToken == Eol ==> r == []
    ensures TermChecked(a, x, r)
  {
    NumOkOnShape(q.lex.nextToken, q.lex.lexeme);
    assert LogSince(a, x) == Entry(q.lex) + Entry(x.lex);
    assert Entry(a.lex) + LogSince(a, x) + r == Entry(a.lex) + Entry(q.lex) + (Entry(x.lex) + r);
    SignedSplit(a.lex, q.lex, Entry(x.lex) + r);
  }

  lemma MissingTermAlgebra(a: ParseState, x: ParseState, r: seq<LogEntry>)
    requires OnLexed(a.lex) && a.lex.nextToken !in {Ident, NumLit, AddOp, SubOp}
    requires Logs(a, x) && Grew(a, x) && (Finished(a.lex) ==> Finished(x.lex))
    requires x.lex.nextToken == Eol ==> r == []
    ensures TermChecked(a, x, r)
  {
    var e := Entry(a.lex) + LogSince(a, x) + r;
    if a.lex.nextToken == Eol {
      assert e == [];
    } else {
      assert e[0] == LogEntry(a.lex.nextToken, a.lex.lexeme);
    }
  }

  /** The branch of assignment_statement's loop records no error and leaves
      the log going on with {<operator> <term>} exactly when what it logs,
      with the rest of the log, is an expression. */
  lemma TermDecides(a: ParseState, r: seq<LogEntry>)
    requires OnLexed(a.lex)
    requires Term(a).lex.nextToken == Eol ==> r == []
    ensures OnLexed(Term(a).lex) && TermChecked(a, Term(a), r)
  {
    var k := a.lex.nextToken;
    if k == Ident {
      ShapedTermsChecked(Ident, a.lex.lexeme);
      IdentifierLog(a);
      IdentTermAlgebra(a, Term(a), r);
    } else if k == NumLit {
      assert Sign(a) == a;
      NumberBodyLog(a);
      NumberTermAlgebra(a, Term(a), r);
    } else if k in {AddOp, SubOp} {
      SignLog(a);
      NumberBodyLog(Sign(a));
      SignedTermAlgebra(a, Sign(a), Term(a), r);
    } else {
      MissingTermLog(a);
      MissingTermAlgebra(a, Term(a), r);
    }
  }

  lemma RoundAlgebra(p: ParseState, a: ParseState, x: ParseState, c: Checked, r: seq<LogEntry>)
    requires a.errors == p.errors && Logs(p, a)
    requires OnLexed(x.lex) && TermChecked(a, x, r)
    requires c.found <==> x.lex.nextToken in {AddOp, SubOp, MultOp, DivOp, ModOp}
    requires c.after.lex == x.lex.(errorPos := c.after.lex.errorPos)
    requires if c.found || x.lex.nextToken == Eol then c.after.errors == x.errors else Grew(x, c.after)
    requires !(c.found || c.after.lex.nextToken != Eol) ==> r == []
    ensures var y := c.after;
      && Extends(p, y) && OnLexed(y.lex)
      && ((y.errors == p.errors && ((c.found || y.lex.nextToken != Eol) ==> Expression(r))) <==> Expression(LogSince(p, y) + r))
  {
    OperatorTableSpec();
    var y := c.after;
    assert y.errors[..|p.errors|] == y.errors[..|x.errors|][..|p.errors|];
    assert y.lex.output[..|p.lex.output|] == x.lex.output[..|a.lex.output|][..|p.lex.output|];
    assert LogSince(p, y) == Entry(a.lex) + LogSince(a, x);
    if x.lex.nextToken != Eol {
      var u := Entry(x.lex) + r;
      assert u[0] == LogEntry(x.lex.nextToken, x.lex.lexeme) && u[1..] == r;
    }
  }

  /** One round of assignment_statement's loop records no error (and, if
      the loop goes on, the rest of the log is an expression) exactly when
      the entries it logs, followed by the rest, form an expression. The
      loop goes on exactly when the round stops before the end of the
      line. */
  lemma RoundDecides(p: ParseState, r: seq<LogEntry>)
    requires Wf(p.lex)
    requires !Round(p).more ==> r == []
    ensures var c := Round(p);
      && Extends(p, c.after) && OnLexed(c.after.lex)
      && (c.more <==> c.after.lex.nextToken != Eol)
      && ((c.after.errors == p.errors && (c.more ==> Expression(r))) <==> Expression(LogSince(p, c.after) + r))
  {
    AdvanceLog(p);
    var a := Advance(p);
    var x := Term(a);
    var c := CheckOperator(x);
    assert Round(p) == Step(c.found || c.after.lex.nextToken != Eol, c.after);
    OperatorOutcome(x);
    OperatorTableSpec();
    TermDecides(a, r);
    RoundAlgebra(p, a, x, c, r);
  }

  /** assignment_statement's loop records no error exactly when everything
      it logs is an expression. */
  lemma {:induction false} RoundsDecide(p: ParseState)
    requires Wf(p.lex)
    ensures Extends(p, Rounds(p))
    ensures Rounds(p).errors == p.errors <==> Expression(LogSince(p, Rounds(p)))
    decreases Remaining(p.lex)
  {
    var c := Round(p);
    if !c.more {
      RoundDecides(p, []);
      assert Rounds(p) == c.after;
      assert LogSince(p, c.after) + [] == LogSince(p, c.after);
    } else {
      RoundShrinks(p);
      var q := c.after;
      var f := Rounds(q);
      RoundsDecide(q);
      assert Rounds(p) == f;
      RoundDecides(p, LogSince(q, f));
      ExtendsTrans(p, q, f);
    }
  }

  /** From the end of the line the loop runs one round and logs nothing. */
  lemma RoundsAtEnd(p: ParseState)
    requires Wf(p.lex) && Finished(p.lex)
    ensures Rounds(p).lex.output == p.lex.output
  {
    AdvanceLog(p);
    var a := Advance(p);
    MissingTermLog(a);
    var c := CheckOperator(Term(a));
    OperatorOutcome(Term(a));
    assert Round(p) == Step(false, c.after);
  }

  /** A log that starts with the entries of two tokens is a statement
      exactly when they are an identifier and `=` and the rest is an
      expression. */
  lemma StatementSplit(s: LexState, t: LexState, r: seq<LogEntry>)
    requires s.nextToken == Eol ==> t.nextToken == Eol
    requires t.nextToken == Eol ==> r == []
    ensures Statement(Entry(s) + Entry(t) + r) <==> s.nextToken == Ident && t.nextToken == AssignOp && Expression(r)
  {
    var e := Entry(s) + Entry(t) + r;
    if s.nextToken == Eol {
      assert e == [];
    } else if t.nextToken == Eol {
      assert e == [LogEntry(s.nextToken, s.lexeme)];
    } else {
      assert e == [LogEntry(s.nextToken, s.lexeme), LogEntry(t.nextToken, t.lexeme)] + r;
      assert e[2..] == r;
    }
  }

  lemma HeadAlgebra(p: ParseState, a: ParseState, h: ParseState, r: seq<LogEntry>)
    requires OnLexed(p.lex) && Logs(p, a) && (Finished(p.lex) ==> Finished(a.lex))
    requires if IdentOk(p.lex.lexeme) then a.errors == p.errors else Grew(p, a)
    requires h.lex.output == a.lex.output
    requires if a.lex.nextToken == AssignOp then h.errors == a.errors else Grew(a, h)
    requires a.lex.nextToken == Eol ==> r == []
    ensures Extends(p, h)
    ensures (h.errors == p.errors && Expression(r)) <==> Statement(Entry(p.lex) + LogSince(p, h) + r)
  {
    IdentOkOnShape(p.lex.nextToken, p.lex.lexeme);
    assert h.errors[..|p.errors|] == h.errors[..|a.errors|][..|p.errors|];
    assert LogSince(p, h) == Entry(a.lex);
    StatementSplit(p.lex, a.lex, r);
  }

  /** The start of assignment_statement records no error (and the rest of
      the log is an expression) exactly when the log starts with an
      identifier and `=` and goes on with an expression. */
  lemma HeadDecides(p: ParseState, r: seq<LogEntry>)
    requires OnLexed(p.lex)
    requires Finished(Head(p).lex) ==> r == []
    ensures Extends(p, Head(p))
    ensures (Head(p).errors == p.errors && Expression(r)) <==> Statement(Entry(p.lex) + LogSince(p, Head(p)) + r)
  {
    IdentifierLog(p);
    HeadAlgebra(p, CheckIdentifier(p), Head(p), r);
  }

  lemma AnalyzeAlgebra(p: ParseState, h: ParseState, f: ParseState)
    requires p.errors == [] && p.lex.output == Entry(p.lex)
    requires Extends(p, h) && Extends(h, f)
    requires f.errors == h.errors <==> Expression(LogSince(h, f))
    requires (h.errors == p.errors && Expression(LogSince(h, f))) <==> Statement(Entry(p.lex) + LogSince(p, h) + LogSince(h, f))
    ensures f.errors == [] <==> Statement(f.lex.output)
  {
    ExtendsTrans(p, h, f);
    calc {
      f.lex.output;
      p.lex.output + LogSince(p, f);
      Entry(p.lex) + (LogSince(p, h) + LogSince(h, f));
      Entry(p.lex) + LogSince(p, h) + LogSince(h, f);
    }
  }

  /** parser.py reports a line as syntactically correct (no error found)
      exactly when the tokens of the line form an assignment statement:
      an identifier, `=`, and terms separated by operators, each term an
      identifier or an optionally signed numeric literal whose lexeme
      passes the test of numerical_literal. */
  lemma AnalyzeDecides(line: string)
    ensures Analyze(line).errors == [] <==> Statement(Analyze(line).lex.output)
  {
    var p := ParseState(Start(line), []);
    AdvanceLog(p);
    var p0 := Advance(p);
    var h := Head(p0);
    var f := Rounds(h);
    assert Analyze(line) == f;
    RoundsDecide(h);
    if Finished(h.lex) {
      RoundsAtEnd(h);
    }
    HeadDecides(p0, LogSince(h, f));
    AnalyzeAlgebra(p0, h, f);
  }

  // The log spells the line.

  /** Checking a term keeps what the log and the unread text spell. */
  lemma TermSpells(a: ParseState)
    requires Wf(a.lex)
    ensures Spelled(Term(a).lex) == Spelled(a.lex)
  {
    var k := a.lex.nextToken;
    if k == Ident {
      LexLogSpells(IdentifierBody(a).lex);
    } else if k in {NumLit, AddOp, SubOp} {
      if k != NumLit {
        LexLogSpells(a.lex);
      }
      LexLogSpells(NumberBody(Sign(a)).lex);
    } else {
      LexLogSpells(Report(a, MissingTerm).lex);
    }
  }

  lemma RoundSpells(p: ParseState)
    requires Wf(p.lex)
    ensures Spelled(Round(p).after.lex) == Spelled(p.lex)
  {
    LexLogSpells(p.lex);
    TermSpells(Advance(p));
    OperatorOutcome(Term(Advance(p)));
  }

  lemma {:induction false} RoundsSpell(p: ParseState)
    requires Wf(p.lex)
    ensures Spelled(Rounds(p).lex) == Spelled(p.lex)
    decreases Remaining(p.lex)
  {
    RoundSpells(p);
    if Round(p).more {
      RoundShrinks(p);
      RoundsSpell(Round(p).after);
    }
  }

  lemma HeadSpells(p: ParseState)
    requires Wf(p.lex)
    ensures Spelled(Head(p).lex) == Spelled(p.lex)
  {
    LexLogSpells(IdentifierBody(p).lex);
  }

  /** The audit log of an analyzed line spells the line without its
      blanks: lexemes neither lose, invent nor reorder a character, and
      every character but a blank ends up in some lexeme. */
  lemma AnalyzeSpellsLine(line: string)
    ensures Flat(Analyze(line).lex.output) == NoSpaces(line)
  {
    var p := ParseState(Start(line), []);
    SpelledStart(line);
    LexLogSpells(p.lex);
    var p0 := Advance(p);
    HeadSpells(p0);
    RoundsSpell(Head(p0));
    assert Analyze(line) == Rounds(Head(p0));
    AnalyzeSound(line);
    SpelledFinished(Analyze(line).lex);
  }
}
