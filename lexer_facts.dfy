/** Properties of the lexical analyzer of parser.py, stated about the
    functions of module Lexer, which the methods of LexicalAnalyzer are
    proved to follow step for step. */
module LexerFacts {
  import opened Tokens
  import opened Lexer

  lemma {:induction false} NoSpacesAppend(a: string, b: string)
    ensures NoSpaces(a + b) == NoSpaces(a) + NoSpaces(b)
  {
    if a == "" {
      assert a + b == b;
    } else {
      assert (a + b)[0] == a[0] && (a + b)[1..] == a[1..] + b;
      NoSpacesAppend(a[1..], b);
    }
  }

  lemma {:induction false} NoSpacesOfSpaces(n: nat)
    ensures NoSpaces(Spaces(n)) == ""
  {
    if n > 0 {
      assert Spaces(n)[0] == ' ' && Spaces(n)[1..] == Spaces(n - 1);
      NoSpacesOfSpaces(n - 1);
    }
  }

  /** A string without spaces is left as it is. */
  lemma {:induction false} NoSpacesKeeps(w: string)
    requires forall i :: 0 <= i < |w| ==> w[i] != ' '
    ensures NoSpaces(w) == w
  {
    if w != "" {
      NoSpacesKeeps(w[1..]);
      assert [w[0]] + w[1..] == w;
    }
  }

  lemma FlatSnoc(log: seq<LogEntry>, e: LogEntry)
    ensures Flat(log + [e]) == Flat(log) + e.lexeme
  {
    assert (log + [e])[..|log|] == log;
  }

  /** getNonBlank changes only the cursor and errorPos. */
  lemma {:induction false} SkipBlanksFrame(s: LexState)
    requires Wf(s)
    ensures var t := SkipBlanks(s);
      t.lexeme == s.lexeme && t.output == s.output && t.nextToken == s.nextToken
    decreases Remaining(s)
  {
    if PendingBlank(s) {
      SkipBlanksFrame(ReadChar(s.(errorPos := s.errorPos + 1)));
    }
  }

  /** The unread text opens with a run of spaces exactly as long as the
      pending blank and the run that follows it in the line. */
  lemma BlankHead(s: LexState)
    requires Wf(s)
    ensures PendingBlank(s) ==>
      && LeadingBlanks(Text(s)) == 1 + LeadingBlanks(s.line)
      && Text(s)[LeadingBlanks(Text(s))..] == s.line[LeadingBlanks(s.line)..]
    ensures !PendingBlank(s) ==> LeadingBlanks(Text(s)) == 0
  {
    var w := Text(s);
    if PendingBlank(s) {
      assert w[0] == ' ' && w[1..] == s.line;
      var k := LeadingBlanks(s.line);
      assert w[1 + k..] == s.line[k..];
    } else if s.nextChar != "" {
      assert w[0] == s.nextChar[0];
    }
  }

  /** getNonBlank adds to errorPos the number of spaces that open the
      unread text. */
  lemma {:induction false} SkipBlanksCount(s: LexState)
    requires Wf(s)
    ensures SkipBlanks(s).errorPos == s.errorPos + LeadingBlanks(Text(s))
    decreases Remaining(s)
  {
    BlankHead(s);
    if PendingBlank(s) {
      var u := ReadChar(s.(errorPos := s.errorPos + 1));
      ReadCharSpec(s.(errorPos := s.errorPos + 1));
      SkipBlanksCount(u);
    }
  }

  /** The run of spaces that opens `w` is made of spaces only. */
  lemma {:induction false} LeadingBlanksAreSpaces(w: string)
    ensures forall i :: 0 <= i < LeadingBlanks(w) ==> w[i] == ' '
  {
    if w != "" && w[0] == ' ' {
      LeadingBlanksAreSpaces(w[1..]);
    }
  }

  /** What getNonBlank skips is exactly that run of spaces. */
  lemma {:induction false} SkipBlanksText(s: LexState)
    requires Wf(s)
    ensures Text(SkipBlanks(s)) == Text(s)[LeadingBlanks(Text(s))..]
    decreases Remaining(s)
  {
    BlankHead(s);
    if PendingBlank(s) {
      var s' := s.(errorPos := s.errorPos + 1);
      assert SkipBlanks(s) == SkipBlanks(ReadChar(s'));
      ReadCharSpec(s');
      SkipBlanksText(ReadChar(s'));
    } else {
      assert SkipBlanks(s) == s;
    }
  }

  /** The scanning loops change only the cursor and the lexeme. */
  lemma {:induction false} ScanWhileFrame(s: LexState, ks: set<Token>)
    requires Wf(s) && Eol !in ks
    ensures var t := ScanWhile(s, ks);
      t.errorPos == s.errorPos && t.output == s.output && t.nextToken == s.nextToken
    decreases Remaining(s)
  {
    if s.charClass in ks {
      ScanWhileFrame(ReadChar(AddChar(s)), ks);
    }
  }

  lemma Assoc(a: string, b: string, c: string)
    ensures (a + b) + c == a + (b + c)
  {
  }

  /** addChar followed by getChar moves the pending character onto the
      lexeme. */
  lemma AddCharText(s: LexState)
    requires Wf(s)
    ensures var u := ReadChar(AddChar(s));
      u.lexeme + Text(u) == s.lexeme + Text(s)
  {
    Assoc(s.lexeme, s.nextChar, s.line);
  }

  /** The scanning loops move characters from the unread text onto the
      lexeme, in order, losing none. */
  lemma {:induction false} ScanWhileText(s: LexState, ks: set<Token>)
    requires Wf(s) && Eol !in ks
    ensures var t := ScanWhile(s, ks);
      t.lexeme + Text(t) == s.lexeme + Text(s)
    decreases Remaining(s)
  {
    if s.charClass in ks {
      AddCharText(s);
      ScanWhileText(ReadChar(AddChar(s)), ks);
    }
  }

  /** Every character the scanning loops move has a class in `ks`. */
  lemma {:induction false} ScanWhileClasses(s: LexState, ks: set<Token>)
    requires Wf(s) && Eol !in ks
    ensures var t := ScanWhile(s, ks);
      && |s.lexeme| <= |t.lexeme| && t.lexeme[..|s.lexeme|] == s.lexeme
      && forall i :: |s.lexeme| <= i < |t.lexeme| ==> ClassOfChar(t.lexeme[i]) in ks
    decreases Remaining(s)
  {
    if s.charClass in ks {
      var u := ReadChar(AddChar(s));
      ScanWhileClasses(u, ks);
      var t := ScanWhile(u, ks);
      assert t.lexeme[..|u.lexeme|][..|s.lexeme|] == t.lexeme[..|s.lexeme|];
      assert t.lexeme[|s.lexeme|] == u.lexeme[|s.lexeme|] == s.nextChar[0];
    }
  }

  /** The LETTER branch produces an identifier-shaped lexeme. */
  lemma ScanIdentShape(b: LexState)
    requires Wf(b) && b.charClass == Letter && b.lexeme == ""
    ensures IsIdentLexeme(ScanIdent(b).lexeme)
  {
    var u := ReadChar(AddChar(b));
    ScanWhileClasses(u, {Letter, Digit});
    var t := ScanWhile(u, {Letter, Digit});
    assert t.lexeme[..1] == b.nextChar;
    forall i | 1 <= i < |t.lexeme| ensures IsAlnum(t.lexeme[i]) {
      assert ClassOfChar(t.lexeme[i]) in {Letter, Digit};
    }
  }

  /** The digits that open the DIGIT branch's lexeme. */
  lemma ScanDigits(b: LexState)
    requires Wf(b) && b.charClass == Digit && b.lexeme == ""
    ensures var w := ScanWhile(ReadChar(AddChar(b)), {Digit});
      |w.lexeme| >= 1 && forall i :: 0 <= i < |w.lexeme| ==> IsDigit(w.lexeme[i])
  {
    var u := ReadChar(AddChar(b));
    ScanWhileClasses(u, {Digit});
    var w := ScanWhile(u, {Digit});
    assert w.lexeme[..1] == b.nextChar;
    forall i | 1 <= i < |w.lexeme| ensures IsDigit(w.lexeme[i]) {
      assert ClassOfChar(w.lexeme[i]) in {Digit};
    }
  }

  /** Digits with one `.` after the first character make a numeric
      literal. */
  lemma DotDigitsShape(x: string, n: nat)
    requires 1 <= n < |x| && x[n] == '.'
    requires forall i :: 0 <= i < |x| && i != n ==> IsDigit(x[i])
    ensures IsNumLexeme(x)
  {
    forall i, j | 0 <= i < j < |x| && x[i] == '.' ensures x[j] != '.' {
      assert i == n;
    }
  }

  /** A lexeme of digits, then `.`, then what the fraction loop adds. */
  lemma FractionShape(w: LexState)
    requires Wf(w) && w.charClass == Decimal && |w.lexeme| >= 1
    requires forall i :: 0 <= i < |w.lexeme| ==> IsDigit(w.lexeme[i])
    ensures IsNumLexeme(ScanWhile(ReadChar(AddChar(w)), {Digit}).lexeme)
  {
    CharClassSpec(w.nextChar);
    ClassOfCharSpec(w.nextChar[0]);
    assert w.nextChar == ".";
    var v := ReadChar(AddChar(w));
    assert v.lexeme == w.lexeme + ".";
    ScanWhileClasses(v, {Digit});
    var x := ScanWhile(v, {Digit}).lexeme;
    var n := |w.lexeme|;
    assert x[..n + 1] == w.lexeme + ".";
    assert x[n] == x[..n + 1][n] == '.';
    forall i | 0 <= i < |x| && i != n ensures IsDigit(x[i]) {
      if i < n {
        assert x[i] == x[..n + 1][i];
      } else {
        assert ClassOfChar(x[i]) in {Digit};
      }
    }
    DotDigitsShape(x, n);
  }

  /** The DIGIT branch produces digits, then at most one `.` followed by
      digits. */
  lemma ScanNumberShape(b: LexState)
    requires Wf(b) && b.charClass == Digit && b.lexeme == ""
    ensures IsNumLexeme(ScanNumber(b).lexeme)
  {
    ScanDigits(b);
    var w := ScanWhile(ReadChar(AddChar(b)), {Digit});
    if w.charClass == Decimal {
      FractionShape(w);
    }
  }

  /** The DIGIT branch moves a prefix of the unread text onto the lexeme
      and changes nothing else but the token kind. */
  lemma ScanNumberText(b: LexState)
    requires Wf(b) && b.charClass == Digit
    ensures var t := ScanNumber(b);
      t.lexeme + Text(t) == b.lexeme + Text(b) && t.errorPos == b.errorPos && t.output == b.output
  {
    var u := ReadChar(AddChar(b));
    AddCharText(b);
    ScanWhileText(u, {Digit});
    ScanWhileFrame(u, {Digit});
    var w := ScanWhile(u, {Digit});
    if w.charClass == Decimal {
      AddCharText(w);
      ScanWhileText(ReadChar(AddChar(w)), {Digit});
      ScanWhileFrame(ReadChar(AddChar(w)), {Digit});
    }
  }

  /** The LETTER branch moves a prefix of the unread text onto the lexeme
      and changes nothing else but the token kind. */
  lemma ScanIdentText(b: LexState)
    requires Wf(b) && b.charClass == Letter
    ensures var t := ScanIdent(b);
      t.lexeme + Text(t) == b.lexeme + Text(b) && t.errorPos == b.errorPos && t.output == b.output
  {
    var u := ReadChar(AddChar(b));
    AddCharText(b);
    ScanWhileText(u, {Letter, Digit});
    ScanWhileFrame(u, {Letter, Digit});
  }

  /** Skipping blanks does not change the unread text once its spaces are
      removed. */
  lemma SkipBlanksNoSpaces(s: LexState)
    requires Wf(s)
    ensures NoSpaces(Text(SkipBlanks(s))) == NoSpaces(Text(s))
  {
    var w := Text(s);
    var k := LeadingBlanks(w);
    SkipBlanksText(s);
    LeadingBlanksAreSpaces(w);
    NoSpacesOfBlanks(w[..k]);
    assert w == w[..k] + w[k..];
    NoSpacesAppend(w[..k], w[k..]);
  }

  lemma {:induction false} NoSpacesOfBlanks(w: string)
    requires forall i :: 0 <= i < |w| ==> w[i] == ' '
    ensures NoSpaces(w) == ""
  {
    if w != "" {
      NoSpacesOfBlanks(w[1..]);
    }
  }

  /** The match of lex, entered with an empty lexeme and a non-blank pending
      character, leaves a lexeme of the shape of its token. */
  lemma DispatchShape(b: LexState)
    requires Wf(b) && b.lexeme == "" && !PendingBlank(b)
    ensures TokenShape(Dispatch(b).nextToken, Dispatch(b).lexeme)
  {
    if b.charClass == Letter {
      ScanIdentShape(b);
    } else if b.charClass == Digit {
      ScanNumberShape(b);
    } else if b.charClass != Eol {
      var c := b.nextChar[0];
      assert ClassOfChar(c) in {Decimal, Unknown};
      assert TokenShape(LookupKind(c), [c]);
    }
  }

  /** The match of lex changes neither errorPos nor the log. */
  lemma DispatchFrame(b: LexState)
    requires Wf(b)
    ensures Dispatch(b).errorPos == b.errorPos && Dispatch(b).output == b.output
  {
    if b.charClass == Letter {
      ScanIdentText(b);
    } else if b.charClass == Digit {
      ScanNumberText(b);
    }
  }

  /** The match of lex yields EOL exactly at the end of the text; any other
      token moves a prefix of the unread text onto the lexeme. */
  lemma DispatchText(b: LexState)
    requires Wf(b)
    ensures var t := Dispatch(b);
      && (t.nextToken == Eol <==> Text(b) == "")
      && (t.nextToken == Eol ==> Text(t) == "")
      && (t.nextToken != Eol ==> t.lexeme + Text(t) == b.lexeme + Text(b))
  {
    if b.charClass == Letter {
      ScanIdentText(b);
    } else if b.charClass == Digit {
      ScanNumberText(b);
    } else if b.charClass != Eol {
      AddCharText(b);
    }
  }

  /** After every lex the lexeme is non-empty and has the shape of the token
      produced: an identifier, a numeric literal with at most one `.`, one
      operator or unknown character mapped by the operator table, or the
      sentinel "EOL". */
  lemma LexLexemeShape(s: LexState)
    requires Wf(s)
    ensures TokenShape(LexToken(s).nextToken, LexToken(s).lexeme) && LexToken(s).lexeme != ""
  {
    SkipBlanksFrame(s.(lexeme := ""));
    DispatchShape(SkipBlanks(s.(lexeme := "")));
  }

  /** lex returns EOL exactly when only spaces were left, and then the line
      is used up. */
  lemma LexEol(s: LexState)
    requires Wf(s)
    ensures var t := LexToken(s);
      && (t.nextToken == Eol <==> NoSpaces(Text(s)) == "")
      && (t.nextToken == Eol ==> Text(t) == "")
  {
    var a := SkipBlanks(s.(lexeme := ""));
    SkipBlanksNoSpaces(s.(lexeme := ""));
    DispatchText(a);
    if Text(a) != "" {
      assert Text(a)[0] != ' ';
      assert NoSpaces(Text(a)) != "";
    }
  }

  /** A token other than EOL consumes at least one character. */
  lemma LexConsumes(s: LexState)
    requires Wf(s)
    ensures LexToken(s).nextToken != Eol ==> Remaining(LexToken(s)) < Remaining(s)
  {
    var a := SkipBlanks(s.(lexeme := ""));
    SkipBlanksText(s.(lexeme := ""));
    SkipBlanksFrame(s.(lexeme := ""));
    DispatchText(a);
    LexLexemeShape(s);
  }

  /** lex skips the spaces that open the unread text, counting them in
      errorPos, and then takes its lexeme off the front of what is left; at
      EOL only spaces were left. */
  lemma LexColumns(s: LexState)
    requires Wf(s)
    ensures var t := LexToken(s); var k := LeadingBlanks(Text(s));
      && t.errorPos == s.errorPos + k
      && (t.nextToken != Eol ==> Text(s)[k..] == t.lexeme + Text(t))
      && (t.nextToken == Eol ==> k == |Text(s)| && Text(t) == "")
  {
    var a := SkipBlanks(s.(lexeme := ""));
    LexCount(s);
    SkipBlanksText(s.(lexeme := ""));
    SkipBlanksFrame(s.(lexeme := ""));
    DispatchText(a);
    assert LexToken(s) == Logged(Dispatch(a));
  }

  /** lex adds to errorPos exactly the spaces it skips before the token. */
  lemma LexCount(s: LexState)
    requires Wf(s)
    ensures LexToken(s).errorPos == s.errorPos + LeadingBlanks(Text(s))
  {
    SkipBlanksCount(s.(lexeme := ""));
    DispatchFrame(SkipBlanks(s.(lexeme := "")));
  }

  /** lex logs exactly one (kind, lexeme) entry per token other than EOL. */
  lemma LexLogEntry(s: LexState)
    requires Wf(s)
    ensures var t := LexToken(s);
      t.output == s.output + (if t.nextToken == Eol then [] else [LogEntry(t.nextToken, t.lexeme)])
  {
    SkipBlanksFrame(s.(lexeme := ""));
    DispatchFrame(SkipBlanks(s.(lexeme := "")));
  }

  /** No lexeme that lex produces contains a space. */
  lemma LexemeHasNoSpaces(k: Token, w: string)
    requires TokenShape(k, w) && k != Eol
    ensures NoSpaces(w) == w
  {
    forall i | 0 <= i < |w| ensures w[i] != ' ' {
      if k == Ident {
        assert i == 0 || IsAlnum(w[i]);
      } else if k == NumLit {
        assert IsDigit(w[i]) || w[i] == '.';
      }
    }
    NoSpacesKeeps(w);
  }

  /** Once the line is used up, lex returns EOL again and changes nothing
      but the lexeme. */
  lemma LexEolSticky(s: LexState)
    requires Wf(s) && Text(s) == ""
    ensures var t := LexToken(s);
      && t.nextToken == Eol && Text(t) == ""
      && t.output == s.output && t.errorPos == s.errorPos
  {
    LexEol(s);
    LexLogEntry(s);
    LexCount(s);
  }

  /** What the analyzer has seen of its line so far, spaces aside: the
      logged lexemes, then the unread text with its spaces removed. */
  function Spelled(s: LexState): string {
    Flat(s.output) + NoSpaces(Text(s))
  }

  /** The bookkeeping behind LexLogSpells, on plain values. */
  lemma SpellStep(outS: seq<LogEntry>, outT: seq<LogEntry>, textS: string, textT: string, k: Token, w: string)
    requires outT == outS + (if k == Eol then [] else [LogEntry(k, w)])
    requires k == Eol ==> NoSpaces(textS) == "" && textT == ""
    requires k != Eol ==> NoSpaces(textS) == w + NoSpaces(textT)
    ensures Flat(outT) + NoSpaces(textT) == Flat(outS) + NoSpaces(textS)
  {
    if k != Eol {
      FlatSnoc(outS, LogEntry(k, w));
      Assoc(Flat(outS), w, NoSpaces(textT));
    } else {
      assert outT == outS;
    }
  }

  /** A token other than EOL is the next non-space stretch of the unread
      text. */
  lemma LexSpellsLexeme(s: LexState)
    requires Wf(s)
    ensures var t := LexToken(s);
      t.nextToken != Eol ==> NoSpaces(Text(s)) == t.lexeme + NoSpaces(Text(t))
  {
    var a := SkipBlanks(s.(lexeme := ""));
    var d := Dispatch(a);
    if d.nextToken != Eol {
      SkipBlanksNoSpaces(s.(lexeme := ""));
      SkipBlanksFrame(s.(lexeme := ""));
      DispatchText(a);
      assert Text(a) == d.lexeme + Text(d);
      LexLexemeShape(s);
      LexemeHasNoSpaces(d.nextToken, d.lexeme);
      NoSpacesAppend(d.lexeme, Text(d));
      assert LexToken(s) == Logged(d);
    }
  }

  /** Every consumed character other than a skipped space is logged: lex
      leaves Spelled unchanged. */
  lemma LexLogSpells(s: LexState)
    requires Wf(s)
    ensures Spelled(LexToken(s)) == Spelled(s)
  {
    var t := LexToken(s);
    LexLogEntry(s);
    LexEol(s);
    LexSpellsLexeme(s);
    SpellStep(s.output, t.output, Text(s), Text(t), t.nextToken, t.lexeme);
  }

  /** lex has returned EOL and nothing is left to read. */
  predicate Finished(s: LexState) {
    s.nextToken == Eol && Text(s) == ""
  }

  /** Each call of lex either finishes the line or consumes a character. */
  lemma LexStep(s: LexState)
    requires Wf(s)
    ensures Finished(LexToken(s)) || Remaining(LexToken(s)) < Remaining(s)
  {
    LexEol(s);
    LexConsumes(s);
  }

  /** The states before and after each of `n` successive calls of lex,
      as a loop that calls lex until EOL passes through them. */
  function LexRun(s: LexState, n: nat): (r: seq<LexState>)
    requires Wf(s)
    ensures |r| == n + 1 && r[0] == s
    ensures forall i :: 0 <= i <= n ==> Wf(r[i])
    ensures forall i :: 0 <= i < n ==> r[i + 1] == LexToken(r[i])
  {
    if n == 0 then [s] else var r := LexRun(s, n - 1); r + [LexToken(r[n - 1])]
  }

  /** A sequence of states in which every step finishes the line or
      consumes a character is finished after more steps than it had
      characters. */
  lemma {:induction false} ProgressOnTrace(tr: seq<LexState>, k: nat)
    requires k < |tr|
    requires forall i :: 0 <= i < |tr| - 1 ==> Finished(tr[i + 1]) || Remaining(tr[i + 1]) < Remaining(tr[i])
    ensures (k > 0 && Finished(tr[k])) || Remaining(tr[k]) + k <= Remaining(tr[0])
  {
    if k > 0 {
      ProgressOnTrace(tr, k - 1);
    }
  }

  /** More calls of lex than characters left always end at EOL with the
      line used up. */
  lemma LexReachesEol(s: LexState, n: nat)
    requires Wf(s) && n > Remaining(s)
    ensures Finished(LexRun(s, n)[n])
  {
    var tr := LexRun(s, n);
    forall i | 0 <= i < n
      ensures Finished(tr[i + 1]) || Remaining(tr[i + 1]) < Remaining(tr[i])
    {
      LexStep(tr[i]);
    }
    ProgressOnTrace(tr, n);
  }

  /** A sequence of states in which every step keeps Spelled keeps it
      from first to last. */
  lemma {:induction false} SpelledOnTrace(tr: seq<LexState>)
    requires |tr| > 0
    requires forall i :: 0 <= i < |tr| - 1 ==> Spelled(tr[i + 1]) == Spelled(tr[i])
    ensures Spelled(tr[|tr| - 1]) == Spelled(tr[0])
  {
    if |tr| > 1 {
      SpelledOnTrace(tr[..|tr| - 1]);
    }
  }

  /** LexLogSpells over any number of calls. */
  lemma LexRunSpells(s: LexState, n: nat)
    requires Wf(s)
    ensures Spelled(LexRun(s, n)[n]) == Spelled(s)
  {
    var tr := LexRun(s, n);
    forall i | 0 <= i < n ensures Spelled(tr[i + 1]) == Spelled(tr[i]) {
      LexLogSpells(tr[i]);
    }
    SpelledOnTrace(tr);
  }

  /** A sequence of states in which every finished state is followed by a
      finished state with the same log stays finished, log unchanged. */
  lemma {:induction false} FinishedOnTrace(tr: seq<LexState>)
    requires |tr| > 0 && Finished(tr[0])
    requires forall i :: 0 <= i < |tr| - 1 && Finished(tr[i]) ==> Finished(tr[i + 1]) && tr[i + 1].output == tr[i].output
    ensures forall i :: 0 <= i < |tr| ==> Finished(tr[i]) && tr[i].output == tr[0].output
  {
    if |tr| > 1 {
      var m := |tr| - 1;
      FinishedOnTrace(tr[..m]);
      assert tr[..m][m - 1] == tr[m - 1];
    }
  }

  /** Once lex has returned EOL with the line used up, every further call
      returns EOL and logs nothing. */
  lemma LexEolStays(s: LexState, n: nat)
    requires Wf(s) && Finished(s)
    ensures forall i :: 0 <= i <= n ==> Finished(LexRun(s, n)[i]) && LexRun(s, n)[i].output == s.output
  {
    var tr := LexRun(s, n);
    forall i | 0 <= i < n && Finished(tr[i])
      ensures Finished(tr[i + 1]) && tr[i + 1].output == tr[i].output
    {
      LexEolSticky(tr[i]);
    }
    FinishedOnTrace(tr);
  }

  /** Before the first lex nothing is logged and the whole line is
      unread. */
  lemma SpelledStart(line: string)
    ensures Spelled(Start(line)) == NoSpaces(line)
  {
    assert Flat([]) == "";
  }

  /** A finished state has nothing left to read. */
  lemma SpelledFinished(t: LexState)
    requires Finished(t)
    ensures Spelled(t) == Flat(t.output)
  {
    assert NoSpaces("") == "";
  }

  /** Lexing a whole line: after |line| + 1 calls lex has returned EOL, and
      the logged lexemes spell the line with its spaces removed. */
  lemma LogSpellsLine(line: string)
    ensures var t := LexRun(Start(line), |line| + 1)[|line| + 1];
      t.nextToken == Eol && Flat(t.output) == NoSpaces(line)
  {
    var t := LexRun(Start(line), |line| + 1)[|line| + 1];
    LexReachesEol(Start(line), |line| + 1);
    LexRunSpells(Start(line), |line| + 1);
    SpelledStart(line);
    SpelledFinished(t);
  }
}
