/** The lexical analyzer of parser.py (class LexicalAnalyzer).

    The state of the analyzer is given twice: as the value LexState, on which
    each step of the source is a function, and as the class LexicalAnalyzer,
    whose fields the methods update in place exactly as the source does and
    whose every method is proved to move State() as that function says. */
module Lexer {
  import opened Tokens

  /** One entry of the audit log `output`: the token kind and its lexeme. */
  datatype LogEntry = LogEntry(kind: Token, lexeme: string)

  /** The fields of a LexicalAnalyzer. `nextChar` is the empty string once the
      line is used up, as in the source. */
  datatype LexState = LexState(
    line: string,
    nextChar: string,
    charClass: Token,
    nextToken: Token,
    lexeme: string,
    errorPos: nat,
    output: seq<LogEntry>)

  /** The guard of getNonBlank: the pending character is a space. */
  predicate PendingBlank(s: LexState) {
    |s.nextChar| == 1 && s.nextChar[0] == ' '
  }

  /** The input still unread: the pending character, then the unread suffix. */
  function Text(s: LexState): string {
    s.nextChar + s.line
  }

  function Remaining(s: LexState): nat {
    |Text(s)|
  }

  /** What getChar keeps true of the cursor: at most one pending character,
      its class recorded, and no pending character only at the end. */
  predicate Wf(s: LexState) {
    |s.nextChar| <= 1 && s.charClass == CharClass(s.nextChar) && (s.nextChar == "" ==> s.line == "")
  }

  /** `n` copies of `c`. */
  function Repeat(c: char, n: nat): (r: string)
    ensures |r| == n
  {
    if n == 0 then "" else [c] + Repeat(c, n - 1)
  }

  function Spaces(n: nat): string {
    Repeat(' ', n)
  }

  /** The number of spaces that open `w`. */
  function LeadingBlanks(w: string): (n: nat)
    ensures n <= |w|
  {
    if w != "" && w[0] == ' ' then 1 + LeadingBlanks(w[1..]) else 0
  }

  /** `w` with every space removed. */
  function NoSpaces(w: string): string {
    if w == "" then "" else (if w[0] == ' ' then "" else [w[0]]) + NoSpaces(w[1..])
  }

  /** The logged lexemes, concatenated in log order. */
  function Flat(log: seq<LogEntry>): string {
    if log == [] then "" else Flat(log[..|log| - 1]) + log[|log| - 1].lexeme
  }

  /** The fields as __init__ sets them, before its call of getChar. The source
      stores the integer 0 in charClass and nextToken; Unknown stands in for
      it, and getChar and the first lex overwrite both before they are read. */
  function Blank(line: string): LexState {
    LexState(line, "", Unknown, Unknown, "", 0, [])
  }

  /** getChar: pop the first character of the line, if any, and classify it.
      Nothing of the input is lost: the pending character followed by the
      new line is the old line. */
  function ReadChar(s: LexState): (t: LexState)
    ensures Wf(t)
  {
    var c := if |s.line| > 0 then [s.line[0]] else "";
    var rest := if |s.line| > 0 then s.line[1..] else s.line;
    s.(nextChar := c, line := rest, charClass := CharClass(c))
  }

  /** getChar loses no input, reports EOL exactly when the line is used up,
      and touches neither the token, the lexeme, the position nor the log. */
  lemma ReadCharSpec(s: LexState)
    ensures Text(ReadChar(s)) == s.line
    ensures ReadChar(s).nextChar == "" <==> s.line == ""
    ensures ReadChar(s).charClass == Eol <==> s.line == ""
    ensures s.line != "" ==> ReadChar(s).charClass == ClassOfChar(s.line[0])
    ensures var t := ReadChar(s);
      t.lexeme == s.lexeme && t.errorPos == s.errorPos && t.output == s.output && t.nextToken == s.nextToken
  {
    if s.line != "" {
      assert Text(ReadChar(s)) == [s.line[0]] + s.line[1..];
      CharClassSpec([s.line[0]]);
    }
  }

  /** The state after __init__: nothing logged, the cursor at the line's start. */
  function Start(line: string): (t: LexState)
    ensures Wf(t) && Text(t) == line && t.output == [] && t.errorPos == 0
  {
    ReadChar(Blank(line))
  }

  /** The `addChar` idiom: append the pending character to the lexeme. */
  function AddChar(s: LexState): LexState {
    s.(lexeme := s.lexeme + s.nextChar)
  }

  /** getNonBlank: skip spaces, counting each in errorPos. */
  function SkipBlanks(s: LexState): (t: LexState)
    requires Wf(s)
    ensures Wf(t) && !PendingBlank(t)
    decreases Remaining(s)
  {
    if PendingBlank(s) then
      SkipBlanks(ReadChar(s.(errorPos := s.errorPos + 1)))
    else
      s
  }

  /** The loops of lex that append characters while the pending character's
      class is in `ks`. */
  function ScanWhile(s: LexState, ks: set<Token>): (t: LexState)
    requires Wf(s) && Eol !in ks
    ensures Wf(t) && t.charClass !in ks
    decreases Remaining(s)
  {
    if s.charClass in ks then ScanWhile(ReadChar(AddChar(s)), ks) else s
  }

  /** lookup: append the pending character and set the token kind from `ch`. */
  function LookupState(s: LexState, ch: char): LexState
  {
    s.(lexeme := s.lexeme + s.nextChar, nextToken := LookupKind(ch))
  }

  /** The LETTER branch of lex: a letter, then letters and digits. */
  function ScanIdent(b: LexState): (t: LexState)
    requires Wf(b) && b.charClass == Letter
    ensures Wf(t)
  {
    ScanWhile(ReadChar(AddChar(b)), {Letter, Digit}).(nextToken := Ident)
  }

  /** The DIGIT branch of lex: digits, then optionally `.` and digits. */
  function ScanNumber(b: LexState): (t: LexState)
    requires Wf(b) && b.charClass == Digit
    ensures Wf(t)
  {
    var w := ScanWhile(ReadChar(AddChar(b)), {Digit});
    var x := if w.charClass == Decimal then ScanWhile(ReadChar(AddChar(w)), {Digit}) else w;
    x.(nextToken := NumLit)
  }

  /** The default branch of lex: one character through lookup. */
  function ScanOther(b: LexState): (t: LexState)
    requires Wf(b) && b.charClass != Eol
    ensures Wf(t)
  {
    ReadChar(LookupState(b, b.nextChar[0]))
  }

  /** The match of lex on the class of the first non-blank character. */
  function Dispatch(b: LexState): (t: LexState)
    requires Wf(b)
    ensures Wf(t)
  {
    if b.charClass == Letter then ScanIdent(b)
    else if b.charClass == Digit then ScanNumber(b)
    else if b.charClass == Eol then b.(nextToken := Eol, lexeme := "EOL")
    else ScanOther(b)
  }

  /** The audit step at the end of lex: log the token unless it is the end
      of the line. */
  function Logged(u: LexState): LexState {
    if u.nextToken != Eol then u.(output := u.output + [LogEntry(u.nextToken, u.lexeme)]) else u
  }

  /** lex: assemble one token and log it. */
  function LexToken(s: LexState): (t: LexState)
    requires Wf(s)
    ensures Wf(t)
  {
    Logged(Dispatch(SkipBlanks(s.(lexeme := ""))))
  }

  class LexicalAnalyzer {
    var charClass: Token
    var lexeme: string
    var nextChar: string
    var nextToken: Token
    var line: string
    var errorPos: nat
    var output: seq<LogEntry>

    function State(): LexState
      reads this
    {
      LexState(line, nextChar, charClass, nextToken, lexeme, errorPos, output)
    }

    predicate Valid()
      reads this
    {
      Wf(State())
    }

    constructor (line: string)
      ensures Valid() && State() == Start(line)
    {
      charClass := Unknown;
      lexeme := "";
      nextChar := "";
      nextToken := Unknown;
      this.line := line;
      errorPos := 0;
      output := [];
      new;
      GetChar();
    }

    method Lookup(ch: char) returns (token: Token)
      modifies this
      ensures State() == LookupState(old(State()), ch) && token == nextToken
    {
      lexeme := lexeme + nextChar;
      if ch in OperatorTable() {
        nextToken := OperatorTable()[ch];
      } else if ch == '=' {
        nextToken := AssignOp;
      } else {
        nextToken := Unknown;
      }
      token := nextToken;
    }

    method GetChar()
      modifies this
      ensures State() == ReadChar(old(State()))
    {
      if |line| > 0 {
        nextChar, line := [line[0]], line[1..];
      } else {
        nextChar := "";
      }
      if nextChar == "" {
        charClass := Eol;
      } else if IsAlpha(nextChar[0]) {
        charClass := Letter;
      } else if IsDigit(nextChar[0]) {
        charClass := Digit;
      } else if nextChar[0] == '.' {
        charClass := Decimal;
      } else {
        charClass := Unknown;
      }
    }

    method GetNonBlank()
      requires Valid()
      modifies this
      ensures Valid() && State() == SkipBlanks(old(State()))
    {
      while PendingBlank(State())
        invariant Valid()
        invariant SkipBlanks(State()) == SkipBlanks(old(State()))
        decreases |line| + |nextChar|
      {
        errorPos := errorPos + 1;
        GetChar();
      }
    }

    /** The `addChar` idiom followed by getChar, as lex writes it inline. */
    method AddAndRead()
      modifies this
      ensures State() == ReadChar(AddChar(old(State())))
    {
      lexeme := lexeme + nextChar;
      GetChar();
    }

    /** The LETTER arm of lex. */
    method LexIdentifier()
      requires Valid() && charClass == Letter
      modifies this
      ensures Valid() && State() == ScanIdent(old(State()))
    {
      AddAndRead();
      ghost var r := State();
      while charClass in {Letter, Digit}
        invariant Valid()
        invariant ScanWhile(State(), {Letter, Digit}) == ScanWhile(r, {Letter, Digit})
        decreases |line| + |nextChar|
      {
        AddAndRead();
      }
      nextToken := Ident;
    }

    /** The DIGIT arm of lex. */
    method LexNumber()
      requires Valid() && charClass == Digit
      modifies this
      ensures Valid() && State() == ScanNumber(old(State()))
    {
      AddAndRead();
      ghost var r := State();
      while charClass in {Digit}
        invariant Valid()
        invariant ScanWhile(State(), {Digit}) == ScanWhile(r, {Digit})
        decreases |line| + |nextChar|
      {
        AddAndRead();
      }
      if charClass == Decimal {
        AddAndRead();
        ghost var d := State();
        while charClass in {Digit}
          invariant Valid()
          invariant ScanWhile(State(), {Digit}) == ScanWhile(d, {Digit})
          decreases |line| + |nextChar|
        {
          AddAndRead();
        }
      }
      nextToken := NumLit;
    }

    /** The match of lex on the class of the first non-blank character. */
    method LexBranch()
      requires Valid()
      modifies this
      ensures Valid() && State() == Dispatch(old(State()))
    {
      if charClass == Letter {
        LexIdentifier();
      } else if charClass == Digit {
        LexNumber();
      } else if charClass == Eol {
        nextToken := Eol;
        lexeme := "EOL";
      } else {
        var _ := Lookup(nextChar[0]);
        GetChar();
      }
    }

    method Lex() returns (token: Token)
      requires Valid()
      modifies this
      ensures State() == LexToken(old(State())) && token == nextToken
      ensures Valid()
    {
      lexeme := "";
      GetNonBlank();
      LexBranch();
      if nextToken != Eol {
        output := output + [LogEntry(nextToken, lexeme)];
      }
      token := nextToken;
    }
  }
}
