/** Token kinds, character classes and the character tests shared by the
    lexical and the syntax analyzer of parser.py. */
module Tokens {

  /** The one enumeration of parser.py. It tags the class of the pending
      character (Letter, Digit, Decimal, Eol, Unknown) as well as the kind of
      the token last assembled (the operators, NumLit, Ident, Eol, Unknown). */
  datatype Token =
    | Letter | Digit | AddOp | SubOp | MultOp | DivOp | ModOp | AssignOp
    | NumLit | Ident | Decimal | Eol | Unknown

  /** En dash, which the operator table reads as a minus sign. */
  const EnDash: char := '\U{2013}'

  /** Membership in the 52 ASCII letters a-z, A-Z. */
  predicate IsAlpha(c: char) {
    'a' <= c <= 'z' || 'A' <= c <= 'Z'
  }

  /** Membership in the ten ASCII digits. */
  predicate IsDigit(c: char) {
    '0' <= c <= '9'
  }

  /** The alphabet string of isalpha: lower-case letters, then upper-case. */
  const Letters := "abcdefghijklmnopqrstuvwxyzABCDEFGHIJKLMNOPQRSTUVWXYZ"
  const LowerLetters := "abcdefghijklmnopqrstuvwxyz"
  const UpperLetters := "ABCDEFGHIJKLMNOPQRSTUVWXYZ"

  /** The digit string of isdigit. */
  const Digits := "0123456789"

  lemma LowerLettersSpec(c: char)
    ensures 'a' <= c <= 'z' <==> c in LowerLetters
  {
  }

  lemma UpperLettersSpec(c: char)
    ensures 'A' <= c <= 'Z' <==> c in UpperLetters
  {
  }

  /** isalpha on one character is membership in its alphabet string. */
  lemma IsAlphaSpec(c: char)
    ensures IsAlpha(c) <==> c in Letters
  {
    assert Letters == LowerLetters + UpperLetters;
    LowerLettersSpec(c);
    UpperLettersSpec(c);
  }

  /** isdigit on one character is membership in its digit string. */
  lemma IsDigitSpec(c: char)
    ensures IsDigit(c) <==> c in Digits
  {
  }

  /** str.isalnum, restricted to ASCII letters and digits. */
  predicate IsAlnum(c: char) {
    IsAlpha(c) || IsDigit(c)
  }

  /** The operator table of LexicalAnalyzer.operators. */
  function OperatorTable(): map<char, Token> {
    map['+' := AddOp, EnDash := SubOp, '-' := SubOp, '*' := MultOp, '/' := DivOp, '%' := ModOp]
  }

  /** The table maps the five operator characters and the en dash onto the
      five operator kinds. */
  lemma OperatorTableSpec()
    ensures OperatorTable().Keys == {'+', EnDash, '-', '*', '/', '%'}
    ensures OperatorTable().Values == {AddOp, SubOp, MultOp, DivOp, ModOp}
  {
    var m := OperatorTable();
    assert m['+'] == AddOp && m['-'] == SubOp && m['*'] == MultOp && m['/'] == DivOp && m['%'] == ModOp;
  }

  /** The token kinds the syntax analyzer accepts as an operator: the values
      of the operator table. */
  predicate IsArithOp(t: Token) {
    t in OperatorTable().Values
  }

  /** The class getChar gives a character it has just read. */
  function ClassOfChar(c: char): Token {
    if IsAlpha(c) then Letter
    else if IsDigit(c) then Digit
    else if c == '.' then Decimal
    else Unknown
  }

  /** A read character is a letter, a digit, a `.` or anything else, and
      its class says which. */
  lemma ClassOfCharSpec(c: char)
    ensures ClassOfChar(c) in {Letter, Digit, Decimal, Unknown}
    ensures ClassOfChar(c) == Letter <==> IsAlpha(c)
    ensures ClassOfChar(c) == Digit <==> IsDigit(c)
    ensures ClassOfChar(c) == Decimal <==> c == '.'
  {
  }

  /** The class of the pending character, a string that is empty once the
      line is used up. */
  function CharClass(pending: string): Token {
    if pending == "" then Eol else ClassOfChar(pending[0])
  }

  /** The class is EOL exactly when no character is pending. */
  lemma CharClassSpec(pending: string)
    ensures CharClass(pending) == Eol <==> pending == ""
  {
    if pending != "" {
      ClassOfCharSpec(pending[0]);
    }
  }

  /** The kind that lookup assigns to a character that starts no identifier,
      literal or end of line. */
  function LookupKind(ch: char): Token {
    if ch in OperatorTable() then OperatorTable()[ch]
    else if ch == '=' then AssignOp
    else Unknown
  }

  /** lookup gives the operator kinds to the characters of the operator
      table, AssignOp to `=` and Unknown to anything else. */
  lemma LookupKindSpec(ch: char)
    ensures LookupKind(ch) in {AddOp, SubOp, MultOp, DivOp, ModOp, AssignOp, Unknown}
    ensures IsArithOp(LookupKind(ch)) <==> ch in OperatorTable()
    ensures LookupKind(ch) == AssignOp <==> ch == '='
    ensures ch == '+' ==> LookupKind(ch) == AddOp
    ensures ch == '-' || ch == EnDash ==> LookupKind(ch) == SubOp
    ensures ch == '*' ==> LookupKind(ch) == MultOp
    ensures ch == '/' ==> LookupKind(ch) == DivOp
    ensures ch == '%' ==> LookupKind(ch) == ModOp
  {
    OperatorTableSpec();
  }

  /** An identifier as the LETTER branch of lex assembles it: a letter,
      then letters and digits. */
  predicate IsIdentLexeme(w: string) {
    |w| >= 1 && IsAlpha(w[0]) && forall i :: 1 <= i < |w| ==> IsAlnum(w[i])
  }

  /** A numeric literal as the DIGIT branch of lex assembles it: a digit,
      then digits and at most one `.`. */
  predicate IsNumLexeme(w: string) {
    |w| >= 1 && IsDigit(w[0])
    && (forall i :: 0 <= i < |w| ==> IsDigit(w[i]) || w[i] == '.')
    && (forall i, j :: 0 <= i < j < |w| && w[i] == '.' ==> w[j] != '.')
  }

  /** What lex leaves in `lexeme` for each token kind it can produce. The
      character classes Letter, Digit and Decimal are never token kinds. */
  predicate TokenShape(k: Token, w: string) {
    match k
    case Ident => IsIdentLexeme(w)
    case NumLit => IsNumLexeme(w)
    case Eol => w == "EOL"
    case Letter | Digit | Decimal => false
    case _ => |w| == 1 && ClassOfChar(w[0]) in {Decimal, Unknown} && w[0] != ' ' && LookupKind(w[0]) == k
  }
}
