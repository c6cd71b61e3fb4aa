/**
 * The pure half of the hand-written BlueJ Java lexer
 * (bluej/parser/ast/gen/BlueJJavaLexer.java): character categories, the rule
 * that decides where a token ends, and the classification of a finished
 * token's text into a token kind.  The text of the token being built (the
 * lexer's text buffer) is a parameter.
 */
module LexerRules {
  import opened Strings

  /** The three character categories (LETTER_CHAR, DIGIT_CHAR, OTHER_CHAR). */
  datatype CharType = Letter | Digit | Other

  /** Character.isDigit, for the ASCII digits. */
  predicate IsDigit(c: char)
  {
    '0' <= c <= '9'
  }

  /** Character.isLetter, for the ASCII letters. */
  predicate IsLetter(c: char)
  {
    'a' <= c <= 'z' || 'A' <= c <= 'Z'
  }

  /** getCharType: digits are tested first, then letters. */
  function CharTypeOf(c: char): (t: CharType)
    ensures t == Digit <==> IsDigit(c)
    ensures t == Letter <==> IsLetter(c)
  {
    if IsDigit(c) then Digit
    else if IsLetter(c) then Letter
    else Other
  }

  /** The brackets that always stand alone. */
  predicate IsSingleChar(c: char)
  {
    c == '{' || c == '}' || c == '[' || c == ']' || c == '(' || c == ')'
  }

  /**
   * The buffer is inside a comment: it opened a block comment that it has not
   * closed, or it opened a line comment and holds no line break.
   */
  predicate IsComment(buf: string)
  {
    (Contains(buf, "/*") && !Contains(buf, "*/")) || (Contains(buf, "//") && !Contains(buf, "\n"))
  }

  /**
   * The adjacent pairs that stay in one token although their categories
   * differ or agree: identifiers with '_' and digits, numbers with digits,
   * suffixes and a decimal point, and quotes next to letters.
   */
  predicate Glued(prev: char, next: char)
  {
    var p := CharTypeOf(prev);
    var t := CharTypeOf(next);
    || (p == Letter && next == '_')
    || (t == Letter && prev == '_')
    || (p == Letter && t == Digit)
    || (p == Digit && t == Digit)
    || (p == Digit && (next == 'f' || next == 'd' || next == 'l'))
    || (p == Digit && next == '.')
    || (prev == '.' && t == Digit)
    || (prev == '"' && t == Letter)
    || (next == '"' && p == Letter)
    || (prev == '\'' && t == Letter)
    || (next == '\'' && p == Letter)
  }

  /**
   * isComplete: whether the token in buf, whose last character is prev, ends
   * before the character next.  Never inside a comment, never between a glued
   * pair; otherwise exactly when the category changes or next is a bracket.
   */
  function IsComplete(buf: string, prev: char, next: char): (r: bool)
    ensures IsComment(buf) ==> !r
    ensures Glued(prev, next) ==> !r
    ensures !IsComment(buf) && !Glued(prev, next) ==>
      (r <==> CharTypeOf(prev) != CharTypeOf(next) || IsSingleChar(next))
  {
    var p := CharTypeOf(prev);
    var t := CharTypeOf(next);
    if IsComment(buf) then false
    else if p == Letter && next == '_' then false
    else if t == Letter && prev == '_' then false
    else if p == Letter && t == Digit then false
    else if p == Digit && t == Digit then false
    else if p == Digit && (next == 'f' || next == 'd' || next == 'l') then false
    else if p == Digit && next == '.' then false
    else if prev == '.' && t == Digit then false
    else if prev == '"' && t == Letter then false
    else if next == '"' && p == Letter then false
    else if prev == '\'' && t == Letter then false
    else if next == '\'' && p == Letter then false
    else t != p || (t == Other && IsSingleChar(next))
  }

  /** Two operator characters such as '=' and '-' stay in one token outside brackets. */
  lemma OperatorRunsStayTogether(buf: string, prev: char, next: char)
    requires CharTypeOf(prev) == Other && CharTypeOf(next) == Other && !IsSingleChar(next)
    ensures !IsComplete(buf, prev, next)
  {
  }

  /** Outside a comment, a bracket after an operator character always starts a new token. */
  lemma BracketStartsToken(buf: string, prev: char, next: char)
    requires !IsComment(buf) && CharTypeOf(prev) == Other && IsSingleChar(next)
    requires prev != '_' && prev != '.' && prev != '"' && prev != '\''
    ensures IsComplete(buf, prev, next)
  {
  }

  /** The token kinds (JavaTokenTypes); a reserved word's kind carries its spelling. */
  datatype TokenKind =
    | Invalid | Eof | Ident | Reserved(word: string)
    | StringLiteral | CharLiteral | NumInt | NumLong | NumFloat | NumDouble
    | Question | Comma | Semi | Colon | Bnot | At
    | LParen | RParen | LBrack | RBrack | LCurly | RCurly
    | Bxor | BxorAssign | Band | BandAssign | Land | Bor | BorAssign | Lor
    | Lnot | NotEqual | Plus | PlusAssign | Inc | Minus | MinusAssign | Dec
    | Assign | Equal | Mod | ModAssign | Div | SlComment | MlComment | DivAssign
    | Dot | Star | StarAssign | Gt | Ge | Sr | Bsr | SrAssign | BsrAssign
    | Lt | Le | Sl | SlAssign

  /** The words getWordType recognises, each once, in the order it tests them. */
  predicate IsReserved(text: string)
  {
    || text == "public" || text == "private" || text == "protected" || text == "volatile"
    || text == "synchronized" || text == "abstract" || text == "transient" || text == "class"
    || text == "enum" || text == "interface" || text == "switch" || text == "case"
    || text == "break" || text == "continue" || text == "while" || text == "do"
    || text == "for" || text == "if" || text == "else" || text == "void"
    || text == "byte" || text == "char" || text == "short" || text == "int"
    || text == "float" || text == "long" || text == "double" || text == "native"
    || text == "default" || text == "implements" || text == "this" || text == "throws"
    || text == "throw" || text == "try" || text == "finally" || text == "catch"
    || text == "instanceof" || text == "true" || text == "false" || text == "null"
    || text == "new" || text == "boolean" || text == "package" || text == "super"
    || text == "strictfp" || text == "goto"
  }

  /** The kind of the char keyword, which every one-letter word also gets. */
  const LiteralChar: TokenKind := Reserved("char")

  /**
   * getWordType: a one-letter word is LITERAL_char; a reserved word gets its
   * own kind; any other word is an identifier.
   */
  function WordType(text: string): (r: TokenKind)
    ensures r == Ident || r.Reserved?
    ensures r == Ident <==> |text| != 1 && !IsReserved(text)
    ensures r.Reserved? ==> IsReserved(r.word) && (r.word == text || (|text| == 1 && r == LiteralChar))
  {
    if |text| == 1 then LiteralChar
    else if IsReserved(text) then Reserved(text)
    else Ident
  }

  /** Every reserved word is classified as itself: the spelling of its kind is the word. */
  lemma ReservedWordsRoundTrip()
    ensures forall w :: IsReserved(w) ==> WordType(w) == Reserved(w)
  {
  }

  /** Some Java keywords are not in the list, and come out as identifiers. */
  lemma UnlistedKeywordsAreIdentifiers()
    ensures WordType("static") == Ident && WordType("return") == Ident
  {
  }

  /** So is "import", which the lexer does not know either. */
  lemma ImportIsIdentifier()
    ensures WordType("import") == Ident
  {
  }

  /**
   * getNumberType: a lowercase 'f' anywhere makes a float, else an 'l' a long,
   * else a 'd' or a '.' a double; otherwise an int.
   */
  function NumberType(buf: string): (r: TokenKind)
    ensures r == NumFloat <==> 'f' in buf
    ensures r == NumLong <==> 'f' !in buf && 'l' in buf
    ensures r == NumDouble <==> 'f' !in buf && 'l' !in buf && ('d' in buf || '.' in buf)
    ensures r == NumInt <==> 'f' !in buf && 'l' !in buf && 'd' !in buf && '.' !in buf
  {
    if 'f' in buf then NumFloat
    else if 'l' in buf then NumLong
    else if 'd' in buf then NumDouble
    else if '.' in buf then NumDouble
    else NumInt
  }

  /** The suffix tests are case-sensitive: upper-case suffixes do not count. */
  lemma UpperCaseSuffixesIgnored()
    ensures NumberType("10F") == NumInt && NumberType("10L") == NumInt && NumberType("10D") == NumInt
    ensures NumberType("1.5F") == NumDouble && NumberType("2e5") == NumInt
  {
    assert 'f' !in "10F" && 'l' !in "10F" && 'd' !in "10F" && '.' !in "10F";
    assert 'f' !in "10L" && 'l' !in "10L" && 'd' !in "10L" && '.' !in "10L";
    assert 'f' !in "10D" && 'l' !in "10D" && 'd' !in "10D" && '.' !in "10D";
    assert "1.5F"[1] == '.' && 'f' !in "1.5F" && 'l' !in "1.5F";
    assert 'f' !in "2e5" && 'l' !in "2e5" && 'd' !in "2e5" && '.' !in "2e5";
  }

  /** &, &=, && */
  function AndType(buf: string): (r: TokenKind)
    requires |buf| >= 1
    ensures r == Band <==> |buf| == 1
    ensures r == BandAssign <==> |buf| >= 2 && buf[1] == '='
    ensures r == Land <==> |buf| >= 2 && buf[1] == '&'
    ensures r == Band || r == BandAssign || r == Land || r == Invalid
  {
    if |buf| == 1 then Band
    else if buf[1] == '=' then BandAssign
    else if buf[1] == '&' then Land
    else Invalid
  }

  /** |, |=, || */
  function OrType(buf: string): (r: TokenKind)
    requires |buf| >= 1
    ensures r == Bor <==> |buf| == 1
    ensures r == BorAssign <==> |buf| >= 2 && buf[1] == '='
    ensures r == Lor <==> |buf| >= 2 && buf[1] == '|'
    ensures r == Bor || r == BorAssign || r == Lor || r == Invalid
  {
    if |buf| == 1 then Bor
    else if buf[1] == '=' then BorAssign
    else if buf[1] == '|' then Lor
    else Invalid
  }

  /** +, +=, ++ */
  function PlusType(buf: string): (r: TokenKind)
    requires |buf| >= 1
    ensures r == Plus <==> |buf| == 1
    ensures r == PlusAssign <==> |buf| >= 2 && buf[1] == '='
    ensures r == Inc <==> |buf| >= 2 && buf[1] == '+'
    ensures r == Plus || r == PlusAssign || r == Inc || r == Invalid
  {
    if |buf| == 1 then Plus
    else if buf[1] == '=' then PlusAssign
    else if buf[1] == '+' then Inc
    else Invalid
  }

  /** -, -=, -- */
  function MinusType(buf: string): (r: TokenKind)
    requires |buf| >= 1
    ensures r == Minus <==> |buf| == 1
    ensures r == MinusAssign <==> |buf| >= 2 && buf[1] == '='
    ensures r == Dec <==> |buf| >= 2 && buf[1] == '-'
    ensures r == Minus || r == MinusAssign || r == Dec || r == Invalid
  {
    if |buf| == 1 then Minus
    else if buf[1] == '=' then MinusAssign
    else if buf[1] == '-' then Dec
    else Invalid
  }

  /** =, == */
  function EqualType(buf: string): (r: TokenKind)
    requires |buf| >= 1
    ensures r == Assign <==> |buf| == 1
    ensures r == Equal <==> |buf| >= 2 && buf[1] == '='
    ensures r == Assign || r == Equal || r == Invalid
  {
    if |buf| == 1 then Assign
    else if buf[1] == '=' then Equal
    else Invalid
  }

  /** *, *=, and a closing comment mark */
  function StarType(buf: string): (r: TokenKind)
    requires |buf| >= 1
    ensures r == Star <==> |buf| == 1
    ensures r == StarAssign <==> |buf| >= 2 && buf[1] == '='
    ensures r == MlComment <==> |buf| >= 2 && buf[1] == '/'
    ensures r == Star || r == StarAssign || r == MlComment || r == Invalid
  {
    if |buf| == 1 then Star
    else if buf[1] == '=' then StarAssign
    else if buf[1] == '/' then MlComment
    else Invalid
  }

  /** %, %= */
  function ModType(buf: string): (r: TokenKind)
    requires |buf| >= 1
    ensures r == Mod <==> |buf| == 1
    ensures r == ModAssign <==> |buf| >= 2 && buf[1] == '='
    ensures r == Mod || r == ModAssign || r == Invalid
  {
    if |buf| == 1 then Mod
    else if buf[1] == '=' then ModAssign
    else Invalid
  }

  /** Division, its assignment, the two comment openers, and the escapes slash-n and slash-t (typed as character literals). */
  function SlashType(buf: string): (r: TokenKind)
    requires |buf| >= 1
    ensures r == Div <==> |buf| == 1
    ensures r == SlComment <==> |buf| >= 2 && buf[1] == '/'
    ensures r == MlComment <==> |buf| >= 2 && buf[1] == '*'
    ensures r == DivAssign <==> |buf| >= 2 && buf[1] == '='
    ensures r == CharLiteral <==> |buf| >= 2 && (buf[1] == 'n' || buf[1] == 't')
    ensures r in {Div, SlComment, MlComment, DivAssign, CharLiteral, Invalid}
  {
    if |buf| == 1 then Div
    else if buf[1] == '/' then SlComment
    else if buf[1] == '*' then MlComment
    else if buf[1] == '=' then DivAssign
    else if buf[1] == 'n' then CharLiteral
    else if buf[1] == 't' then CharLiteral
    else Invalid
  }

  /** Typing the buffer raises the newline flag: it is a slash followed by 'n'. */
  predicate SetsNewline(buf: string)
  {
    |buf| >= 2 && buf[0] == '/' && buf[1] == 'n'
  }

  /** Typing the buffer raises the tab flag: it is a slash followed by 't'. */
  predicate SetsTab(buf: string)
  {
    |buf| >= 2 && buf[0] == '/' && buf[1] == 't'
  }

  /** >, >=, >>, >>>, >>=, >>>= */
  function GreaterType(buf: string): (r: TokenKind)
    requires |buf| >= 1
    ensures r == Gt <==> |buf| == 1
    ensures r == Ge <==> |buf| >= 2 && buf[1] == '='
    ensures r == Sr <==> |buf| == 2 && buf[1] == '>'
    ensures r == Bsr <==> |buf| == 3 && buf[1] == '>' && buf[2] == '>'
    ensures r == SrAssign <==> |buf| == 3 && buf[1] == '>' && buf[2] == '='
    ensures r == BsrAssign <==> |buf| == 4 && buf[1] == '>' && buf[2] == '>' && buf[3] == '='
    ensures r in {Gt, Ge, Sr, Bsr, SrAssign, BsrAssign, Invalid}
  {
    if |buf| == 1 then Gt
    else if buf[1] == '=' then Ge
    else if buf[1] == '>' && |buf| == 2 then Sr
    else if buf[1] == '>' && |buf| == 3 && buf[2] == '>' then Bsr
    else if buf[1] == '>' && |buf| == 3 && buf[2] == '=' then SrAssign
    else if buf[1] == '>' && buf[2] == '>' && buf[3] == '=' && |buf| == 4 then BsrAssign
    else Invalid
  }

  /** <, <=, <<, <<= */
  function LessType(buf: string): (r: TokenKind)
    requires |buf| >= 1
    ensures r == Lt <==> |buf| == 1
    ensures r == Le <==> |buf| >= 2 && buf[1] == '='
    ensures r == Sl <==> |buf| == 2 && buf[1] == '<'
    ensures r == SlAssign <==> |buf| == 3 && buf[1] == '<' && buf[2] == '='
    ensures r in {Lt, Le, Sl, SlAssign, Invalid}
  {
    if |buf| == 1 then Lt
    else if buf[1] == '=' then Le
    else if buf[1] == '<' && |buf| == 2 then Sl
    else if buf[1] == '<' && |buf| == 3 && buf[2] == '=' then SlAssign
    else Invalid
  }

  /** !, != */
  function ExclamationType(buf: string): (r: TokenKind)
    requires |buf| >= 1
    ensures r == Lnot <==> |buf| == 1
    ensures r == NotEqual <==> |buf| >= 2 && buf[1] == '='
    ensures r == Lnot || r == NotEqual || r == Invalid
  {
    if |buf| == 1 then Lnot
    else if buf[1] == '=' then NotEqual
    else Invalid
  }

  /** ^, ^= */
  function XorType(buf: string): (r: TokenKind)
    requires |buf| >= 1
    ensures r == Bxor <==> |buf| == 1
    ensures r == BxorAssign <==> |buf| >= 2 && buf[1] == '='
    ensures r == Bxor || r == BxorAssign || r == Invalid
  {
    if |buf| == 1 then Bxor
    else if buf[1] == '=' then BxorAssign
    else Invalid
  }

  /** A lone '.' is a dot; a longer token starting with '.' is typed as a number. */
  function DotType(buf: string): (r: TokenKind)
    requires |buf| >= 1
    ensures |buf| == 1 ==> r == Dot
    ensures |buf| > 1 ==> r == NumberType(buf)
    ensures |buf| > 1 && buf[0] == '.' ==> r == NumDouble || r == NumFloat || r == NumLong
  {
    if |buf| == 1 then Dot else assert buf[0] in buf; NumberType(buf)
  }

  /** What one dispatch of getType, as written, does with the buffer. */
  datatype Dispatch = Typed(kind: TokenKind) | DispatchAgain

  /**
   * getType as written: the first character selects the kind or the helper
   * for its operator family.  For '%' it dispatches again on the same buffer
   * (getModType is never called).
   */
  function GetTypeAsWritten(buf: string): (d: Dispatch)
    requires |buf| >= 1
    ensures d == DispatchAgain <==> buf[0] == '%'
  {
    var c := buf[0];
    if c == '"' then Typed(StringLiteral)
    else if c == '\'' then Typed(CharLiteral)
    else if c == '?' then Typed(Question)
    else if c == ',' then Typed(Comma)
    else if c == ';' then Typed(Semi)
    else if c == ':' then Typed(Colon)
    else if c == '^' then Typed(XorType(buf))
    else if c == '~' then Typed(Bnot)
    else if c == '(' then Typed(LParen)
    else if c == ')' then Typed(RParen)
    else if c == '[' then Typed(LBrack)
    else if c == ']' then Typed(RBrack)
    else if c == '{' then Typed(LCurly)
    else if c == '}' then Typed(RCurly)
    else if c == '@' then Typed(At)
    else if c == '&' then Typed(AndType(buf))
    else if c == '|' then Typed(OrType(buf))
    else if c == '!' then Typed(ExclamationType(buf))
    else if c == '+' then Typed(PlusType(buf))
    else if c == '-' then Typed(MinusType(buf))
    else if c == '=' then Typed(EqualType(buf))
    else if c == '%' then DispatchAgain
    else if c == '/' then Typed(SlashType(buf))
    else if c == '.' then Typed(DotType(buf))
    else if c == '*' then Typed(StarType(buf))
    else if c == '>' then Typed(GreaterType(buf))
    else if c == '<' then Typed(LessType(buf))
    else Typed(Invalid)
  }

  /**
   * A buffer that starts with '%' is never typed: the repeated dispatch sees
   * the same buffer, so any number of dispatches ends where it started.
   */
  lemma {:induction false} PercentNeverTyped(buf: string, dispatches: nat)
    requires |buf| >= 1 && buf[0] == '%'
    ensures Redispatch(buf, dispatches) == DispatchAgain
  {
    if dispatches > 0 {
      PercentNeverTyped(buf, dispatches - 1);
    }
  }

  /** The outcome after a number of dispatches of getType as written. */
  function Redispatch(buf: string, dispatches: nat): Dispatch
    requires |buf| >= 1
  {
    var d := GetTypeAsWritten(buf);
    if dispatches == 0 || d.Typed? then d else Redispatch(buf, dispatches - 1)
  }

  /** getType with '%' sent to getModType, which the code evidently intends. */
  function GetType(buf: string): (r: TokenKind)
    requires |buf| >= 1
    ensures buf[0] == '%' ==> r == ModType(buf)
    ensures buf[0] != '%' ==> GetTypeAsWritten(buf) == Typed(r)
  {
    if buf[0] == '%' then ModType(buf) else GetTypeAsWritten(buf).kind
  }

  /** The characters getType recognises as the start of a token. */
  predicate StartsSymbol(c: char)
  {
    c in "\"'?,;:^~()[]{}@&|!+-=%/.*><"
  }

  /** The corrected getType types every '%' token, and a token whose first character starts no symbol is invalid. */
  lemma GetTypeTotal(buf: string)
    requires |buf| >= 1
    ensures buf == "%" ==> GetType(buf) == Mod
    ensures buf == "%=" ==> GetType(buf) == ModAssign
    ensures !StartsSymbol(buf[0]) ==> GetType(buf) == Invalid
    ensures IsSingleChar(buf[0]) ==> GetType(buf) in {LParen, RParen, LBrack, RBrack, LCurly, RCurly}
  {
  }

  /**
   * getTokenType, from the token's first character: words, numbers, and
   * everything else through getType.
   */
  function TokenType(buf: string): (r: TokenKind)
    requires |buf| >= 1
    ensures IsLetter(buf[0]) ==> r == WordType(buf)
    ensures IsDigit(buf[0]) ==> r == NumberType(buf)
    ensures !IsLetter(buf[0]) && !IsDigit(buf[0]) ==> r == GetType(buf)
  {
    if IsLetter(buf[0]) then WordType(buf)
    else if IsDigit(buf[0]) then NumberType(buf)
    else GetType(buf)
  }

  /** A token starting with '>' or '<' is typed by its family's helper. */
  lemma ShiftTokensByFamily(buf: string)
    requires |buf| >= 1
    ensures buf[0] == '>' ==> TokenType(buf) == GreaterType(buf)
    ensures buf[0] == '<' ==> TokenType(buf) == LessType(buf)
  {
  }

  /**
   * The dispatch table of getType as written, for every buffer: each operator
   * family goes to its helper, each fixed symbol to its kind, '%' dispatches
   * again, and a first character that starts no symbol is invalid.
   */
  lemma DispatchByFirstCharacter(buf: string)
    requires |buf| >= 1
    ensures buf[0] == '&' ==> GetTypeAsWritten(buf) == Typed(AndType(buf))
    ensures buf[0] == '|' ==> GetTypeAsWritten(buf) == Typed(OrType(buf))
    ensures buf[0] == '+' ==> GetTypeAsWritten(buf) == Typed(PlusType(buf))
    ensures buf[0] == '-' ==> GetTypeAsWritten(buf) == Typed(MinusType(buf))
    ensures buf[0] == '=' ==> GetTypeAsWritten(buf) == Typed(EqualType(buf))
    ensures buf[0] == '*' ==> GetTypeAsWritten(buf) == Typed(StarType(buf))
    ensures buf[0] == '/' ==> GetTypeAsWritten(buf) == Typed(SlashType(buf))
    ensures buf[0] == '!' ==> GetTypeAsWritten(buf) == Typed(ExclamationType(buf))
    ensures buf[0] == '.' ==> GetTypeAsWritten(buf) == Typed(DotType(buf))
    ensures buf[0] == '^' ==> GetTypeAsWritten(buf) == Typed(XorType(buf))
    ensures buf[0] == '>' ==> GetTypeAsWritten(buf) == Typed(GreaterType(buf))
    ensures buf[0] == '<' ==> GetTypeAsWritten(buf) == Typed(LessType(buf))
    ensures buf[0] == '%' ==> GetTypeAsWritten(buf) == DispatchAgain
    ensures buf[0] == '"' ==> GetTypeAsWritten(buf) == Typed(StringLiteral)
    ensures buf[0] == '\'' ==> GetTypeAsWritten(buf) == Typed(CharLiteral)
    ensures buf[0] == '?' ==> GetTypeAsWritten(buf) == Typed(Question)
    ensures buf[0] == ',' ==> GetTypeAsWritten(buf) == Typed(Comma)
    ensures buf[0] == ';' ==> GetTypeAsWritten(buf) == Typed(Semi)
    ensures buf[0] == ':' ==> GetTypeAsWritten(buf) == Typed(Colon)
    ensures buf[0] == '~' ==> GetTypeAsWritten(buf) == Typed(Bnot)
    ensures buf[0] == '@' ==> GetTypeAsWritten(buf) == Typed(At)
    ensures buf[0] == '(' ==> GetTypeAsWritten(buf) == Typed(LParen)
    ensures buf[0] == ')' ==> GetTypeAsWritten(buf) == Typed(RParen)
    ensures buf[0] == '[' ==> GetTypeAsWritten(buf) == Typed(LBrack)
    ensures buf[0] == ']' ==> GetTypeAsWritten(buf) == Typed(RBrack)
    ensures buf[0] == '{' ==> GetTypeAsWritten(buf) == Typed(LCurly)
    ensures buf[0] == '}' ==> GetTypeAsWritten(buf) == Typed(RCurly)
    ensures !StartsSymbol(buf[0]) ==> GetTypeAsWritten(buf) == Typed(Invalid)
  {
  }

  /** The operator families of '>' and '<' on concrete spellings. */
  lemma ShiftOperatorSpellings()
    ensures GreaterType(">") == Gt && GreaterType(">=") == Ge && GreaterType(">>") == Sr
    ensures GreaterType(">>>") == Bsr && GreaterType(">>=") == SrAssign && GreaterType(">>>=") == BsrAssign
    ensures LessType("<") == Lt && LessType("<=") == Le && LessType("<<") == Sl && LessType("<<=") == SlAssign
  {
  }

  /** Runs of angle brackets that are no shift operator are invalid tokens. */
  lemma ShiftOperatorMisspellings()
    ensures GreaterType(">>-") == Invalid && GreaterType(">>>>") == Invalid && LessType("<<<") == Invalid
  {
  }
}
