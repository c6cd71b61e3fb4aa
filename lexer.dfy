/**
 * The stateful half of the BlueJ Java lexer
 * (bluej/parser/ast/gen/BlueJJavaLexer.java): a reader over the source text,
 * the current column and line, the one character read ahead, the deferred
 * tab and newline flags, and the text buffer of the token being built.
 *
 * The reader is the source text itself: reading at a position gives the
 * character there, or nothing past the end.  The lexer reads at col - 1.
 */
module Lexer {
  import opened Strings
  import opened LexerRules

  /** (char)-1: no character has been read ahead. */
  const EofChar: char := '\U{FFFF}'

  /** A token with its kind, its text and where it starts and ends. */
  datatype Token = Token(kind: TokenKind, text: string, column: int, line: int, endLine: int, endColumn: int)

  /** The columns a consumed character takes: a tab takes tabsize, any other character one. */
  function Width(c: char, tabsize: int): int
  {
    if c == '\t' then tabsize else 1
  }

  /** The columns a run of consumed characters takes. */
  function Advance(s: string, tabsize: int): (r: int)
    requires tabsize >= 1
    ensures r >= |s|
    decreases |s|
  {
    if |s| == 0 then 0 else Advance(s[..|s| - 1], tabsize) + Width(s[|s| - 1], tabsize)
  }

  /** What filling the buffer leaves as the character read ahead. */
  datatype Lookahead = Unchanged | Cleared | Pending(c: char)

  /** The buffer's text, the column after it, whether a space ended it, and the read-ahead. */
  datatype Filled = Filled(text: string, col: int, whitespace: bool, lookahead: Lookahead)

  /** The token in buf ends before next: next is a space outside a comment, or isComplete says so. */
  predicate Cuts(buf: string, next: char)
    requires |buf| >= 1
  {
    (next == ' ' && !IsComment(buf)) || IsComplete(buf, buf[|buf| - 1], next)
  }

  /**
   * populateTextBuffer: consume c onto buf, then read at the new column.  At
   * the end of the input the token ends and the read-ahead is left as it
   * was; a space outside a comment is skipped (one more column) and ends the
   * token with no read-ahead; a character that completes the token is kept
   * as the read-ahead; any other character is consumed in turn.
   */
  function Fill(input: string, tabsize: int, buf: string, col: int, c: char): (f: Filled)
    requires tabsize >= 1 && col >= 1
    ensures |f.text| > |buf| && f.text[..|buf| + 1] == buf + [c]
    ensures f.col > col
    decreases |input| - col
  {
    var text := buf + [c];
    var next := col + Width(c, tabsize);
    if next - 1 >= |input| then Filled(text, next, false, Unchanged)
    else
      var n := input[next - 1];
      if n == ' ' && !IsComment(text) then Filled(text, next + 1, true, Cleared)
      else if IsComplete(text, c, n) then Filled(text, next, false, Pending(n))
      else
        var f := Fill(input, tabsize, text, next, n);
        assert f.text[..|text| + 1][..|buf| + 1] == f.text[..|buf| + 1];
        f
  }

  /** The columns advance by the width of the consumed characters, plus one for a skipped space. */
  lemma {:induction false} FillAdvance(input: string, tabsize: int, buf: string, col: int, c: char)
    requires tabsize >= 1 && col >= 1
    ensures var f := Fill(input, tabsize, buf, col, c);
      f.col == col + Advance(f.text, tabsize) - Advance(buf, tabsize) + (if f.whitespace then 1 else 0)
    decreases |input| - col
  {
    var text := buf + [c];
    var next := col + Width(c, tabsize);
    assert text[..|text| - 1] == buf;
    assert Advance(text, tabsize) == Advance(buf, tabsize) + Width(c, tabsize);
    if next - 1 < |input| {
      var n := input[next - 1];
      if n == ' ' && !IsComment(text) {
        assert Fill(input, tabsize, buf, col, c) == Filled(text, next + 1, true, Cleared);
      } else if IsComplete(text, c, n) {
        assert Fill(input, tabsize, buf, col, c) == Filled(text, next, false, Pending(n));
      } else {
        assert Fill(input, tabsize, buf, col, c) == Fill(input, tabsize, text, next, n);
        FillAdvance(input, tabsize, text, next, n);
      }
    }
  }

  /** No character inside the token would have ended it. */
  lemma {:induction false} FillNoCut(input: string, tabsize: int, buf: string, col: int, c: char)
    requires tabsize >= 1 && col >= 1
    ensures var f := Fill(input, tabsize, buf, col, c);
      forall k :: |buf| < k < |f.text| ==> !Cuts(f.text[..k], f.text[k])
    decreases |input| - col
  {
    var text := buf + [c];
    var next := col + Width(c, tabsize);
    var f := Fill(input, tabsize, buf, col, c);
    if next - 1 < |input| {
      var n := input[next - 1];
      if !(n == ' ' && !IsComment(text)) && !IsComplete(text, c, n) {
        FillNoCut(input, tabsize, text, next, n);
        assert f == Fill(input, tabsize, text, next, n);
        forall k | |buf| < k < |f.text|
          ensures !Cuts(f.text[..k], f.text[k])
        {
          if k == |text| {
            assert f.text[..k] == text;
            assert f.text[..|text| + 1] == text + [n];
          }
        }
      }
    }
  }

  /**
   * How the token ended agrees with the read-ahead left behind: nothing
   * changed only at the end of the input, cleared exactly when a space ended
   * it, and otherwise the character at the new column, which ends it.
   */
  lemma {:induction false} FillEnd(input: string, tabsize: int, buf: string, col: int, c: char)
    requires tabsize >= 1 && col >= 1
    ensures var f := Fill(input, tabsize, buf, col, c);
      && (f.lookahead == Cleared <==> f.whitespace)
      && (f.lookahead == Unchanged ==> f.col - 1 >= |input|)
      && (f.whitespace ==> 2 <= f.col <= |input| + 1 && input[f.col - 2] == ' ' && !IsComment(f.text))
      && (f.lookahead.Pending? ==>
            f.col - 1 < |input| && input[f.col - 1] == f.lookahead.c && Cuts(f.text, f.lookahead.c))
    decreases |input| - col
  {
    var text := buf + [c];
    var next := col + Width(c, tabsize);
    if next - 1 < |input| {
      var n := input[next - 1];
      if !(n == ' ' && !IsComment(text)) && !IsComplete(text, c, n) {
        FillEnd(input, tabsize, text, next, n);
      }
    }
  }

  /**
   * A token never reads as a slash escape: a slash is always ended by a
   * following letter, so the buffer is never "/n..." or "/t...", and the
   * deferred newline and tab flags are never raised.
   */
  lemma FlagsNeverRaised(input: string, tabsize: int, col: int, c: char)
    requires tabsize >= 1 && col >= 1
    ensures var f := Fill(input, tabsize, [], col, c);
      !SetsNewline(f.text) && !SetsTab(f.text)
  {
    var f := Fill(input, tabsize, [], col, c);
    FillNoCut(input, tabsize, [], col, c);
    if |f.text| >= 2 && f.text[0] == '/' {
      assert f.text[..1] == "/";
      assert !IsComment("/") by {
        assert !Contains("/", "/*") && !Contains("/", "//");
      }
      assert !Cuts(f.text[..1], f.text[1]);
    }
  }

  /** Inside an open comment a space does not end the token: it is consumed like any other character. */
  lemma SpaceInsideComment(input: string, tabsize: int, buf: string, col: int, c: char)
    requires tabsize >= 1 && col >= 1
    requires col + Width(c, tabsize) - 1 < |input| && input[col + Width(c, tabsize) - 1] == ' '
    requires IsComment(buf + [c])
    ensures Fill(input, tabsize, buf, col, c) == Fill(input, tabsize, buf + [c], col + Width(c, tabsize), ' ')
    ensures Fill(input, tabsize, buf, col, c).text[|buf| + 1] == ' '
  {
  }

  /** The outcome of nextToken: the token, and the column and read-ahead it leaves. */
  datatype Step = Step(token: Token, col: int, rChar: char, text: string)

  /** The token nextToken returns at the end of the input. */
  function EndToken(col: int, line: int): Token
  {
    Token(Eof, "EOF", col, line, line, col)
  }

  /** The read-ahead after filling the buffer. */
  function AfterFill(look: Lookahead, rChar: char): char
  {
    match look
    case Unchanged => rChar
    case Cleared => EofChar
    case Pending(c) => c
  }

  /**
   * nextToken: the read-ahead character, or else the character at col - 1,
   * starts a token, which is filled, typed and given its columns; with no
   * read-ahead and nothing left to read, the end token.
   */
  function NextTokenOf(input: string, tabsize: int, col: int, line: int, rChar: char): Step
    requires tabsize >= 1 && col >= 1
  {
    if rChar == EofChar && col - 1 >= |input| then Step(EndToken(col, line), col, rChar, [])
    else
      var c := if rChar == EofChar then input[col - 1] else rChar;
      StepOf(Fill(input, tabsize, [], col, c), col, line, rChar)
  }

  /** The token made from a filled buffer that started at (col, line), and the state after it. */
  function StepOf(f: Filled, col: int, line: int, rChar: char): Step
    requires |f.text| >= 1
  {
    var token := Token(TokenType(f.text), f.text, col, line, line, if f.whitespace then f.col - 1 else f.col);
    Step(token, f.col, AfterFill(f.lookahead, rChar), f.text)
  }

  /**
   * A token ends as many columns after it starts as its characters take, on
   * the line it started on; the lexer's column moves past it (and past a
   * space that ended it).
   */
  lemma TokenColumns(input: string, tabsize: int, col: int, line: int, rChar: char)
    requires tabsize >= 1 && col >= 1
    requires !(rChar == EofChar && col - 1 >= |input|)
    ensures var s := NextTokenOf(input, tabsize, col, line, rChar);
      && s.token.column == col && s.token.line == line && s.token.endLine == line
      && s.token.endColumn == col + Advance(s.token.text, tabsize)
      && (s.col == s.token.endColumn
          || (s.col == s.token.endColumn + 1 && s.rChar == EofChar && 2 <= s.col <= |input| + 1 && input[s.col - 2] == ' '))
  {
    var c := if rChar == EofChar then input[col - 1] else rChar;
    StepColumns(input, tabsize, col, line, rChar, c);
  }

  /** The columns of the token made by filling from c, as TokenColumns states them. */
  lemma StepColumns(input: string, tabsize: int, col: int, line: int, rChar: char, c: char)
    requires tabsize >= 1 && col >= 1
    ensures var s := StepOf(Fill(input, tabsize, [], col, c), col, line, rChar);
      && s.token.column == col && s.token.line == line && s.token.endLine == line
      && s.token.endColumn == col + Advance(s.token.text, tabsize)
      && (s.col == s.token.endColumn
          || (s.col == s.token.endColumn + 1 && s.rChar == EofChar && 2 <= s.col <= |input| + 1 && input[s.col - 2] == ' '))
  {
    FillAdvance(input, tabsize, [], col, c);
    FillEnd(input, tabsize, [], col, c);
  }


  /** At the end of the input with nothing read ahead, the end token comes back every time. */
  lemma EndTokenRepeats(input: string, tabsize: int, col: int, line: int)
    requires tabsize >= 1 && col >= 1 && col - 1 >= |input|
    ensures var s := NextTokenOf(input, tabsize, col, line, EofChar);
      && s.token == Token(Eof, "EOF", col, line, line, col)
      && s.token.column == s.token.endColumn
      && s.col == col && s.rChar == EofChar
  {
  }

  /**
   * A read-ahead character that starts a token running into the end of the
   * input is left in place, so the next token starts with it again.
   */
  lemma StaleLookaheadRepeats(input: string, tabsize: int, col: int, line: int, rChar: char)
    requires tabsize >= 1 && col >= 1 && rChar != EofChar
    requires Fill(input, tabsize, [], col, rChar).lookahead == Unchanged
    ensures var s := NextTokenOf(input, tabsize, col, line, rChar);
      && s.rChar == rChar && s.col > col
      && NextTokenOf(input, tabsize, s.col, line, s.rChar).token.text[0] == rChar
  {
  }

  class BlueJJavaLexer {
    const input: string
    var tabsize: int
    var col: int
    var line: int
    var rChar: char
    var newline: bool
    var tab: bool
    var textBuffer: string

    /** The tab size is positive, the column is a position in the reader, and no flag is left raised. */
    ghost predicate Valid()
      reads this
    {
      tabsize >= 1 && col >= 1 && line >= 1 && !newline && !tab
    }

    /** A lexer over the text, starting at the given reader position, on line 1. */
    constructor (input: string, position: nat)
      ensures Valid() && this.input == input
      ensures col == position + 1 && line == 1 && rChar == EofChar && tabsize == 8 && textBuffer == []
    {
      this.input := input;
      tabsize := 8;
      col := position + 1;
      line := 1;
      rChar := EofChar;
      newline := false;
      tab := false;
      textBuffer := [];
    }

    /** The tab size; a tab of size zero or less could never move the column on. */
    method SetTabSize(size: int)
      requires Valid() && size >= 1
      modifies this
      ensures Valid() && tabsize == size
      ensures col == old(col) && line == old(line) && rChar == old(rChar) && textBuffer == old(textBuffer)
    {
      tabsize := size;
    }

    /** The character at a position of the reader, or none past the end. */
    function ReadChar(position: int): (r: Option<char>)
      ensures r.Some? <==> 0 <= position < |input|
      ensures r.Some? ==> r.value == input[position]
    {
      if 0 <= position < |input| then Some(input[position]) else None
    }

    /** The next token, as NextTokenOf describes it. */
    method NextToken() returns (tok: Token)
      requires Valid()
      modifies this
      ensures Valid() && tabsize == old(tabsize) && line == old(line)
      ensures var s := NextTokenOf(input, old(tabsize), old(col), old(line), old(rChar));
        tok == s.token && col == s.col && rChar == s.rChar && textBuffer == s.text
    {
      var nextChar := rChar;
      if rChar == EofChar {
        var r := ReadChar(col - 1);
        if r.None? {
          tok := ProcessEndOfReader();
          return;
        }
        nextChar := r.value;
      }
      ghost var before := NextTokenOf(input, tabsize, col, line, rChar);
      assert before == StepOf(Fill(input, tabsize, [], col, nextChar), col, line, rChar);
      tok := CreateToken(nextChar);
    }

    /** Consumes one character onto the buffer: a tab moves the column by the tab size. */
    method Consume(c: char)
      modifies this
      ensures textBuffer == old(textBuffer) + [c] && col == old(col) + Width(c, tabsize)
      ensures tabsize == old(tabsize) && line == old(line) && rChar == old(rChar)
      ensures newline == old(newline) && tab == old(tab)
    {
      textBuffer := textBuffer + [c];
      if c == '\t' {
        col := col + tabsize;
      } else {
        col := col + 1;
      }
    }

    /** Builds one token starting with nextChar, and moves past it. */
    method CreateToken(nextChar: char) returns (tok: Token)
      requires Valid()
      modifies this
      ensures Valid() && tabsize == old(tabsize) && line == old(line)
      ensures var s := StepOf(Fill(input, tabsize, [], old(col), nextChar), old(col), old(line), old(rChar));
        tok == s.token && col == s.col && rChar == s.rChar && textBuffer == s.text
    {
      var bCol := col;
      var bLine := line;
      var whitespace := PopulateTextBuffer(nextChar);
      var kind := GetTokenType(nextChar);
      FlagsNeverRaised(input, tabsize, bCol, nextChar);
      AdjustColLineNums();
      tok := MakeToken(kind, textBuffer, bCol, col, bLine, line, whitespace);
    }

    /** The token's end column is one less than the lexer's when a space ended it. */
    static function MakeToken(kind: TokenKind, text: string, beginCol: int, col: int, beginLine: int, line: int, whitespace: bool): (t: Token)
      ensures t.endColumn == if whitespace then col - 1 else col
    {
      Token(kind, text, beginCol, beginLine, line, if whitespace then col - 1 else col)
    }

    /** Types the finished buffer; a slash escape raises the newline or tab flag. */
    method GetTokenType(ch: char) returns (kind: TokenKind)
      requires |textBuffer| >= 1 && textBuffer[0] == ch
      modifies this
      ensures textBuffer == old(textBuffer) && col == old(col) && line == old(line)
      ensures kind == TokenType(textBuffer)
      ensures newline == (old(newline) || SetsNewline(textBuffer)) && tab == (old(tab) || SetsTab(textBuffer))
      ensures tabsize == old(tabsize) && rChar == old(rChar)
    {
      kind := TokenType(textBuffer);
      if SetsNewline(textBuffer) {
        newline := true;
      }
      if SetsTab(textBuffer) {
        tab := true;
      }
    }

    /** Applies the deferred flags once and lowers them. */
    method AdjustColLineNums()
      modifies this
      ensures col == if old(tab) then old(col) - 1 + tabsize else old(col)
      ensures line == if old(newline) then old(line) + 1 else old(line)
      ensures !tab && !newline
      ensures tabsize == old(tabsize) && rChar == old(rChar) && textBuffer == old(textBuffer)
    {
      if tab {
        col := col - 1 + tabsize;
        tab := false;
      }
      if newline {
        line := line + 1;
        newline := false;
      }
    }

    /** The end token, at the current column and line, with the buffer emptied. */
    method ProcessEndOfReader() returns (tok: Token)
      modifies this
      ensures tok == EndToken(col, line) && textBuffer == []
      ensures col == old(col) && line == old(line) && rChar == old(rChar) && tabsize == old(tabsize)
      ensures newline == old(newline) && tab == old(tab)
    {
      textBuffer := [];
      tok := MakeToken(Eof, "EOF", col, col, line, line, false);
    }

    /** Fills the buffer with one token starting with ch, as Fill describes; reports whether a space ended it. */
    method PopulateTextBuffer(ch: char) returns (whitespace: bool)
      requires Valid()
      modifies this
      ensures Valid() && tabsize == old(tabsize) && line == old(line)
      ensures var f := Fill(input, tabsize, [], old(col), ch);
        && textBuffer == f.text && col == f.col && whitespace == f.whitespace
        && rChar == AfterFill(f.lookahead, old(rChar))
    {
      ghost var spec := Fill(input, tabsize, [], col, ch);
      var thisChar := ch;
      textBuffer := [];
      whitespace := false;
      var complete := false;
      while !complete
        invariant Valid() && tabsize == old(tabsize) && line == old(line)
        invariant !complete ==> Fill(input, tabsize, textBuffer, col, thisChar) == spec && rChar == old(rChar) && !whitespace
        invariant complete ==> spec == Filled(textBuffer, col, whitespace, if whitespace then Cleared else Pending(rChar))
        invariant complete && whitespace ==> rChar == EofChar
        decreases |input| - col + (if complete then 0 else 2)
      {
        var prevChar := thisChar;
        ghost var before := textBuffer;
        ghost var beforeCol := col;
        Consume(thisChar);
        assert spec == Fill(input, tabsize, before, beforeCol, prevChar);
        var r := ReadChar(col - 1);
        if r.None? {
          assert spec == Filled(textBuffer, col, false, Unchanged);
          return;
        }
        thisChar := r.value;
        if thisChar == ' ' && !IsComment(textBuffer) {
          assert spec == Filled(textBuffer, col + 1, true, Cleared);
          col := col + 1;
          complete := true;
          whitespace := true;
          rChar := EofChar;
        } else if IsComplete(textBuffer, prevChar, thisChar) {
          assert spec == Filled(textBuffer, col, false, Pending(thisChar));
          complete := true;
          rChar := thisChar;
        } else {
          assert spec == Fill(input, tabsize, textBuffer, col, thisChar);
        }
      }
    }
  }
}
