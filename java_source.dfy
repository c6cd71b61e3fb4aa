/**
 * The Java text generated from a Stride frame
 * (bluej/stride/framedjava/ast/JavaSource.java): a list of source lines, each
 * an indent and a list of code fragments, which is assembled into the file's
 * text, grown by the builders of methods and compound statements, and
 * searched for the fragment that should show a compiler error.
 *
 * A fragment is represented by its Java code; what it answers about an error
 * position (checkCompileError) is the `check` function given to FindError.
 * Source lines are objects shared between lists, so indenting one list
 * indents every list holding the same line.
 */
module JavaSource {
  import opened Strings

  /** A piece of generated code that belongs to one slot or frame. */
  class Fragment {
    const code: string

    constructor (code: string)
      ensures this.code == code
    {
      this.code := code;
    }
  }

  /** Shows the debugger on one line; only its identity matters here. */
  class DebugHandler {
    constructor ()
    {
    }
  }

  class SourceLine {
    var indent: string
    const content: seq<Fragment>
    const debugHandler: DebugHandler?
    const breakpoint: bool

    constructor (indent: string, content: seq<Fragment>, debugHandler: DebugHandler?, breakpoint: bool)
      ensures this.indent == indent && this.content == content
      ensures this.debugHandler == debugHandler && this.breakpoint == breakpoint
    {
      this.indent := indent;
      this.content := content;
      this.debugHandler := debugHandler;
      this.breakpoint := breakpoint;
    }

    /**
     * The checked construction: a missing indent or content, or a missing
     * fragment in the content, is rejected.
     */
    static method Checked(indent: Option<string>, content: Option<seq<Fragment?>>, debugHandler: DebugHandler?, breakpoint: bool)
      returns (r: Option<SourceLine>)
      ensures r.Some? <==> indent.Some? && content.Some? && null !in content.value
      ensures r.Some? ==> fresh(r.value) && r.value.indent == indent.value && r.value.content == content.value
      ensures r.Some? ==> r.value.debugHandler == debugHandler && r.value.breakpoint == breakpoint
    {
      if indent.None? || content.None? {
        return None;
      }
      var fragments: seq<Fragment> := [];
      var i := 0;
      while i < |content.value|
        invariant 0 <= i <= |content.value|
        invariant fragments == content.value[..i]
      {
        var f := content.value[i];
        if f == null {
          return None;
        }
        fragments := fragments + [f];
        i := i + 1;
      }
      assert null !in content.value by {
        assert content.value == fragments;
      }
      var line := new SourceLine(indent.value, fragments, debugHandler, breakpoint);
      return Some(line);
    }
  }

  /** A string of n spaces. */
  function Spaces(n: nat): (r: string)
    ensures |r| == n && forall i :: 0 <= i < n ==> r[i] == ' '
  {
    if n == 0 then "" else Spaces(n - 1) + " "
  }

  /** Each line of orig is indented four spaces beyond its original indent per count. */
  ghost predicate IndentedBy(orig: map<SourceLine, string>, counted: multiset<SourceLine>)
    reads orig.Keys
  {
    forall l :: l in orig ==> l.indent == orig[l] + Spaces(4 * counted[l])
  }

  /** Four more spaces of indent. */
  lemma SpacesGrow(n: nat)
    ensures Spaces(n) + "    " == Spaces(n + 4)
  {
  }

  /** The code of the fragments, one after another. */
  function Codes(fs: seq<Fragment>): (r: string)
    decreases |fs|
  {
    if |fs| == 0 then "" else Codes(fs[..|fs| - 1]) + fs[|fs| - 1].code
  }

  /** The code of a prefix of the fragments is a prefix of their code. */
  lemma {:induction false} CodesPrefix(fs: seq<Fragment>, k: nat)
    requires k <= |fs|
    ensures |Codes(fs[..k])| <= |Codes(fs)| && Codes(fs)[..|Codes(fs[..k])|] == Codes(fs[..k])
    decreases |fs| - k
  {
    if k < |fs| {
      CodesPrefix(fs[..|fs| - 1], k);
      assert fs[..|fs| - 1][..k] == fs[..k];
    } else {
      assert fs[..k] == fs;
    }
  }

  /** Fragment j's code sits in the line's code right after the code of the fragments before it. */
  lemma CodeOfFragment(fs: seq<Fragment>, j: int)
    requires 0 <= j < |fs|
    ensures |Codes(fs[..j])| + |fs[j].code| <= |Codes(fs)|
    ensures Codes(fs)[|Codes(fs[..j])|..|Codes(fs[..j])| + |fs[j].code|] == fs[j].code
  {
    assert fs[..j + 1][..j] == fs[..j];
    CodesPrefix(fs, j + 1);
  }

  /** A line's text without its newline: indent, then the fragments' code. */
  function LineText(l: SourceLine): string
    reads l
  {
    l.indent + Codes(l.content)
  }

  /** The whole text (toJavaCodeString): each line's text followed by "\n". */
  function Text(ls: seq<SourceLine>): (r: string)
    reads ls
    ensures |r| >= |ls|
    decreases |ls|
  {
    if |ls| == 0 then "" else Text(ls[..|ls| - 1]) + LineText(ls[|ls| - 1]) + "\n"
  }

  /** The fragments of all lines in order (getAllFragments). */
  function AllFragments(ls: seq<SourceLine>): (r: seq<Fragment>)
    decreases |ls|
  {
    if |ls| == 0 then [] else AllFragments(ls[..|ls| - 1]) + ls[|ls| - 1].content
  }

  /** Where a fragment was put: offset in the text, 1-based line and column, length. */
  datatype Record = Record(fragment: Fragment, pos: int, line: int, column: int, len: int)

  /** The records of one line, whose text starts at offset base. */
  function LineRecords(l: SourceLine, base: int, lineNumber: int): (r: seq<Record>)
    reads l
    ensures |r| == |l.content|
  {
    var width := |l.indent|;
    seq(|l.content|, j requires 0 <= j < |l.content| =>
      var col := width + |Codes(l.content[..j])|;
      Record(l.content[j], base + col, lineNumber, col + 1, |l.content[j].code|))
  }

  /** The records of every fragment, line after line. */
  function Records(ls: seq<SourceLine>): (r: seq<Record>)
    reads ls
    ensures |r| == |AllFragments(ls)|
    decreases |ls|
  {
    if |ls| == 0 then []
    else
      var front := ls[..|ls| - 1];
      Records(front) + LineRecords(ls[|ls| - 1], |Text(front)|, |ls|)
  }

  /** The k-th record is that of the k-th fragment of the lines, and spans its code. */
  lemma {:induction false} RecordsFollowFragments(ls: seq<SourceLine>, k: int)
    requires 0 <= k < |Records(ls)|
    ensures Records(ls)[k].fragment == AllFragments(ls)[k]
    ensures Records(ls)[k].len == |AllFragments(ls)[k].code|
    decreases |ls|
  {
    var front := ls[..|ls| - 1];
    var l := ls[|ls| - 1];
    assert Records(ls) == Records(front) + LineRecords(l, |Text(front)|, |ls|);
    assert AllFragments(ls) == AllFragments(front) + l.content;
    if k < |Records(front)| {
      RecordsFollowFragments(front, k);
    }
  }

  /** Where a record of the lines puts its fragment: in its line, at its column, over its code. */
  predicate Locates(ls: seq<SourceLine>, rec: Record)
    reads ls
  {
    && 1 <= rec.line <= |ls|
    && rec.pos == |Text(ls[..rec.line - 1])| + rec.column - 1
    && 0 <= rec.pos && 0 <= rec.len && rec.pos + rec.len <= |Text(ls)|
    && Text(ls)[rec.pos..rec.pos + rec.len] == rec.fragment.code
  }

  /**
   * Every record points at its fragment's code in the text, on the line it
   * names: the column counts from the start of that line.
   */
  lemma {:induction false} RecordsLocateCode(ls: seq<SourceLine>, k: int)
    requires 0 <= k < |Records(ls)|
    ensures Locates(ls, Records(ls)[k])
    decreases |ls|
  {
    var front := ls[..|ls| - 1];
    var n := |Records(front)|;
    if k < n {
      RecordsLocateCode(front, k);
      FrontRecordStillLocates(ls, Records(front)[k]);
      assert Records(ls)[k] == Records(front)[k];
    } else {
      RecordInLastLine(ls, k - n);
    }
  }

  /** A record of the lines but the last still locates its fragment once the last line is added. */
  lemma FrontRecordStillLocates(ls: seq<SourceLine>, rec: Record)
    requires |ls| > 0 && Locates(ls[..|ls| - 1], rec)
    ensures Locates(ls, rec)
  {
    var front := ls[..|ls| - 1];
    assert front[..rec.line - 1] == ls[..rec.line - 1];
    assert Text(ls) == Text(front) + LineText(ls[|ls| - 1]) + "\n";
    assert Text(ls)[rec.pos..rec.pos + rec.len] == Text(front)[rec.pos..rec.pos + rec.len];
  }

  /** The records of the last line locate their fragments. */
  lemma RecordInLastLine(ls: seq<SourceLine>, j: int)
    requires |ls| > 0 && 0 <= j < |ls[|ls| - 1].content|
    ensures |Records(ls)| == |Records(ls[..|ls| - 1])| + |ls[|ls| - 1].content|
    ensures Locates(ls, Records(ls)[|Records(ls[..|ls| - 1])| + j])
  {
    var front := ls[..|ls| - 1];
    var l := ls[|ls| - 1];
    LastLineRecord(ls, j);
    LastLineCode(ls, j);
    var rec := Records(ls)[|Records(front)| + j];
    var col := |l.indent| + |Codes(l.content[..j])|;
    assert rec == Record(l.content[j], |Text(front)| + col, |ls|, col + 1, |l.content[j].code|);
    assert ls[..rec.line - 1] == front;
  }

  /** The record of fragment j of the last line is the j-th of that line's records. */
  lemma LastLineRecord(ls: seq<SourceLine>, j: int)
    requires |ls| > 0 && 0 <= j < |ls[|ls| - 1].content|
    ensures |Records(ls)| == |Records(ls[..|ls| - 1])| + |ls[|ls| - 1].content|
    ensures Records(ls)[|Records(ls[..|ls| - 1])| + j] == LineRecords(ls[|ls| - 1], |Text(ls[..|ls| - 1])|, |ls|)[j]
  {
    var front := ls[..|ls| - 1];
    assert Records(ls) == Records(front) + LineRecords(ls[|ls| - 1], |Text(front)|, |ls|);
  }

  /** The code of fragment j of the last line sits in the text after the earlier lines, the indent and the earlier fragments. */
  lemma LastLineCode(ls: seq<SourceLine>, j: int)
    requires |ls| > 0 && 0 <= j < |ls[|ls| - 1].content|
    ensures var l := ls[|ls| - 1];
      var base := |Text(ls[..|ls| - 1])| + |l.indent| + |Codes(l.content[..j])|;
      base + |l.content[j].code| <= |Text(ls)| && Text(ls)[base..base + |l.content[j].code|] == l.content[j].code
  {
    var front := ls[..|ls| - 1];
    var l := ls[|ls| - 1];
    CodeOfFragment(l.content, j);
    var c := |Codes(l.content[..j])|;
    var code := l.content[j].code;
    var base := |Text(front)| + |l.indent|;
    var t := Text(front) + (l.indent + Codes(l.content)) + "\n";
    assert Text(ls) == t;
    assert t[base + c..base + c + |code|] == Codes(l.content)[c..c + |code|];
  }

  /** The first fragment whose code holds a line break, or -1. */
  function FirstBreak(fs: seq<Fragment>): (r: int)
    ensures -1 <= r < |fs|
    ensures r >= 0 ==> HasBreak(fs[r].code) && forall j :: 0 <= j < r ==> !HasBreak(fs[j].code)
    ensures r == -1 <==> forall j :: 0 <= j < |fs| ==> !HasBreak(fs[j].code)
    decreases |fs|
  {
    if |fs| == 0 then -1
    else
      var p := FirstBreak(fs[..|fs| - 1]);
      if p >= 0 then p else if HasBreak(fs[|fs| - 1].code) then |fs| - 1 else -1
  }

  predicate HasBreak(code: string)
  {
    '\n' in code || '\r' in code
  }

  /** The records and the fragments of a prefix of the lines are prefixes of those of all lines. */
  lemma {:induction false} PrefixOfLines(ls: seq<SourceLine>, m: nat)
    requires m <= |ls|
    ensures AllFragments(ls[..m]) <= AllFragments(ls)
    ensures Records(ls[..m]) <= Records(ls)
    decreases |ls| - m
  {
    if m < |ls| {
      var front := ls[..|ls| - 1];
      PrefixOfLines(front, m);
      assert front[..m] == ls[..m];
    } else {
      assert ls[..m] == ls;
    }
  }

  /** How an error position relates to a fragment (JavaFragment.ErrorRelation). */
  datatype ErrorRelation = BeforeFragment | OverlapsFragment | AfterFragment | CannotShow

  /** The error position handed to checkCompileError. */
  datatype Span = Span(startLine: int, startColumn: int, endLine: int, endColumn: int)

  type Check = (Fragment, int, int, int, int) -> ErrorRelation

  function Relation(check: Check, span: Span, f: Fragment): ErrorRelation
  {
    check(f, span.startLine, span.startColumn, span.endLine, span.endColumn)
  }

  /** The fragment can show the error. */
  predicate Showable(check: Check, span: Span, f: Fragment)
  {
    Relation(check, span, f) != CannotShow
  }

  /** The fragment ends a scan of a line: it can show the error, and the error is not after it. */
  predicate Stops(check: Check, span: Span, f: Fragment)
  {
    Showable(check, span, f) && Relation(check, span, f) != AfterFragment
  }

  /** The index of the last fragment that can show the error, or -1. */
  function LastShowable(fs: seq<Fragment>, check: Check, span: Span): (r: int)
    ensures -1 <= r < |fs|
    ensures r >= 0 ==> Showable(check, span, fs[r])
    ensures forall j :: r < j < |fs| ==> !Showable(check, span, fs[j])
    decreases |fs|
  {
    if |fs| == 0 then -1
    else if Showable(check, span, fs[|fs| - 1]) then |fs| - 1
    else LastShowable(fs[..|fs| - 1], check, span)
  }

  /** The index of the first fragment that stops the scan, or -1. */
  function FirstStop(fs: seq<Fragment>, check: Check, span: Span): (r: int)
    ensures -1 <= r < |fs|
    ensures r >= 0 ==> Stops(check, span, fs[r])
    ensures forall j :: 0 <= j < |fs| && (r == -1 || j < r) ==> !Stops(check, span, fs[j])
    decreases |fs|
  {
    if |fs| == 0 then -1
    else
      var p := FirstStop(fs[..|fs| - 1], check, span);
      if p >= 0 then p else if Stops(check, span, fs[|fs| - 1]) then |fs| - 1 else -1
  }

  /**
   * The fragment of a line chosen for an error: the first that can show it
   * and that it is not after; but when that one reports the error before it,
   * the latest fragment before it that can show the error (which reports the
   * error after itself).  When every fragment that can show the error has it
   * after itself, the last of them; none when no fragment can show it.
   */
  function InLine(fs: seq<Fragment>, check: Check, span: Span): (r: Option<Fragment>)
    ensures r.Some? ==> r.value in fs && Showable(check, span, r.value)
    ensures r.None? <==> forall j :: 0 <= j < |fs| ==> !Showable(check, span, fs[j])
  {
    var k := FirstStop(fs, check, span);
    if k >= 0 then
      var p := LastShowable(fs[..k], check, span);
      if Relation(check, span, fs[k]) == BeforeFragment && p >= 0 then Some(fs[p]) else Some(fs[k])
    else
      var p := LastShowable(fs, check, span);
      if p >= 0 then Some(fs[p]) else None
  }

  /** The last fragment of the last line that has one able to show the error. */
  function LastShowableInLines(ls: seq<SourceLine>, check: Check, span: Span): (r: Option<Fragment>)
    ensures r.Some? ==> r.value in AllFragments(ls) && Showable(check, span, r.value)
    ensures r.None? <==> forall f :: f in AllFragments(ls) ==> !Showable(check, span, f)
    decreases |ls|
  {
    if |ls| == 0 then None
    else
      var front := ls[..|ls| - 1];
      var content := ls[|ls| - 1].content;
      var p := LastShowable(content, check, span);
      if p >= 0 then Some(content[p]) else
        assert forall f :: f in content ==> !Showable(check, span, f);
        LastShowableInLines(front, check, span)
  }

  /** What FindError reports: a fragment, none (null), or an index error thrown by the list. */
  datatype Located = Shown(fragment: Fragment) | NoFragment | LineIndexError

  function FromOption(o: Option<Fragment>): Located
  {
    if o.Some? then Shown(o.value) else NoFragment
  }

  /** The search of lines 0 to i looks at line i first and falls back to the lines before it. */
  lemma LastShowableInLinesStep(ls: seq<SourceLine>, i: int, check: Check, span: Span)
    requires 0 <= i < |ls|
    ensures var p := LastShowable(ls[i].content, check, span);
      LastShowableInLines(ls[..i + 1], check, span) ==
        if p >= 0 then Some(ls[i].content[p]) else LastShowableInLines(ls[..i], check, span)
  {
    var front := ls[..i + 1];
    assert front[..i] == ls[..i] && front[i] == ls[i];
  }

  /** FindError never chooses a fragment that cannot show the error. */
  lemma NeverCannotShow(ls: seq<SourceLine>, line: int, check: Check, span: Span)
    requires 0 <= line < |ls|
    ensures InLine(ls[line].content, check, span).Some? ==> Relation(check, span, InLine(ls[line].content, check, span).value) != CannotShow
    ensures LastShowableInLines(ls, check, span).Some? ==> Relation(check, span, LastShowableInLines(ls, check, span).value) != CannotShow
  {
  }

  /** Within a line, the choice is a BEFORE fragment only when no fragment before it could show the error. */
  lemma BeforeOnlyWithoutEarlierShowable(fs: seq<Fragment>, check: Check, span: Span)
    requires InLine(fs, check, span).Some?
    requires Relation(check, span, InLine(fs, check, span).value) == BeforeFragment
    ensures exists k :: (0 <= k < |fs| && fs[k] == InLine(fs, check, span).value &&
      forall j :: 0 <= j < k ==> !Showable(check, span, fs[j]))
  {
    var k := FirstStop(fs, check, span);
    var p := if k >= 0 then LastShowable(fs[..k], check, span) else LastShowable(fs, check, span);
    // any other choice would be a fragment that reports the error after itself
    assert k >= 0 && p == -1;
    forall j | 0 <= j < k
      ensures !Showable(check, span, fs[j])
    {
      assert fs[..k][j] == fs[j];
    }
  }

  class JavaSource {
    var lines: seq<SourceLine>

    /** A source of one line: the given fragments with no indent. */
    constructor (debugHandler: DebugHandler?, line: seq<Fragment>)
      ensures |lines| == 1 && fresh(lines[0])
      ensures lines[0].indent == "" && lines[0].content == line
      ensures lines[0].debugHandler == debugHandler && !lines[0].breakpoint
    {
      var l := new SourceLine("", line, debugHandler, false);
      lines := [l];
    }

    /** A shallow copy: the same line objects. */
    constructor Copy(copyFrom: JavaSource)
      ensures lines == copyFrom.lines
    {
      lines := copyFrom.lines;
    }

    method AppendLine(line: seq<Fragment>, debugHandler: DebugHandler?)
      modifies this
      ensures |lines| == |old(lines)| + 1 && lines[..|old(lines)|] == old(lines)
      ensures var l := lines[|lines| - 1];
        fresh(l) && l.indent == "" && l.content == line && l.debugHandler == debugHandler && !l.breakpoint
    {
      var l := new SourceLine("", line, debugHandler, false);
      lines := lines + [l];
    }

    method PrependLine(line: seq<Fragment>, debugHandler: DebugHandler?)
      modifies this
      ensures |lines| == |old(lines)| + 1 && lines[1..] == old(lines)
      ensures fresh(lines[0]) && lines[0].indent == "" && lines[0].content == line
      ensures lines[0].debugHandler == debugHandler && !lines[0].breakpoint
    {
      var l := new SourceLine("", line, debugHandler, false);
      lines := [l] + lines;
    }

    /** Puts the lines of another source in front. */
    method Prepend(src: JavaSource)
      modifies this
      ensures lines == old(src.lines) + old(lines)
    {
      lines := src.lines + lines;
    }

    /** Puts the lines of another source at the end. */
    method Appened(src: JavaSource)
      modifies this
      ensures lines == old(lines) + old(src.lines)
    {
      lines := lines + src.lines;
    }

    /**
     * Indents every line of another source by four spaces, once for each time
     * the line occurs in that source, then appends those lines.
     */
    method AddIndented(src: JavaSource)
      modifies this, src.lines
      ensures lines == old(lines) + old(src.lines)
      ensures forall l :: l in old(src.lines) ==> l.indent == old(l.indent) + Spaces(4 * multiset(old(src.lines))[l])
    {
      var srcLines := src.lines;
      ghost var orig: map<SourceLine, string> := map l | l in srcLines :: l.indent;
      var i := 0;
      while i < |srcLines|
        invariant 0 <= i <= |srcLines|
        invariant lines == old(lines) && src.lines == srcLines
        invariant IndentedBy(orig, multiset(srcLines[..i]))
      {
        IndentLine(srcLines, i, orig);
        i := i + 1;
      }
      assert srcLines[..i] == srcLines;
      Appened(src);
    }

    /** One step of AddIndented: line i gets four more spaces, one more for its count so far. */
    static method IndentLine(srcLines: seq<SourceLine>, i: int, ghost orig: map<SourceLine, string>)
      requires 0 <= i < |srcLines|
      requires IndentedBy(orig, multiset(srcLines[..i]))
      modifies srcLines[i]
      ensures IndentedBy(orig, multiset(srcLines[..i + 1]))
    {
      var line := srcLines[i];
      assert srcLines[..i + 1] == srcLines[..i] + [line];
      SpacesGrow(4 * multiset(srcLines[..i])[line]);
      line.indent := line.indent + "    ";
      forall l | l in orig
        ensures l.indent == orig[l] + Spaces(4 * multiset(srcLines[..i + 1])[l])
      {
        if l != line {
          assert l.indent == old(l.indent);
        }
      }
    }

    /** Appends the fragment on a line of its own, indented once (through AddIndented). */
    method AppendIndentedLine(fragment: Fragment, debugHandler: DebugHandler?)
      modifies this
      ensures |lines| == |old(lines)| + 1 && lines[..|old(lines)|] == old(lines)
      ensures var l := lines[|lines| - 1];
        fresh(l) && l.indent == "    " && l.content == [fragment] && l.debugHandler == debugHandler && !l.breakpoint
    {
      var tail := new JavaSource(debugHandler, [fragment]);
      SpacesGrow(0);
      AddIndented(tail);
    }

    /** Puts one unindented line per javadoc line in front, in their original order. */
    method PrependJavadoc(javadocLines: seq<string>)
      modifies this
      ensures |lines| == |javadocLines| + |old(lines)| && lines[|javadocLines|..] == old(lines)
      ensures forall i :: 0 <= i < |javadocLines| ==> fresh(lines[i]) && PlainLine(lines[i], javadocLines[i], null) && fresh(lines[i].content[0])
    {
      var i := |javadocLines|;
      while i > 0
        invariant 0 <= i <= |javadocLines|
        invariant |lines| == |javadocLines| - i + |old(lines)| && lines[|javadocLines| - i..] == old(lines)
        invariant forall k :: 0 <= k < |javadocLines| - i ==>
          fresh(lines[k]) && PlainLine(lines[k], javadocLines[i + k], null) && fresh(lines[k].content[0])
      {
        i := i - 1;
        var f := new Fragment(javadocLines[i]);
        PrependLine([f], null);
      }
    }

    /**
     * A method: the javadoc lines, the header line, "{", the lines of each
     * body source indented, and "}" (which carries the method's handler).
     */
    static method CreateMethod(debugHandler: DebugHandler?, documentation: seq<string>, header: seq<Fragment>, contents: seq<JavaSource>)
      returns (parent: JavaSource)
      modifies BodyLines(contents)
      ensures fresh(parent)
      ensures
        var n := |documentation|;
        var body := Flatten(old(Bodies(contents)));
        && |parent.lines| == n + |body| + 3
        && (forall i :: 0 <= i < n ==> fresh(parent.lines[i]) && PlainLine(parent.lines[i], documentation[i], null))
        && fresh(parent.lines[n]) && parent.lines[n].indent == "" && parent.lines[n].content == header
        && parent.lines[n].debugHandler == debugHandler && !parent.lines[n].breakpoint
        && fresh(parent.lines[n + 1]) && PlainLine(parent.lines[n + 1], "{", null)
        && parent.lines[n + 2..n + 2 + |body|] == body
        && fresh(parent.lines[n + 2 + |body|]) && PlainLine(parent.lines[n + 2 + |body|], "}", debugHandler)
      ensures forall j, l :: 0 <= j < |contents| && l in old(contents[j].lines) ==>
        l.indent == old(l.indent) + Spaces(4 * multiset(Flatten(old(Bodies(contents))))[l])
    {
      BodyLinesAllocated(contents);
      ghost var body: seq<SourceLine> := Flatten(Bodies(contents));
      parent := MethodHead(debugHandler, documentation, header);
      ghost var prefix := parent.lines;
      IndentAll(parent, contents);
      assert parent.lines == prefix + body;
      CloseBlock(parent, debugHandler, None, null);
      assert parent.lines[..|prefix|] == prefix;
    }

    /** The javadoc lines, the header line and "{": the lines CreateMethod puts before the body. */
    static method MethodHead(debugHandler: DebugHandler?, documentation: seq<string>, header: seq<Fragment>)
      returns (parent: JavaSource)
      ensures fresh(parent)
      ensures
        var n := |documentation|;
        && |parent.lines| == n + 2
        && (forall i :: 0 <= i < n ==> fresh(parent.lines[i]) && PlainLine(parent.lines[i], documentation[i], null))
        && fresh(parent.lines[n]) && parent.lines[n].indent == "" && parent.lines[n].content == header
        && parent.lines[n].debugHandler == debugHandler && !parent.lines[n].breakpoint
        && fresh(parent.lines[n + 1]) && PlainLine(parent.lines[n + 1], "{", null)
    {
      parent := new JavaSource(debugHandler, header);
      parent.PrependJavadoc(documentation);
      var open := new Fragment("{");
      parent.AppendLine([open], null);
    }

    /**
     * A compound statement: the header with " {" appended, the lines of each
     * body source indented, "}", then the footer, if any, indented on a line
     * of its own with the header's handler.
     */
    static method CreateCompoundStatement(headerDebugHandler: DebugHandler?, header: seq<Fragment>, contents: seq<JavaSource>, footer: Option<Fragment>)
      returns (parent: JavaSource)
      modifies BodyLines(contents)
      ensures fresh(parent)
      ensures
        var body := Flatten(old(Bodies(contents)));
        && |parent.lines| == |body| + 2 + (if footer.Some? then 1 else 0)
        && fresh(parent.lines[0]) && parent.lines[0].indent == "" && |parent.lines[0].content| == |header| + 1
        && parent.lines[0].content[..|header|] == header && parent.lines[0].content[|header|].code == " {"
        && parent.lines[0].debugHandler == headerDebugHandler && !parent.lines[0].breakpoint
        && parent.lines[1..1 + |body|] == body
        && fresh(parent.lines[1 + |body|]) && PlainLine(parent.lines[1 + |body|], "}", null)
        && (footer.Some? ==>
          var last := parent.lines[2 + |body|];
          fresh(last) && last.indent == "    " && last.content == [footer.value]
          && last.debugHandler == headerDebugHandler && !last.breakpoint)
      ensures forall j, l :: 0 <= j < |contents| && l in old(contents[j].lines) ==>
        l.indent == old(l.indent) + Spaces(4 * multiset(Flatten(old(Bodies(contents))))[l])
    {
      BodyLinesAllocated(contents);
      ghost var body: seq<SourceLine> := Flatten(Bodies(contents));
      parent := CompoundHead(headerDebugHandler, header);
      ghost var first := parent.lines[0];
      IndentAll(parent, contents);
      assert first.indent == "";
      ghost var mid := parent.lines;
      assert mid == [first] + body;
      CloseBlock(parent, null, footer, headerDebugHandler);
      assert parent.lines[..|mid|] == mid;
      assert parent.lines[1..1 + |body|] == mid[1..];
    }

    /** The header with " {" appended, unindented: the first line of a compound statement. */
    static method CompoundHead(headerDebugHandler: DebugHandler?, header: seq<Fragment>) returns (parent: JavaSource)
      ensures fresh(parent) && |parent.lines| == 1 && fresh(parent.lines[0])
      ensures parent.lines[0].indent == "" && |parent.lines[0].content| == |header| + 1
      ensures parent.lines[0].content[..|header|] == header && parent.lines[0].content[|header|].code == " {"
      ensures parent.lines[0].debugHandler == headerDebugHandler && !parent.lines[0].breakpoint
    {
      var brace := new Fragment(" {");
      parent := new JavaSource(headerDebugHandler, header + [brace]);
      assert parent.lines[0].content[..|header|] == header;
    }

    /**
     * The end of a block: "}" with the given handler, then the footer, if
     * any, indented on a line of its own with the footer's handler.
     */
    static method CloseBlock(parent: JavaSource, closeHandler: DebugHandler?, footer: Option<Fragment>, footerHandler: DebugHandler?)
      modifies parent
      ensures |parent.lines| == |old(parent.lines)| + 1 + (if footer.Some? then 1 else 0)
      ensures parent.lines[..|old(parent.lines)|] == old(parent.lines)
      ensures forall l: SourceLine | old(allocated(l)) :: l.indent == old(l.indent)
      ensures fresh(parent.lines[|old(parent.lines)|]) && PlainLine(parent.lines[|old(parent.lines)|], "}", closeHandler)
      ensures footer.Some? ==>
        var last := parent.lines[|old(parent.lines)| + 1];
        fresh(last) && last.indent == "    " && last.content == [footer.value]
        && last.debugHandler == footerHandler && !last.breakpoint
    {
      var close := new Fragment("}");
      parent.AppendLine([close], closeHandler);
      if footer.Some? {
        ghost var mid := parent.lines;
        parent.AppendIndentedLine(footer.value, footerHandler);
        assert parent.lines[..|mid|] == mid;
      }
    }

    /** The loop of the builders: each body source indented and appended in turn. */
    static method IndentAll(parent: JavaSource, contents: seq<JavaSource>)
      requires parent !in contents
      modifies parent, BodyLines(contents)
      ensures parent.lines == old(parent.lines) + Flatten(old(Bodies(contents)))
      ensures forall j, l :: 0 <= j < |contents| && l in old(contents[j].lines) ==>
        l.indent == old(l.indent) + Spaces(4 * multiset(Flatten(old(Bodies(contents))))[l])
    {
      ghost var bodies: seq<seq<SourceLine>> := Bodies(contents);
      ghost var orig: map<SourceLine, string> := map l | l in Flatten(bodies) :: l.indent;
      ghost var counted: multiset<SourceLine> := multiset{};
      var i := 0;
      while i < |contents|
        invariant 0 <= i <= |contents|
        invariant parent.lines == old(parent.lines) + Flatten(bodies[..i])
        invariant counted == multiset(Flatten(bodies[..i]))
        invariant forall j :: 0 <= j < |contents| ==> contents[j].lines == bodies[j]
        invariant IndentedBy(orig, counted)
      {
        var src := contents[i];
        FlattenStep(bodies, i);
        assert forall l :: l in src.lines ==> l in old(BodyLines(contents));
        IndentNext(parent, src, orig, counted);
        counted := counted + multiset(bodies[i]);
        i := i + 1;
      }
      assert bodies[..i] == bodies;
      FlattenMembers(bodies);
    }

    /**
     * One step of IndentAll: the lines of src are indented and appended, so
     * each line's indent grows by four spaces per occurrence in src.
     */
    static method IndentNext(parent: JavaSource, src: JavaSource, ghost orig: map<SourceLine, string>, ghost counted: multiset<SourceLine>)
      requires IndentedBy(orig, counted)
      modifies parent, src.lines
      ensures parent.lines == old(parent.lines) + old(src.lines)
      ensures IndentedBy(orig, counted + multiset(old(src.lines)))
    {
      parent.AddIndented(src);
      forall l | l in orig
        ensures l.indent == orig[l] + Spaces(4 * (counted + multiset(old(src.lines)))[l])
      {
        if l in old(src.lines) {
          SpacesAdd(4 * counted[l], 4 * multiset(old(src.lines))[l]);
        }
      }
    }

    /** The 1-based numbers of the lines that carry a breakpoint, in increasing order. */
    method RegisterBreakpoints() returns (reported: seq<int>)
      ensures forall k :: k in reported <==> 1 <= k <= |lines| && lines[k - 1].breakpoint
      ensures forall a, b :: 0 <= a < b < |reported| ==> reported[a] < reported[b]
    {
      reported := [];
      var i := 0;
      while i < |lines|
        invariant 0 <= i <= |lines|
        invariant forall k :: k in reported <==> 1 <= k <= i && lines[k - 1].breakpoint
        invariant forall a, b :: 0 <= a < b < |reported| ==> reported[a] < reported[b]
        invariant forall a :: 0 <= a < |reported| ==> reported[a] <= i
      {
        if lines[i].breakpoint {
          reported := reported + [i + 1];
        }
        i := i + 1;
      }
    }

    /**
     * Assembles the text.  Every fragment's position is recorded as it is
     * reached; a fragment whose code holds a line break is recorded and then
     * stops the assembly with an error (None).
     */
    method ToJavaCodeString() returns (r: Option<string>, recorded: seq<Record>)
      ensures r.Some? <==> FirstBreak(AllFragments(lines)) == -1
      ensures r.Some? ==> r.value == Text(lines) && recorded == Records(lines)
      ensures r.None? ==> recorded == Records(lines)[..FirstBreak(AllFragments(lines)) + 1]
    {
      r, recorded := Assemble(lines);
    }

    /** The outer loop of ToJavaCodeString: the lines one after another, up to the first line break. */
    static method Assemble(ls: seq<SourceLine>) returns (r: Option<string>, recorded: seq<Record>)
      ensures r.Some? <==> FirstBreak(AllFragments(ls)) == -1
      ensures r.Some? ==> r.value == Text(ls) && recorded == Records(ls)
      ensures r.None? ==> recorded == Records(ls)[..FirstBreak(AllFragments(ls)) + 1]
    {
      var source := "";
      recorded := [];
      var i := 0;
      while i < |ls|
        invariant 0 <= i <= |ls|
        invariant source == Text(ls[..i]) && recorded == Records(ls[..i])
        invariant FirstBreak(AllFragments(ls[..i])) == -1
      {
        var oneLine, lineRecords, broken := AssembleNext(ls, i, source, recorded);
        if broken {
          return None, recorded + lineRecords;
        }
        recorded := recorded + lineRecords;
        source := source + oneLine + "\n";
        i := i + 1;
      }
      assert ls[..i] == ls;
      return Some(source), recorded;
    }

    /** One step of Assemble: line i, and whether its fragments hold the first line break. */
    static method AssembleNext(ls: seq<SourceLine>, i: int, source: string, recorded: seq<Record>)
      returns (oneLine: string, lineRecords: seq<Record>, broken: bool)
      requires 0 <= i < |ls|
      requires source == Text(ls[..i]) && recorded == Records(ls[..i])
      requires FirstBreak(AllFragments(ls[..i])) == -1
      ensures !broken ==> FirstBreak(AllFragments(ls[..i + 1])) == -1
      ensures !broken ==> recorded + lineRecords == Records(ls[..i + 1]) && source + oneLine + "\n" == Text(ls[..i + 1])
      ensures broken ==> FirstBreak(AllFragments(ls)) >= 0
      ensures broken ==> recorded + lineRecords == Records(ls)[..FirstBreak(AllFragments(ls)) + 1]
    {
      var j;
      oneLine, lineRecords, j := AssembleLine(ls[i], |source|, i + 1);
      broken := j >= 0;
      if broken {
        BreakStopsAssembly(ls, i, j, recorded, lineRecords);
      } else {
        NextLineClean(ls, i, recorded, lineRecords);
      }
    }

    /**
     * The inner loop of ToJavaCodeString: one line's text and records, up to
     * and including its first fragment with a line break (whose index is
     * returned, or -1).
     */
    static method AssembleLine(line: SourceLine, sourceLength: int, lineNumber: int)
      returns (oneLine: string, recorded: seq<Record>, broken: int)
      ensures broken == FirstBreak(line.content)
      ensures broken == -1 ==> oneLine == LineText(line) && recorded == LineRecords(line, sourceLength, lineNumber)
      ensures broken >= 0 ==> recorded == LineRecords(line, sourceLength, lineNumber)[..broken + 1]
    {
      oneLine := line.indent;
      recorded := [];
      var j := 0;
      while j < |line.content|
        invariant 0 <= j <= |line.content|
        invariant oneLine == line.indent + Codes(line.content[..j])
        invariant recorded == LineRecords(line, sourceLength, lineNumber)[..j]
        invariant forall m :: 0 <= m < j ==> !HasBreak(line.content[m].code)
      {
        var fragment := line.content[j];
        var lineLength := |oneLine|;
        recorded := recorded + [Record(fragment, sourceLength + lineLength, lineNumber, lineLength + 1, |fragment.code|)];
        assert recorded == LineRecords(line, sourceLength, lineNumber)[..j + 1];
        if HasBreak(fragment.code) {
          return oneLine, recorded, j;
        }
        assert line.content[..j + 1][..j] == line.content[..j];
        oneLine := oneLine + fragment.code;
        j := j + 1;
      }
      assert line.content[..j] == line.content;
      return oneLine, recorded, -1;
    }

    /**
     * The fragment that should show a compiler error.  A start line just past
     * the last line is moved onto it.  A start line of -1, or at or past the
     * number of lines (which includes the last line itself), gives no fragment
     * unless forced; forced, the last fragment of the whole source that can
     * show the error.  Otherwise the choice of InLine on that line; a start
     * line below 1 (other than -1) makes the list throw.
     */
    method FindError(startLine: int, startColumn: int, endLine: int, endColumn: int, force: bool, check: Check)
      returns (r: Located)
      ensures
        var s := if startLine == |lines| + 1 then startLine - 1 else startLine;
        var span := Span(s, startColumn, endLine, endColumn);
        if s >= |lines| || s == -1 then
          r == (if force then FromOption(LastShowableInLines(lines, check, span)) else NoFragment)
        else if s < 1 then
          r == LineIndexError
        else
          r == FromOption(InLine(lines[s - 1].content, check, span))
    {
      var line := startLine;
      if line == |lines| + 1 {
        line := line - 1;
      }
      var span := Span(line, startColumn, endLine, endColumn);
      if line >= |lines| || line == -1 {
        if !force {
          return NoFragment;
        }
        r := LastShowableLine(lines, check, span);
        return;
      }
      if line < 1 {
        return LineIndexError;
      }
      r := ScanLine(lines[line - 1].content, check, span);
    }

    /** The forced search: from the last line backwards, the last fragment of a line that can show the error. */
    static method LastShowableLine(ls: seq<SourceLine>, check: Check, span: Span) returns (r: Located)
      ensures r == FromOption(LastShowableInLines(ls, check, span))
    {
      var i := |ls| - 1;
      assert ls[..i + 1] == ls;
      while i >= 0
        invariant -1 <= i < |ls|
        invariant LastShowableInLines(ls, check, span) == LastShowableInLines(ls[..i + 1], check, span)
      {
        LastShowableInLinesStep(ls, i, check, span);
        var j := LastShowableIndex(ls[i].content, check, span);
        if j >= 0 {
          return Shown(ls[i].content[j]);
        }
        i := i - 1;
      }
      assert ls[..i + 1] == [];
      return NoFragment;
    }

    /** The inner backward loop of the forced search: the last fragment of a line that can show the error. */
    static method LastShowableIndex(frags: seq<Fragment>, check: Check, span: Span) returns (j: int)
      ensures j == LastShowable(frags, check, span)
    {
      j := |frags| - 1;
      while j >= 0
        invariant -1 <= j < |frags|
        invariant LastShowable(frags, check, span) == LastShowable(frags[..j + 1], check, span)
      {
        assert frags[..j + 1][..j] == frags[..j];
        if check(frags[j], span.startLine, span.startColumn, span.endLine, span.endColumn) != CannotShow {
          return;
        }
        j := j - 1;
      }
    }

    /** The scan of the error's line, keeping the latest fragment that can show it. */
    static method ScanLine(frags: seq<Fragment>, check: Check, span: Span) returns (r: Located)
      ensures r == FromOption(InLine(frags, check, span))
    {
      var last: Option<Fragment> := None;
      var k := 0;
      while k < |frags|
        invariant 0 <= k <= |frags|
        invariant forall j :: 0 <= j < k ==> !Stops(check, span, frags[j])
        invariant var p := LastShowable(frags[..k], check, span);
          last == if p >= 0 then Some(frags[p]) else None
      {
        var f := frags[k];
        assert frags[..k + 1][..k] == frags[..k];
        var rel := check(f, span.startLine, span.startColumn, span.endLine, span.endColumn);
        if rel != CannotShow {
          if rel == BeforeFragment && last != None {
            return Shown(last.value);
          } else if rel != AfterFragment {
            return Shown(f);
          }
          last := Some(f);
        }
        k := k + 1;
      }
      assert frags[..k] == frags;
      return FromOption(last);
    }
  }

  /** Line i's fragments and records follow those of the lines before it. */
  lemma LineOfLines(ls: seq<SourceLine>, i: int)
    requires 0 <= i < |ls|
    ensures AllFragments(ls[..i + 1]) == AllFragments(ls[..i]) + ls[i].content
    ensures Records(ls[..i + 1]) == Records(ls[..i]) + LineRecords(ls[i], |Text(ls[..i])|, i + 1)
    ensures Text(ls[..i + 1]) == Text(ls[..i]) + LineText(ls[i]) + "\n"
  {
    assert ls[..i + 1][..i] == ls[..i];
  }

  /** Assembling a line without breaks extends the text, the records and the clean prefix by that line. */
  lemma NextLineClean(ls: seq<SourceLine>, i: int, before: seq<Record>, line: seq<Record>)
    requires 0 <= i < |ls|
    requires FirstBreak(AllFragments(ls[..i])) == -1 && FirstBreak(ls[i].content) == -1
    requires before == Records(ls[..i]) && line == LineRecords(ls[i], |Text(ls[..i])|, i + 1)
    ensures FirstBreak(AllFragments(ls[..i + 1])) == -1
    ensures before + line == Records(ls[..i + 1])
    ensures Text(ls[..i + 1]) == Text(ls[..i]) + LineText(ls[i]) + "\n"
  {
    LineOfLines(ls, i);
    FirstBreakAfterClean(AllFragments(ls[..i]), ls[i].content);
  }

  /** A break in a list is the first break of any list that extends it. */
  lemma FirstBreakOfPrefix(fs: seq<Fragment>, gs: seq<Fragment>)
    requires fs <= gs && FirstBreak(fs) >= 0
    ensures FirstBreak(gs) == FirstBreak(fs)
  {
    var r := FirstBreak(fs);
    assert gs[r] == fs[r];
    assert forall j :: 0 <= j < r ==> gs[j] == fs[j];
  }

  /** After a list without breaks, the first break is the first break of what follows. */
  lemma FirstBreakAfterClean(a: seq<Fragment>, b: seq<Fragment>)
    requires FirstBreak(a) == -1
    ensures FirstBreak(b) == -1 ==> FirstBreak(a + b) == -1
    ensures FirstBreak(b) >= 0 ==> FirstBreak(a + b) == |a| + FirstBreak(b)
  {
    var ab := a + b;
    assert forall j :: 0 <= j < |a| ==> ab[j] == a[j];
    assert forall j :: |a| <= j < |ab| ==> ab[j] == b[j - |a|];
    if FirstBreak(b) >= 0 {
      var q := |a| + FirstBreak(b);
      assert HasBreak(ab[q].code);
      assert forall j :: 0 <= j < q ==> !HasBreak(ab[j].code);
    }
  }

  /** The error reported at fragment j of line i is the first line break of the whole source. */
  lemma BreakStopsAssembly(ls: seq<SourceLine>, i: int, j: int, before: seq<Record>, line: seq<Record>)
    requires 0 <= i < |ls|
    requires FirstBreak(AllFragments(ls[..i])) == -1
    requires j == FirstBreak(ls[i].content) && j >= 0
    requires before == Records(ls[..i]) && line == LineRecords(ls[i], |Text(ls[..i])|, i + 1)[..j + 1]
    ensures FirstBreak(AllFragments(ls)) == |AllFragments(ls[..i])| + j
    ensures before + line == Records(ls)[..FirstBreak(AllFragments(ls)) + 1]
  {
    BreakInLine(ls, i, j);
    LineOfLines(ls, i);
    PrefixOfLines(ls, i + 1);
    var n := |AllFragments(ls[..i])|;
    var whole := LineRecords(ls[i], |Text(ls[..i])|, i + 1);
    assert |before| == n;
    TakeOfPrefix(before + whole, Records(ls), n + j + 1);
    TakeOfAppend(before, whole, j + 1);
  }

  /** The first break of the lines is the first break of line i when the lines before it have none. */
  lemma BreakInLine(ls: seq<SourceLine>, i: int, j: int)
    requires 0 <= i < |ls|
    requires FirstBreak(AllFragments(ls[..i])) == -1
    requires j == FirstBreak(ls[i].content) && j >= 0
    ensures FirstBreak(AllFragments(ls)) == |AllFragments(ls[..i])| + j
  {
    LineOfLines(ls, i);
    PrefixOfLines(ls, i + 1);
    FirstBreakAfterClean(AllFragments(ls[..i]), ls[i].content);
    FirstBreakOfPrefix(AllFragments(ls[..i + 1]), AllFragments(ls));
  }

  /** A sequence and one that extends it agree on their first k elements. */
  lemma TakeOfPrefix(p: seq<Record>, q: seq<Record>, k: int)
    requires p <= q && 0 <= k <= |p|
    ensures q[..k] == p[..k]
  {
  }

  /** Taking past the first part of a concatenation keeps all of it. */
  lemma TakeOfAppend(a: seq<Record>, b: seq<Record>, k: int)
    requires 0 <= k <= |b|
    ensures (a + b)[..|a| + k] == a + b[..k]
  {
  }

  /** The line lists of the sources, in order. */
  ghost function Bodies(contents: seq<JavaSource>): (r: seq<seq<SourceLine>>)
    reads contents
    ensures |r| == |contents| && forall j :: 0 <= j < |contents| ==> r[j] == contents[j].lines
  {
    seq(|contents|, j requires 0 <= j < |contents| reads contents => contents[j].lines)
  }

  /** The lines of several lists, one list after another. */
  function Flatten(ss: seq<seq<SourceLine>>): (r: seq<SourceLine>)
    decreases |ss|
  {
    if |ss| == 0 then [] else Flatten(ss[..|ss| - 1]) + ss[|ss| - 1]
  }

  /** The lines of the sources, as a frame. */
  ghost function BodyLines(contents: seq<JavaSource>): set<object>
    reads contents
  {
    set l | l in Flatten(Bodies(contents))
  }

  /** The lines of the sources are allocated objects. */
  lemma BodyLinesAllocated(contents: seq<JavaSource>)
    ensures forall l :: l in Flatten(Bodies(contents)) ==> allocated(l)
  {
    var ss := Bodies(contents);
    forall l: SourceLine | l in Flatten(ss)
      ensures allocated(l)
    {
      var k := FlattenMember(ss, l);
      assert l in contents[k].lines;
    }
  }

  /** List i follows the lists before it, and its lines are among all the lines. */
  lemma FlattenStep(ss: seq<seq<SourceLine>>, i: int)
    requires 0 <= i < |ss|
    ensures Flatten(ss[..i + 1]) == Flatten(ss[..i]) + ss[i]
    ensures forall l :: l in ss[i] ==> l in Flatten(ss)
  {
    assert ss[..i + 1][..i] == ss[..i];
    FlattenPrefix(ss, i + 1);
  }

  /** A line is among the flattened lines exactly when it is in one of the lists. */
  lemma {:induction false} FlattenMembers(ss: seq<seq<SourceLine>>)
    ensures forall l :: l in Flatten(ss) <==> exists i :: 0 <= i < |ss| && l in ss[i]
    decreases |ss|
  {
    if |ss| > 0 {
      var front := ss[..|ss| - 1];
      FlattenMembers(front);
      assert forall i :: 0 <= i < |front| ==> front[i] == ss[i];
    }
  }

  /** A flattened line comes from one of the lists (whose index is returned). */
  lemma {:induction false} FlattenMember(ss: seq<seq<SourceLine>>, l: SourceLine) returns (k: int)
    requires l in Flatten(ss)
    ensures 0 <= k < |ss| && l in ss[k]
    decreases |ss|
  {
    var front := ss[..|ss| - 1];
    if l in ss[|ss| - 1] {
      k := |ss| - 1;
    } else {
      k := FlattenMember(front, l);
    }
  }

  lemma {:induction false} FlattenPrefix(ss: seq<seq<SourceLine>>, m: nat)
    requires m <= |ss|
    ensures Flatten(ss[..m]) <= Flatten(ss)
    decreases |ss| - m
  {
    if m < |ss| {
      FlattenPrefix(ss[..|ss| - 1], m);
      assert ss[..|ss| - 1][..m] == ss[..m];
    } else {
      assert ss[..m] == ss;
    }
  }

  lemma SpacesAdd(a: nat, b: nat)
    ensures Spaces(a) + Spaces(b) == Spaces(a + b)
  {
  }

  /** A line holding one fragment with the given code, no indent, the given handler and no breakpoint. */
  predicate PlainLine(l: SourceLine, code: string, debugHandler: DebugHandler?)
    reads l
  {
    |l.content| == 1 && l.content[0].code == code && l.indent == "" && l.debugHandler == debugHandler && !l.breakpoint
  }
}
