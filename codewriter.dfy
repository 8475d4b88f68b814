/** The indenting writer every generated file goes through
  * (file/internal/codewriter.go): text is written line by line, each line
  * that begins while the writer is indented gets one tab per level, and a
  * section break is a newline held back until the next write. */
module CodeWriting {
  import opened Wrappers
  import opened Strings

  const Tab: char := '\t'
  const UnindentPanic := "indent mismatch: can't unindent level 0"

  // ---------------------------------------------------------------------------
  // Pieces of a write

  /** The pieces joined back together, in order. */
  function Concat(pieces: seq<string>): (s: string)
    ensures |pieces| == 1 ==> s == pieces[0]
  {
    if pieces == [] then "" else Concat(pieces[..|pieces| - 1]) + pieces[|pieces| - 1]
  }

  lemma {:induction false} ConcatCons(x: string, pieces: seq<string>)
    ensures Concat([x] + pieces) == x + Concat(pieces)
    decreases |pieces|
  {
    if pieces != [] {
      var n := |pieces|;
      assert ([x] + pieces)[..n] == [x] + pieces[..n - 1];
      ConcatCons(x, pieces[..n - 1]);
    }
  }

  lemma ConcatSnoc(pieces: seq<string>, i: nat)
    requires i < |pieces|
    ensures Concat(pieces[..i + 1]) == Concat(pieces[..i]) + pieces[i]
  {
    assert pieces[..i + 1][..i] == pieces[..i];
  }

  lemma AppendAssoc(a: string, b: string, c: string)
    ensures a + b + c == a + (b + c)
  {
  }

  /** A piece that ends a line. */
  predicate EndsLine(piece: string) {
    |piece| > 0 && piece[|piece| - 1] == '\n'
  }

  /** A piece bytes.SplitAfter can produce: no newline but possibly the
    * last character. */
  predicate IsPiece(piece: string) {
    forall k :: 0 <= k < |piece| - 1 ==> piece[k] != '\n'
  }

  /** The shape of bytes.SplitAfter's result: at least one piece, each
    * but the last ending its line, the last one not. */
  predicate WellSplit(pieces: seq<string>) {
    && |pieces| >= 1
    && (forall i :: 0 <= i < |pieces| ==> IsPiece(pieces[i]))
    && (forall i :: 0 <= i < |pieces| - 1 ==> EndsLine(pieces[i]))
    && !EndsLine(pieces[|pieces| - 1])
  }

  lemma WellSplitNewline(rest: seq<string>)
    requires WellSplit(rest)
    ensures WellSplit(["\n"] + rest)
  {
    var r := ["\n"] + rest;
    assert forall i :: 1 <= i < |r| ==> r[i] == rest[i - 1];
  }

  lemma WellSplitExtend(c: char, rest: seq<string>)
    requires c != '\n' && WellSplit(rest)
    ensures WellSplit([[c] + rest[0]] + rest[1..])
  {
    var first := [c] + rest[0];
    var r := [first] + rest[1..];
    assert forall i :: 1 <= i < |r| ==> r[i] == rest[i];
    assert IsPiece(first) by {
      forall k | 0 <= k < |first| - 1 ensures first[k] != '\n' {
        if k > 0 { assert first[k] == rest[0][k - 1]; }
      }
    }
    if |rest| > 1 {
      assert first[|first| - 1] == rest[0][|rest[0]| - 1];
    } else {
      assert |first| > 1 ==> first[|first| - 1] == rest[0][|rest[0]| - 1];
    }
  }

  /** bytes.SplitAfter(b, "\n"): the text cut after every newline; the last
    * piece is what follows the last newline, possibly empty. */
  function SplitLines(b: string): (pieces: seq<string>)
    ensures WellSplit(pieces)
    ensures Concat(pieces) == b
    decreases |b|
  {
    if b == [] then [""]
    else
      var rest := SplitLines(b[1..]);
      ConcatCons(rest[0], rest[1..]);
      assert rest == [rest[0]] + rest[1..];
      assert [b[0]] + b[1..] == b;
      if b[0] == '\n' then
        ConcatCons("\n", rest);
        WellSplitNewline(rest);
        ["\n"] + rest
      else
        var first := [b[0]] + rest[0];
        ConcatCons(first, rest[1..]);
        AppendAssoc([b[0]], rest[0], Concat(rest[1..]));
        WellSplitExtend(b[0], rest);
        [first] + rest[1..]
  }

  // ---------------------------------------------------------------------------
  // What a write emits

  /** The part of the writer's state that decides what the next write
    * emits; the zero value is a fresh writer. */
  datatype WriterState = WriterState(indentLevel: nat, hasWritten: bool, atLineStart: bool, pendingNewLine: bool)

  const Fresh := WriterState(0, false, false, false)

  function Indentation(level: nat): (s: string)
    ensures |s| == level
    ensures forall k :: 0 <= k < |s| ==> s[k] == Tab
  {
    Repeat(Tab, level)
  }

  /** One piece as the loop of Write emits it: indented when a line starts,
    * the writer is indented and the piece is longer than one byte; the
    * line-start flag is only cleared together with writing indentation. */
  function EmitPiece(level: nat, atStart: bool, piece: string): (string, bool) {
    if atStart && level > 0 && |piece| > 1 then (Indentation(level) + piece, EndsLine(piece))
    else (piece, atStart || EndsLine(piece))
  }

  /** The pieces emitted one after the other: the text and the final
    * line-start flag. */
  function EmitPieces(level: nat, atStart: bool, pieces: seq<string>): (string, bool) {
    if pieces == [] then ("", atStart)
    else
      var (out, a) := EmitPieces(level, atStart, pieces[..|pieces| - 1]);
      var (last, a') := EmitPiece(level, a, pieces[|pieces| - 1]);
      (out + last, a')
  }

  lemma EmitPiecesSnoc(level: nat, atStart: bool, pieces: seq<string>, i: nat)
    requires i < |pieces|
    ensures EmitPieces(level, atStart, pieces[..i + 1]).0
         == EmitPieces(level, atStart, pieces[..i]).0 + EmitPiece(level, EmitPieces(level, atStart, pieces[..i]).1, pieces[i]).0
    ensures EmitPieces(level, atStart, pieces[..i + 1]).1
         == EmitPiece(level, EmitPieces(level, atStart, pieces[..i]).1, pieces[i]).1
  {
    assert pieces[..i + 1][..i] == pieces[..i];
  }

  /** The newline a NewSection left pending, if any. */
  function SectionBreak(st: WriterState): string {
    if st.pendingNewLine then "\n" else ""
  }

  /** CodeWriter.Write: the text appended to the buffer and the state
    * afterwards. A writer that has never written starts at a line start. */
  function Written(st: WriterState, b: string): (string, WriterState) {
    var (out, a) := EmitPieces(st.indentLevel, !st.hasWritten || st.atLineStart, SplitLines(b));
    (SectionBreak(st) + out, WriterState(st.indentLevel, true, a, false))
  }

  // ---------------------------------------------------------------------------
  // The writer object

  class CodeWriter {
    var buf: string
    var indentLevel: nat
    var hasWritten: bool
    var atLineStart: bool
    var pendingNewLine: bool

    function State(): WriterState
      reads this
    {
      WriterState(indentLevel, hasWritten, atLineStart, pendingNewLine)
    }

    /** The zero value `var w CodeWriter`. */
    constructor ()
      ensures buf == [] && State() == Fresh
    {
      buf := [];
      indentLevel := 0;
      hasWritten := false;
      atLineStart := false;
      pendingNewLine := false;
    }

    /** One pass of Write's loop: the piece, preceded by the indentation
      * when EmitPiece calls for it. */
    method WritePiece(piece: string)
      modifies this
      ensures buf == old(buf) + EmitPiece(indentLevel, old(atLineStart), piece).0
      ensures atLineStart == EmitPiece(indentLevel, old(atLineStart), piece).1
      ensures indentLevel == old(indentLevel) && hasWritten == old(hasWritten)
      ensures pendingNewLine == old(pendingNewLine)
    {
      if atLineStart && indentLevel > 0 && |piece| > 1 {
        buf := buf + Indentation(indentLevel);
        atLineStart := false;
        buf := buf + piece;
        AppendAssoc(old(buf), Indentation(indentLevel), piece);
      } else {
        buf := buf + piece;
      }
      atLineStart := atLineStart || (|piece| > 0 && piece[|piece| - 1] == '\n');
    }

    /** Write: emits a pending section break, then each piece of b,
      * indented as EmitPiece says; the count returned is that of b's own
      * bytes, without the added indentation (bytes.Buffer never fails). */
    method Write(b: string) returns (n: int)
      modifies this
      ensures n == |b|
      ensures buf == old(buf) + Written(old(State()), b).0
      ensures State() == Written(old(State()), b).1
    {
      var pieces := SplitLines(b);
      ghost var st := State();
      ghost var start := !hasWritten || atLineStart;
      ghost var before := buf + SectionBreak(st);
      atLineStart := !hasWritten || atLineStart;
      hasWritten := true;
      if pendingNewLine {
        buf := buf + "\n";
        pendingNewLine := false;
      }
      var total := 0;
      for i := 0 to |pieces|
        invariant buf == before + EmitPieces(st.indentLevel, start, pieces[..i]).0
        invariant atLineStart == EmitPieces(st.indentLevel, start, pieces[..i]).1
        invariant total == |Concat(pieces[..i])|
        invariant hasWritten && !pendingNewLine && indentLevel == st.indentLevel
      {
        ghost var out := EmitPieces(indentLevel, start, pieces[..i]).0;
        EmitPiecesSnoc(indentLevel, start, pieces, i);
        ConcatSnoc(pieces, i);
        WritePiece(pieces[i]);
        AppendAssoc(before, out, EmitPiece(indentLevel, EmitPieces(indentLevel, start, pieces[..i]).1, pieces[i]).0);
        total := total + |pieces[i]|;
      }
      assert pieces[..|pieces|] == pieces;
      assert Written(st, b).0 == SectionBreak(st) + EmitPieces(st.indentLevel, start, pieces).0;
      AppendAssoc(old(buf), SectionBreak(st), EmitPieces(st.indentLevel, start, pieces).0);
      n := total;
    }

    method Indent()
      modifies this
      ensures indentLevel == old(indentLevel) + 1
      ensures buf == old(buf) && hasWritten == old(hasWritten)
      ensures atLineStart == old(atLineStart) && pendingNewLine == old(pendingNewLine)
    {
      indentLevel := indentLevel + 1;
    }

    /** Unindent: a panic at level 0; otherwise one level less, and a
      * pending section break is dropped. */
    method Unindent() returns (r: Result<()>)
      modifies this
      ensures old(indentLevel) == 0 <==> r == Err(UnindentPanic)
      ensures old(indentLevel) == 0 ==> State() == old(State())
      ensures r.Ok? ==> indentLevel == old(indentLevel) - 1 && !pendingNewLine
      ensures hasWritten == old(hasWritten) && atLineStart == old(atLineStart) && buf == old(buf)
    {
      if indentLevel == 0 {
        return Err(UnindentPanic);
      }
      indentLevel := indentLevel - 1;
      pendingNewLine := false;
      r := Ok(());
    }

    /** NewSection schedules a newline for the next write. */
    method NewSection()
      modifies this
      ensures pendingNewLine
      ensures buf == old(buf) && indentLevel == old(indentLevel)
      ensures hasWritten == old(hasWritten) && atLineStart == old(atLineStart)
    {
      pendingNewLine := true;
    }
  }

  // ---------------------------------------------------------------------------
  // Sequences of calls

  datatype WriterOp = WriteOp(text: string) | IndentOp | UnindentOp | NewSectionOp

  /** One call on a writer in state st: the text it appends and the new
    * state, or the panic of an Unindent at level 0. */
  function Step(st: WriterState, op: WriterOp): (r: Result<(string, WriterState)>)
    ensures r.Err? <==> op.UnindentOp? && st.indentLevel == 0
    ensures r.Ok? && !op.WriteOp? ==> r.value.0 == ""
  {
    match op
    case WriteOp(b) => Ok(Written(st, b))
    case IndentOp => Ok(("", st.(indentLevel := st.indentLevel + 1)))
    case UnindentOp =>
      if st.indentLevel == 0 then Err(UnindentPanic)
      else Ok(("", st.(indentLevel := st.indentLevel - 1, pendingNewLine := false)))
    case NewSectionOp => Ok(("", st.(pendingNewLine := true)))
  }

  /** The calls made one after the other: all the text they append and the
    * final state, or the first panic. */
  function Run(st: WriterState, ops: seq<WriterOp>): Result<(string, WriterState)>
    decreases |ops|
  {
    if ops == [] then Ok(("", st))
    else
      match Step(st, ops[0])
      case Err(m) => Err(m)
      case Ok((out, st')) =>
        match Run(st', ops[1..])
        case Err(m) => Err(m)
        case Ok((rest, st'')) => Ok((out + rest, st''))
  }

  /** A run of one call is that call. */
  lemma RunSingle(st: WriterState, op: WriterOp)
    requires Step(st, op).Ok?
    ensures Run(st, [op]) == Step(st, op)
  {
    assert [op][1..] == [];
    assert Step(st, op).value.0 + "" == Step(st, op).value.0;
  }

  /** A section break is the first thing the next write emits. */
  lemma SectionBreakComesFirst(st: WriterState, b: string)
    ensures var (out, st') := Written(st.(pendingNewLine := false), b);
            Run(st, [NewSectionOp, WriteOp(b)]) == Ok(("\n" + out, st'))
  {
    var st1 := st.(pendingNewLine := true);
    var st0 := st.(pendingNewLine := false);
    RunSingle(st1, WriteOp(b));
    assert [NewSectionOp, WriteOp(b)][1..] == [WriteOp(b)];
    assert "" + Written(st1, b).0 == Written(st1, b).0;
    var e := EmitPieces(st.indentLevel, !st.hasWritten || st.atLineStart, SplitLines(b));
    assert Written(st1, b) == ("\n" + e.0, WriterState(st.indentLevel, true, e.1, false));
    assert Written(st0, b) == ("" + e.0, WriterState(st.indentLevel, true, e.1, false));
    assert "" + e.0 == e.0;
  }

  /** An Unindent between a NewSection and the next write drops the break:
    * the calls act as if NewSection had never been called. */
  lemma UnindentCancelsSection(st: WriterState, b: string)
    requires st.indentLevel > 0
    ensures Run(st, [NewSectionOp, UnindentOp, WriteOp(b)])
         == Run(st.(pendingNewLine := false), [UnindentOp, WriteOp(b)])
  {
    var st2 := st.(indentLevel := st.indentLevel - 1, pendingNewLine := false);
    RunSingle(st2, WriteOp(b));
    assert [NewSectionOp, UnindentOp, WriteOp(b)][1..] == [UnindentOp, WriteOp(b)];
    assert [UnindentOp, WriteOp(b)][1..] == [WriteOp(b)];
    assert "" + Written(st2, b).0 == Written(st2, b).0;
    assert Run(st.(pendingNewLine := true), [UnindentOp, WriteOp(b)])
        == Run(st.(pendingNewLine := false), [UnindentOp, WriteOp(b)]);
  }

  // ---------------------------------------------------------------------------
  // Whole lines

  /** Lines, each ended by a newline. */
  function Lines(ls: seq<string>): string {
    if ls == [] then "" else ls[0] + "\n" + Lines(ls[1..])
  }

  predicate NoNewlines(ls: seq<string>) {
    forall i :: 0 <= i < |ls| ==> '\n' !in ls[i]
  }

  /** The lines as a writer at the given level should emit them: a line
    * with text gets one tab per level, an empty line none. */
  function IndentedLines(level: nat, ls: seq<string>): string {
    if ls == [] then ""
    else (if ls[0] == "" then "" else Indentation(level)) + ls[0] + "\n" + IndentedLines(level, ls[1..])
  }

  lemma {:induction false} SplitLinesNoNewline(x: string)
    requires '\n' !in x
    ensures SplitLines(x) == [x]
    decreases |x|
  {
    if x != [] {
      assert x[0] != '\n' && '\n' !in x[1..];
      SplitLinesNoNewline(x[1..]);
      assert [x[0]] + x[1..] == x;
      assert SplitLines(x) == [[x[0]] + x[1..]] + [];
    }
  }

  lemma {:induction false} SplitLinesLine(x: string, rest: string)
    requires '\n' !in x
    ensures SplitLines(x + "\n" + rest) == [x + "\n"] + SplitLines(rest)
    decreases |x|
  {
    var b := x + "\n" + rest;
    if x == [] {
      assert b[0] == '\n' && b[1..] == rest && x + "\n" == "\n";
    } else {
      assert b[0] == x[0] && b[1..] == x[1..] + "\n" + rest;
      SplitLinesLine(x[1..], rest);
      assert [x[0]] + (x[1..] + "\n") == x + "\n";
    }
  }

  lemma {:induction false} EmitPiecesCons(level: nat, a: bool, p: string, ps: seq<string>)
    ensures var (o, a1) := EmitPiece(level, a, p);
            EmitPieces(level, a, [p] + ps) == (o + EmitPieces(level, a1, ps).0, EmitPieces(level, a1, ps).1)
    decreases |ps|
  {
    var q := [p] + ps;
    var (o, a1) := EmitPiece(level, a, p);
    if ps != [] {
      var init := ps[..|ps| - 1];
      assert q[..|q| - 1] == [p] + init;
      EmitPiecesCons(level, a, p, init);
      var (o', a2) := EmitPieces(level, a1, init);
      AppendAssoc(o, o', EmitPiece(level, a2, ps[|ps| - 1]).0);
    } else {
      assert q[..|q| - 1] == [];
      assert "" + o == o + "";
    }
  }

  /** A whole line written at a line start. */
  lemma LineEmitted(level: nat, x: string)
    requires '\n' !in x
    ensures EmitPiece(level, true, x + "\n") == ((if x == "" then "" else Indentation(level)) + x + "\n", true)
  {
    if x == "" {
      assert "" + x + "\n" == "\n";
    } else if level == 0 {
      assert Indentation(level) + x + "\n" == x + "\n";
    } else {
      AppendAssoc(Indentation(level), x, "\n");
    }
  }

  lemma {:induction false} WholeLinesEmitted(level: nat, ls: seq<string>)
    requires NoNewlines(ls)
    ensures EmitPieces(level, true, SplitLines(Lines(ls))) == (IndentedLines(level, ls), true)
    decreases |ls|
  {
    if ls == [] {
      assert SplitLines("") == [""];
    } else {
      assert NoNewlines(ls[1..]) by {
        forall i | 0 <= i < |ls| - 1 ensures '\n' !in ls[1..][i] { assert ls[1..][i] == ls[i + 1]; }
      }
      var x := ls[0];
      assert '\n' !in x;
      assert Lines(ls) == x + "\n" + Lines(ls[1..]);
      SplitLinesLine(x, Lines(ls[1..]));
      EmitPiecesCons(level, true, x + "\n", SplitLines(Lines(ls[1..])));
      WholeLinesEmitted(level, ls[1..]);
      var pre := if x == "" then "" else Indentation(level);
      LineEmitted(level, x);
      assert IndentedLines(level, ls) == pre + x + "\n" + IndentedLines(level, ls[1..]);
    }
  }

  /** Writing whole lines at a line start emits every line with text
    * indented by the current level and leaves the writer at a line start;
    * the byte count Write returns is that of the lines alone. */
  lemma WholeLinesAreIndented(st: WriterState, ls: seq<string>)
    requires NoNewlines(ls)
    requires !st.hasWritten || st.atLineStart
    ensures Written(st, Lines(ls))
         == (SectionBreak(st) + IndentedLines(st.indentLevel, ls), WriterState(st.indentLevel, true, true, false))
  {
    WholeLinesEmitted(st.indentLevel, ls);
  }

  /** A single whole line written at a line start. */
  lemma LineWritten(st: WriterState, x: string)
    requires '\n' !in x
    requires !st.hasWritten || st.atLineStart
    ensures Written(st, x + "\n")
         == (SectionBreak(st) + ((if x == "" then "" else Indentation(st.indentLevel)) + x + "\n"),
             WriterState(st.indentLevel, true, true, false))
  {
    WholeLinesAreIndented(st, [x]);
    assert [x][1..] == [];
    assert Lines([x]) == x + "\n";
    assert IndentedLines(st.indentLevel, [x]) == (if x == "" then "" else Indentation(st.indentLevel)) + x + "\n";
  }

  lemma RunCons(st: WriterState, op: WriterOp, ops: seq<WriterOp>)
    requires Step(st, op).Ok? && Run(Step(st, op).value.1, ops).Ok?
    ensures var (out, st') := Step(st, op).value;
            Run(st, [op] + ops) == Ok((out + Run(st', ops).value.0, Run(st', ops).value.1))
  {
    assert ([op] + ops)[0] == op && ([op] + ops)[1..] == ops;
  }

  /** The writes of TestCodeWriter, one at a time: the text written, the
    * level it is written at and what the writer emits for it. */
  lemma RootWritten(s0: WriterState, b: string, b': string)
    requires s0 == WriterState(0, true, true, false)
    requires b == "root\n" && b' == "root again\n"
    ensures Written(Fresh, b) == (b, s0) && Written(s0, b') == (b', s0)
  {
    LineWritten(Fresh, "root");
    LineWritten(s0, "root again");
    assert Indentation(0) == "";
    assert "root" + "\n" == b && "" + ("" + "root" + "\n") == b;
    assert "root again" + "\n" == b' && "" + ("" + "root again" + "\n") == b';
  }

  lemma ChildrenWritten(s1: WriterState, b: string, out: string, b': string, out': string)
    requires s1 == WriterState(1, true, true, false)
    requires b == "child 1\nchild 2\n" && out == "\tchild 1\n\tchild 2\n"
    requires b' == "child 3\n" && out' == "\tchild 3\n"
    ensures Written(s1, b) == (out, s1) && Written(s1, b') == (out', s1)
  {
    TwoChildrenWritten(s1, b, out);
    LineWritten(s1, "child 3");
    assert Indentation(1) == "\t";
    assert "child 3" + "\n" == b' && "" + ("\t" + "child 3" + "\n") == out';
  }

  lemma TwoChildrenWritten(s1: WriterState, b: string, out: string)
    requires s1 == WriterState(1, true, true, false)
    requires b == "child 1\nchild 2\n" && out == "\tchild 1\n\tchild 2\n"
    ensures Written(s1, b) == (out, s1)
  {
    var two := ["child 1", "child 2"];
    WholeLinesAreIndented(s1, two);
    TwoChildLines(two, b, out);
    assert SectionBreak(s1) + out == out;
  }

  lemma TwoChildLines(two: seq<string>, b: string, out: string)
    requires two == ["child 1", "child 2"]
    requires b == "child 1\nchild 2\n" && out == "\tchild 1\n\tchild 2\n"
    ensures Lines(two) == b && IndentedLines(1, two) == out
  {
    assert Indentation(1) == "\t";
    assert two[1..] == ["child 2"] && two[1..][1..] == [];
    assert Lines(two[1..]) == "child 2" + "\n" + "";
    assert Lines(two) == "child 1" + "\n" + ("child 2" + "\n" + "");
    assert IndentedLines(1, two[1..]) == "\t" + "child 2" + "\n" + "";
    assert IndentedLines(1, two) == "\t" + "child 1" + "\n" + ("\t" + "child 2" + "\n" + "");
  }

  lemma GrandchildWritten(s2: WriterState, b: string, out: string)
    requires s2 == WriterState(2, true, true, false)
    requires b == "grandchild\n" && out == "\t\tgrandchild\n"
    ensures Written(s2, b) == (out, s2)
  {
    LineWritten(s2, "grandchild");
    assert Indentation(2) == "\t\t";
    assert "grandchild" + "\n" == b && "" + ("\t\t" + "grandchild" + "\n") == out;
  }

  /** TestCodeWriter: whole lines written at changing levels. */
  lemma NestedLinesAreIndented(ops: seq<WriterOp>, expected: string)
    requires ops == [WriteOp("root\n"), IndentOp, WriteOp("child 1\nchild 2\n"), IndentOp,
                     WriteOp("grandchild\n"), UnindentOp, WriteOp("child 3\n"), UnindentOp,
                     WriteOp("root again\n")]
    requires expected == "root\n" + "\tchild 1\n\tchild 2\n" + "\t\tgrandchild\n" + "\tchild 3\n" + "root again\n"
    ensures Run(Fresh, ops) == Ok((expected, WriterState(0, true, true, false)))
  {
    var s0, s1, s2 := WriterState(0, true, true, false), WriterState(1, true, true, false), WriterState(2, true, true, false);
    var b1, b2, b3, b4, b5 := "root\n", "child 1\nchild 2\n", "grandchild\n", "child 3\n", "root again\n";
    var o2, o3, o4 := "\tchild 1\n\tchild 2\n", "\t\tgrandchild\n", "\tchild 3\n";
    assert ops == [WriteOp(b1)] + ([IndentOp] + ([WriteOp(b2)] + ([IndentOp] + ([WriteOp(b3)] + ([UnindentOp]
                    + ([WriteOp(b4)] + ([UnindentOp] + [WriteOp(b5)])))))));
    assert b1 + ("" + (o2 + ("" + (o3 + ("" + (o4 + ("" + b5))))))) == expected by {
      NoEmptyPieces(b1, o2, o3, o4, b5);
    }
    RootWritten(s0, b1, b5);
    ChildrenWritten(s1, b2, o2, b4, o4);
    GrandchildWritten(s2, b3, o3);
    NestedRun(s0, s1, s2, b1, b2, b3, b4, b5, o2, o3, o4);
  }

  /** The calls that emit nothing drop out of a run's output. */
  lemma NoEmptyPieces(a: string, b: string, c: string, d: string, e: string)
    ensures a + ("" + (b + ("" + (c + ("" + (d + ("" + e))))))) == a + b + c + d + e
  {
    assert "" + e == e;
    assert "" + (d + e) == d + e;
    assert "" + (c + (d + e)) == c + (d + e);
    assert "" + (b + (c + (d + e))) == b + (c + (d + e));
  }

  /** The run of TestCodeWriter, call by call from the last, over the
    * outputs of its writes. */
  lemma NestedRun(s0: WriterState, s1: WriterState, s2: WriterState,
                  b1: string, b2: string, b3: string, b4: string, b5: string, o2: string, o3: string, o4: string)
    requires s0 == WriterState(0, true, true, false) && s1 == s0.(indentLevel := 1) && s2 == s0.(indentLevel := 2)
    requires Written(Fresh, b1) == (b1, s0) && Written(s1, b2) == (o2, s1) && Written(s2, b3) == (o3, s2)
    requires Written(s1, b4) == (o4, s1) && Written(s0, b5) == (b5, s0)
    ensures Run(Fresh, [WriteOp(b1)] + ([IndentOp] + ([WriteOp(b2)] + ([IndentOp] + ([WriteOp(b3)] + ([UnindentOp]
                         + ([WriteOp(b4)] + ([UnindentOp] + [WriteOp(b5)]))))))))
         == Ok((b1 + ("" + (o2 + ("" + (o3 + ("" + (o4 + ("" + b5))))))), s0))
  {
    var r8 := [WriteOp(b5)];
    RunSingle(s0, WriteOp(b5));
    var r7 := [UnindentOp] + r8;
    RunCons(s1, UnindentOp, r8);
    var r6 := [WriteOp(b4)] + r7;
    RunCons(s1, WriteOp(b4), r7);
    var r5 := [UnindentOp] + r6;
    RunCons(s2, UnindentOp, r6);
    var r4 := [WriteOp(b3)] + r5;
    RunCons(s2, WriteOp(b3), r5);
    var r3 := [IndentOp] + r4;
    RunCons(s1, IndentOp, r4);
    var r2 := [WriteOp(b2)] + r3;
    RunCons(s1, WriteOp(b2), r3);
    var r1 := [IndentOp] + r2;
    RunCons(s0, IndentOp, r2);
    RunCons(Fresh, WriteOp(b1), r1);
  }

  // ---------------------------------------------------------------------------
  // Indentation as intended, and the corrected writer

  /** Reference: the text with one tab per level put before every character
    * that starts a line and is not itself a newline (an empty line stays
    * empty), and whether the text ends at a line start. */
  function Indented(level: nat, atStart: bool, s: string): (string, bool)
    decreases |s|
  {
    if s == [] then ("", atStart)
    else
      var pre := if atStart && level > 0 && s[0] != '\n' then Indentation(level) else "";
      var (rest, a) := Indented(level, s[0] == '\n', s[1..]);
      (pre + ([s[0]] + rest), a)
  }

  /** Inside a piece no line starts, so nothing is indented. */
  lemma {:induction false} NoIndentInside(level: nat, s: string)
    requires IsPiece(s)
    ensures Indented(level, false, s) == (s, EndsLine(s))
    decreases |s|
  {
    if s != [] {
      if |s| == 1 {
        assert s[1..] == [] && [s[0]] + "" == s && "" + s == s;
        assert EndsLine(s) == (s[0] == '\n');
      } else {
        assert s[0] != '\n';
        assert IsPiece(s[1..]) by {
          forall k | 0 <= k < |s[1..]| - 1 ensures s[1..][k] != '\n' { assert s[1..][k] == s[k + 1]; }
        }
        NoIndentInside(level, s[1..]);
        assert s[1..][|s[1..]| - 1] == s[|s| - 1];
        assert "" + ([s[0]] + s[1..]) == s;
      }
    }
  }

  /** One piece as the loop should emit it: indented at a line start unless
    * it is empty or a bare newline, and the line-start flag follows the
    * piece's end whenever the piece has any byte. */
  function EmitPieceFixed(level: nat, atStart: bool, piece: string): (string, bool) {
    var out := if atStart && level > 0 && piece != "" && piece != "\n" then Indentation(level) + piece else piece;
    (out, if piece == "" then atStart else EndsLine(piece))
  }

  function EmitPiecesFixed(level: nat, atStart: bool, pieces: seq<string>): (string, bool) {
    if pieces == [] then ("", atStart)
    else
      var (out, a) := EmitPiecesFixed(level, atStart, pieces[..|pieces| - 1]);
      var (last, a') := EmitPieceFixed(level, a, pieces[|pieces| - 1]);
      (out + last, a')
  }

  /** The corrected piece rule is the reference on every piece. */
  lemma PieceFixed(level: nat, atStart: bool, p: string)
    requires IsPiece(p)
    ensures EmitPieceFixed(level, atStart, p) == Indented(level, atStart, p)
  {
    if p != [] {
      NoIndentInside(level, p[1..]) by {
        forall k | 0 <= k < |p[1..]| - 1 ensures p[1..][k] != '\n' { assert p[1..][k] == p[k + 1]; }
      }
      var pre := if atStart && level > 0 && p[0] != '\n' then Indentation(level) else "";
      assert [p[0]] + p[1..] == p;
      if p[0] == '\n' {
        assert |p| == 1 && p == "\n";
        assert p[1..] == "" && "" + p == p;
      } else {
        assert p != "\n";
        assert Indented(level, atStart, p) == (pre + ([p[0]] + p[1..]), EndsLine(p[1..]));
        if |p| > 1 {
          assert p[1..][|p[1..]| - 1] == p[|p| - 1];
        } else {
          assert !EndsLine(p) && p[1..] == "";
        }
        if pre == "" {
          assert "" + p == p;
        }
      }
    }
  }

  /** The reference over two texts one after the other. */
  lemma {:induction false} IndentedAppend(level: nat, atStart: bool, x: string, y: string)
    ensures var (ox, ax) := Indented(level, atStart, x);
            Indented(level, atStart, x + y) == (ox + Indented(level, ax, y).0, Indented(level, ax, y).1)
    decreases |x|
  {
    if x == [] {
      assert x + y == y && "" + Indented(level, atStart, y).0 == Indented(level, atStart, y).0;
    } else {
      assert (x + y)[0] == x[0] && (x + y)[1..] == x[1..] + y;
      IndentedAppend(level, x[0] == '\n', x[1..], y);
      var pre := if atStart && level > 0 && x[0] != '\n' then Indentation(level) else "";
      var (rx, ax) := Indented(level, x[0] == '\n', x[1..]);
      var oy := Indented(level, ax, y).0;
      calc {
        pre + ([x[0]] + (rx + oy));
        { AppendAssoc([x[0]], rx, oy); }
        pre + ([x[0]] + rx + oy);
        { AppendAssoc(pre, [x[0]] + rx, oy); }
        pre + ([x[0]] + rx) + oy;
      }
    }
  }

  lemma {:induction false} PiecesFixed(level: nat, atStart: bool, pieces: seq<string>)
    requires forall i :: 0 <= i < |pieces| ==> IsPiece(pieces[i])
    ensures EmitPiecesFixed(level, atStart, pieces) == Indented(level, atStart, Concat(pieces))
    decreases |pieces|
  {
    if pieces != [] {
      var init := pieces[..|pieces| - 1];
      var last := pieces[|pieces| - 1];
      PiecesFixed(level, atStart, init);
      var a := EmitPiecesFixed(level, atStart, init).1;
      PieceFixed(level, a, last);
      IndentedAppend(level, atStart, Concat(init), last);
    }
  }

  /** Write as intended: what it appends and the state afterwards. */
  function CorrectedWritten(st: WriterState, b: string): (string, WriterState) {
    var (out, a) := EmitPiecesFixed(st.indentLevel, !st.hasWritten || st.atLineStart, SplitLines(b));
    (SectionBreak(st) + out, WriterState(st.indentLevel, true, a, false))
  }

  /** The corrected write emits the reference indentation of its text,
    * however bytes.SplitAfter cut it. */
  lemma CorrectedWriteIsIndented(st: WriterState, b: string)
    ensures var (out, a) := Indented(st.indentLevel, !st.hasWritten || st.atLineStart, b);
            CorrectedWritten(st, b) == (SectionBreak(st) + out, WriterState(st.indentLevel, true, a, false))
  {
    var level, start := st.indentLevel, !st.hasWritten || st.atLineStart;
    var pieces := SplitLines(b);
    assert forall i :: 0 <= i < |pieces| ==> IsPiece(pieces[i]);
    PiecesFixed(level, start, pieces);
    assert EmitPiecesFixed(level, start, pieces) == Indented(level, start, b);
  }

  /** With the correction, two writes emit what one write of both texts
    * emits: how the text is cut into writes no longer matters. */
  lemma CorrectedWritesCompose(st: WriterState, b: string, b': string)
    ensures var (out1, st1) := CorrectedWritten(st, b);
            var (out2, st2) := CorrectedWritten(st1, b');
            CorrectedWritten(st, b + b') == (out1 + out2, st2)
  {
    var level, start := st.indentLevel, !st.hasWritten || st.atLineStart;
    var (o1, a1) := Indented(level, start, b);
    var (o2, a2) := Indented(level, a1, b');
    var st1 := WriterState(level, true, a1, false);
    CorrectedWriteIsIndented(st, b);
    assert CorrectedWritten(st, b) == (SectionBreak(st) + o1, st1);
    CorrectedWriteIsIndented(st1, b');
    assert CorrectedWritten(st1, b') == ("" + o2, WriterState(level, true, a2, false));
    CorrectedWriteIsIndented(st, b + b');
    IndentedAppend(level, start, b, b');
    assert CorrectedWritten(st, b + b') == (SectionBreak(st) + (o1 + o2), WriterState(level, true, a2, false));
    assert "" + o2 == o2;
    AppendAssoc(SectionBreak(st), o1, o2);
  }

  /** Whole lines at a line start are the reference indentation. */
  lemma {:induction false} IndentedLinesReference(level: nat, ls: seq<string>)
    requires NoNewlines(ls)
    ensures Indented(level, true, Lines(ls)) == (IndentedLines(level, ls), true)
    decreases |ls|
  {
    if ls != [] {
      var x := ls[0];
      assert '\n' !in x;
      assert NoNewlines(ls[1..]) by {
        forall i | 0 <= i < |ls| - 1 ensures '\n' !in ls[1..][i] { assert ls[1..][i] == ls[i + 1]; }
      }
      IndentedLinesReference(level, ls[1..]);
      SplitLinesNoNewline(x);
      PieceFixed(level, true, x + "\n") by {
        forall k | 0 <= k < |x + "\n"| - 1 ensures (x + "\n")[k] != '\n' { assert (x + "\n")[k] == x[k]; }
      }
      IndentedAppend(level, true, x + "\n", Lines(ls[1..]));
      if x == "" {
        assert x + "\n" == "\n";
      } else {
        assert x + "\n" != "\n" by { assert |x + "\n"| > 1; }
        AppendAssoc(Indentation(level), x, "\n");
      }
      assert Lines(ls) == x + "\n" + Lines(ls[1..]);
    }
  }

  /** On whole lines written at a line start the source's Write already
    * behaves as intended. */
  lemma AsWrittenAgreesOnWholeLines(st: WriterState, ls: seq<string>)
    requires NoNewlines(ls)
    requires !st.hasWritten || st.atLineStart
    ensures Written(st, Lines(ls)) == CorrectedWritten(st, Lines(ls))
  {
    WholeLinesAreIndented(st, ls);
    CorrectedWriteIsIndented(st, Lines(ls));
    IndentedLinesReference(st.indentLevel, ls);
  }

  /** A write with no newline: a single piece. */
  lemma PartialLineWritten(st: WriterState, x: string)
    requires '\n' !in x
    ensures var (out, a) := EmitPiece(st.indentLevel, !st.hasWritten || st.atLineStart, x);
            Written(st, x) == (SectionBreak(st) + out, WriterState(st.indentLevel, true, a, false))
  {
    SplitLinesNoNewline(x);
    var (out, a) := EmitPiece(st.indentLevel, !st.hasWritten || st.atLineStart, x);
    assert [x][..0] == [];
    assert EmitPieces(st.indentLevel, !st.hasWritten || st.atLineStart, [x]) == ("" + out, a);
    assert "" + out == out;
  }

  /** Where the source's Write differs: at level 1 and a line start, a
    * closing brace written on its own and then its newline come out
    * unindented, while the same line written at once is indented. */
  lemma SplitLineLosesIndent(st: WriterState, x: string, nl: string)
    requires st == WriterState(1, true, true, false) && x == "}" && nl == "\n"
    ensures Written(st, x).0 + Written(Written(st, x).1, nl).0 == "}\n"
    ensures Written(st, x + nl).0 == "\t}\n"
  {
    PartialLineWritten(st, x);
    assert EmitPiece(1, true, x) == (x, true);
    assert Written(st, x) == ("" + x, st);
    LineWritten(st, "");
    assert "" + "\n" == nl && "" + ("" + "" + "\n") == nl;
    LineWritten(st, x);
    assert Indentation(1) == "\t";
    assert x + nl == "}\n" && "" + ("\t" + x + "\n") == "\t}\n";
  }

  /** The corrected writer gives a line cut before its newline the
    * indentation it gives the whole line. */
  lemma CorrectedCutLine(st: WriterState, x: string, nl: string)
    requires '\n' !in x && nl == "\n"
    requires !st.hasWritten || st.atLineStart
    ensures CorrectedWritten(st, x).0 + CorrectedWritten(CorrectedWritten(st, x).1, nl).0
         == SectionBreak(st) + ((if x == "" then "" else Indentation(st.indentLevel)) + x + "\n")
  {
    CorrectedWritesCompose(st, x, nl);
    AsWrittenAgreesOnWholeLines(st, [x]);
    assert Lines([x]) == x + nl by { assert [x][1..] == []; }
    LineWritten(st, x);
  }

  /** The corrected writer indents that line however it is cut. */
  lemma CorrectedSplitLineKeepsIndent(st: WriterState, x: string, nl: string)
    requires st == WriterState(1, true, true, false) && x == "}" && nl == "\n"
    ensures CorrectedWritten(st, x).0 + CorrectedWritten(CorrectedWritten(st, x).1, nl).0 == "\t}\n"
  {
    CorrectedCutLine(st, x, nl);
    var line := Indentation(1) + x + "\n";
    assert line == "\t}\n" by {
      assert Indentation(1) == "\t";
      assert |line| == 3 && line[0] == '\t' && line[1] == '}' && line[2] == '\n';
    }
    assert "" + line == line;
  }
}
