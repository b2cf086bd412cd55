/** Where the append-only renderer of TinyCTX/bridges/cli/__main__.py cuts: the blocks of a text and the rest that
    is held back are stretches of its lines, and they end at a blank line outside fences or at a closing fence. */
module MarkdownBlocks {
  import opened MarkdownStream
  import opened PythonText
  import opened Sequences

  // ----- Boundaries -----

  lemma BlankIffAllSpace(line: string)
    ensures IsBlank(line) <==> forall c <- line :: IsSpace(c)
    ensures (forall c <- line :: c in " \t\r") ==> IsBlank(line)
    ensures (exists c <- line :: '!' <= c <= '~') ==> !IsBlank(line)
  {
    var a, b := StripLeavesTheMiddle(line);
    if IsBlank(line) {
      assert line == a + b;
    } else {
      assert Strip(line)[0] in line;
    }
  }

  /** A fence may be indented. */
  lemma {:induction false} FenceIff(line: string)
    ensures IsFence(line) <==>
              exists k :: 0 <= k <= |line| && (forall i | 0 <= i < k :: IsSpace(line[i])) && "```" <= line[k..]
  {
    var k := LeftStripDrops(line);
    if j :| 0 <= j <= |line| && (forall i | 0 <= i < j :: IsSpace(line[i])) && "```" <= line[j..] {
      assert line[j] == '`' && !IsSpace('`');
      assert j == k;
    }
  }

  /** A blank line outside fences. */
  predicate Breaks(ls: seq<string>, i: nat)
    requires i < |ls|
  {
    !FenceOpen(ls[..i]) && !IsFence(ls[i]) && IsBlank(ls[i])
  }

  /** A fence that ends another one. */
  predicate Closes(ls: seq<string>, i: nat)
    requires i < |ls|
  {
    FenceOpen(ls[..i]) && IsFence(ls[i])
  }

  predicate Starts(ls: seq<string>, i: nat)
    requires i <= |ls|
  {
    i == 0 || Breaks(ls, i - 1) || Closes(ls, i - 1)
  }

  /** Some lines, from one number up to another. */
  datatype Span = Span(from: nat, to: nat)

  /** A stretch of lines from one boundary to the next, with none in between. */
  predicate IsBlock(ls: seq<string>, sp: Span) {
    sp.from < sp.to <= |ls| && Starts(ls, sp.from)
    && (forall i | sp.from <= i < sp.to :: !Breaks(ls, i))
    && (forall i | sp.from <= i < sp.to - 1 :: !Closes(ls, i))
    && (Closes(ls, sp.to - 1) || (sp.to < |ls| && Breaks(ls, sp.to)))
  }

  predicate IsBlockOf(ls: seq<string>, block: string, sp: Span) {
    IsBlock(ls, sp) && block == Unlines(ls[sp.from..sp.to])
  }

  predicate InOrder(spans: seq<Span>, cut: nat) {
    (forall i, k | 0 <= i < k < |spans| :: spans[i].to <= spans[k].from)
    && forall i | 0 <= i < |spans| :: spans[i].to <= cut
  }

  predicate InSpan(spans: seq<Span>, j: nat) {
    exists i :: 0 <= i < |spans| && spans[i].from <= j < spans[i].to
  }

  /** The blocks are those stretches, each line before the cut is in one or a blank line outside fences, and from the
      cut on there is no boundary. */
  predicate IsCut(ls: seq<string>, blocks: seq<string>, spans: seq<Span>, cut: nat) {
    |spans| == |blocks| && InOrder(spans, cut) && cut <= |ls| && Starts(ls, cut)
    && (forall i | 0 <= i < |spans| :: IsBlockOf(ls, blocks[i], spans[i]))
    && (forall j | 0 <= j < cut :: Breaks(ls, j) || InSpan(spans, j))
    && forall j | cut <= j < |ls| :: !Breaks(ls, j) && !Closes(ls, j)
  }

  // ----- One more line -----

  lemma EarlierLinesStay(ls: seq<string>, line: string)
    ensures forall i | 0 <= i < |ls| ::
              Breaks(ls + [line], i) == Breaks(ls, i) && Closes(ls + [line], i) == Closes(ls, i)
  {
    hide IsFence, IsBlank, FenceOpen;
    forall i | 0 <= i < |ls|
      ensures (ls + [line])[..i] == ls[..i]
    {}
  }

  lemma BlocksStay(ls: seq<string>, line: string, block: string, sp: Span)
    requires IsBlockOf(ls, block, sp)
    ensures IsBlockOf(ls + [line], block, sp)
  {
    hide Breaks, Closes, Unlines;
    EarlierLinesStay(ls, line);
    assert (ls + [line])[sp.from..sp.to] == ls[sp.from..sp.to];
  }

  /** The line goes on with the stretch that is being read. */
  lemma LineGoesOn(ls: seq<string>, line: string, blocks: seq<string>, spans: seq<Span>, cut: nat)
    requires IsCut(ls, blocks, spans, cut)
    requires !Breaks(ls + [line], |ls|) && !Closes(ls + [line], |ls|)
    ensures IsCut(ls + [line], blocks, spans, cut)
  {
    hide Breaks, Closes, IsBlockOf, InSpan;
    EarlierLinesStay(ls, line);
    forall i | 0 <= i < |spans|
      ensures IsBlockOf(ls + [line], blocks[i], spans[i])
    {
      BlocksStay(ls, line, blocks[i], spans[i]);
    }
  }

  /** A blank line is passed over. */
  lemma LineIsPassed(ls: seq<string>, line: string, blocks: seq<string>, spans: seq<Span>)
    requires IsCut(ls, blocks, spans, |ls|) && Breaks(ls + [line], |ls|)
    ensures IsCut(ls + [line], blocks, spans, |ls| + 1)
  {
    hide Breaks, Closes, IsBlockOf, InSpan;
    EarlierLinesStay(ls, line);
    forall i | 0 <= i < |spans|
      ensures IsBlockOf(ls + [line], blocks[i], spans[i])
    {
      BlocksStay(ls, line, blocks[i], spans[i]);
    }
  }

  /** The stretch is complete: up to a blank line, or with the fence that closes it. */
  lemma StretchIsBlock(ls: seq<string>, line: string, blocks: seq<string>, spans: seq<Span>, cut: nat, to: nat)
    requires IsCut(ls, blocks, spans, cut) && cut < to
    requires (to == |ls| && Breaks(ls + [line], |ls|)) || (to == |ls| + 1 && Closes(ls + [line], |ls|))
    ensures IsCut(ls + [line], blocks + [Unlines((ls + [line])[cut..to])], spans + [Span(cut, to)], |ls| + 1)
  {
    var all, more, printed := ls + [line], spans + [Span(cut, to)], blocks + [Unlines((ls + [line])[cut..to])];
    EarlierLinesStay(ls, line);
    NotBoth(all, |ls|);
    hide Breaks, Closes;
    assert IsBlockOf(all, printed[|spans|], Span(cut, to));
    hide IsBlockOf, InSpan, IsBlock;
    forall i | 0 <= i < |spans|
      ensures IsBlockOf(all, printed[i], more[i])
    {
      BlocksStay(ls, line, blocks[i], spans[i]);
    }
    forall j | 0 <= j < |ls| + 1
      ensures Breaks(all, j) || InSpan(more, j)
    {
      OneMoreSpan(spans, Span(cut, to), j);
    }
  }

  lemma OneMoreSpan(spans: seq<Span>, sp: Span, j: nat)
    ensures InSpan(spans + [sp], j) <==> InSpan(spans, j) || sp.from <= j < sp.to
  {
    if i :| 0 <= i < |spans| && spans[i].from <= j < spans[i].to {
      assert (spans + [sp])[i] == spans[i];
    } else if sp.from <= j < sp.to {
      assert (spans + [sp])[|spans|] == sp;
    }
  }

  lemma NotBoth(ls: seq<string>, i: nat)
    requires i < |ls|
    ensures !(Breaks(ls, i) && Closes(ls, i))
  {}

  // ----- Every text -----

  lemma {:induction false} LinesAreCut(ls: seq<string>) returns (spans: seq<Span>, cut: nat)
    requires Unbroken(ls)
    ensures var st := ReadAll(START, ls);
            IsCut(ls, st.blocks, spans, cut) && st.cur == ls[cut..] && st.inFence == FenceOpen(ls)
  {
    hide IsFence, IsBlank, Unlines, Keeps, IsCut, Breaks, Closes;
    if ls == [] {
      spans, cut := [], 0;
      NothingIsCut();
    } else {
      var front, line := Front(ls), Last(ls);
      assert ls == front + [line];
      UnbrokenParts(front, [line]);
      spans, cut := LinesAreCut(front);
      var before := ReadAll(START, front);
      CutIsInside(front, before.blocks, spans, cut);
      LastLine(front, line);
      if IsFence(line) && before.inFence {
        StretchIsBlock(front, line, before.blocks, spans, cut, |ls|);
        assert ls[cut..] == before.cur + [line] && ls[cut..|ls|] == ls[cut..];
        spans, cut := spans + [Span(cut, |ls|)], |ls|;
      } else if !IsFence(line) && !before.inFence && IsBlank(line) {
        if before.cur == [] {
          LineIsPassed(front, line, before.blocks, spans);
        } else {
          StretchIsBlock(front, line, before.blocks, spans, cut, |front|);
          assert ls[cut..|front|] == front[cut..];
          spans := spans + [Span(cut, |front|)];
        }
        cut := |ls|;
      } else {
        LineGoesOn(front, line, before.blocks, spans, cut);
      }
    }
  }

  lemma NothingIsCut()
    ensures IsCut([], [], [], 0)
  {}

  lemma CutIsInside(ls: seq<string>, blocks: seq<string>, spans: seq<Span>, cut: nat)
    requires IsCut(ls, blocks, spans, cut)
    ensures cut <= |ls|
  {}

  lemma LastLine(front: seq<string>, line: string)
    ensures Breaks(front + [line], |front|) <==> !FenceOpen(front) && !IsFence(line) && IsBlank(line)
    ensures Closes(front + [line], |front|) <==> FenceOpen(front) && IsFence(line)
    ensures FenceOpen(front + [line]) <==> FenceOpen(front) != IsFence(line)
  {
    assert (front + [line])[..|front|] == front && Front(front + [line]) == front;
  }

  lemma {:induction false} UnlinesOfLines(s: string)
    ensures Unlines(Lines(s)) == s
  {
    if s != "" {
      var rest := Lines(s[1..]);
      UnlinesOfLines(s[1..]);
      assert s == [s[0]] + s[1..];
      if s[0] == '\n' {
        assert ([""] + rest)[1..] == rest && "" + "\n" + Unlines(rest) == "\n" + Unlines(rest);
      } else if |rest| > 1 {
        assert Ahead(s[0], rest)[1..] == rest[1..];
        assert ([s[0]] + rest[0]) + "\n" + Unlines(rest[1..]) == [s[0]] + (rest[0] + "\n" + Unlines(rest[1..]));
      }
    }
  }

  predicate IsSuffix(a: string, b: string) {
    |a| <= |b| && b[|b| - |a|..] == a
  }

  lemma {:induction false} LaterLinesAreSuffix(ls: seq<string>, cut: nat)
    requires cut < |ls|
    ensures IsSuffix(Unlines(ls[cut..]), Unlines(ls))
  {
    if cut > 0 {
      LaterLinesAreSuffix(ls[1..], cut - 1);
      assert ls[1..][cut - 1..] == ls[cut..];
    } else {
      assert ls[0..] == ls;
    }
  }

  /** Of every text: the complete lines are cut at the boundaries and nowhere else; the stretches between them are the
      blocks, and what comes after the last boundary is held back, a suffix of the text. */
  lemma SplitCutsAtBoundaries(buf: string) returns (spans: seq<Span>, cut: nat)
    ensures var lines := Lines(buf);
            var (blocks, rest) := Split(buf);
            IsCut(Front(lines), blocks, spans, cut) && rest == Unlines(lines[cut..]) && IsSuffix(rest, buf)
  {
    hide Unlines, IsCut, IsSuffix;
    var lines := Lines(buf);
    UnbrokenParts(Front(lines), [Last(lines)]);
    assert lines == Front(lines) + [Last(lines)];
    spans, cut := LinesAreCut(Front(lines));
    CutIsInside(Front(lines), Split(buf).0, spans, cut);
    assert lines[cut..] == Front(lines)[cut..] + [Last(lines)];
    UnlinesOfLines(buf);
    LaterLinesAreSuffix(lines, cut);
  }

  // ----- Paragraphs and fences -----

  predicate IsPlain(line: string) {
    !IsFence(line) && !IsBlank(line)
  }

  lemma {:induction false} PlainLinesGather(ls: seq<string>)
    requires forall line <- ls :: IsPlain(line)
    ensures ReadAll(START, ls) == Scan([], ls, false)
  {
    hide IsFence, IsBlank;
    if ls != [] {
      PlainLinesGather(Front(ls));
      assert Last(ls) in ls && Front(ls) + [Last(ls)] == ls;
    }
  }

  lemma EmptyIsBlank()
    ensures IsBlank("") && !IsFence("")
  {}

  /** A paragraph is printed as soon as the blank line after it is there. */
  lemma ParagraphIsPrinted(ls: seq<string>)
    requires ls != [] && Unbroken(ls) && forall line <- ls :: IsPlain(line)
    ensures Split(Unlines(ls + ["", ""])) == ([Unlines(ls)], "")
  {
    hide IsFence, IsBlank, Unlines, Unbroken;
    EmptyLinesAreUnbroken();
    UnbrokenParts(ls, ["", ""]);
    LinesOfUnlines(ls + ["", ""]);
    assert Front(ls + ["", ""]) == ls + [""] && Last(ls + ["", ""]) == "";
    PlainLinesGather(ls);
    EmptyIsBlank();
    ReadOneMore(ls, "");
    NothingHeldBack(Unlines(ls + ["", ""]), [Unlines(ls)]);
  }

  lemma ReadOneMore(ls: seq<string>, line: string)
    ensures ReadAll(START, ls + [line]) == Read(ReadAll(START, ls), line)
  {
    assert Front(ls + [line]) == ls;
  }

  lemma NothingHeldBack(buf: string, blocks: seq<string>)
    requires Last(Lines(buf)) == "" && ReadAll(START, Front(Lines(buf))) == Scan(blocks, [], false)
    ensures Split(buf) == (blocks, "")
  {
    assert [] + [""] == [""];
  }

  lemma EmptyLinesAreUnbroken()
    ensures Unbroken(["", ""]) && Unbroken([""])
  {}

  lemma {:induction false} FencedLinesGather(ls: seq<string>, n: nat)
    requires 0 < n <= |ls| && IsFence(ls[0]) && forall i | 0 < i < n :: !IsFence(ls[i])
    ensures ReadAll(START, ls[..n]) == Scan([], ls[..n], true)
  {
    hide IsFence, IsBlank;
    if n == 1 {
      ReadAllOneMore(START, ls, 0);
      ReadAllOfNone(START);
      assert ls[..1] == [ls[0]];
    } else {
      FencedLinesGather(ls, n - 1);
      ReadAllOneMore(START, ls, n - 1);
      assert ls[..n] == ls[..n - 1] + [ls[n - 1]];
    }
  }

  predicate IsFenced(ls: seq<string>) {
    |ls| >= 2 && IsFence(ls[0]) && IsFence(Last(ls)) && forall i | 0 < i < |ls| - 1 :: !IsFence(ls[i])
  }

  lemma FenceCloses(ls: seq<string>)
    requires IsFenced(ls)
    ensures ReadAll(START, ls) == Scan([Unlines(ls)], [], false)
  {
    hide IsFence, IsBlank, Unlines;
    assert Front(ls) == ls[..|ls| - 1] && ls == Front(ls) + [Last(ls)];
    FencedLinesGather(ls, |ls| - 1);
    ReadOneMore(Front(ls), Last(ls));
  }

  /** A fenced block, blank lines and all, is printed as soon as the line that closes it is complete. */
  lemma FenceIsPrinted(ls: seq<string>)
    requires IsFenced(ls) && Unbroken(ls)
    ensures Split(Unlines(ls + [""])) == ([Unlines(ls)], "")
  {
    hide IsFenced, Unlines, Unbroken, ReadAll;
    EmptyLinesAreUnbroken();
    UnbrokenParts(ls, [""]);
    LinesOfUnlines(ls + [""]);
    FenceCloses(ls);
    assert Front(ls + [""]) == ls && Last(ls + [""]) == "";
    NothingHeldBack(Unlines(ls + [""]), [Unlines(ls)]);
  }
}
