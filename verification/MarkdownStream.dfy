/** The append-only Markdown renderer of TinyCTX/bridges/cli/__main__.py: streamed text is cut
    into whole blocks, and how the stream was chunked does not show in what is printed. */
module MarkdownStream {
  import opened PythonText
  import opened Sequences

  // ----- Lines -----

  predicate Unbroken(lines: seq<string>) {
    forall i | 0 <= i < |lines| :: '\n' !in lines[i]
  }

  lemma UnbrokenParts(a: seq<string>, b: seq<string>)
    ensures Unbroken(a + b) <==> Unbroken(a) && Unbroken(b)
  {
    assert forall i | 0 <= i < |a| :: (a + b)[i] == a[i];
    assert forall i | 0 <= i < |b| :: (a + b)[|a| + i] == b[i];
  }

  /** `s.split("\n")`. */
  function Lines(s: string): (ls: seq<string>)
    ensures ls != [] && Unbroken(ls)
  {
    if s == "" then [""]
    else
      var rest := Lines(s[1..]);
      if s[0] == '\n' then [""] + rest else Ahead(s[0], rest)
  }

  /** `"\n".join(ls)`. */
  function Unlines(ls: seq<string>): string {
    if ls == [] then ""
    else if |ls| == 1 then ls[0]
    else ls[0] + "\n" + Unlines(ls[1..])
  }

  /** The last line of `a` runs on into the first line of `b`. */
  function Glue(a: seq<string>, b: seq<string>): seq<string>
    requires a != [] && b != []
  {
    Front(a) + [Last(a) + b[0]] + b[1..]
  }

  /** `c` is put before the first line. */
  function Ahead(c: char, ls: seq<string>): seq<string>
    requires ls != []
  {
    [[c] + ls[0]] + ls[1..]
  }

  lemma GlueOfEmptyLineAhead(a: seq<string>, b: seq<string>)
    requires a != [] && b != []
    ensures Glue([""] + a, b) == [""] + Glue(a, b)
  {}

  lemma GlueOfAhead(c: char, a: seq<string>, b: seq<string>)
    requires a != [] && b != []
    ensures Glue(Ahead(c, a), b) == Ahead(c, Glue(a, b))
  {
    if |a| == 1 {
      assert [c] + (a[0] + b[0]) == [c] + a[0] + b[0];
    } else {
      assert Front(Ahead(c, a)) == Ahead(c, Front(a));
    }
  }

  lemma {:induction false} LinesOfConcat(a: string, b: string)
    ensures Lines(a + b) == Glue(Lines(a), Lines(b))
  {
    hide Glue, Ahead;
    if a == "" {
      assert a + b == b;
      GlueOfNothing(Lines(b));
    } else {
      LinesOfConcat(a[1..], b);
      assert (a + b)[1..] == a[1..] + b && (a + b)[0] == a[0];
      GlueOfEmptyLineAhead(Lines(a[1..]), Lines(b));
      GlueOfAhead(a[0], Lines(a[1..]), Lines(b));
    }
  }

  lemma GlueOfNothing(b: seq<string>)
    requires b != []
    ensures Glue([""], b) == b
  {
    assert "" + b[0] == b[0];
  }

  lemma {:induction false} OneLine(s: string)
    requires '\n' !in s
    ensures Lines(s) == [s]
  {
    if s != "" {
      OneLine(s[1..]);
      assert s == [s[0]] + s[1..];
    }
  }

  lemma {:induction false} LinesOfUnlines(ls: seq<string>)
    requires ls != [] && Unbroken(ls)
    ensures Lines(Unlines(ls)) == ls
  {
    OneLine(ls[0]);
    if |ls| > 1 {
      LinesOfUnlines(ls[1..]);
      LinesOfConcat(ls[0] + "\n", Unlines(ls[1..]));
      LinesOfConcat(ls[0], "\n");
      assert Lines("\n") == ["", ""] by {
        assert "\n"[1..] == "" && Lines("") == [""];
      }
      assert Lines(ls[0] + "\n") == [ls[0], ""] by {
        assert ls[0] + "" == ls[0];
      }
      assert Glue([ls[0], ""], ls[1..]) == ls by {
        assert "" + ls[1] == ls[1];
      }
    }
  }

  // ----- Blocks -----

  predicate IsFence(line: string) {
    "```" <= LeftStrip(line)
  }

  predicate IsBlank(line: string) {
    Strip(line) == ""
  }

  /** Blocks completed so far, lines of the block being read, and whether it is inside a fence. */
  datatype Scan = Scan(blocks: seq<string>, cur: seq<string>, inFence: bool)

  function Read(st: Scan, line: string): Scan {
    if IsFence(line) then
      if st.inFence then Scan(st.blocks + [Unlines(st.cur + [line])], [], false)
      else Scan(st.blocks, st.cur + [line], true)
    else if !st.inFence && IsBlank(line) then
      Scan(if st.cur != [] then st.blocks + [Unlines(st.cur)] else st.blocks, [], false)
    else
      Scan(st.blocks, st.cur + [line], st.inFence)
  }

  function ReadAll(st: Scan, lines: seq<string>): Scan {
    if lines == [] then st else Read(ReadAll(st, Front(lines)), Last(lines))
  }

  const START := Scan([], [], false)

  /** The complete blocks of `buf` and the unfinished rest. */
  function Split(buf: string): (seq<string>, string) {
    var st := ReadAll(START, Front(Lines(buf)));
    (st.blocks, Unlines(st.cur + [Last(Lines(buf))]))
  }

  method SplitBlocks(buf: string) returns (blocks: seq<string>, rest: string)
    ensures (blocks, rest) == Split(buf)
  {
    hide IsFence, IsBlank, Lines, Unlines, ReadAll;
    ReadAllOfNone(START);
    var lines := Lines(buf);
    blocks := [];
    var cur: seq<string> := [];
    var inFence := false;
    var cut := 0;
    for i := 0 to |lines| - 1
      invariant 0 <= cut <= i && cur == lines[cut..i]
      invariant Scan(blocks, cur, inFence) == ReadAll(START, lines[..i])
    {
      var line := lines[i];
      ReadAllOneMore(START, lines, i);
      if IsFence(line) {
        cur := cur + [line];
        inFence := !inFence;
        if !inFence {
          blocks := blocks + [Unlines(cur)];
          cur := [];
          cut := i + 1;
        }
        continue;
      }
      if !inFence && IsBlank(line) {
        if cur != [] {
          blocks := blocks + [Unlines(cur)];
          cur := [];
        }
        cut := i + 1;
        continue;
      }
      cur := cur + [line];
    }
    assert lines[cut..] == cur + [Last(lines)];
    rest := Unlines(lines[cut..]);
  }

  lemma ReadAllOfNone(st: Scan)
    ensures ReadAll(st, []) == st
  {}

  lemma ReadAllOneMore(st: Scan, lines: seq<string>, i: nat)
    requires i < |lines|
    ensures ReadAll(st, lines[..i + 1]) == Read(ReadAll(st, lines[..i]), lines[i])
  {
    assert Front(lines[..i + 1]) == lines[..i];
  }

  lemma {:induction false} ReadAllOfConcat(st: Scan, a: seq<string>, b: seq<string>)
    ensures ReadAll(st, a + b) == ReadAll(ReadAll(st, a), b)
  {
    hide Read;
    if b == [] {
      assert a + b == a;
    } else {
      ReadAllOfConcat(st, a, Front(b));
      assert Front(a + b) == a + Front(b);
    }
  }

  /** What was completed before plays no part in what comes next. */
  lemma {:induction false} EarlierBlocksStay(st: Scan, lines: seq<string>)
    ensures ReadAll(st, lines) == (var r := ReadAll(st.(blocks := []), lines); r.(blocks := st.blocks + r.blocks))
  {
    if lines != [] {
      EarlierBlocksStay(st, Front(lines));
    }
  }

  /** Reading the unfinished lines again from the start leads back to the same state. */
  lemma {:induction false} UnfinishedLinesCanBeReread(lines: seq<string>)
    ensures var st := ReadAll(START, lines); ReadAll(START, st.cur) == st.(blocks := [])
  {
    if lines != [] {
      var before, st := ReadAll(START, Front(lines)), ReadAll(START, lines);
      UnfinishedLinesCanBeReread(Front(lines));
      if st.cur != [] {
        assert Front(st.cur) == before.cur && Last(st.cur) == Last(lines);
      }
    }
  }

  lemma {:induction false} CurrentLinesHaveNoBreaks(lines: seq<string>)
    requires Unbroken(lines)
    ensures Unbroken(ReadAll(START, lines).cur)
  {
    if lines != [] {
      CurrentLinesHaveNoBreaks(Front(lines));
    }
  }

  /** Splitting can be resumed: cutting `a + b` gives the blocks of `a`, then the blocks of what
      `a` left over followed by `b`, and the same rest. */
  lemma SplitCanBeResumed(a: string, b: string)
    ensures var (first, left) := Split(a);
            var (second, rest) := Split(left + b);
            Split(a + b) == (first + second, rest)
  {
    hide Lines, Read, Unlines;
    var la, lb := Lines(a), Lines(b);
    var st := ReadAll(START, Front(la));
    var left := Split(a).1;
    CurrentLinesHaveNoBreaks(Front(la));
    LinesOfUnlines(st.cur + [Last(la)]);
    LinesOfConcat(a, b);
    LinesOfConcat(left, b);
    var more := [Last(la) + lb[0]] + lb[1..];
    assert Lines(a + b) == Front(la) + more && Lines(left + b) == st.cur + more;
    assert Front(Lines(a + b)) == Front(la) + Front(more) && Front(Lines(left + b)) == st.cur + Front(more);
    ReadAllOfConcat(START, Front(la), Front(more));
    ReadAllOfConcat(START, st.cur, Front(more));
    UnfinishedLinesCanBeReread(Front(la));
    EarlierBlocksStay(st, Front(more));
    assert Last(Lines(a + b)) == Last(more) == Last(Lines(left + b));
  }

  // ----- The stream -----

  function Concat(chunks: seq<string>): string {
    if chunks == [] then "" else Concat(Front(chunks)) + Last(chunks)
  }

  /** Blocks printed and text held back after the chunks were emitted one by one. */
  function Emitted(chunks: seq<string>): (seq<string>, string) {
    if chunks == [] then ([], "")
    else
      var (printed, held) := Emitted(Front(chunks));
      var (blocks, rest) := Split(held + Last(chunks));
      (printed + blocks, rest)
  }

  /** However a text is chunked, the blocks printed and the rest held back are those of the text. */
  lemma {:induction false} ChunkingDoesNotShow(chunks: seq<string>)
    ensures Emitted(chunks) == Split(Concat(chunks))
  {
    if chunks == [] {
      assert Lines("") == [""];
    } else {
      ChunkingDoesNotShow(Front(chunks));
      SplitCanBeResumed(Concat(Front(chunks)), Last(chunks));
    }
  }

  /** The stream buffer of the bridge and the blocks it has printed. */
  class Printer {
    var streamBuf: string
    var printed: seq<string>

    constructor ()
      ensures streamBuf == "" && printed == []
    {
      streamBuf, printed := "", [];
    }

    method EmitText(text: string)
      modifies this
      ensures printed == old(printed) + Split(old(streamBuf) + text).0
      ensures streamBuf == Split(old(streamBuf) + text).1
    {
      var blocks;
      blocks, streamBuf := SplitBlocks(streamBuf + text);
      for i := 0 to |blocks|
        invariant printed == old(printed) + blocks[..i] && streamBuf == Split(old(streamBuf) + text).1
      {
        printed := printed + [blocks[i]];
        assert blocks[..i + 1] == blocks[..i] + [blocks[i]];
      }
      assert blocks[..|blocks|] == blocks;
    }

    method FlushStream()
      modifies this
      ensures streamBuf == ""
      ensures printed == old(printed) + if Strip(old(streamBuf)) != "" then [Strip(old(streamBuf))] else []
    {
      var rest := Strip(streamBuf);
      streamBuf := "";
      if rest != "" {
        printed := printed + [rest];
      }
    }

    /** A whole reply: chunks, then the flush.  Only the text matters. */
    method Reply(chunks: seq<string>)
      requires streamBuf == ""
      modifies this
      ensures streamBuf == ""
      ensures var (blocks, rest) := Split(Concat(chunks));
              printed == old(printed) + blocks + if Strip(rest) != "" then [Strip(rest)] else []
    {
      hide Split, Emitted;
      NothingEmitted();
      for i := 0 to |chunks|
        invariant printed == old(printed) + Emitted(chunks[..i]).0 && streamBuf == Emitted(chunks[..i]).1
      {
        EmittedOneMore(chunks, i);
        EmitText(chunks[i]);
      }
      assert chunks[..|chunks|] == chunks;
      ChunkingDoesNotShow(chunks);
      FlushStream();
    }
  }

  lemma NothingEmitted()
    ensures Emitted([]) == ([], "")
  {}

  lemma EmittedOneMore(chunks: seq<string>, i: nat)
    requires i < |chunks|
    ensures var (printed, held) := Emitted(chunks[..i]);
            var (blocks, rest) := Split(held + chunks[i]);
            Emitted(chunks[..i + 1]) == (printed + blocks, rest)
  {
    assert Front(chunks[..i + 1]) == chunks[..i];
  }

  // ----- Nothing is lost -----

  /** The lines without the blank ones that stand outside fences. */
  function KeptLines(lines: seq<string>): seq<string> {
    if lines == [] then []
    else
      KeptLines(Front(lines))
      + if !FenceOpen(Front(lines)) && IsBlank(Last(lines)) && !IsFence(Last(lines)) then [] else [Last(lines)]
  }

  /** An odd number of fence lines. */
  predicate FenceOpen(lines: seq<string>) {
    lines != [] && FenceOpen(Front(lines)) != IsFence(Last(lines))
  }

  function LinesOfAll(blocks: seq<string>): seq<string> {
    if blocks == [] then [] else LinesOfAll(Front(blocks)) + Lines(Last(blocks))
  }

  /** A block is whole: its fences are closed and no blank line stands outside them. */
  predicate IsWhole(block: string) {
    !FenceOpen(Lines(block)) && KeptLines(Lines(block)) == Lines(block)
  }

  lemma BlockIsWhole(blocks: seq<string>, cur: seq<string>)
    requires cur != [] && Unbroken(cur)
    requires !FenceOpen(cur) && KeptLines(cur) == cur
    ensures IsWhole(Unlines(cur)) && LinesOfAll(blocks + [Unlines(cur)]) == LinesOfAll(blocks) + cur
  {
    hide Lines, Unlines;
    LinesOfUnlines(cur);
    assert Front(blocks + [Unlines(cur)]) == blocks;
  }

  /** What was read so far is in the blocks and the current lines, less the blank lines outside fences. */
  predicate Keeps(st: Scan, lines: seq<string>) {
    st.inFence == FenceOpen(lines) == FenceOpen(st.cur)
    && KeptLines(st.cur) == st.cur
    && LinesOfAll(st.blocks) + st.cur == KeptLines(lines)
    && forall i | 0 <= i < |st.blocks| :: IsWhole(st.blocks[i])
  }

  lemma ReadKeepsLines(st: Scan, lines: seq<string>, line: string)
    requires Unbroken([line]) && Unbroken(st.cur)
    requires Keeps(st, lines)
    ensures Keeps(Read(st, line), lines + [line])
  {
    hide Lines, Unlines, IsFence, IsBlank, IsWhole, LinesOfAll, Unbroken;
    var cur := st.cur + [line];
    UnbrokenParts(st.cur, [line]);
    assert Front(cur) == st.cur && Front(lines + [line]) == lines;
    if IsFence(line) && st.inFence {
      BlockIsWhole(st.blocks, cur);
    } else if !IsFence(line) && !st.inFence && IsBlank(line) && st.cur != [] {
      BlockIsWhole(st.blocks, st.cur);
    }
  }

  lemma {:induction false} ReadingKeepsLines(lines: seq<string>, n: nat)
    requires n <= |lines| && Unbroken(lines)
    ensures Keeps(ReadAll(START, lines[..n]), lines[..n])
  {
    if n == 0 {
      ReadAllOfNone(START);
    } else {
      hide Keeps, Read, Lines, ReadAll, Unbroken;
      assert lines == lines[..n - 1] + [lines[n - 1]] + lines[n..];
      UnbrokenParts(lines[..n - 1] + [lines[n - 1]], lines[n..]);
      UnbrokenParts(lines[..n - 1], [lines[n - 1]]);
      ReadingKeepsLines(lines, n - 1);
      CurrentLinesHaveNoBreaks(lines[..n - 1]);
      ReadKeepsLines(ReadAll(START, lines[..n - 1]), lines[..n - 1], lines[n - 1]);
      ReadAllOneMore(START, lines, n - 1);
      assert lines[..n - 1] + [lines[n - 1]] == lines[..n];
    }
  }

  /** Blocks and rest together hold every line, in order, except blank lines outside fences. */
  lemma SplitLosesOnlyBlankLines(buf: string)
    ensures var (blocks, rest) := Split(buf);
            LinesOfAll(blocks) + Lines(rest) == KeptLines(Front(Lines(buf))) + [Last(Lines(buf))]
    ensures forall i | 0 <= i < |Split(buf).0| :: IsWhole(Split(buf).0[i])
  {
    hide Lines, Unlines, IsWhole, Read;
    var lines := Lines(buf);
    var st := ReadAll(START, Front(lines));
    ReadingKeepsLines(lines, |lines| - 1);
    CurrentLinesHaveNoBreaks(Front(lines));
    LinesOfUnlines(st.cur + [Last(lines)]);
  }
}
