/** host/internal/diff/poller.go, generateSymlinkDiff: the target is printed behind a
    single '+', so a target that contains a newline is not read back.  This module
    proves that the newline is the only obstacle, for one file and for any list. */
module SymlinkDiff {
  import opened Text
  import opened DiffParser
  import opened SyntheticDiff

  predicate ReadBack(f: Untracked)
    requires f.Symlink?
  {
    var cs := Chunks(Unlines(DiffLines(f)));
    |cs| == 1 && Decode(cs[0].content) == f.target
  }

  /** Bytes of the added lines of a chunk, one newline each. */
  function Weight(ls: seq<string>): nat {
    |Unlines(Added(ls))|
  }

  /** The lines kept for the first chunk. */
  function FirstLines(st: State): seq<string>
    requires Flush(st) != []
  {
    if st.chunks != [] then Split(st.chunks[0].content) else st.open.value.lines
  }

  /** Every line read after the first chunk header costs at least the byte of its marker;
      a line that closes the chunk costs one more. */
  predicate Bounded(st: State, read: seq<string>) {
    && (st.chunks == [] ==> st.open.Some? && st.open.value.lines != [] && Lines(st.open.value.lines))
    && Flush(st) != []
    && Weight(FirstLines(st)) + |read| + (if st.chunks != [] then 1 else 0) <= |Unlines(read)|
  }

  lemma WeightSnoc(ls: seq<string>, l: string)
    ensures Weight(ls + [l]) == Weight(ls) + (if l != "" && l[0] == '+' then |l| else 0)
  {
    AddedAppend(ls, [l]);
    AddedOne(l);
    if l != "" && l[0] == '+' {
      UnlinesSnoc(Added(ls), l[1..]);
    } else {
      assert Added(ls) + [] == Added(ls);
    }
  }

  /** A chunk once closed stays the first one. */
  lemma StepKeepsFirst(st: State, line: string)
    requires st.chunks != []
    ensures Step(st, line).chunks != [] && Step(st, line).chunks[0] == st.chunks[0]
  {
  }

  lemma CloseFirst(st: State, line: string)
    requires st.chunks == [] && st.open.Some? && st.open.value.lines != [] && Lines(st.open.value.lines)
    requires FileHeader(line).Some? || ChunkHeader(line).Some?
    ensures line != "" && Step(st, line).chunks != []
    ensures FirstLines(Step(st, line)) == st.open.value.lines
  {
    SplitOfJoin(st.open.value.lines);
    if FileHeader(line).Some? {
      assert FILE_PREFIX <= line;
    } else {
      assert "@@ -" <= line;
    }
  }

  lemma BoundedStep(st: State, read: seq<string>, line: string)
    requires Bounded(st, read) && NoNewline(line)
    ensures Bounded(Step(st, line), read + [line])
  {
    UnlinesSnoc(read, line);
    if st.chunks != [] {
      StepKeepsFirst(st, line);
    } else if FileHeader(line).Some? || ChunkHeader(line).Some? {
      CloseFirst(st, line);
    } else {
      WeightSnoc(st.open.value.lines, line);
    }
  }

  lemma {:induction false} BoundedFold(st: State, read: seq<string>, ls: seq<string>)
    requires Bounded(st, read) && Lines(ls)
    ensures Bounded(Fold(st, ls), read + ls)
    decreases |ls|
  {
    hide Step, Bounded;
    if ls == [] {
      assert read + ls == read;
    } else {
      var front := ls[..|ls| - 1];
      BoundedFold(st, read, front);
      BoundedStep(Fold(st, front), read + front, ls[|ls| - 1]);
      assert read + front + [ls[|ls| - 1]] == read + ls;
    }
  }

  /** Opening the hunk of a symlink. */
  lemma Opened(f: Untracked)
    requires f.Symlink? && Listed(f)
    ensures var hunk := "@@ -0,0 +1 @@";
            var st := Fold(INIT, Preamble(f) + [hunk]);
            st == State([], ReadName(f), Some(Open(Range(0, 0, 1, 1), [hunk]))) && Bounded(st, [])
  {
    var hunk := "@@ -0,0 +1 @@";
    var named := State([], ReadName(f), None);
    var st := State([], ReadName(f), Some(Open(Range(0, 0, 1, 1), [hunk])));
    HunkBounded(st, hunk);
    assert Flush(INIT) == [];
    hide Step, Fold, Bounded, Preamble, ReadName, Listed;
    PreambleStep(INIT, f);
    FoldAppend(INIT, Preamble(f), [hunk]);
    FoldOne(named, hunk);
    OpenHunk(named);
  }

  lemma HunkBounded(st: State, hunk: string)
    requires st.chunks == [] && st.open.Some? && st.open.value.lines == [hunk] && hunk == "@@ -0,0 +1 @@"
    ensures Bounded(st, [])
  {
    AddedOne(hunk);
  }

  lemma OpenHunk(st: State)
    requires st.open.None?
    ensures Step(st, "@@ -0,0 +1 @@") == State(st.chunks, st.file, Some(Open(Range(0, 0, 1, 1), ["@@ -0,0 +1 @@"])))
  {
    ShortHeader();
    assert FILE_PREFIX[0] == 'd';
  }

  /** The two lines after the target add nothing. */
  lemma Closing(st: State, read: seq<string>)
    requires Bounded(st, read)
    ensures var last := Fold(st, [NO_EOL, ""]);
            Flush(last) != [] && Weight(FirstLines(last)) == Weight(FirstLines(st)) &&
            (st.chunks == [] ==> last.chunks == [] && NoEolMarked(last.open.value.lines) && Lines(last.open.value.lines)) &&
            (st.chunks != [] ==> last.chunks == st.chunks)
  {
    var mid := Step(st, NO_EOL);
    assert [NO_EOL, ""] == [NO_EOL] + [""];
    FoldAppend(st, [NO_EOL], [""]);
    FoldOne(st, NO_EOL);
    FoldOne(mid, "");
    ClosingSteps(st);
    hide Step, Fold, Weight;
    if st.chunks == [] {
      ClosingLines(st.open.value.lines);
    }
  }

  /** Both lines are kept when a chunk is open, and dropped otherwise. */
  lemma ClosingSteps(st: State)
    ensures Step(Step(st, NO_EOL), "") ==
            if st.open.Some? then
              st.(open := Some(st.open.value.(lines := st.open.value.lines + [NO_EOL] + [""])))
            else st
  {
    MarkedLine(NO_EOL);
  }

  lemma ClosingLines(ls: seq<string>)
    requires Lines(ls)
    ensures var all := ls + [NO_EOL] + [""];
            Weight(all) == Weight(ls) && NoEolMarked(all) && Lines(all)
  {
    WeightSnoc(ls, NO_EOL);
    WeightSnoc(ls + [NO_EOL], "");
    assert (ls + [NO_EOL] + [""])[|ls|] == NO_EOL && NO_EOL[0] == '\\';
  }

  lemma JoinShorter(ls: seq<string>)
    ensures |Join(ls)| <= |Unlines(ls)| && (ls != [] ==> |Join(ls)| + 1 == |Unlines(ls)|)
  {
    if ls != [] {
      var front, last := ls[..|ls| - 1], ls[|ls| - 1];
      assert ls == front + [last];
      assert Join(ls) == Unlines(front) + last;
      hide Unlines, Join;
      UnlinesSnoc(front, last);
    }
  }

  lemma SplitPrinted(ls: seq<string>)
    requires Lines(ls)
    ensures Split(Unlines(ls)) == ls + [""]
  {
    LinesOfUnlines(ls, "");
    assert Unlines(ls) + "" == Unlines(ls);
  }

  /** The text of one symlink diff, cut into what opens the hunk, the target and the end. */
  lemma SymlinkLines(f: Untracked)
    requires f.Symlink? && Listed(f)
    ensures var target := Split("+" + f.target);
            Split(Unlines(DiffLines(f))) == Preamble(f) + ["@@ -0,0 +1 @@"] + target + [NO_EOL, ""] &&
            Lines(target)
  {
    var target, ls := Split("+" + f.target), DiffLines(f);
    JoinOfSplit("+" + f.target);
    PreambleLines(f);
    SymlinkParts(f);
    hide Preamble, DiffLines;
    assert NoNewline("@@ -0,0 +1 @@") && NoNewline(NO_EOL);
    SplitPrinted(ls);
    hide Split;
    assert ls + [""] == Preamble(f) + ["@@ -0,0 +1 @@"] + target + [NO_EOL, ""];
  }

  lemma SplitSize(s: string)
    ensures |Unlines(Split(s))| == |s| + 1
    ensures NoNewline(s) <==> |Split(s)| == 1
  {
    TextOfSplit(s);
    var i := NewlineAt(s);
    if i < |s| {
      assert s[i] == '\n';
    }
  }

  lemma NewlineIsLost(f: Untracked)
    requires f.Symlink? && Listed(f) && ReadBack(f)
    ensures NoNewline(f.target)
  {
    var text := "+" + f.target;
    var target := Split(text);
    var head := Preamble(f) + ["@@ -0,0 +1 @@"];
    Opened(f);
    SymlinkLines(f);
    var st0 := Fold(INIT, head);
    var st := Fold(st0, target);
    var last := Fold(st, [NO_EOL, ""]);
    BoundedFold(st0, [], target);
    assert [] + target == target;
    Closing(st, target);
    FoldAppend(INIT, head, target);
    FoldAppend(INIT, head + target, [NO_EOL, ""]);
    var cs := Chunks(Unlines(DiffLines(f)));
    assert cs == Flush(last);
    var content := Split(cs[0].content);
    assert content == FirstLines(last) by {
      if last.chunks == [] {
        SplitOfJoin(last.open.value.lines);
      }
    }
    JoinShorter(Added(content));
    SplitSize(text);
    assert |target| == 1;
    forall c | c in f.target
      ensures c in text
    {
    }
  }

  /** A symlink diff is read back to its target exactly when the target has no newline. */
  lemma SymlinkExact(f: Untracked)
    requires f.Symlink? && Listed(f)
    ensures ReadBack(f) <==> NoNewline(f.target)
  {
    if NoNewline(f.target) {
      UntrackedRoundTrip([f]);
      assert [f][..0] == [];
      assert TextFiles([f]) == [f];
      assert AllLines([f]) == DiffLines(f);
    } else if ReadBack(f) {
      NewlineIsLost(f);
    }
  }

  // ---------------------------------------------------------------------------
  // Lists of files
  // ---------------------------------------------------------------------------

  function Decodes(cs: seq<Chunk>): seq<string> {
    if cs == [] then [] else Decodes(cs[..|cs| - 1]) + [Decode(cs[|cs| - 1].content)]
  }

  /** The bytes of the files that show up as a chunk, in listing order. */
  function Bytes(files: seq<Untracked>): seq<string> {
    if files == [] then []
    else Bytes(files[..|files| - 1]) + (if HasChunk(files[|files| - 1]) then [FileBytes(files[|files| - 1])] else [])
  }

  /** The chunks a file's own hunk makes, in whatever diff it stands. */
  function OwnChunks(f: Untracked): seq<Chunk>
    requires f.name != ""
  {
    if HasChunk(f) then Flush(Fold(State([], ReadName(f), None), Hunk(f))) else []
  }

  predicate Names(files: seq<Untracked>) {
    forall i :: 0 <= i < |files| ==> files[i].name != ""
  }

  function OwnDecodes(files: seq<Untracked>): seq<string>
    requires Names(files)
  {
    if files == [] then []
    else OwnDecodes(files[..|files| - 1]) + Decodes(OwnChunks(files[|files| - 1]))
  }

  predicate EachListed(files: seq<Untracked>) {
    forall i :: 0 <= i < |files| ==> Listed(files[i])
  }

  predicate EachPlain(files: seq<Untracked>) {
    forall i :: 0 <= i < |files| ==> PlainTarget(files[i])
  }

  lemma {:induction false} DecodesAppend(a: seq<Chunk>, b: seq<Chunk>)
    ensures Decodes(a + b) == Decodes(a) + Decodes(b)
    decreases |b|
  {
    hide Decode;
    if b == [] {
      assert a + b == a;
    } else {
      var front, last := b[..|b| - 1], b[|b| - 1];
      DecodesAppend(a, front);
      assert (a + b)[..|a + b| - 1] == a + front && (a + b)[|a + b| - 1] == last;
    }
  }

  lemma DecodesOne(c: Chunk)
    ensures Decodes([c]) == [Decode(c.content)]
  {
    assert [c][..0] == [];
  }

  /** The diff of a file adds its own chunks to those before it. */
  lemma OwnStep(st: State, f: Untracked)
    requires Listed(f)
    ensures Flush(Fold(st, DiffLines(f))) == Flush(st) + OwnChunks(f)
  {
    hide Step, FileHeader, ChunkHeader, ReadName, Preamble, Hunk;
    assert Flush(st) + [] == Flush(st);
    if f.Skipped? {
      NothingPrinted(f);
    } else {
      var named := State([], ReadName(f), None);
      PreambleStep(st, f);
      FoldAppend(st, Preamble(f), Hunk(f));
      FoldFrame(Flush(st), named, Hunk(f));
      FlushFrame(Flush(st), Fold(named, Hunk(f)));
      if !HasChunk(f) {
        NoHunk(f);
      }
    }
  }

  lemma NothingPrinted(f: Untracked)
    requires f.Skipped?
    ensures DiffLines(f) == []
  {
  }

  lemma NoHunk(f: Untracked)
    requires !HasChunk(f)
    ensures Hunk(f) == []
  {
  }

  lemma StepKeepsCount(st: State, line: string)
    ensures |Flush(Step(st, line))| >= |Flush(st)|
  {
  }

  lemma {:induction false} FoldKeepsCount(st: State, ls: seq<string>)
    ensures |Flush(Fold(st, ls))| >= |Flush(st)|
  {
    if ls != [] {
      hide Step, Flush;
      FoldKeepsCount(st, ls[..|ls| - 1]);
      StepKeepsCount(Fold(st, ls[..|ls| - 1]), ls[|ls| - 1]);
    }
  }

  /** A file with a hunk makes one chunk at least. */
  lemma OwnCount(f: Untracked)
    requires Listed(f) && HasChunk(f)
    ensures |Decodes(OwnChunks(f))| >= 1
  {
    hide Fold, Step, Flush, Decodes, Hunk, HunkRange, ReadName, ChunkHeader;
    HunkHeader(f);
    HunkFirst(f);
    HunkCount(State([], ReadName(f), None), Hunk(f));
    DecodesCount(OwnChunks(f));
  }

  lemma HunkCount(st: State, ls: seq<string>)
    requires ls != [] && ls[0] != "" && ls[0][0] == '@' && ChunkHeader(ls[0]).Some?
    ensures |Flush(Fold(st, ls))| >= 1
  {
    hide Fold, Step, Flush, ChunkHeader;
    OpensChunk(st, ls[0]);
    assert ls == [ls[0]] + ls[1..];
    FoldAppend(st, [ls[0]], ls[1..]);
    FoldOne(st, ls[0]);
    FoldKeepsCount(Step(st, ls[0]), ls[1..]);
  }

  lemma OpensChunk(st: State, line: string)
    requires line != "" && line[0] == '@' && ChunkHeader(line).Some?
    ensures |Flush(Step(st, line))| >= 1
  {
    assert FILE_PREFIX[0] == 'd';
  }

  lemma {:induction false} DecodesCount(cs: seq<Chunk>)
    ensures |Decodes(cs)| == |cs|
  {
    if cs != [] {
      DecodesCount(cs[..|cs| - 1]);
    }
  }

  lemma HunkPieces(f: Untracked)
    requires HasChunk(f)
    ensures Lines(Hunk(f))
  {
    if f.Symlink? {
      TargetPieces(f);
    } else {
      HunkFirst(f);
      HunkMarked(f);
      MarkedLines(Hunk(f));
    }
  }

  lemma TargetPieces(f: Untracked)
    requires f.Symlink?
    ensures Lines(Hunk(f))
  {
    var target := Split("+" + f.target);
    JoinOfSplit("+" + f.target);
    hide Split;
    assert Hunk(f) == ["@@ -0,0 +1 @@"] + target + [NO_EOL];
    assert NoNewline("@@ -0,0 +1 @@") && NoNewline(NO_EOL);
  }

  lemma MarkedLines(ls: seq<string>)
    requires ls != [] && NoNewline(ls[0]) && Marked(ls)
    ensures Lines(ls)
  {
    hide NoNewline;
  }

  lemma {:induction false} PrintedLines(files: seq<Untracked>)
    requires EachListed(files)
    ensures Lines(AllLines(files))
    decreases |files|
  {
    if files != [] {
      var f := files[|files| - 1];
      PrintedLines(files[..|files| - 1]);
      PreambleLines(f);
      if HasChunk(f) {
        HunkPieces(f);
      } else {
        NoHunk(f);
      }
      hide Preamble, Hunk, Listed;
    }
  }

  lemma {:induction false} ListDecodes(files: seq<Untracked>)
    requires EachListed(files)
    ensures Names(files) && Decodes(ChunksOfLines(AllLines(files))) == OwnDecodes(files)
    decreases |files|
  {
    if files == [] {
      NothingRead();
    } else {
      hide Fold, Flush, Decodes, DiffLines, OwnChunks;
      var front, f := files[..|files| - 1], files[|files| - 1];
      ListDecodes(front);
      FoldAppend(INIT, AllLines(front), DiffLines(f));
      OwnStep(Fold(INIT, AllLines(front)), f);
      DecodesAppend(ChunksOfLines(AllLines(front)), OwnChunks(f));
    }
  }

  lemma NothingRead()
    ensures ChunksOfLines([]) == [] && Decodes([]) == []
  {
  }

  /** The empty line that ends the text changes no decoded chunk. */
  lemma FinalLineDecodes(ls: seq<string>)
    requires Lines(ls)
    ensures Decodes(ChunksOfLines(ls + [""])) == Decodes(ChunksOfLines(ls))
  {
    var st := Fold(INIT, ls);
    FoldParsed(INIT, ls);
    FoldAppend(INIT, ls, [""]);
    FoldOne(st, "");
    hide Fold;
    EmptyLineStep(st);
    if st.open.Some? {
      var o := st.open.value;
      OpenIsLines(st);
      EmptyLineDecodes(o.lines);
      var before, after := Chunk(st.file, o.range, Join(o.lines)), Chunk(st.file, o.range, Join(o.lines + [""]));
      DecodesAppend(st.chunks, [before]);
      DecodesAppend(st.chunks, [after]);
      DecodesOne(before);
      DecodesOne(after);
    }
  }

  lemma EmptyLineStep(st: State)
    ensures Step(st, "") ==
            if st.open.Some? then st.(open := Some(st.open.value.(lines := st.open.value.lines + [""]))) else st
  {
  }

  lemma OpenIsLines(st: State)
    requires ParsedState(st) && st.open.Some?
    ensures st.open.value.lines != [] && Lines(st.open.value.lines)
  {
    ChunkLinesNoNewline(st.open.value.lines, st.open.value.range);
  }

  lemma EmptyLineDecodes(ls: seq<string>)
    requires ls != [] && Lines(ls)
    ensures Decode(Join(ls + [""])) == Decode(Join(ls))
  {
    SplitOfJoin(ls);
    SplitOfJoin(ls + [""]);
    TrailingEmpty(ls);
    hide Join, Split, Added, NoEolMarked, Unlines;
  }

  lemma TextDecodes(files: seq<Untracked>)
    requires EachListed(files)
    ensures Names(files) && Decodes(Chunks(Unlines(AllLines(files)))) == OwnDecodes(files)
  {
    hide Decodes, ChunksOfLines, OwnDecodes, Split, AllLines;
    var ls := AllLines(files);
    PrintedLines(files);
    ListDecodes(files);
    FinalLineDecodes(ls);
    SplitPrinted(ls);
    NothingRead();
    PrintedNothing(ls);
  }

  lemma PrintedNothing(ls: seq<string>)
    ensures Unlines(ls) == "" ==> ls == []
    ensures Unlines(ls) == "" ==> Chunks(Unlines(ls)) == []
    ensures Unlines(ls) != "" ==> Chunks(Unlines(ls)) == ChunksOfLines(Split(Unlines(ls)))
  {
  }

  lemma SingleFile(f: Untracked)
    requires f.name != ""
    ensures AllLines([f]) == DiffLines(f) && OwnDecodes([f]) == Decodes(OwnChunks(f))
    ensures HasChunk(f) ==> TextFiles([f]) == [f]
  {
    assert [f][..0] == [];
    hide DiffLines, OwnChunks, Decodes;
    assert [] + DiffLines(f) == DiffLines(f);
    assert [] + Decodes(OwnChunks(f)) == Decodes(OwnChunks(f));
  }

  lemma OneDecoded(cs: seq<Chunk>, bytes: string)
    ensures Decodes(cs) == [bytes] <==> |cs| == 1 && Decode(cs[0].content) == bytes
  {
    DecodesCount(cs);
    if |cs| == 1 {
      assert cs == [cs[0]];
      DecodesOne(cs[0]);
    }
  }

  /** A file is read back from its own chunks exactly when its target is plain. */
  lemma OwnExact(f: Untracked)
    requires Listed(f) && HasChunk(f)
    ensures Decodes(OwnChunks(f)) == [FileBytes(f)] <==> PlainTarget(f)
  {
    assert f.name != "" && EachListed([f]);
    hide Decode, Decodes, OwnChunks, OwnDecodes, AllLines, DiffLines, Chunks, TextFiles, HasChunk, Listed;
    SingleFile(f);
    TextDecodes([f]);
    OneDecoded(Chunks(Unlines(DiffLines(f))), FileBytes(f));
    if f.Symlink? {
      SymlinkExact(f);
    } else {
      UntrackedRoundTrip([f]);
    }
  }

  lemma {:induction false} AtLeastOneEach(files: seq<Untracked>)
    requires EachListed(files)
    ensures Names(files) && |OwnDecodes(files)| >= |Bytes(files)|
    decreases |files|
  {
    if files != [] {
      hide Decodes, OwnChunks, FileBytes, HasChunk, Listed;
      var f := files[|files| - 1];
      AtLeastOneEach(files[..|files| - 1]);
      assert Listed(f);
      if HasChunk(f) {
        OwnCount(f);
      }
    }
  }

  /** Lists that agree in total agree piece by piece, when no piece of the first is short. */
  lemma SamePieces(a: seq<string>, b: seq<string>, x: seq<string>, y: seq<string>)
    requires |a| >= |x| && |b| >= |y|
    ensures a + b == x + y <==> a == x && b == y
  {
    if a + b == x + y {
      assert |a| + |b| == |x| + |y|;
      assert a == (a + b)[..|a|] == (x + y)[..|x|] == x;
      assert b == (a + b)[|a|..] == (x + y)[|x|..] == y;
    }
  }

  lemma NoOwnChunks(f: Untracked)
    requires f.name != "" && !HasChunk(f)
    ensures Decodes(OwnChunks(f)) == [] && PlainTarget(f)
  {
  }

  lemma EachPlainFront(files: seq<Untracked>)
    requires files != []
    ensures EachPlain(files) <==> EachPlain(files[..|files| - 1]) && PlainTarget(files[|files| - 1])
  {
    hide PlainTarget;
  }

  /** What one file adds to both lists. */
  lemma PieceExact(f: Untracked)
    requires Listed(f)
    ensures var own, bytes := Decodes(OwnChunks(f)), if HasChunk(f) then [FileBytes(f)] else [];
            |own| >= |bytes| && (own == bytes <==> PlainTarget(f))
  {
    if HasChunk(f) {
      hide Decodes, OwnChunks, FileBytes, HasChunk, Listed, PlainTarget;
      OwnCount(f);
      OwnExact(f);
    } else {
      NoOwnChunks(f);
    }
  }

  lemma {:induction false} PiecesExact(files: seq<Untracked>)
    requires EachListed(files)
    ensures Names(files) && (OwnDecodes(files) == Bytes(files) <==> EachPlain(files))
    decreases |files|
  {
    hide Decodes, OwnChunks, FileBytes, HasChunk, PlainTarget, EachPlain;
    if files == [] {
      NoFiles();
    } else {
      var front, f := files[..|files| - 1], files[|files| - 1];
      PiecesExact(front);
      AtLeastOneEach(front);
      EachPlainFront(files);
      PieceExact(f);
      SamePieces(OwnDecodes(front), Decodes(OwnChunks(f)), Bytes(front), if HasChunk(f) then [FileBytes(f)] else []);
    }
  }

  lemma NoFiles()
    ensures EachPlain([])
  {
  }

  /** The exact condition, for every list of untracked files: the concatenated diffs decode
      to the bytes of the files, one chunk each and in order, if and only if no symlink
      target has a newline. */
  lemma ListExact(files: seq<Untracked>)
    requires EachListed(files)
    ensures Decodes(Chunks(Unlines(AllLines(files)))) == Bytes(files) <==> EachPlain(files)
  {
    TextDecodes(files);
    PiecesExact(files);
  }
}
