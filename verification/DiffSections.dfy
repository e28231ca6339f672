/** host/internal/diff: sections of a diff text.  Joining diffs (poller.go, runGitDiff)
    and cutting one file's section out (parser.go, ExtractFileDiffSection) both commute
    with parsing. */
module DiffSections {
  import opened Text
  import opened Decimal
  import opened DiffParser
  import opened PatchBuilder
  import opened SyntheticDiff

  // ---------------------------------------------------------------------------
  // Joining the unstaged, staged and untracked diffs
  // ---------------------------------------------------------------------------

  /** Two texts with a newline between them, when there are two. */
  function JoinDiff(a: string, b: string): string {
    if b == "" then a else if a == "" then b else a + "\n" + b
  }

  method AppendDiff(result: string, diff: string) returns (joined: string)
    ensures joined == JoinDiff(result, diff)
    ensures Chunks(joined) == Chunks(result) + Chunks(diff) <==> !Mixes(result, diff)
  {
    hide Chunks, Mixes;
    joined := result;
    NothingMixes(result, diff);
    if diff != "" {
      if joined != "" {
        joined := joined + "\n";
        JoinedDiffs(result, diff);
      }
      joined := joined + diff;
      assert "" + diff == diff;
    }
  }

  predicate Named(files: seq<Untracked>) {
    forall i :: 0 <= i < |files| ==> files[i].name != "" && NoNewline(files[i].name)
  }

  /** The chunks of the joined output are those of its parts if and only if the staged diff
      does not run into the unstaged one; the untracked files never do. */
  method RunGitDiff(unstaged: string, staged: string, files: seq<Untracked>,
                    includeStaged: bool, includeUntracked: bool) returns (result: string)
    requires Named(files)
    ensures result ==
            JoinDiff(JoinDiff(unstaged, if includeStaged then staged else ""),
                     if includeUntracked then Unlines(AllLines(files)) else "")
    ensures Chunks(result) ==
            Chunks(unstaged) +
            (if includeStaged then Chunks(staged) else []) +
            (if includeUntracked then Chunks(Unlines(AllLines(files))) else []) <==>
            !(includeStaged && Mixes(unstaged, staged))
  {
    hide Chunks, Mixes, AllLines, Unlines;
    result := unstaged;
    ghost var tracked := Chunks(unstaged) + (if includeStaged then Chunks(staged) else []);
    assert Chunks(unstaged) + [] == Chunks(unstaged);
    if includeStaged {
      result := AppendDiff(result, staged);
    }
    assert Chunks(result) == tracked <==> !(includeStaged && Mixes(unstaged, staged));
    ghost var before := result;
    assert tracked + [] == tracked;
    if includeUntracked {
      var untracked := GetUntrackedDiff(files);
      UntrackedNeverMixes(before, files);
      result := AppendDiff(result, untracked);
      SameStart(Chunks(before), tracked, Chunks(untracked));
    }
  }

  lemma SameStart(a: seq<Chunk>, b: seq<Chunk>, c: seq<Chunk>)
    ensures a + c == b + c <==> a == b
  {
    if a + c == b + c {
      assert |a| == |b|;
      assert a == (a + c)[..|a|] == (b + c)[..|b|] == b;
    }
  }

  // When one diff runs into the one before it.

  predicate NoHeader(ls: seq<string>) {
    forall i :: 0 <= i < |ls| ==> FileHeader(ls[i]).None?
  }

  /** Lines up to the next file header. */
  function UntilHeader(ls: seq<string>): seq<string> {
    if ls == [] || FileHeader(ls[0]).Some? then [] else [ls[0]] + UntilHeader(ls[1..])
  }

  lemma {:induction false} UntilPrefix(ls: seq<string>)
    ensures UntilHeader(ls) <= ls && NoHeader(UntilHeader(ls))
    ensures |UntilHeader(ls)| < |ls| ==> FileHeader(ls[|UntilHeader(ls)|]).Some?
  {
    if ls != [] && FileHeader(ls[0]).None? {
      UntilPrefix(ls[1..]);
    }
  }

  predicate NoChunkHeader(ls: seq<string>) {
    forall i :: 0 <= i < |ls| ==> ChunkHeader(ls[i]).None?
  }

  /** Lines up to the next chunk header. */
  function UntilChunk(ls: seq<string>): seq<string> {
    if ls == [] || ChunkHeader(ls[0]).Some? then [] else [ls[0]] + UntilChunk(ls[1..])
  }

  predicate HasBody(ls: seq<string>) {
    exists i :: 0 <= i < |ls| && BodyLine(ls[i])
  }

  /** The second diff has lines before its first file header that the parser adds to the
      first one: a body line while its last chunk is still open, or a chunk while its last
      file is. */
  predicate Mixes(a: string, b: string) {
    a != "" && b != "" && MixesLines(Fold(INIT, Split(a)), UntilHeader(Split(b)))
  }

  predicate MixesLines(st: State, head: seq<string>) {
    || (st.open.Some? && HasBody(UntilChunk(head)))
    || (st.file != "" && !NoChunkHeader(head))
  }

  lemma NothingMixes(a: string, b: string)
    ensures a == "" || b == "" ==> !Mixes(a, b)
    ensures b == "" ==> Chunks(a) == Chunks(a) + Chunks(b)
    ensures a == "" ==> Chunks(b) == Chunks(a) + Chunks(b)
  {
    hide ChunksOfLines;
    assert [] + Chunks(b) == Chunks(b) && Chunks(a) + [] == Chunks(a);
  }

  lemma {:induction false} ChunkPrefix(ls: seq<string>)
    ensures UntilChunk(ls) <= ls && NoChunkHeader(UntilChunk(ls))
    ensures |UntilChunk(ls)| < |ls| ==> ChunkHeader(ls[|UntilChunk(ls)|]).Some?
    ensures NoChunkHeader(ls) <==> UntilChunk(ls) == ls
  {
    hide ChunkHeader;
    if ls != [] && ChunkHeader(ls[0]).None? {
      ChunkPrefix(ls[1..]);
      assert ls == [ls[0]] + ls[1..];
    }
  }

  /** Lines without any header only extend the open chunk, by their body lines. */
  lemma {:induction false} LooseFold(st: State, ls: seq<string>)
    requires NoHeader(ls) && NoChunkHeader(ls)
    ensures var st' := Fold(st, ls);
            && st'.chunks == st.chunks && st'.file == st.file
            && (st.open.None? ==> st' == st)
            && (st.open.Some? ==>
                  && st'.open.Some? && st'.open.value.range == st.open.value.range
                  && st.open.value.lines <= st'.open.value.lines
                  && (st.open.value.lines != st'.open.value.lines <==> HasBody(ls)))
  {
    hide FileHeader, ChunkHeader, BodyLine;
    if ls != [] {
      var front, last := ls[..|ls| - 1], ls[|ls| - 1];
      LooseFold(st, front);
      assert ls == front + [last];
      assert HasBody(ls) <==> HasBody(front) || BodyLine(last);
    }
  }

  lemma LongerJoin(a: seq<string>, b: seq<string>)
    requires a != [] && a <= b && a != b
    ensures Join(a) != Join(b)
  {
    var rest := b[|a|..];
    assert b == a + rest && rest != [];
    JoinAppend(a, rest);
  }

  lemma JoinAppend(a: seq<string>, b: seq<string>)
    requires a != [] && b != []
    ensures |Join(a + b)| > |Join(a)|
  {
    var front, last := a[..|a| - 1], a[|a| - 1];
    assert (a + b)[..|a + b| - 1] == a + b[..|b| - 1] && (a + b)[|a + b| - 1] == b[|b| - 1];
    UnlinesAppend(a, b[..|b| - 1]);
    assert a == front + [last];
    UnlinesSnoc(front, last);
  }

  lemma LooseFlush(st: State, ls: seq<string>)
    requires NoHeader(ls) && NoChunkHeader(ls) && (st.open.Some? ==> st.open.value.lines != [])
    ensures Flush(Fold(st, ls)) == Flush(st) <==> !(st.open.Some? && HasBody(ls))
  {
    hide Join, Fold;
    LooseFold(st, ls);
    if st.open.Some? {
      var o, o' := st.open.value, Fold(st, ls).open.value;
      if o.lines != o'.lines {
        LongerJoin(o.lines, o'.lines);
        assert Flush(st)[|st.chunks|] != Flush(Fold(st, ls))[|st.chunks|];
      }
    }
  }

  /** From a chunk header on, the lines add the same chunks to whatever came before, but for
      their file. */
  lemma AfterChunkHeader(st: State, h: string, rest: seq<string>)
    requires FileHeader(h).None? && ChunkHeader(h).Some?
    ensures var own := Fold(State([], st.file, Some(Open(ChunkHeader(h).value, [h]))), rest);
            Flush(Fold(st, [h] + rest)) == Flush(st) + Flush(own)
  {
    hide FileHeader, ChunkHeader, Join, BodyLine;
    var start := State([], st.file, Some(Open(ChunkHeader(h).value, [h])));
    FoldAppend(st, [h], rest);
    FoldOne(st, h);
    assert Flush(st) + [] == Flush(st);
    FoldFrame(Flush(st), start, rest);
    FlushFrame(Flush(st), Fold(start, rest));
  }

  lemma {:induction false} StaysOpen(st: State, ls: seq<string>)
    requires NoHeader(ls) && st.open.Some?
    ensures Fold(st, ls).open.Some? && Fold(st, ls).file == st.file
  {
    hide FileHeader, ChunkHeader, BodyLine, Join;
    if ls != [] {
      StaysOpen(st, ls[..|ls| - 1]);
    }
  }

  lemma LastFile(st: State)
    requires st.open.Some?
    ensures Flush(st) != [] && Flush(st)[|Flush(st)| - 1].file == st.file
  {
  }

  /** Lines without a file header, after a first diff and by themselves. */
  lemma HeadlessFold(st: State, head: seq<string>)
    requires NoHeader(head) && (st.open.Some? ==> st.open.value.lines != [])
    ensures Flush(Fold(st, head)) == Flush(st) + Flush(Fold(INIT, head)) <==> !MixesLines(st, head)
  {
    hide FileHeader, ChunkHeader, BodyLine, Join, Fold, Flush;
    ChunkPrefix(head);
    if NoChunkHeader(head) {
      HeadlessLoose(st, head);
    } else {
      var loose := UntilChunk(head);
      var h, rest := head[|loose|], head[|loose| + 1..];
      assert head == loose + ([h] + rest);
      HeadlessChunk(st, loose, h, rest);
      assert head[|loose|] == h;
    }
  }

  lemma HeadlessLoose(st: State, head: seq<string>)
    requires NoHeader(head) && NoChunkHeader(head) && (st.open.Some? ==> st.open.value.lines != [])
    ensures Flush(Fold(st, head)) == Flush(st) + Flush(Fold(INIT, head)) <==> !(st.open.Some? && HasBody(head))
  {
    LooseFlush(st, head);
    LooseFold(INIT, head);
    assert Flush(INIT) == [];
    hide Flush, Fold, FileHeader, ChunkHeader, BodyLine;
    assert Flush(st) + [] == Flush(st);
  }

  lemma HeadlessChunk(st: State, loose: seq<string>, h: string, rest: seq<string>)
    requires NoHeader(loose + ([h] + rest)) && NoChunkHeader(loose) && ChunkHeader(h).Some?
    requires st.open.Some? ==> st.open.value.lines != []
    ensures Flush(Fold(st, loose + ([h] + rest))) == Flush(st) + Flush(Fold(INIT, loose + ([h] + rest))) <==>
            !(st.open.Some? && HasBody(loose)) && st.file == ""
  {
    hide FileHeader, ChunkHeader, BodyLine, Join, HasBody, NoChunkHeader, Flush, Fold;
    HeadlessParts(loose, h, rest);
    FoldAppend(st, loose, [h] + rest);
    FoldAppend(INIT, loose, [h] + rest);
    LooseFold(st, loose);
    LooseFold(INIT, loose);
    LooseFlush(st, loose);
    AfterChunkHeader(Fold(st, loose), h, rest);
    AfterChunkHeader(INIT, h, rest);
    NoChunksYet();
    var own := Fold(State([], st.file, Some(Open(ChunkHeader(h).value, [h]))), rest);
    var alone := Fold(State([], "", Some(Open(ChunkHeader(h).value, [h]))), rest);
    StaysOpen(State([], st.file, Some(Open(ChunkHeader(h).value, [h]))), rest);
    StaysOpen(State([], "", Some(Open(ChunkHeader(h).value, [h]))), rest);
    LastFile(own);
    LastFile(alone);
    assert [] + Flush(alone) == Flush(alone);
    if st.file == "" {
      SameStart(Flush(Fold(st, loose)), Flush(st), Flush(own));
    } else {
      LastDiffers(Flush(Fold(st, loose)), Flush(own), Flush(st), Flush(alone));
    }
  }

  lemma NoChunksYet()
    ensures Flush(INIT) == []
  {
  }

  lemma LastDiffers(a: seq<Chunk>, b: seq<Chunk>, c: seq<Chunk>, d: seq<Chunk>)
    requires b != [] && d != [] && b[|b| - 1].file != d[|d| - 1].file
    ensures a + b != c + d
  {
    assert (a + b)[|a + b| - 1] == b[|b| - 1] && (c + d)[|c + d| - 1] == d[|d| - 1];
  }

  lemma HeadlessParts(loose: seq<string>, h: string, rest: seq<string>)
    requires NoHeader(loose + ([h] + rest))
    ensures NoHeader(loose) && FileHeader(h).None? && NoHeader(rest)
  {
    hide FileHeader;
    var head := loose + ([h] + rest);
    assert head[|loose|] == h;
    assert forall i :: 0 <= i < |rest| ==> rest[i] == head[|loose| + 1 + i];
    assert forall i :: 0 <= i < |loose| ==> loose[i] == head[i];
  }

  /** The exact condition. */
  lemma JoinedDiffs(a: string, b: string)
    requires a != "" && b != ""
    ensures Chunks(a + "\n" + b) == Chunks(a) + Chunks(b) <==> !Mixes(a, b)
  {
    hide Split, FileHeader, ChunkHeader, Fold, Flush, Join, MixesLines;
    var la, lb := Split(a), Split(b);
    JoinedLines(a, b);
    OpenHasLines(a);
    UntilPrefix(lb);
    var head, tail := UntilHeader(lb), lb[|UntilHeader(lb)|..];
    assert lb == head + tail;
    HeadlessFold(Fold(INIT, la), head);
    FoldAppend(INIT, la, head);
    Assoc(la, head, tail);
    TailParsed(la + head, tail);
    TailParsed(head, tail);
    hide ChunksOfLines;
    Assoc(ChunksOfLines(la), ChunksOfLines(head), ChunksOfLines(tail));
    SameStart(ChunksOfLines(la + head), ChunksOfLines(la) + ChunksOfLines(head), ChunksOfLines(tail));
  }

  lemma OpenHasLines(a: string)
    ensures var st := Fold(INIT, Split(a)); st.open.Some? ==> st.open.value.lines != []
  {
    JoinOfSplit(a);
    FoldParsed(INIT, Split(a));
    hide Fold, Split, FileHeader, ChunkHeader, ParsedChunk, PlainBody;
  }

  lemma TailParsed(la: seq<string>, tail: seq<string>)
    requires tail != [] ==> FileHeader(tail[0]).Some?
    ensures ChunksOfLines(la + tail) == ChunksOfLines(la) + ChunksOfLines(tail)
  {
    if tail == [] {
      NoChunksYet();
      assert Fold(INIT, []) == INIT;
      assert la + tail == la && ChunksOfLines(la) + [] == ChunksOfLines(la);
    } else {
      hide ChunksOfLines, FileHeader;
      assert tail == [tail[0]] + tail[1..];
      Assoc(la, [tail[0]], tail[1..]);
      ParseHomomorphism(la, tail[0], tail[1..]);
    }
  }

  lemma JoinedLines(a: string, b: string)
    ensures Split(a + "\n" + b) == Split(a) + Split(b)
  {
    JoinOfSplit(a);
    TextOfSplit(a);
    hide Split, Join, Unlines;
    SplitAfterLines(Split(a), b);
  }

  lemma HeaderIsOneLine(name: string)
    requires NoNewline(name)
    ensures NoNewline(DiffLine(name))
  {
    assert NoNewline(FILE_PREFIX) && NoNewline(" b/");
  }

  lemma HeaderComesFirst(f: Untracked)
    requires DiffLines(f) != []
    ensures DiffLines(f)[0] == DiffLine(f.name)
  {
    if !f.Skipped? {
      PreambleParts(f);
    }
    hide Preamble, IsBinary, TextHunk;
  }

  lemma FirstOfFile(f: Untracked)
    requires f.name != "" && NoNewline(f.name) && DiffLines(f) != []
    ensures FileHeader(DiffLines(f)[0]).Some? && NoNewline(DiffLines(f)[0])
  {
    hide DiffLines, FileHeader, DiffLine, NoNewline;
    HeaderReads(f.name);
    HeaderComesFirst(f);
    HeaderIsOneLine(f.name);
  }

  lemma {:induction false} FirstOfAll(files: seq<Untracked>)
    requires Named(files) && AllLines(files) != []
    ensures FileHeader(AllLines(files)[0]).Some? && NoNewline(AllLines(files)[0])
    decreases |files|
  {
    hide FileHeader, DiffLines, NoNewline;
    var front, f := files[..|files| - 1], files[|files| - 1];
    if AllLines(front) != [] {
      FirstOfAll(front);
    } else {
      assert AllLines(files) == DiffLines(f);
      FirstOfFile(f);
    }
  }

  lemma UntrackedNeverMixes(a: string, files: seq<Untracked>)
    requires Named(files)
    ensures !Mixes(a, Unlines(AllLines(files)))
  {
    hide Fold, FileHeader, ChunkHeader, BodyLine, AllLines;
    var ls := AllLines(files);
    if ls != [] {
      FirstOfAll(files);
      FirstOfText(ls);
      HeaderFirst(a, Unlines(ls));
    }
  }

  lemma FirstOfText(ls: seq<string>)
    requires ls != [] && NoNewline(ls[0])
    ensures Split(Unlines(ls))[0] == ls[0]
  {
    assert ls == [ls[0]] + ls[1..];
    UnlinesCons(ls[0], ls[1..]);
    CutAt(ls[0], Unlines(ls[1..]));
    FirstLineCut(Unlines(ls));
  }

  lemma HeaderFirst(a: string, b: string)
    requires FileHeader(Split(b)[0]).Some?
    ensures !Mixes(a, b)
  {
    hide Fold, FileHeader, ChunkHeader, BodyLine, Split;
    assert UntilHeader(Split(b)) == [];
  }

  /** The first bytes of a header that git prints quoted. */
  const QUOTED := "diff --git \""

  lemma QuotedReads(line: string)
    requires QUOTED <= line
    ensures FileHeader(line).None? && ChunkHeader(line).None?
  {
    assert line[11] == '\"' && line[0] == 'd';
    assert FILE_PREFIX[11] == 'a' && "@@ -"[0] == '@';
  }

  lemma DigitsThen(n: nat, sep: string, rest: string)
    requires NoNewline(sep) && NoNewline(rest)
    ensures NoNewline(Itoa(n) + (sep + rest))
  {
    hide Itoa;
    forall i | 0 <= i < |Itoa(n)|
      ensures Itoa(n)[i] != '\n'
    {
      assert IsDigit(Itoa(n)[i]);
    }
  }

  lemma PrintedIsOneLine(r: Range)
    ensures NoNewline(PrintHeader(r))
  {
    hide Itoa;
    DigitsThen(r.newCount, " @@", "");
    var newCount := Itoa(r.newCount) + (" @@" + "");
    DigitsThen(r.newStart, ",", newCount);
    var newSide := Itoa(r.newStart) + ("," + newCount);
    DigitsThen(r.oldCount, " +", newSide);
    var oldCount := Itoa(r.oldCount) + (" +" + newSide);
    DigitsThen(r.oldStart, ",", oldCount);
    assert PrintHeader(r) == "@@ -" + (Itoa(r.oldStart) + ("," + oldCount));
  }

  lemma PrintedReads(r: Range)
    requires FitsInt(r)
    ensures NoNewline(PrintHeader(r)) && FileHeader(PrintHeader(r)).None? && ChunkHeader(PrintHeader(r)) == Some(r)
  {
    ReadPrinted(r);
    PrintedIsOneLine(r);
    hide NoNewline, ChunkHeader, Itoa;
    assert PrintHeader(r)[0] == '@' && FILE_PREFIX[0] == 'd';
  }

  lemma OneHeader(name: string)
    requires HeaderName(name)
    ensures FileHeader(DiffLine(name)) == Some(name) && NoNewline(DiffLine(name))
  {
    HeaderIsOneLine(name);
    FileHeaderExact(name);
  }

  lemma {:induction false} SplitLine(line: string)
    requires NoNewline(line)
    ensures Split(line) == [line]
  {
    NoLineEnd(line);
  }

  lemma NoLineEnd(line: string)
    requires NoNewline(line)
    ensures NewlineAt(line) == |line|
  {
  }

  lemma SplitTwo(line: string, rest: string)
    requires NoNewline(line)
    ensures Split(line + "\n" + rest) == [line] + Split(rest)
  {
    JoinedLines(line, rest);
    SplitLine(line);
  }

  /** A staged diff whose first header git prints quoted runs into the unstaged one: its
      chunk goes to the file that was last. */
  lemma QuotedHeaderMixes(name: string, quoted: string, r: Range)
    requires HeaderName(name) && QUOTED <= quoted && NoNewline(quoted) && FitsInt(r)
    ensures var a, b := DiffLine(name), quoted + "\n" + PrintHeader(r);
            && Mixes(a, b)
            && Chunks(a) == [] && Chunks(b) == [Chunk("", r, PrintHeader(r))]
            && Chunks(a + "\n" + b) == [Chunk(name, r, PrintHeader(r))]
  {
    OneHeader(name);
    QuotedReads(quoted);
    PrintedReads(r);
    HeaderNotEmpty(name);
    hide FileHeader, ChunkHeader, Split, DiffLine, PrintHeader, Chunks, Mixes;
    ThreeLines(DiffLine(name), quoted, PrintHeader(r), name, r);
    NotMixed(DiffLine(name), quoted + "\n" + PrintHeader(r), name, r, PrintHeader(r));
  }

  lemma HeaderNotEmpty(name: string)
    ensures DiffLine(name) != ""
  {
  }

  lemma ThreeLines(a: string, quoted: string, p: string, name: string, r: Range)
    requires NoNewline(a) && NoNewline(quoted) && NoNewline(p) && a != ""
    requires FileHeader(a) == Some(name) && FileHeader(quoted).None? && ChunkHeader(quoted).None?
    requires FileHeader(p).None? && ChunkHeader(p) == Some(r)
    ensures var b := quoted + "\n" + p;
            Chunks(a) == [] && Chunks(b) == [Chunk("", r, p)] && Chunks(a + "\n" + b) == [Chunk(name, r, p)]
  {
    hide FileHeader, ChunkHeader, Split, Join, NoNewline;
    var b := quoted + "\n" + p;
    SplitLine(a);
    SplitLine(p);
    SplitTwo(quoted, p);
    SplitTwo(a, b);
    FoldOne(INIT, a);
    TwoRead(INIT, quoted, p, r);
    TwoRead(State([], name, None), quoted, p, r);
    FoldAppend(INIT, [a], [quoted] + [p]);
    OneJoined(p);
    hide Fold;
    assert [] + [Chunk("", r, p)] == [Chunk("", r, p)] && [] + [Chunk(name, r, p)] == [Chunk(name, r, p)];
  }

  lemma OneJoined(p: string)
    ensures Join([p]) == p
  {
    assert [p][..0] == [];
  }

  /** A quoted header is skipped, and the chunk header opens a chunk of the file before it. */
  lemma TwoRead(st: State, quoted: string, p: string, r: Range)
    requires FileHeader(quoted).None? && ChunkHeader(quoted).None? && st.open.None?
    requires FileHeader(p).None? && ChunkHeader(p) == Some(r)
    ensures Fold(st, [quoted] + [p]) == State(st.chunks, st.file, Some(Open(r, [p])))
  {
    hide FileHeader, ChunkHeader;
    FoldAppend(st, [quoted], [p]);
    FoldOne(st, quoted);
    FoldOne(st, p);
  }

  /** The chunks differ in their file, so the parts were mixed. */
  lemma NotMixed(a: string, b: string, name: string, r: Range, p: string)
    requires a != "" && b != "" && name != "" && Chunks(a) == [] && Chunks(b) == [Chunk("", r, p)]
    requires Chunks(a + "\n" + b) == [Chunk(name, r, p)]
    ensures Mixes(a, b)
  {
    JoinedDiffs(a, b);
    hide Chunks, Mixes;
    assert [] + [Chunk("", r, p)] == [Chunk("", r, p)];
    assert [Chunk("", r, p)][0].file != [Chunk(name, r, p)][0].file;
  }

  // ---------------------------------------------------------------------------
  // One file's section
  // ---------------------------------------------------------------------------

  predicate NeverNames(ls: seq<string>, file: string) {
    forall i :: 0 <= i < |ls| ==> FileHeader(ls[i]) != Some(file)
  }

  /** The first section headed by file, header included. */
  function Section(ls: seq<string>, file: string): seq<string> {
    if ls == [] then []
    else if FileHeader(ls[0]) == Some(file) then [ls[0]] + UntilHeader(ls[1..])
    else Section(ls[1..], file)
  }

  function Extract(diff: string, file: string): string {
    if diff == "" || file == "" then "" else Join(Section(Split(diff), file))
  }

  method ExtractFileDiffSection(diffOutput: string, file: string) returns (section: string)
    ensures section == Extract(diffOutput, file)
  {
    if diffOutput == "" || file == "" {
      return "";
    }
    hide FileHeader, Join, Split, Extracting;
    var lines := Split(diffOutput);
    var result: seq<string> := [];
    var inFile := false;
    var i := 0;
    StartExtracting(lines, file);
    while i < |lines|
      invariant 0 <= i <= |lines| && Extracting(lines, file, i, inFile, result)
    {
      var line := lines[i];
      LineExtracted(lines, file, i, inFile, result);
      var name := FileHeader(line);
      if name.Some? {
        if inFile {
          break;
        }
        if name.value == file {
          inFile := true;
          result := result + [line];
        }
      } else if inFile {
        result := result + [line];
      }
      i := i + 1;
    }
    if i == |lines| {
      EndExtracting(lines, file, inFile, result);
    }
    section := Join(result);
  }

  /** result holds the part of the section that lies before line i. */
  predicate Extracting(lines: seq<string>, file: string, i: nat, inFile: bool, result: seq<string>)
    requires i <= |lines|
  {
    if inFile then Section(lines, file) == result + UntilHeader(lines[i..])
    else result == [] && Section(lines, file) == Section(lines[i..], file)
  }

  lemma StartExtracting(lines: seq<string>, file: string)
    ensures Extracting(lines, file, 0, false, [])
  {
    assert lines[0..] == lines;
  }

  lemma EndExtracting(lines: seq<string>, file: string, inFile: bool, result: seq<string>)
    requires Extracting(lines, file, |lines|, inFile, result)
    ensures result == Section(lines, file)
  {
    assert lines[|lines|..] == [] && result + [] == result;
  }

  /** What one line does. */
  lemma LineExtracted(lines: seq<string>, file: string, i: nat, inFile: bool, result: seq<string>)
    requires i < |lines| && Extracting(lines, file, i, inFile, result)
    ensures var name := FileHeader(lines[i]);
            && (inFile && name.Some? ==> result == Section(lines, file))
            && (inFile && name.None? ==> Extracting(lines, file, i + 1, true, result + [lines[i]]))
            && (!inFile && name == Some(file) ==> Extracting(lines, file, i + 1, true, result + [lines[i]]))
            && (!inFile && name != Some(file) ==> Extracting(lines, file, i + 1, false, result))
  {
    hide FileHeader;
    assert lines[i..][0] == lines[i] && lines[i..][1..] == lines[i + 1..];
    assert result + [] == result;
    Assoc(result, [lines[i]], UntilHeader(lines[i + 1..]));
  }

  /** Where the section lies: a before it, b its lines after the header, c after it. */
  lemma {:induction false} Locate(ls: seq<string>, file: string)
    returns (a: seq<string>, b: seq<string>, c: seq<string>)
    requires !NeverNames(ls, file)
    ensures NeverNames(a, file) && NoHeader(b) && (c != [] ==> FileHeader(c[0]).Some?)
    ensures Section(ls, file) != [] && FileHeader(Section(ls, file)[0]) == Some(file)
    ensures Section(ls, file) == [Section(ls, file)[0]] + b
    ensures ls == a + Section(ls, file) + c
    decreases |ls|
  {
    hide FileHeader;
    if FileHeader(ls[0]) == Some(file) {
      a := [];
      b := UntilHeader(ls[1..]);
      c := ls[1 + |b|..] by { UntilPrefix(ls[1..]); }
      UntilPrefix(ls[1..]);
    } else {
      var i :| 0 <= i < |ls| && FileHeader(ls[i]) == Some(file);
      assert ls[1..][i - 1] == ls[i];
      a, b, c := Locate(ls[1..], file);
      assert ls == [ls[0]] + ls[1..];
      Assoc([ls[0]], a + Section(ls, file), c);
      Assoc([ls[0]], a, Section(ls, file));
      a := [ls[0]] + a;
    }
  }

  predicate Foreign(cs: seq<Chunk>, file: string) {
    forall i :: 0 <= i < |cs| ==> cs[i].file != file
  }

  lemma {:induction false} ForeignFold(st: State, ls: seq<string>, file: string)
    requires Foreign(st.chunks, file) && st.file != file && NeverNames(ls, file)
    ensures Foreign(Fold(st, ls).chunks, file) && Fold(st, ls).file != file
  {
    hide FileHeader, ChunkHeader, Join, BodyLine;
    if ls != [] {
      ForeignFold(st, ls[..|ls| - 1], file);
    }
  }

  predicate Own(cs: seq<Chunk>, file: string) {
    forall i :: 0 <= i < |cs| ==> cs[i].file == file
  }

  lemma OwnStep(st: State, line: string, file: string)
    requires Own(st.chunks, file) && st.file == file && FileHeader(line).None?
    ensures Own(Step(st, line).chunks, file) && Step(st, line).file == file
  {
  }

  lemma {:induction false} OwnFold(st: State, ls: seq<string>, file: string)
    requires Own(st.chunks, file) && st.file == file && NoHeader(ls)
    ensures Own(Fold(st, ls).chunks, file) && Fold(st, ls).file == file
  {
    if ls != [] {
      OwnFold(st, ls[..|ls| - 1], file);
      OwnStep(Fold(st, ls[..|ls| - 1]), ls[|ls| - 1], file);
    }
  }

  lemma {:induction false} ForFileForeign(cs: seq<Chunk>, file: string)
    requires Foreign(cs, file)
    ensures ForFile(cs, file) == []
  {
    if cs != [] {
      ForFileForeign(cs[..|cs| - 1], file);
    }
  }

  lemma {:induction false} ForFileOwn(cs: seq<Chunk>, file: string)
    requires Own(cs, file)
    ensures ForFile(cs, file) == cs
  {
    if cs != [] {
      assert cs == cs[..|cs| - 1] + [cs[|cs| - 1]] && cs[|cs| - 1].file == file;
      ForFileOwn(cs[..|cs| - 1], file);
    }
  }

  lemma ForeignLines(ls: seq<string>, file: string)
    requires file != "" && NeverNames(ls, file)
    ensures ForFile(ChunksOfLines(ls), file) == []
  {
    ForeignFold(INIT, ls, file);
    ForFileForeign(ChunksOfLines(ls), file);
  }

  lemma OwnLines(header: string, b: seq<string>)
    requires FileHeader(header).Some? && NoHeader(b)
    ensures var file := FileHeader(header).value;
            ForFile(ChunksOfLines([header] + b), file) == ChunksOfLines([header] + b)
  {
    var file := FileHeader(header).value;
    FoldAppend(INIT, [header], b);
    FoldOne(INIT, header);
    OwnFold(State([], file, None), b, file);
    ForFileOwn(ChunksOfLines([header] + b), file);
  }

  /** The chunks of lines split at a section. */
  lemma SectionChunks(a: seq<string>, section: seq<string>, c: seq<string>)
    requires section != [] && FileHeader(section[0]).Some?
    requires c != [] ==> FileHeader(c[0]).Some?
    ensures ChunksOfLines(a + section + c) == ChunksOfLines(a) + ChunksOfLines(section) + ChunksOfLines(c)
  {
    assert section == [section[0]] + section[1..];
    Assoc(a, [section[0]], section[1..]);
    ParseHomomorphism(a, section[0], section[1..]);
    if c == [] {
      assert a + section + c == a + section;
      assert ChunksOfLines([]) == [];
    } else {
      assert c == [c[0]] + c[1..];
      Assoc(a + section, [c[0]], c[1..]);
      ParseHomomorphism(a + section, c[0], c[1..]);
    }
  }

  /** Extracting a file's section and parsing it gives the first chunks of that file in
      the whole diff, and all of them when one header line names the file. */
  lemma ExtractCommutes(diff: string, file: string)
    requires file != ""
    ensures Chunks(Extract(diff, file)) <= ForFile(Chunks(diff), file)
    ensures SingleSection(Split(diff), file) ==> Chunks(Extract(diff, file)) == ForFile(Chunks(diff), file)
  {
    var ls := Split(diff);
    if diff == "" {
      assert ForFile([], file) == [];
    } else if NeverNames(ls, file) {
      ForeignLines(ls, file);
      NoSection(ls, file);
      assert Join([]) == "";
    } else {
      var a, b, c := Locate(ls, file);
      var section := Section(ls, file);
      JoinOfSplit(diff);
      SectionLines(ls, a, section, c);
      SplitOfJoin(section);
      NonEmptySection(section, file);
      SectionChunks(a, section, c);
      ForFileAppend(ChunksOfLines(a) + ChunksOfLines(section), ChunksOfLines(c), file);
      ForFileAppend(ChunksOfLines(a), ChunksOfLines(section), file);
      ForeignLines(a, file);
      OwnLines(section[0], b);
      assert [] + ChunksOfLines(section) == ChunksOfLines(section);
      if SingleSection(ls, file) {
        OnlyOne(a, section, c, file);
        ForeignLines(c, file);
      }
    }
  }

  /** At most one header line names the file. */
  predicate SingleSection(ls: seq<string>, file: string) {
    forall i, j :: 0 <= i < |ls| && 0 <= j < |ls| && FileHeader(ls[i]) == FileHeader(ls[j]) == Some(file) ==> i == j
  }

  lemma OnlyOne(a: seq<string>, section: seq<string>, c: seq<string>, file: string)
    requires section != [] && FileHeader(section[0]) == Some(file)
    requires SingleSection(a + section + c, file)
    ensures NeverNames(c, file)
  {
    var ls := a + section + c;
    assert ls[|a|] == section[0];
    forall i | 0 <= i < |c|
      ensures FileHeader(c[i]) != Some(file)
    {
      assert ls[|a| + |section| + i] == c[i];
    }
  }

  lemma SectionLines(ls: seq<string>, a: seq<string>, section: seq<string>, c: seq<string>)
    requires Lines(ls) && ls == a + section + c
    ensures Lines(section)
  {
    forall i | 0 <= i < |section|
      ensures NoNewline(section[i])
    {
      assert ls[|a| + i] == section[i];
    }
  }

  lemma NonEmptySection(section: seq<string>, file: string)
    requires section != [] && FileHeader(section[0]) == Some(file)
    ensures Join(section) != ""
  {
    assert FILE_PREFIX <= section[0];
    if |section| > 1 {
      assert Unlines(section[..|section| - 1]) != "";
    }
  }

  lemma {:induction false} NoSection(ls: seq<string>, file: string)
    requires NeverNames(ls, file)
    ensures Section(ls, file) == []
  {
    if ls != [] {
      NoSection(ls[1..], file);
    }
  }
}
