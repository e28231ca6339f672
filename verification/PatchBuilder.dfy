/** host/internal/actions/patch.go: the patch a reviewed file is sent to git with,
    and the proof that re-reading the patch gives the reviewed chunks back. */
module PatchBuilder {
  import opened Text
  import opened DiffParser

  predicate EndsWithNewline(s: string) {
    s != "" && s[|s| - 1] == '\n'
  }

  function DiffLine(file: string): string {
    FILE_PREFIX + file + " b/" + file
  }

  function PatchHead(file: string, isNewFile: bool): seq<string> {
    [DiffLine(file)] +
    (if isNewFile then ["new file mode 100644", "--- /dev/null"] else ["--- a/" + file]) +
    ["+++ b/" + file]
  }

  function Patch(file: string, content: string, isNewFile: bool): string {
    Unlines(PatchHead(file, isNewFile)) + content + (if EndsWithNewline(content) then "" else "\n")
  }

  method BuildPatch(file: string, chunkContent: string, isNewFile: bool) returns (sb: string)
    ensures sb == Patch(file, chunkContent, isNewFile)
  {
    sb := DiffLine(file) + "\n";
    ghost var head := [DiffLine(file)];
    UnlinesSnoc([], DiffLine(file));
    assert [] + head == head && "" + DiffLine(file) == DiffLine(file);
    if isNewFile {
      sb := sb + "new file mode 100644" + "\n";
      UnlinesSnoc(head, "new file mode 100644");
      head := head + ["new file mode 100644"];
      sb := sb + "--- /dev/null" + "\n";
      UnlinesSnoc(head, "--- /dev/null");
      head := head + ["--- /dev/null"];
    } else {
      sb := sb + ("--- a/" + file) + "\n";
      UnlinesSnoc(head, "--- a/" + file);
      head := head + ["--- a/" + file];
    }
    sb := sb + ("+++ b/" + file) + "\n";
    UnlinesSnoc(head, "+++ b/" + file);
    head := head + ["+++ b/" + file];
    assert head == PatchHead(file, isNewFile);
    sb := sb + chunkContent;
    // git apply wants the patch to end with a newline
    if !EndsWithNewline(chunkContent) {
      sb := sb + "\n";
    }
  }

  /** Outside a chunk, a line that can start neither header is ignored. */
  lemma SkipLine(st: State, line: string)
    requires st.open.None? && line != "" && line[0] != 'd' && line[0] != '@'
    ensures Fold(st, [line]) == st
  {
    FoldOne(st, line);
    assert FILE_PREFIX[0] == 'd';
  }

  lemma NamelessHeader()
    ensures FileHeader(DiffLine("")).None? && ChunkHeader(DiffLine("")).None?
  {
    assert DiffLine("") == "diff --git a/ b/";
    assert LastSep(DiffLine(""), 12).None?;
    assert DiffLine("")[0] == 'd';
  }

  lemma HeaderStep(st: State, file: string)
    requires file == "" || HeaderName(file)
    requires file == "" ==> st.open.None? && st.file == ""
    ensures Fold(st, [DiffLine(file)]) == State(Flush(st), file, None)
  {
    FoldOne(st, DiffLine(file));
    if file == "" {
      NamelessHeader();
    } else {
      FileHeaderExact(file);
    }
  }

  /** The patch head announces the file and opens no chunk. */
  lemma FoldHead(file: string, isNewFile: bool)
    requires file == "" || HeaderName(file)
    ensures Fold(INIT, PatchHead(file, isNewFile)) == State([], file, None)
  {
    var st := State([], file, None);
    HeaderStep(INIT, file);
    var middle := if isNewFile then ["new file mode 100644", "--- /dev/null"] else ["--- a/" + file];
    assert Fold(st, middle) == st by {
      if isNewFile {
        assert middle == ["new file mode 100644"] + ["--- /dev/null"];
        FoldAppend(st, ["new file mode 100644"], ["--- /dev/null"]);
        SkipLine(st, "new file mode 100644");
        SkipLine(st, "--- /dev/null");
      } else {
        SkipLine(st, "--- a/" + file);
      }
    }
    SkipLine(st, "+++ b/" + file);
    FoldAppend(INIT, [DiffLine(file)], middle);
    FoldAppend(INIT, [DiffLine(file)] + middle, ["+++ b/" + file]);
  }

  lemma HeadLines(file: string, isNewFile: bool)
    requires NoNewline(file)
    ensures Lines(PatchHead(file, isNewFile))
  {
  }

  /** The chunks of a patch: those it was built from, the last one newline-terminated. */
  function Terminated(cs: seq<Chunk>): seq<Chunk> {
    if cs == [] then []
    else
      var last := cs[|cs| - 1];
      cs[..|cs| - 1] +
      [last.(content := if EndsWithNewline(last.content) then last.content else last.content + "\n")]
  }

  lemma EndOfJoin(ls: seq<string>)
    requires Lines(ls) && ls != [] && ls[0] != ""
    ensures EndsWithNewline(Join(ls)) <==> ls[|ls| - 1] == ""
  {
    var n := |ls| - 1;
    if ls[n] != "" {
      assert Join(ls)[|Join(ls)| - 1] == ls[n][|ls[n]| - 1];
      assert NoNewline(ls[n]);
    } else {
      FrontAndLast([], ls[..n]);
      UnlinesAppend(ls[..n - 1], [ls[n - 1]]);
      UnlinesCons(ls[n - 1], []);
      assert ls[..n] == ls[..n - 1] + [ls[n - 1]];
      assert [ls[n - 1]] + [] == [ls[n - 1]];
    }
  }

  lemma JoinWithEmpty(ls: seq<string>)
    requires ls != []
    ensures Join(ls + [""]) == Join(ls) + "\n"
  {
    JoinConcat(ls, [""]);
    assert Join([""]) == "";
  }

  predicate Headed(c: Chunk) {
    c.content != "" && c.content[0] != '\n'
  }

  lemma FirstLine(c: Chunk)
    requires Headed(c)
    ensures Lines(Split(c.content)) && Split(c.content)[0] != ""
    ensures Join(Split(c.content)) == c.content
  {
    JoinOfSplit(c.content);
  }

  lemma ParsedHeaded(c: Chunk)
    requires ParsedChunk(c)
    ensures Headed(c)
  {
    JoinOfSplit(c.content);
    var first := Split(c.content)[0];
    assert "@@ -" <= first;
    assert first[0] == '@';
    if NewlineAt(c.content) < |c.content| {
      assert first == c.content[..NewlineAt(c.content)];
    }
  }

  lemma {:induction false} LinesOfLines(cs: seq<Chunk>)
    ensures Lines(LinesOf(cs))
    decreases |cs|
  {
    if cs != [] {
      LinesOfLines(cs[..|cs| - 1]);
      JoinOfSplit(cs[|cs| - 1].content);
    }
  }

  lemma {:induction false} LinesOfFirst(cs: seq<Chunk>)
    requires cs != []
    ensures LinesOf(cs) != [] && LinesOf(cs)[0] == Split(cs[0].content)[0]
    decreases |cs|
  {
    var front := cs[..|cs| - 1];
    if front == [] {
      assert LinesOf(cs) == Split(cs[0].content);
    } else {
      LinesOfFirst(front);
    }
  }

  lemma LinesOfLast(cs: seq<Chunk>)
    requires cs != []
    ensures LinesOf(cs) != []
    ensures var last := Split(cs[|cs| - 1].content);
            LinesOf(cs)[|LinesOf(cs)| - 1] == last[|last| - 1]
  {
  }

  /** The lines of a patch body: the chunk lines, closed by one empty line. */
  function Body(cs: seq<Chunk>): seq<string>
    requires LinesOf(cs) != []
  {
    var ls := LinesOf(cs);
    if ls[|ls| - 1] == "" then ls else ls + [""]
  }

  lemma BodyText(cs: seq<Chunk>)
    requires cs != [] && Headed(cs[0])
    ensures LinesOf(cs) != [] && Lines(Body(cs))
    ensures var content := Join(Contents(cs));
            content + (if EndsWithNewline(content) then "" else "\n") == Join(Body(cs))
  {
    hide Join, Split, Unlines, LinesOf, Contents;
    LinesOfFirst(cs);
    LinesOfLines(cs);
    FirstLine(cs[0]);
    JoinOfContents(cs);
    EndOfJoin(LinesOf(cs));
    JoinWithEmpty(LinesOf(cs));
  }

  lemma PatchLines(file: string, cs: seq<Chunk>, isNewFile: bool)
    requires cs != [] && Headed(cs[0]) && NoNewline(file)
    ensures LinesOf(cs) != []
    ensures Split(Patch(file, Join(Contents(cs)), isNewFile)) == PatchHead(file, isNewFile) + Body(cs)
  {
    var head, ls, content := PatchHead(file, isNewFile), LinesOf(cs), Join(Contents(cs));
    var end := if EndsWithNewline(content) then "" else "\n";
    BodyText(cs);
    SplitOfJoin(Body(cs));
    HeadLines(file, isNewFile);
    SplitAfterLines(head, content + end);
    Assoc(Unlines(head), content, end);
  }

  lemma FoldEmptyLine(st: State, ls: seq<string>)
    requires Fold(st, ls).open.Some?
    ensures var mid := Fold(st, ls);
            Fold(st, ls + [""]) ==
            State(mid.chunks, mid.file, Some(Open(mid.open.value.range, mid.open.value.lines + [""])))
  {
    FoldAppend(st, ls, [""]);
    FoldOne(Fold(st, ls), "");
  }

  /** Closing the last chunk with an empty line only terminates its content. */
  lemma FlushBody(cs: seq<Chunk>, file: string)
    requires cs != [] && Headed(cs[|cs| - 1]) && cs[|cs| - 1].file == file
    requires LinesOf(cs) != []
    requires Fold(State([], file, None), LinesOf(cs)) ==
             State(cs[..|cs| - 1], file, Some(Open(cs[|cs| - 1].range, Split(cs[|cs| - 1].content))))
    ensures Flush(Fold(State([], file, None), Body(cs))) == Terminated(cs)
  {
    var st := State([], file, None);
    var last := cs[|cs| - 1];
    var ll := Split(last.content);
    LinesOfLast(cs);
    FirstLine(last);
    EndOfJoin(ll);
    FoldEmptyLine(st, LinesOf(cs));
    JoinWithEmpty(ll);
  }

  /** For every diff text and every file: parsing the patch built from the file's
      chunks gives back the same file, ranges and contents, the last content closed
      by one newline if it had none.  Nothing is asked of the text. */
  lemma PatchRoundTrip(text: string, file: string, isNewFile: bool)
    requires ForFile(Chunks(text), file) != []
    ensures var cs := ForFile(Chunks(text), file);
            Chunks(Patch(file, Join(Contents(cs)), isNewFile)) == Terminated(cs)
  {
    var cs := ForFile(Chunks(text), file);
    ParsedChunks(text);
    ForFileMembers(Chunks(text), file);
    ReparsedPatch(cs, file, isNewFile);
  }

  lemma ParsedFile(c: Chunk)
    requires ParsedChunk(c)
    ensures (c.file == "" || HeaderName(c.file)) && NoNewline(c.file)
  {
  }

  lemma ReparsedPatch(cs: seq<Chunk>, file: string, isNewFile: bool)
    requires cs != [] && ChunksOf(cs, file)
    ensures Chunks(Patch(file, Join(Contents(cs)), isNewFile)) == Terminated(cs)
  {
    hide Step, Fold, Join, Split, Patch, PatchHead, Contents, LinesOf, Body, ParsedChunk, Terminated, HeaderName;
    assert ParsedChunk(cs[0]);
    ParsedHeaded(cs[0]);
    ParsedFile(cs[0]);
    PatchLines(file, cs, isNewFile);
    LongHead(file, isNewFile);
    FoldHead(file, isNewFile);
    FoldAppend(INIT, PatchHead(file, isNewFile), Body(cs));
    BodyParsed(cs, file);
  }

  lemma LongHead(file: string, isNewFile: bool)
    ensures |PatchHead(file, isNewFile)| > 1 && |Split("")| == 1
  {
  }

  lemma BodyParsed(cs: seq<Chunk>, file: string)
    requires cs != [] && ChunksOf(cs, file)
    ensures LinesOf(cs) != [] && Flush(Fold(State([], file, None), Body(cs))) == Terminated(cs)
  {
    hide Step, Fold, Join, Split, LinesOf, Body, ParsedChunk, Terminated;
    var st := State([], file, None);
    assert ParsedChunk(cs[|cs| - 1]);
    ParsedHeaded(cs[|cs| - 1]);
    LinesOfFirst(cs);
    FoldChunks(st, cs);
    assert Flush(st) + cs[..|cs| - 1] == cs[..|cs| - 1];
    FlushBody(cs, file);
  }

  /** A patch without chunks parses to no chunk. */
  lemma EmptyPatch(file: string, isNewFile: bool)
    requires file == "" || HeaderName(file)
    ensures Chunks(Patch(file, "", isNewFile)) == []
  {
    hide Fold, Split, Unlines, PatchHead;
    var head := PatchHead(file, isNewFile);
    HeadLines(file, isNewFile);
    EmptyText(head);
    FoldHead(file, isNewFile);
    FoldAppend(INIT, head, ["", ""]);
    EmptyLines(State([], file, None));
  }

  lemma EmptyText(head: seq<string>)
    requires Lines(head)
    ensures Split(Unlines(head) + "" + "\n") == head + ["", ""]
    ensures Unlines(head) + "" + "\n" != ""
  {
    SplitAfterLines(head, "\n");
    assert Split("\n") == ["", ""];
    hide Unlines, Split;
    Assoc(Unlines(head), "", "\n");
    assert "" + "\n" == "\n";
  }

  lemma EmptyLines(st: State)
    requires st.open.None?
    ensures Fold(st, ["", ""]) == st
  {
    FoldAppend(st, [""], [""]);
    FoldOne(st, "");
    assert ["", ""] == [""] + [""];
  }

  // ---------------------------------------------------------------------------
  // The names git takes from the head
  // ---------------------------------------------------------------------------

  /** What follows the first line that starts with the marker. */
  function NameAfter(marker: string, ls: seq<string>): Option<string> {
    if ls == [] then None
    else if marker <= ls[0] then Some(ls[0][|marker|..])
    else NameAfter(marker, ls[1..])
  }

  lemma NotPrefix(marker: string, line: string)
    requires marker != "" && (line == "" || line[0] != marker[0])
    ensures !(marker <= line)
  {
  }

  /** A line found by its first byte. */
  lemma Marks(marker: string, ls: seq<string>, i: nat, rest: string)
    requires i < |ls| && marker != "" && ls[i] == marker + rest
    requires forall j :: 0 <= j < i ==> ls[j] == "" || ls[j][0] != marker[0]
    ensures NameAfter(marker, ls) == Some(rest)
  {
    assert ls[i][|marker|..] == rest;
    forall j | 0 <= j < i
      ensures !(marker <= ls[j])
    {
      NotPrefix(marker, ls[j]);
    }
    HeadRead(marker, ls, i);
  }

  lemma MarksNone(marker: string, ls: seq<string>)
    requires marker != "" && forall j :: 0 <= j < |ls| ==> ls[j] == "" || ls[j][0] != marker[0]
    ensures NameAfter(marker, ls) == None
  {
    forall j | 0 <= j < |ls|
      ensures !(marker <= ls[j])
    {
      NotPrefix(marker, ls[j]);
    }
    HeadRead(marker, ls, |ls|);
  }

  lemma HeadIs(file: string, isNewFile: bool)
    ensures var head := PatchHead(file, isNewFile);
            && |head| == (if isNewFile then 4 else 3)
            && head[0] == "diff --git " + ("a/" + file + " b/" + file)
            && (isNewFile ==> head[1] == "new file mode " + "100644")
            && head[|head| - 2] == "--- " + (if isNewFile then "/dev/null" else "a/" + file)
            && head[|head| - 1] == "+++ " + ("b/" + file)
  {
    assert DiffLine(file) == "diff --git " + ("a/" + file + " b/" + file);
    assert "new file mode " + "100644" == "new file mode 100644" && "--- " + "/dev/null" == "--- /dev/null";
    assert "--- " + ("a/" + file) == "--- a/" + file && "+++ " + ("b/" + file) == "+++ b/" + file;
  }

  /** The old name is the file under a/, or no file for a new one, which is created as a plain
      file; the new name is the file under b/. */
  lemma HeadNames(file: string, isNewFile: bool)
    ensures var head := PatchHead(file, isNewFile);
            && NameAfter("--- ", head) == Some(if isNewFile then "/dev/null" else "a/" + file)
            && NameAfter("+++ ", head) == Some("b/" + file)
            && NameAfter("new file mode ", head) == (if isNewFile then Some("100644") else None)
            && NameAfter("diff --git ", head) == Some("a/" + file + " b/" + file)
  {
    hide PatchHead, NameAfter;
    var head := PatchHead(file, isNewFile);
    HeadIs(file, isNewFile);
    Marks("diff --git ", head, 0, "a/" + file + " b/" + file);
    Marks("--- ", head, |head| - 2, if isNewFile then "/dev/null" else "a/" + file);
    Marks("+++ ", head, |head| - 1, "b/" + file);
    if isNewFile {
      Marks("new file mode ", head, 1, "100644");
    } else {
      MarksNone("new file mode ", head);
    }
  }

  lemma {:induction false} HeadRead(marker: string, ls: seq<string>, i: nat)
    requires i <= |ls| && forall j :: 0 <= j < i ==> !(marker <= ls[j])
    requires i < |ls| ==> marker <= ls[i]
    ensures NameAfter(marker, ls) == if i < |ls| then Some(ls[i][|marker|..]) else None
  {
    if i > 0 {
      HeadRead(marker, ls[1..], i - 1);
    }
  }
}
