/** host/internal/diff/poller.go: diffs the host writes itself for untracked files,
    and the proof that the chunk parser reads every file back byte for byte. */
module SyntheticDiff {
  import opened Text
  import opened Decimal
  import opened DiffParser
  import opened PatchBuilder

  /** What lstat and the reads return; digest is the seven hex digits of the hash.
      An unreadable path contributes nothing, like a directory. */
  datatype Untracked =
    | Regular(name: string, perm: nat, content: string, digest: string)
    | Symlink(name: string, digest: string, target: string)
    | Skipped(name: string)

  const HEAD_SIZE := 8000

  predicate IsBinary(content: string) {
    '\0' in content[..if |content| < HEAD_SIZE then |content| else HEAD_SIZE]
  }

  const NO_EOL := "\\ No newline at end of file"

  function Octal(n: nat): (s: string)
    ensures s != "" && NoNewline(s)
  {
    (if n < 8 then "" else Octal(n / 8)) + [(n % 8 + '0' as int) as char]
  }

  function NewlineCount(s: string): nat {
    if s == "" then 0 else (if s[0] == '\n' then 1 else 0) + NewlineCount(s[1..])
  }

  function LineCount(content: string): nat {
    NewlineCount(content) + (if content != "" && !EndsWithNewline(content) then 1 else 0)
  }

  /** The lines of a file, the last one possibly unterminated. */
  function ContentLines(content: string): seq<string> {
    CompleteLines(content) + (if Remainder(content) == "" then [] else [Remainder(content)])
  }

  function Plus(ls: seq<string>): seq<string> {
    seq(|ls|, i requires 0 <= i < |ls| => "+" + ls[i])
  }

  function Preamble(f: Untracked): seq<string> {
    match f
    case Skipped(_) => []
    case Symlink(name, digest, _) =>
      [DiffLine(name), "new file mode 120000", "index 0000000.." + digest, "--- /dev/null", "+++ b/" + name]
    case Regular(name, perm, content, digest) =>
      if IsBinary(content) then
        [DiffLine(name), "new file mode " + Octal(perm), "index 0000000.." + digest,
         "Binary files /dev/null and b/" + name + " differ"]
      else [DiffLine(name), "new file mode " + Octal(perm), "--- /dev/null", "+++ b/" + name]
  }

  predicate HasChunk(f: Untracked) {
    f.Symlink? || (f.Regular? && !IsBinary(f.content))
  }

  function TextHunk(content: string): seq<string> {
    if content == "" then ["@@ -0,0 +0,0 @@"]
    else
      ["@@ -0,0 +1," + Itoa(LineCount(content)) + " @@"] + Plus(ContentLines(content)) +
      (if EndsWithNewline(content) then [] else [NO_EOL])
  }

  function Hunk(f: Untracked): seq<string> {
    if f.Symlink? then ["@@ -0,0 +1 @@"] + Split("+" + f.target) + [NO_EOL]
    else if !HasChunk(f) then []
    else TextHunk(f.content)
  }

  function DiffLines(f: Untracked): seq<string> {
    Preamble(f) + Hunk(f)
  }

  function AllLines(files: seq<Untracked>): seq<string> {
    if files == [] then [] else AllLines(files[..|files| - 1]) + DiffLines(files[|files| - 1])
  }

  // ---------------------------------------------------------------------------
  // The printers
  // ---------------------------------------------------------------------------

  method WriteLines(sb: string, ghost before: seq<string>, ls: seq<string>) returns (out: string)
    requires sb == Unlines(before)
    ensures out == Unlines(before + ls)
  {
    out := sb;
    assert before + ls[..0] == before;
    for i := 0 to |ls|
      invariant out == Unlines(before + ls[..i])
    {
      UnlinesSnoc(before + ls[..i], ls[i]);
      assert before + ls[..i] + [ls[i]] == before + ls[..i + 1];
      out := out + ls[i] + "\n";
    }
    assert ls[..|ls|] == ls;
  }

  method GenerateSymlinkDiff(f: Untracked) returns (sb: string)
    requires f.Symlink?
    ensures sb == Unlines(DiffLines(f))
  {
    hide Preamble, Split, DiffLines, Hunk;
    var start := Preamble(f) + ["@@ -0,0 +1 @@"];
    assert [] + start == start;
    SymlinkParts(f);
    sb := WriteLines("", [], start);
    var line := "+" + f.target;
    sb := sb + line + "\n";
    TextOfSplit(line);
    UnlinesAppend(start, Split(line));
    Assoc(Unlines(start), line, "\n");
    sb := WriteLines(sb, start + Split(line), [NO_EOL]);
  }

  lemma SymlinkParts(f: Untracked)
    requires f.Symlink?
    ensures Preamble(f) + ["@@ -0,0 +1 @@"] + Split("+" + f.target) + [NO_EOL] == DiffLines(f)
  {
    hide Preamble, Split;
  }

  /** The line loop of the printer: an empty piece after the last newline is no line. */
  method WriteAdded(sb: string, ghost start: seq<string>, content: string) returns (out: string)
    requires sb == Unlines(start)
    ensures out == Unlines(start + Plus(ContentLines(content)))
  {
    hide CompleteLines, Remainder, Unlines;
    out := sb;
    var lines := Split(content);
    ghost var kept := ContentLines(content);
    var i := 0;
    assert start + Plus(kept[..0]) == start;
    while i < |lines|
      invariant 0 <= i <= |kept| <= |lines| && out == Unlines(start + Plus(kept[..i]))
    {
      var line := lines[i];
      if i == |lines| - 1 && line == "" {
        break;
      }
      assert kept[i] == line;
      UnlinesSnoc(start + Plus(kept[..i]), "+" + line);
      PlusSnoc(start, kept, i);
      out := out + ("+" + line) + "\n";
      i := i + 1;
    }
    assert kept[..i] == kept;
  }

  lemma PlusSnoc(start: seq<string>, kept: seq<string>, i: nat)
    requires i < |kept|
    ensures start + Plus(kept[..i]) + ["+" + kept[i]] == start + Plus(kept[..i + 1])
  {
  }

  lemma Pieces(a: seq<string>, b: seq<string>, c: seq<string>, d: seq<string>)
    ensures a + b + c + d == a + (b + c + d)
    ensures a + b + c + [] == a + b + c
  {
  }

  method WriteHunk(sb: string, ghost start: seq<string>, content: string) returns (out: string)
    requires sb == Unlines(start)
    ensures out == Unlines(start + TextHunk(content))
  {
    if content == "" {
      out := WriteLines(sb, start, ["@@ -0,0 +0,0 @@"]);
      return;
    }
    var lc := NewlineCount(content);
    if !EndsWithNewline(content) {
      lc := lc + 1;
    }
    var header := "@@ -0,0 +1," + Itoa(lc) + " @@";
    out := WriteLines(sb, start, [header]);
    out := WriteAdded(out, start + [header], content);
    ghost var added := Plus(ContentLines(content));
    if !EndsWithNewline(content) {
      out := WriteLines(out, start + [header] + added, [NO_EOL]);
      Pieces(start, [header], added, [NO_EOL]);
    } else {
      Pieces(start, [header], added, []);
    }
  }

  method GenerateSyntheticDiff(f: Untracked) returns (sb: string)
    ensures sb == Unlines(DiffLines(f))
  {
    if f.Skipped? {
      return "";
    }
    if f.Symlink? {
      sb := GenerateSymlinkDiff(f);
      return;
    }
    assert [] + Preamble(f) == Preamble(f);
    sb := WriteLines("", [], Preamble(f));
    if !IsBinary(f.content) {
      sb := WriteHunk(sb, Preamble(f), f.content);
    } else {
      assert DiffLines(f) == Preamble(f);
    }
  }

  method GetUntrackedDiff(files: seq<Untracked>) returns (sb: string)
    ensures sb == Unlines(AllLines(files))
  {
    sb := "";
    for i := 0 to |files|
      invariant sb == Unlines(AllLines(files[..i]))
    {
      var diff := GenerateSyntheticDiff(files[i]);
      assert files[..i + 1][..i] == files[..i];
      UnlinesAppend(AllLines(files[..i]), DiffLines(files[i]));
      sb := sb + diff;
    }
    assert files[..|files|] == files;
  }

  lemma TextOfSplit(s: string)
    ensures Unlines(Split(s)) == s + "\n"
  {
    UnlinesOfLines(s);
    UnlinesSnoc(CompleteLines(s), Remainder(s));
  }

  lemma {:induction false} EndsAtRemainder(s: string)
    ensures Remainder(s) == "" <==> s == "" || EndsWithNewline(s)
    decreases |s|
  {
    var i := NewlineAt(s);
    if i < |s| {
      EndsAtRemainder(s[i + 1..]);
      if s[i + 1..] == "" {
        assert s[|s| - 1] == s[i];
      } else {
        assert s[|s| - 1] == s[i + 1..][|s[i + 1..]| - 1];
      }
    }
  }

  lemma {:induction false} NewlineCountAppend(a: string, b: string)
    ensures NewlineCount(a + b) == NewlineCount(a) + NewlineCount(b)
  {
    if a == "" {
      assert a + b == b;
    } else {
      NewlineCountAppend(a[1..], b);
      assert (a + b)[1..] == a[1..] + b;
    }
  }

  lemma {:induction false} NoNewlineCount(s: string)
    requires NoNewline(s)
    ensures NewlineCount(s) == 0
  {
    if s != "" {
      assert s[0] in s;
      forall c | c in s[1..]
        ensures c in s
      {
      }
      NoNewlineCount(s[1..]);
    }
  }

  /** The count printed in the hunk header is the number of lines printed below it. */
  lemma {:induction false} CountIsLines(s: string)
    ensures NewlineCount(s) == |CompleteLines(s)|
    decreases |s|
  {
    var i := NewlineAt(s);
    if i == |s| {
      NoNewlineCount(s);
    } else {
      CountIsLines(s[i + 1..]);
      assert s == s[..i] + ("\n" + s[i + 1..]);
      NewlineCountAppend(s[..i], "\n" + s[i + 1..]);
      NoNewlineCount(s[..i]);
      assert ("\n" + s[i + 1..])[1..] == s[i + 1..];
    }
  }

  lemma LineCountExact(s: string)
    ensures LineCount(s) == |ContentLines(s)|
  {
    CountIsLines(s);
    EndsAtRemainder(s);
  }

  // ---------------------------------------------------------------------------
  // Reading a chunk of additions
  // ---------------------------------------------------------------------------

  /** The added lines of a hunk, without their markers. */
  function Added(ls: seq<string>): seq<string> {
    if ls == [] then []
    else (if ls[0] != "" && ls[0][0] == '+' then [ls[0][1..]] else []) + Added(ls[1..])
  }

  predicate NoEolMarked(ls: seq<string>) {
    exists i :: 0 <= i < |ls| && ls[i] != "" && ls[i][0] == '\\'
  }

  /** The new file a chunk of additions describes: every added line ends with a
      newline, except the last one when the no-newline marker is present. */
  function Decode(content: string): string {
    var ls := Split(content);
    if NoEolMarked(ls) then Join(Added(ls)) else Unlines(Added(ls))
  }

  function FileBytes(f: Untracked): string
    requires HasChunk(f)
  {
    if f.Symlink? then f.target else f.content
  }

  lemma {:induction false} AddedAppend(a: seq<string>, b: seq<string>)
    ensures Added(a + b) == Added(a) + Added(b)
  {
    if a == [] {
      assert a + b == b;
    } else {
      AddedAppend(a[1..], b);
      assert (a + b)[1..] == a[1..] + b && (a + b)[0] == a[0];
      Assoc(if a[0] != "" && a[0][0] == '+' then [a[0][1..]] else [], Added(a[1..]), Added(b));
    }
  }

  lemma {:induction false} AddedPlus(ls: seq<string>)
    ensures Added(Plus(ls)) == ls
  {
    if ls != [] {
      AddedPlus(ls[1..]);
      assert Plus(ls)[1..] == Plus(ls[1..]);
      assert ("+" + ls[0])[1..] == ls[0];
    }
  }

  // ---------------------------------------------------------------------------
  // Hunk headers: what is printed is what is read
  // ---------------------------------------------------------------------------

  function PrintHeader(r: Range): string {
    "@@ -" + (Itoa(r.oldStart) + ("," + (Itoa(r.oldCount) + (" +" +
    (Itoa(r.newStart) + ("," + (Itoa(r.newCount) + (" @@" + ""))))))))
  }

  predicate FitsInt(r: Range) {
    r.oldStart <= MAX_INT && r.oldCount <= MAX_INT && r.newStart <= MAX_INT && r.newCount <= MAX_INT
  }

  lemma RangeSideOf(start: nat, count: nat, sep: string, rest: string)
    requires start <= MAX_INT && count <= MAX_INT
    requires sep != "" && sep[0] == ' '
    ensures RangeSide(Itoa(start) + ("," + (Itoa(count) + (sep + rest))), sep) == Some((start, count, rest))
  {
    var tail := "," + (Itoa(count) + (sep + rest));
    DigitRunOf(Itoa(start), tail);
    assert tail[1..] == Itoa(count) + (sep + rest);
    DigitRunOf(Itoa(count), sep + rest);
    AtoiOfItoa(start);
    AtoiOfItoa(count);
    assert (sep + rest)[|sep|..] == rest;
  }

  lemma ReadPrinted(r: Range)
    requires FitsInt(r)
    ensures ChunkHeader(PrintHeader(r)) == Some(r)
  {
    var newSide := Itoa(r.newStart) + ("," + (Itoa(r.newCount) + (" @@" + "")));
    var oldSide := Itoa(r.oldStart) + ("," + (Itoa(r.oldCount) + (" +" + newSide)));
    RangeSideOf(r.newStart, r.newCount, " @@", "");
    RangeSideOf(r.oldStart, r.oldCount, " +", newSide);
    hide RangeSide, Itoa;
    assert PrintHeader(r) == "@@ -" + oldSide;
    PrefixTaken(PrintHeader(r), oldSide);
  }

  lemma PrefixTaken(line: string, rest: string)
    requires line == "@@ -" + rest
    ensures "@@ -" <= line && line[4..] == rest
  {
  }

  // ---------------------------------------------------------------------------
  // One file
  // ---------------------------------------------------------------------------

  /** git ls-files output cut at newlines, empty names dropped; lengths are Go ints;
      the digest is hexadecimal. */
  predicate Listed(f: Untracked) {
    && f.name != "" && NoNewline(f.name)
    && (!f.Skipped? ==> NoNewline(f.digest))
    && (f.Regular? ==> |f.content| <= MAX_INT)
  }

  predicate PlainTarget(f: Untracked) {
    f.Symlink? ==> NoNewline(f.target)
  }

  function HunkRange(f: Untracked): Range
    requires HasChunk(f)
  {
    if f.Symlink? then Range(0, 0, 1, 1)
    else if f.content == "" then Range(0, 0, 0, 0)
    else Range(0, 0, 1, LineCount(f.content))
  }

  function ReadName(f: Untracked): string
    requires f.name != ""
  {
    HeaderReads(f.name);
    FileHeader(DiffLine(f.name)).value
  }

  lemma HeaderReads(name: string)
    requires name != ""
    ensures FileHeader(DiffLine(name)).Some?
  {
    var line := DiffLine(name);
    var mid := |FILE_PREFIX| + |name|;
    assert line[mid..mid + 3] == " b/";
    assert SepAt(line, mid);
    assert FILE_PREFIX <= line;
  }

  lemma {:induction false} NewlineCountBound(s: string)
    ensures NewlineCount(s) <= |s|
    ensures s != "" && !EndsWithNewline(s) ==> NewlineCount(s) < |s|
  {
    if s != "" {
      NewlineCountBound(s[1..]);
    }
  }

  /** The headers the host writes literally are printed headers. */
  lemma LiteralHeaders(tail: string)
    ensures "@@ -" + ("0" + ("," + ("0" + (" +" + ("1" + ("," + tail)))))) == "@@ -0,0 +1," + tail
    ensures "@@ -" + ("0" + ("," + ("0" + (" +" + ("0" + ("," + ("0" + (" @@" + "")))))))) == "@@ -0,0 +0,0 @@"
  {
  }

  lemma TextHeader(content: string)
    requires |content| <= MAX_INT
    ensures TextHunk(content)[0] ==
            PrintHeader(if content == "" then Range(0, 0, 0, 0) else Range(0, 0, 1, LineCount(content)))
    ensures LineCount(content) <= MAX_INT
  {
    NewlineCountBound(content);
    var tail := Itoa(LineCount(content)) + (" @@" + "");
    LiteralHeaders(tail);
    assert Itoa(0) == "0" && Itoa(1) == "1";
    assert " @@" + "" == " @@";
    Assoc("@@ -0,0 +1,", Itoa(LineCount(content)), " @@");
  }

  lemma HunkHeader(f: Untracked)
    requires HasChunk(f) && Listed(f)
    ensures Hunk(f) != [] && ChunkHeader(Hunk(f)[0]) == Some(HunkRange(f))
  {
    if f.Symlink? {
      ShortHeader();
    } else {
      TextHeader(f.content);
      ReadPrinted(HunkRange(f));
    }
  }

  lemma RangeSideOne(start: nat, sep: string, rest: string)
    requires start <= MAX_INT && sep != "" && sep[0] == ' '
    ensures RangeSide(Itoa(start) + (sep + rest), sep) == Some((start, 1, rest))
  {
    DigitRunOf(Itoa(start), sep + rest);
    AtoiOfItoa(start);
    assert (sep + rest)[|sep|..] == rest;
  }

  lemma ShortHeader()
    ensures ChunkHeader("@@ -0,0 +1 @@") == Some(Range(0, 0, 1, 1))
  {
    var newSide := Itoa(1) + (" @@" + "");
    var oldSide := Itoa(0) + ("," + (Itoa(0) + (" +" + newSide)));
    RangeSideOne(1, " @@", "");
    RangeSideOf(0, 0, " +", newSide);
    assert ("@@ -" + oldSide)[4..] == oldSide;
    assert ChunkHeader("@@ -" + oldSide) == Some(Range(0, 0, 1, 1));
    ShortHeaderText();
  }

  lemma ShortHeaderText()
    ensures "@@ -" + (Itoa(0) + ("," + (Itoa(0) + (" +" + (Itoa(1) + (" @@" + "")))))) == "@@ -0,0 +1 @@"
  {
    assert Itoa(0) == "0" && Itoa(1) == "1";
  }

  lemma HunkFirst(f: Untracked)
    requires HasChunk(f)
    ensures Hunk(f)[0] != "" && Hunk(f)[0][0] == '@' && NoNewline(Hunk(f)[0])
  {
  }

  /** Lines that start with a marker are body lines, whatever follows the marker. */
  lemma MarkedLine(line: string)
    requires line != "" && line[0] in {'+', '\\'} && NoNewline(line)
    ensures PlainBody(line)
  {
    assert FILE_PREFIX[0] == 'd';
    assert "@@ -"[0] == '@';
  }

  predicate Marked(ls: seq<string>) {
    forall i :: 1 <= i < |ls| ==> ls[i] != "" && ls[i][0] in {'+', '\\'} && NoNewline(ls[i])
  }

  lemma HunkMarked(f: Untracked)
    requires HasChunk(f) && PlainTarget(f)
    ensures Marked(Hunk(f))
  {
    if f.Symlink? {
      LinesOfUnlines([], "+" + f.target);
      assert "" + ("+" + f.target) == "+" + f.target;
      assert Split("+" + f.target) == ["+" + f.target];
    } else {
      LinesAreLines(f.content);
      PlusMarked(f.content);
    }
  }

  lemma PlusMarked(content: string)
    ensures forall i :: 0 <= i < |Plus(ContentLines(content))| ==>
              var l := Plus(ContentLines(content))[i]; l != "" && l[0] == '+' && NoNewline(l)
  {
    LinesAreLines(content);
  }

  lemma HunkIsChunk(f: Untracked)
    requires HasChunk(f) && Listed(f) && PlainTarget(f)
    ensures ChunkLines(Hunk(f), HunkRange(f))
  {
    var ls := Hunk(f);
    HunkHeader(f);
    HunkFirst(f);
    HunkMarked(f);
    assert FILE_PREFIX[0] == 'd';
    forall i | 1 <= i < |ls|
      ensures PlainBody(ls[i])
    {
      MarkedLine(ls[i]);
    }
  }

  // ---------------------------------------------------------------------------
  // Decoding one file
  // ---------------------------------------------------------------------------

  /** What a parsed chunk must say about the file it came from. */
  predicate Describes(c: Chunk, f: Untracked)
    requires HasChunk(f) && f.name != ""
  {
    && (c.file == f.name <==> !InnerSep(f.name))
    && c.range == HunkRange(f)
    && c.range.newCount == |Added(Split(c.content))|
    && Decode(c.content) == FileBytes(f)
  }

  lemma ContentOfLines(s: string)
    ensures s != "" && !EndsWithNewline(s) ==> Join(ContentLines(s)) == s
    ensures s == "" || EndsWithNewline(s) ==> Unlines(ContentLines(s)) == s
  {
    EndsAtRemainder(s);
    UnlinesOfLines(s);
    if s != "" && !EndsWithNewline(s) {
      assert ContentLines(s)[..|ContentLines(s)| - 1] == CompleteLines(s);
    } else {
      assert ContentLines(s) == CompleteLines(s);
    }
  }

  lemma AddedOne(l: string)
    ensures Added([l]) == if l != "" && l[0] == '+' then [l[1..]] else []
  {
    assert [l][1..] == [];
  }

  lemma AddedTextHunk(content: string)
    ensures Added(TextHunk(content)) == ContentLines(content)
    ensures NoEolMarked(TextHunk(content)) <==> content != "" && !EndsWithNewline(content)
  {
    if content == "" {
      AddedOne("@@ -0,0 +0,0 @@");
    } else {
      var header := "@@ -0,0 +1," + Itoa(LineCount(content)) + " @@";
      var added := Plus(ContentLines(content));
      var end := if EndsWithNewline(content) then [] else [NO_EOL];
      AddedAppend([header] + added, end);
      AddedAppend([header], added);
      AddedOne(header);
      AddedOne(NO_EOL);
      AddedPlus(ContentLines(content));
      assert header[0] == '@';
      if !EndsWithNewline(content) {
        var ls := TextHunk(content);
        assert ls[|ls| - 1] == NO_EOL && NO_EOL[0] == '\\';
      }
    }
  }

  lemma AddedSymlink(f: Untracked)
    requires f.Symlink? && PlainTarget(f)
    ensures Hunk(f) == ["@@ -0,0 +1 @@", "+" + f.target, NO_EOL]
    ensures Added(Hunk(f)) == [f.target] && NoEolMarked(Hunk(f))
  {
    var line := "+" + f.target;
    LinesOfUnlines([], line);
    assert "" + line == line;
    AddedAppend(["@@ -0,0 +1 @@"] + [line], [NO_EOL]);
    AddedAppend(["@@ -0,0 +1 @@"], [line]);
    AddedOne("@@ -0,0 +1 @@");
    AddedOne(line);
    AddedOne(NO_EOL);
    assert Hunk(f) == ["@@ -0,0 +1 @@"] + [line] + [NO_EOL];
    assert Hunk(f)[2][0] == '\\';
  }

  /** A trailing empty line (the end of the whole diff text) changes nothing. */
  lemma TrailingEmpty(ls: seq<string>)
    ensures Added(ls + [""]) == Added(ls)
    ensures NoEolMarked(ls + [""]) <==> NoEolMarked(ls)
  {
    AddedAppend(ls, [""]);
    AddedOne("");
    if NoEolMarked(ls) {
      var i :| 0 <= i < |ls| && ls[i] != "" && ls[i][0] == '\\';
      assert (ls + [""])[i] == ls[i];
    }
  }

  lemma HunkDecodes(f: Untracked)
    requires HasChunk(f) && PlainTarget(f)
    ensures var ls := Hunk(f);
            FileBytes(f) == if NoEolMarked(ls) then Join(Added(ls)) else Unlines(Added(ls))
    ensures |Added(Hunk(f))| == HunkRange(f).newCount
  {
    if f.Symlink? {
      AddedSymlink(f);
      assert Unlines([]) == "" && Join([f.target]) == f.target;
    } else {
      AddedTextHunk(f.content);
      ContentOfLines(f.content);
      LineCountExact(f.content);
    }
  }

  /** A parsed hunk, with or without the final empty line, describes its file. */
  lemma ChunkDescribes(f: Untracked, ls: seq<string>)
    requires HasChunk(f) && Listed(f) && PlainTarget(f)
    requires ls == Hunk(f) || ls == Hunk(f) + [""]
    ensures Describes(Chunk(ReadName(f), HunkRange(f), Join(ls)), f)
  {
    hide Hunk, HunkRange, ReadName, InnerSep, ChunkLines, FileBytes, Join, Split, Added, NoEolMarked, Unlines;
    HunkIsChunk(f);
    HunkLines(f, ls);
    SplitOfJoin(ls);
    TrailingEmpty(Hunk(f));
    HunkDecodes(f);
    NameRead(f);
  }

  lemma HunkLines(f: Untracked, ls: seq<string>)
    requires HasChunk(f) && ChunkLines(Hunk(f), HunkRange(f)) && (ls == Hunk(f) || ls == Hunk(f) + [""])
    ensures Lines(ls) && |ls| > 0
  {
    ChunkLinesNoNewline(Hunk(f), HunkRange(f));
    hide Hunk, HunkRange;
  }

  lemma NameRead(f: Untracked)
    requires f.name != ""
    ensures ReadName(f) == f.name <==> !InnerSep(f.name)
  {
    HeaderReads(f.name);
    FileHeaderExact(f.name);
  }

  /** A file shows as a chunk when it is a symlink, or has no NUL among its first 8000 bytes. */
  lemma ShownExactly(f: Untracked)
    ensures HasChunk(f) <==> f.Symlink? || (f.Regular? && forall i :: 0 <= i < |f.content| && i < 8_000 ==> f.content[i] != '\0')
  {
    if f.Regular? {
      var head := f.content[..if |f.content| < HEAD_SIZE then |f.content| else HEAD_SIZE];
      assert forall i :: 0 <= i < |head| ==> head[i] == f.content[i];
      if IsBinary(f.content) {
        var i :| 0 <= i < |head| && head[i] == '\0';
        assert f.content[i] == '\0';
      }
    }
  }

  /** The number that octal digits stand for. */
  function OctalValue(s: string): nat {
    if s == "" then 0
    else
      OctalValue(s[..|s| - 1]) * 8 + if '0' <= s[|s| - 1] <= '7' then s[|s| - 1] as int - '0' as int else 0
  }

  lemma OctalDigit(n: nat)
    requires n < 8
    ensures var c := (n + '0' as int) as char; '0' <= c <= '7' && c as int - '0' as int == n
  {
  }

  lemma OctalSnoc(s: string, n: nat)
    requires n < 8
    ensures OctalValue(s + [(n + '0' as int) as char]) == OctalValue(s) * 8 + n
  {
    OctalDigit(n);
    assert (s + [(n + '0' as int) as char])[..|s|] == s;
  }

  lemma {:induction false} OctalReads(n: nat)
    ensures OctalValue(Octal(n)) == n
  {
    if n < 8 {
      assert "" + [(n % 8 + '0' as int) as char] == Octal(n);
      OctalSnoc("", n);
    } else {
      OctalReads(n / 8);
      OctalSnoc(Octal(n / 8), n % 8);
    }
  }

  /** The lines of a preamble. */
  lemma PreambleLinesAre(f: Untracked)
    requires !f.Skipped?
    ensures var head := Preamble(f);
            && |head| == (if f.Symlink? then 5 else 4)
            && head[0] == "diff --git " + ("a/" + f.name + " b/" + f.name)
            && head[1] == "new file mode " + (if f.Symlink? then "120000" else Octal(f.perm))
            && (f.Symlink? || !HasChunk(f) ==> head[2] == "index 0000000.." + f.digest)
            && (HasChunk(f) ==> head[|head| - 2] == "--- " + "/dev/null" && head[|head| - 1] == "+++ " + ("b/" + f.name))
            && (!HasChunk(f) ==> head[3] == "Binary files " + ("/dev/null and b/" + f.name + " differ"))
  {
    hide IsBinary, Octal;
    assert DiffLine(f.name) == "diff --git " + ("a/" + f.name + " b/" + f.name);
    assert "new file mode " + "120000" == "new file mode 120000" && "--- " + "/dev/null" == "--- /dev/null";
    assert "+++ " + ("b/" + f.name) == "+++ b/" + f.name;
    assert "Binary files " + ("/dev/null and b/" + f.name + " differ") == "Binary files /dev/null and b/" + f.name + " differ";
  }

  /** What git reads of a preamble: a new file with that mode, and, unless it is binary, the
      file's name on the new side only. */
  lemma PreambleReads(f: Untracked)
    requires !f.Skipped?
    ensures var mode := NameAfter("new file mode ", Preamble(f));
            mode.Some? && (if f.Symlink? then mode.value == "120000" else OctalValue(mode.value) == f.perm)
    ensures NameAfter("diff --git ", Preamble(f)) == Some("a/" + f.name + " b/" + f.name)
    ensures NameAfter("--- ", Preamble(f)) == if HasChunk(f) then Some("/dev/null") else None
    ensures NameAfter("+++ ", Preamble(f)) == if HasChunk(f) then Some("b/" + f.name) else None
    ensures NameAfter("Binary files ", Preamble(f)) == if HasChunk(f) then None else Some("/dev/null and b/" + f.name + " differ")
  {
    assert f.Symlink? ==> HasChunk(f);
    hide Preamble, HasChunk, Octal, OctalValue, NameAfter;
    var head := Preamble(f);
    PreambleLinesAre(f);
    if f.Regular? {
      OctalReads(f.perm);
    }
    Marks("diff --git ", head, 0, "a/" + f.name + " b/" + f.name);
    Marks("new file mode ", head, 1, if f.Symlink? then "120000" else Octal(f.perm));
    SidesRead(f, head);
  }

  lemma SidesRead(f: Untracked, head: seq<string>)
    requires 4 <= |head| <= 5 && (|head| == 5 ==> HasChunk(f) && head[2] != "" && head[2][0] == 'i')
    requires head[0] != "" && head[0][0] == 'd' && head[1] != "" && head[1][0] == 'n'
    requires if HasChunk(f) then head[|head| - 2] == "--- " + "/dev/null" && head[|head| - 1] == "+++ " + ("b/" + f.name)
             else head[2] != "" && head[2][0] == 'i' && head[3] == "Binary files " + ("/dev/null and b/" + f.name + " differ")
    ensures NameAfter("--- ", head) == if HasChunk(f) then Some("/dev/null") else None
    ensures NameAfter("+++ ", head) == if HasChunk(f) then Some("b/" + f.name) else None
    ensures NameAfter("Binary files ", head) == if HasChunk(f) then None else Some("/dev/null and b/" + f.name + " differ")
  {
    hide HasChunk, NameAfter;
    if HasChunk(f) {
      Marks("--- ", head, |head| - 2, "/dev/null");
      Marks("+++ ", head, |head| - 1, "b/" + f.name);
      MarksNone("Binary files ", head);
    } else {
      MarksNone("--- ", head);
      MarksNone("+++ ", head);
      Marks("Binary files ", head, 3, "/dev/null and b/" + f.name + " differ");
    }
  }

  // ---------------------------------------------------------------------------
  // All files
  // ---------------------------------------------------------------------------

  /** The files that show up as a chunk, in listing order. */
  function TextFiles(files: seq<Untracked>): seq<Untracked> {
    if files == [] then []
    else TextFiles(files[..|files| - 1]) + (if HasChunk(files[|files| - 1]) then [files[|files| - 1]] else [])
  }

  predicate AllListed(files: seq<Untracked>) {
    forall i :: 0 <= i < |files| ==> Listed(files[i]) && PlainTarget(files[i])
  }

  predicate Texts(ts: seq<Untracked>) {
    forall i :: 0 <= i < |ts| ==> HasChunk(ts[i]) && Listed(ts[i]) && PlainTarget(ts[i])
  }

  predicate AllDescribed(cs: seq<Chunk>, ts: seq<Untracked>)
    requires Texts(ts)
  {
    |cs| == |ts| && forall i :: 0 <= i < |ts| ==> Describes(cs[i], ts[i])
  }

  /** The parser after the diffs of the files: every closed chunk describes its file
      and the open one, if any, holds the hunk of the last text file. */
  predicate Reads(st: State, ts: seq<Untracked>)
    requires Texts(ts)
  {
    && AllDescribed(Flush(st), ts)
    && (st.open.Some? ==>
          var f := ts[|ts| - 1];
          st.file == ReadName(f) && st.open.value == Open(HunkRange(f), Hunk(f)))
  }

  /** A header line, then lines the parser passes over outside a chunk. */
  lemma PreambleParts(f: Untracked)
    requires !f.Skipped?
    ensures Preamble(f) == [DiffLine(f.name)] + Preamble(f)[1..]
    ensures Passed(Preamble(f)[1..])
  {
    hide DiffLine, IsBinary, Octal;
  }

  predicate Passed(ls: seq<string>) {
    forall i :: 0 <= i < |ls| ==> ls[i] != "" && ls[i][0] != 'd' && ls[i][0] != '@'
  }

  lemma PreambleStep(st: State, f: Untracked)
    requires !f.Skipped? && Listed(f)
    ensures Fold(st, Preamble(f)) == State(Flush(st), ReadName(f), None)
  {
    var head := DiffLine(f.name);
    HeaderReads(f.name);
    FoldOne(st, head);
    PreambleParts(f);
    hide Preamble, FileHeader, DiffLine, ChunkHeader;
    var rest := Preamble(f)[1..];
    FoldAppend(st, [head], rest);
    SkipLines(State(Flush(st), ReadName(f), None), rest);
  }

  lemma {:induction false} SkipLines(st: State, ls: seq<string>)
    requires st.open.None?
    requires forall i :: 0 <= i < |ls| ==> ls[i] != "" && ls[i][0] != 'd' && ls[i][0] != '@'
    ensures Fold(st, ls) == st
    decreases |ls|
  {
    if ls != [] {
      var front, last := ls[..|ls| - 1], ls[|ls| - 1];
      SkipLines(st, front);
      SkipLine(st, last);
      FoldOne(st, last);
    }
  }

  lemma FileStep(st: State, f: Untracked)
    requires Listed(f) && PlainTarget(f) && !f.Skipped?
    ensures Fold(st, DiffLines(f)) ==
            State(Flush(st), ReadName(f), if HasChunk(f) then Some(Open(HunkRange(f), Hunk(f))) else None)
  {
    PreambleStep(st, f);
    FoldAppend(st, Preamble(f), Hunk(f));
    if HasChunk(f) {
      HunkIsChunk(f);
      FoldChunk(State(Flush(st), ReadName(f), None), Hunk(f), HunkRange(f));
    }
  }

  lemma {:induction false} TextFilesHaveChunks(files: seq<Untracked>)
    requires AllListed(files)
    ensures Texts(TextFiles(files))
    decreases |files|
  {
    if files != [] {
      TextFilesHaveChunks(files[..|files| - 1]);
    }
  }

  lemma {:induction false} FilesRead(files: seq<Untracked>)
    requires AllListed(files)
    ensures Texts(TextFiles(files))
    ensures Reads(Fold(INIT, AllLines(files)), TextFiles(files))
    decreases |files|
  {
    TextFilesHaveChunks(files);
    if files != [] {
      var front, f := files[..|files| - 1], files[|files| - 1];
      FilesRead(front);
      var st := Fold(INIT, AllLines(front));
      FoldAppend(INIT, AllLines(front), DiffLines(f));
      if f.Skipped? {
        assert Fold(st, []) == st;
        assert DiffLines(f) == [];
      } else {
        FileStep(st, f);
        if HasChunk(f) {
          ChunkDescribes(f, Hunk(f));
        }
      }
    }
  }

  lemma {:induction false} AllLinesOfFiles(files: seq<Untracked>)
    requires AllListed(files)
    ensures Lines(AllLines(files))
    decreases |files|
  {
    if files != [] {
      AllLinesOfFiles(files[..|files| - 1]);
      DiffLinesOfFile(files[|files| - 1]);
    }
  }

  lemma DiffLinesOfFile(f: Untracked)
    requires Listed(f) && PlainTarget(f)
    ensures Lines(DiffLines(f))
  {
    PreambleLines(f);
    if HasChunk(f) {
      HunkFirst(f);
      HunkMarked(f);
    }
  }

  lemma PreambleLines(f: Untracked)
    requires Listed(f)
    ensures Lines(Preamble(f))
  {
    hide IsBinary, Octal;
  }

  lemma LastDescribed(cs: seq<Chunk>, c: Chunk, c': Chunk, ts: seq<Untracked>)
    requires Texts(ts) && ts != [] && AllDescribed(cs + [c], ts) && Describes(c', ts[|ts| - 1])
    ensures AllDescribed(cs + [c'], ts)
  {
    forall i | 0 <= i < |ts|
      ensures Describes((cs + [c'])[i], ts[i])
    {
      if i < |ts| - 1 {
        assert (cs + [c])[i] == cs[i];
      }
    }
  }

  /** The empty line that ends the text only reaches the chunk that is still open. */
  lemma FinalLine(ls: seq<string>, ts: seq<Untracked>)
    requires Texts(ts) && Reads(Fold(INIT, ls), ts)
    ensures AllDescribed(ChunksOfLines(ls + [""]), ts)
  {
    var st := Fold(INIT, ls);
    if st.open.Some? {
      var f := ts[|ts| - 1];
      FoldEmptyLine(INIT, ls);
      ChunkDescribes(f, Hunk(f) + [""]);
      LastDescribed(st.chunks, Chunk(ReadName(f), HunkRange(f), Join(Hunk(f))),
                    Chunk(ReadName(f), HunkRange(f), Join(Hunk(f) + [""])), ts);
    } else {
      FoldAppend(INIT, ls, [""]);
      FoldOne(st, "");
    }
  }

  /** For every list of untracked files: the concatenated synthetic diffs parse to one
      chunk per non-binary file, in order; each carries the right range, as many added
      lines as its header announces, and decodes to the exact bytes of the file,
      whatever they are.  The name is read back exactly when no separator is inside it. */
  lemma UntrackedRoundTrip(files: seq<Untracked>)
    requires AllListed(files)
    ensures Texts(TextFiles(files))
    ensures AllDescribed(Chunks(Unlines(AllLines(files))), TextFiles(files))
  {
    var ls, ts := AllLines(files), TextFiles(files);
    FilesRead(files);
    TextFilesHaveChunks(files);
    AllLinesOfFiles(files);
    LinesOfUnlines(ls, "");
    assert Unlines(ls) + "" == Unlines(ls);
    FinalLine(ls, ts);
    if Unlines(ls) == "" {
      assert ls == [];
      assert ChunksOfLines(ls + [""]) == [] by {
        FoldOne(INIT, "");
      }
    }
  }
}
