/** host/internal/diff/parser.go: the unified-diff chunk parser, in git's dialect. */
module DiffParser {
  import opened Text
  import opened Decimal

  datatype Range = Range(oldStart: nat, oldCount: nat, newStart: nat, newCount: nat)

  /** A chunk without its derived ID (a hash) and its creation time. */
  datatype Chunk = Chunk(file: string, range: Range, content: string)

  // ---------------------------------------------------------------------------
  // Line classification
  // ---------------------------------------------------------------------------

  const FILE_PREFIX := "diff --git a/"

  predicate SepAt(line: string, k: nat) {
    k + 3 <= |line| && line[k..k + 3] == " b/"
  }

  /** The last separator at or before hi that leaves the first name non-empty. */
  function LastSep(line: string, hi: int): (r: Option<nat>)
    ensures r.Some? ==> |FILE_PREFIX| < r.value <= hi && SepAt(line, r.value)
    ensures r.Some? ==> forall k: nat :: r.value < k <= hi ==> !SepAt(line, k)
    ensures r.None? ==> forall k: nat :: |FILE_PREFIX| < k <= hi ==> !SepAt(line, k)
    decreases hi
  {
    if hi <= |FILE_PREFIX| then None
    else if SepAt(line, hi) then Some(hi)
    else LastSep(line, hi - 1)
  }

  /** The new name of a file header: ^diff --git a/(.+) b/(.+)$ with a greedy first group. */
  function FileHeader(line: string): Option<string> {
    if FILE_PREFIX <= line then
      match LastSep(line, |line| - 4)
      case Some(k) => Some(line[k + 3..])
      case None => None
    else None
  }

  /** (?:,(\d+))? with the default 1: the count and what follows it. */
  function OptionalCount(s: string): (nat, string) {
    if s != "" && s[0] == ',' && DigitRun(s[1..]) > 0 then
      var n := DigitRun(s[1..]);
      (Atoi(s[1..][..n]), s[1..][n..])
    else (1, s)
  }

  /** start[,count] followed by sep. */
  function RangeSide(s: string, sep: string): Option<(nat, nat, string)> {
    var n := DigitRun(s);
    if n == 0 then None
    else
      var (count, rest) := OptionalCount(s[n..]);
      if sep <= rest then Some((Atoi(s[..n]), count, rest[|sep|..])) else None
  }

  /** ^@@ -(\d+)(?:,(\d+))? \+(\d+)(?:,(\d+))? @@ */
  function ChunkHeader(line: string): Option<Range> {
    if !("@@ -" <= line) then None
    else
      match RangeSide(line[4..], " +")
      case None => None
      case Some((oldStart, oldCount, rest)) =>
        match RangeSide(rest, " @@")
        case None => None
        case Some((newStart, newCount, _)) => Some(Range(oldStart, oldCount, newStart, newCount))
  }

  /** Lines kept while inside a chunk. */
  predicate BodyLine(line: string) {
    line == "" || line[0] in {' ', '+', '-', '\\'}
  }

  // ---------------------------------------------------------------------------
  // Parse as a fold over lines
  // ---------------------------------------------------------------------------

  datatype Open = Open(range: Range, lines: seq<string>)

  datatype State = State(chunks: seq<Chunk>, file: string, open: Option<Open>)

  const INIT := State([], "", None)

  function Flush(st: State): seq<Chunk> {
    match st.open
    case None => st.chunks
    case Some(o) => st.chunks + [Chunk(st.file, o.range, Join(o.lines))]
  }

  function Step(st: State, line: string): State {
    match FileHeader(line)
    case Some(name) => State(Flush(st), name, None)
    case None =>
      match ChunkHeader(line)
      case Some(range) => State(Flush(st), st.file, Some(Open(range, [line])))
      case None =>
        if st.open.Some? && BodyLine(line)
        then st.(open := Some(st.open.value.(lines := st.open.value.lines + [line])))
        else st
  }

  function Fold(st: State, ls: seq<string>): State {
    if ls == [] then st else Step(Fold(st, ls[..|ls| - 1]), ls[|ls| - 1])
  }

  function ChunksOfLines(ls: seq<string>): seq<Chunk> {
    Flush(Fold(INIT, ls))
  }

  function Chunks(text: string): seq<Chunk> {
    if text == "" then [] else ChunksOfLines(Split(text))
  }

  /** The parser's line loop, with its locals. */
  method Parse(diffOutput: string) returns (chunks: seq<Chunk>)
    ensures chunks == Chunks(diffOutput)
  {
    hide FileHeader, ChunkHeader, Join;
    chunks := [];
    if diffOutput == "" {
      return;
    }
    var currentFile := "";
    var currentChunkLines: seq<string> := [];
    var current := Range(0, 0, 0, 0);
    var inChunk := false;
    var lines := Split(diffOutput);
    for n := 0 to |lines|
      invariant inChunk ==> currentChunkLines != []
      invariant Fold(INIT, lines[..n]) ==
                State(chunks, currentFile, if inChunk then Some(Open(current, currentChunkLines)) else None)
    {
      assert lines[..n + 1][..n] == lines[..n];
      var line := lines[n];
      var name := FileHeader(line);
      if name.Some? {
        if inChunk && |currentChunkLines| > 0 {
          chunks := chunks + [Chunk(currentFile, current, Join(currentChunkLines))];
        }
        currentFile := name.value;
        currentChunkLines := [];
        inChunk := false;
        continue;
      }
      var range := ChunkHeader(line);
      if range.Some? {
        if inChunk && |currentChunkLines| > 0 {
          chunks := chunks + [Chunk(currentFile, current, Join(currentChunkLines))];
        }
        current := range.value;
        currentChunkLines := [line];
        inChunk := true;
        continue;
      }
      if inChunk {
        if |line| == 0 || line[0] == ' ' || line[0] == '+' || line[0] == '-' || line[0] == '\\' {
          currentChunkLines := currentChunkLines + [line];
        }
      }
    }
    assert lines[..|lines|] == lines;
    if inChunk && |currentChunkLines| > 0 {
      chunks := chunks + [Chunk(currentFile, current, Join(currentChunkLines))];
    }
  }

  lemma {:induction false} FoldAppend(st: State, a: seq<string>, b: seq<string>)
    ensures Fold(st, a + b) == Fold(Fold(st, a), b)
    decreases |b|
  {
    hide Step;
    if b == [] {
      assert a + b == a;
    } else {
      var whole, b' := a + b, b[..|b| - 1];
      FoldAppend(st, a, b');
      assert whole[..|whole| - 1] == a + b' && whole[|whole| - 1] == b[|b| - 1];
    }
  }

  lemma FoldOne(st: State, line: string)
    ensures Fold(st, [line]) == Step(st, line)
  {
    assert [line][..0] == [];
    assert Fold(st, []) == st;
  }

  /** Chunks already closed do not influence the rest of the run. */
  lemma {:induction false} FoldFrame(done: seq<Chunk>, st: State, ls: seq<string>)
    ensures Fold(st.(chunks := done + st.chunks), ls) ==
            Fold(st, ls).(chunks := done + Fold(st, ls).chunks)
  {
    if ls != [] {
      FoldFrame(done, st, ls[..|ls| - 1]);
      var mid := Fold(st, ls[..|ls| - 1]);
      FlushFrame(done, mid);
    }
  }

  lemma FlushFrame(done: seq<Chunk>, st: State)
    ensures Flush(st.(chunks := done + st.chunks)) == done + Flush(st)
  {
  }

  /** Parsing is a homomorphism at file-header boundaries. */
  lemma ParseHomomorphism(a: seq<string>, header: string, b: seq<string>)
    requires FileHeader(header).Some?
    ensures ChunksOfLines(a + [header] + b) == ChunksOfLines(a) + ChunksOfLines([header] + b)
  {
    var st := Fold(INIT, a);
    var start := State([], FileHeader(header).value, None);
    FoldAppend(INIT, a + [header], b);
    FoldAppend(INIT, a, [header]);
    FoldOne(st, header);
    FoldAppend(INIT, [header], b);
    FoldOne(INIT, header);
    assert Step(st, header) == start.(chunks := Flush(st) + start.chunks);
    FoldFrame(Flush(st), start, b);
    FlushFrame(Flush(st), Fold(start, b));
  }

  // ---------------------------------------------------------------------------
  // One chunk of a text
  // ---------------------------------------------------------------------------

  /** The lines a chunk keeps: the empty ones, context, additions, removals and the marker for a
      missing newline. */
  function Content(ls: seq<string>): seq<string> {
    if ls == [] then []
    else
      var last := ls[|ls| - 1];
      var kept := last == "" || last[0] == ' ' || last[0] == '+' || last[0] == '-' || last[0] == '\\';
      Content(ls[..|ls| - 1]) + if kept then [last] else []
  }

  predicate NoHeaders(ls: seq<string>) {
    forall i :: 0 <= i < |ls| ==> FileHeader(ls[i]).None? && ChunkHeader(ls[i]).None?
  }

  /** The name in the last file header. */
  function LastFile(ls: seq<string>): string {
    if ls == [] then ""
    else
      match FileHeader(ls[|ls| - 1])
      case Some(name) => name
      case None => LastFile(ls[..|ls| - 1])
  }

  lemma {:induction false} FoldFile(ls: seq<string>)
    ensures Fold(INIT, ls).file == LastFile(ls)
  {
    if ls != [] {
      hide FileHeader, ChunkHeader, BodyLine, Join;
      FoldFile(ls[..|ls| - 1]);
    }
  }

  lemma {:induction false} FoldContent(st: State, ls: seq<string>)
    requires st.open.Some? && NoHeaders(ls)
    ensures Fold(st, ls) == st.(open := Some(st.open.value.(lines := st.open.value.lines + Content(ls))))
  {
    hide FileHeader, ChunkHeader, Join;
    if ls == [] {
      assert st.open.value.lines + [] == st.open.value.lines;
    } else {
      var front, last := ls[..|ls| - 1], ls[|ls| - 1];
      FoldContent(st, front);
      Assoc(st.open.value.lines, Content(front), [last]);
      assert Content(front) + [] == Content(front);
      assert BodyLine(last) <==> Content(ls) == Content(front) + [last];
    }
  }

  lemma StepClosed(st: State, line: string)
    ensures st.chunks <= Step(st, line).chunks
    ensures FileHeader(line).Some? || ChunkHeader(line).Some? ==> Step(st, line).chunks == Flush(st)
  {
  }

  lemma {:induction false} FoldClosed(st: State, ls: seq<string>)
    ensures st.chunks <= Fold(st, ls).chunks
  {
    if ls != [] {
      hide Step;
      FoldClosed(st, ls[..|ls| - 1]);
      StepClosed(Fold(st, ls[..|ls| - 1]), ls[|ls| - 1]);
    }
  }

  /** Main result, for each chunk header of each text: its chunk comes right behind those of the
      lines before it, belongs to the last file header before it, carries the ranges of the
      header, and holds the header and what follows up to the next header, line by line, but for
      lines that are no content. */
  lemma ChunkExactly(before: seq<string>, header: string, body: seq<string>, rest: seq<string>)
    requires FileHeader(header).None? && ChunkHeader(header).Some? && NoHeaders(body)
    requires rest != [] ==> FileHeader(rest[0]).Some? || ChunkHeader(rest[0]).Some?
    ensures ChunksOfLines(before) + [Chunk(LastFile(before), ChunkHeader(header).value, Join([header] + Content(body)))] <=
            ChunksOfLines(before + [header] + body + rest)
  {
    hide FileHeader, ChunkHeader, BodyLine, Join, NoHeaders, Content;
    var st := Fold(INIT, before);
    FoldFile(before);
    FoldAppend(INIT, before + [header] + body, rest);
    FoldAppend(INIT, before + [header], body);
    FoldAppend(INIT, before, [header]);
    FoldOne(st, header);
    var begun := State(Flush(st), st.file, Some(Open(ChunkHeader(header).value, [header])));
    FoldContent(begun, body);
    var full := Fold(begun, body);
    if rest != [] {
      assert rest == [rest[0]] + rest[1..];
      FoldAppend(full, [rest[0]], rest[1..]);
      FoldOne(full, rest[0]);
      StepClosed(full, rest[0]);
      FoldClosed(Step(full, rest[0]), rest[1..]);
      FlushBehind(Fold(full, rest));
    } else {
      assert Fold(full, []) == full;
    }
  }

  lemma FlushBehind(st: State)
    ensures st.chunks <= Flush(st)
  {
  }

  /** And there are as many chunks as chunk headers. */
  function Headers(ls: seq<string>): nat {
    if ls == [] then 0
    else
      Headers(ls[..|ls| - 1]) + if FileHeader(ls[|ls| - 1]).None? && ChunkHeader(ls[|ls| - 1]).Some? then 1 else 0
  }

  lemma {:induction false} ChunkCount(ls: seq<string>)
    ensures |ChunksOfLines(ls)| == Headers(ls)
  {
    if ls != [] {
      hide FileHeader, ChunkHeader, BodyLine, Join;
      ChunkCount(ls[..|ls| - 1]);
    }
  }

  // ---------------------------------------------------------------------------
  // What every parsed chunk looks like
  // ---------------------------------------------------------------------------

  /** A separator that would let the greedy header regex split inside the name. */
  predicate InnerSep(name: string) {
    exists k: nat :: k + 4 <= |name| && SepAt(name, k)
  }

  predicate HeaderName(name: string) {
    name != "" && NoNewline(name) && !InnerSep(name)
  }

  predicate PlainBody(line: string) {
    BodyLine(line) && NoNewline(line) && FileHeader(line).None? && ChunkHeader(line).None?
  }

  /** The lines of one chunk: its header, then kept lines that are no header. */
  predicate ChunkLines(ls: seq<string>, range: Range) {
    && |ls| > 0
    && NoNewline(ls[0]) && FileHeader(ls[0]).None? && ChunkHeader(ls[0]) == Some(range)
    && forall i :: 1 <= i < |ls| ==> PlainBody(ls[i])
  }

  predicate ParsedChunk(c: Chunk) {
    && (c.file == "" || HeaderName(c.file))
    && ChunkLines(Split(c.content), c.range)
  }

  predicate ParsedState(st: State) {
    && (forall i :: 0 <= i < |st.chunks| ==> ParsedChunk(st.chunks[i]))
    && (st.file == "" || HeaderName(st.file))
    && (st.open.Some? ==> ChunkLines(st.open.value.lines, st.open.value.range))
  }

  lemma HeaderNameOfLine(line: string)
    requires NoNewline(line) && FileHeader(line).Some?
    ensures HeaderName(FileHeader(line).value)
  {
    var k := LastSep(line, |line| - 4).value;
    var name := line[k + 3..];
    forall j: nat | j + 4 <= |name|
      ensures !SepAt(name, j)
    {
      assert !SepAt(line, k + 3 + j);
      assert line[k + 3 + j..k + 3 + j + 3] == name[j..j + 3];
    }
  }

  lemma ChunkLinesNoNewline(ls: seq<string>, range: Range)
    requires ChunkLines(ls, range)
    ensures Lines(ls)
  {
    forall i | 0 <= i < |ls|
      ensures NoNewline(ls[i])
    {
      if i > 0 {
        assert PlainBody(ls[i]);
      }
    }
  }

  lemma FlushParsed(st: State)
    requires ParsedState(st)
    ensures forall i :: 0 <= i < |Flush(st)| ==> ParsedChunk(Flush(st)[i])
  {
    hide FileHeader, ChunkHeader, Join, Split, InnerSep;
    if st.open.Some? {
      ChunkLinesNoNewline(st.open.value.lines, st.open.value.range);
      SplitOfJoin(st.open.value.lines);
    }
  }

  lemma StepParsed(st: State, line: string)
    requires ParsedState(st) && NoNewline(line)
    ensures ParsedState(Step(st, line))
  {
    hide FileHeader, ChunkHeader, Join, Split, InnerSep;
    FlushParsed(st);
    if FileHeader(line).Some? {
      HeaderNameOfLine(line);
    }
  }

  lemma {:induction false} FoldParsed(st: State, ls: seq<string>)
    requires ParsedState(st) && Lines(ls)
    ensures ParsedState(Fold(st, ls))
  {
    if ls != [] {
      FoldParsed(st, ls[..|ls| - 1]);
      StepParsed(Fold(st, ls[..|ls| - 1]), ls[|ls| - 1]);
    }
  }

  /** Every chunk of every diff text starts with its own header, holds no other
      header and no dropped line, and carries a name the header regex can return. */
  lemma ParsedChunks(text: string)
    ensures forall i :: 0 <= i < |Chunks(text)| ==> ParsedChunk(Chunks(text)[i])
  {
    if text != "" {
      JoinOfSplit(text);
      FoldParsed(INIT, Split(text));
      FlushParsed(Fold(INIT, Split(text)));
    }
  }

  /** A separator inside the second name is one of the whole line. */
  lemma SepInSecond(name: string, k: nat)
    requires k + 4 <= |name| && SepAt(name, k)
    ensures SepAt(FILE_PREFIX + name + " b/" + name, |FILE_PREFIX| + |name| + 3 + k)
  {
    var line := FILE_PREFIX + name + " b/" + name;
    var at := |FILE_PREFIX| + |name| + 3;
    assert line[at..] == name;
    assert line[at + k..at + k + 3] == name[k..k + 3];
  }

  /** Beyond the middle separator a separator lies inside the second name. */
  lemma SepBeyond(name: string, j: nat)
    requires j > |FILE_PREFIX| + |name| && SepAt(FILE_PREFIX + name + " b/" + name, j)
    ensures j >= |FILE_PREFIX| + |name| + 3 && SepAt(name, j - (|FILE_PREFIX| + |name| + 3))
  {
    var line := FILE_PREFIX + name + " b/" + name;
    var mid := |FILE_PREFIX| + |name|;
    assert line[mid + 1] == 'b' && line[mid + 2] == '/';
    assert line[j] == line[j..j + 3][0] == ' ';
    assert line[mid + 3..] == name;
    assert line[j..j + 3] == name[j - mid - 3..j - mid];
  }

  /** The greedy header regex returns exactly the names without an inner separator. */
  lemma FileHeaderExact(name: string)
    ensures FileHeader(FILE_PREFIX + name + " b/" + name) == Some(name) <==> name != "" && !InnerSep(name)
  {
    var line := FILE_PREFIX + name + " b/" + name;
    var mid := |FILE_PREFIX| + |name|;
    assert line[mid..mid + 3] == " b/";
    assert line[mid + 3..] == name;
    assert FILE_PREFIX <= line;
    var r := LastSep(line, |line| - 4);
    if name != "" {
      assert SepAt(line, mid);
      assert r.Some? && r.value >= mid;
      hide SepAt;
      if InnerSep(name) {
        var k: nat :| k + 4 <= |name| && SepAt(name, k);
        SepInSecond(name, k);
        assert |line[r.value + 3..]| < |name|;
      } else if r.value > mid {
        SepBeyond(name, r.value);
      }
    }
  }

  // ---------------------------------------------------------------------------
  // Replaying chunks
  // ---------------------------------------------------------------------------

  function LinesOf(cs: seq<Chunk>): seq<string> {
    if cs == [] then [] else LinesOf(cs[..|cs| - 1]) + Split(cs[|cs| - 1].content)
  }

  /** The lines of one chunk reopen exactly that chunk. */
  lemma {:induction false} FoldChunk(st: State, ls: seq<string>, range: Range)
    requires ChunkLines(ls, range)
    ensures Fold(st, ls) == State(Flush(st), st.file, Some(Open(range, ls)))
    decreases |ls|
  {
    hide FileHeader, ChunkHeader, BodyLine, Join;
    if |ls| == 1 {
      assert ls == [ls[0]];
      FoldOne(st, ls[0]);
    } else {
      var front := ls[..|ls| - 1];
      FoldChunk(st, front, range);
      assert PlainBody(ls[|ls| - 1]);
      assert ls == front + [ls[|ls| - 1]];
    }
  }

  ghost predicate ChunksOf(cs: seq<Chunk>, file: string) {
    forall i :: 0 <= i < |cs| ==> ParsedChunk(cs[i]) && cs[i].file == file
  }

  lemma ReopenedChunk(c: Chunk)
    ensures Chunk(c.file, c.range, Join(Split(c.content))) == c
  {
    JoinOfSplit(c.content);
  }

  /** The lines of consecutive chunks of one file parse back to those chunks. */
  lemma {:induction false} FoldChunks(st: State, cs: seq<Chunk>)
    requires ChunksOf(cs, st.file) && cs != []
    ensures Fold(st, LinesOf(cs)) ==
            State(Flush(st) + cs[..|cs| - 1], st.file,
                  Some(Open(cs[|cs| - 1].range, Split(cs[|cs| - 1].content))))
    decreases |cs|
  {
    hide Step, Join, Split, ChunkLines, HeaderName;
    var front, last := cs[..|cs| - 1], cs[|cs| - 1];
    FoldAppend(st, LinesOf(front), Split(last.content));
    var mid := Fold(st, LinesOf(front));
    assert ParsedChunk(last);
    FoldChunk(mid, Split(last.content), last.range);
    assert mid.file == st.file && Flush(mid) == Flush(st) + front by {
      if front != [] {
        assert ChunksOf(front, st.file);
        FoldChunks(st, front);
        ReopenedChunk(front[|front| - 1]);
        FrontAndLast(Flush(st), front);
      }
    }
  }

  // ---------------------------------------------------------------------------
  // Grouping and joining
  // ---------------------------------------------------------------------------

  /** The chunks of one file, in order. */
  function ForFile(cs: seq<Chunk>, file: string): seq<Chunk> {
    if cs == [] then []
    else ForFile(cs[..|cs| - 1], file) + (if cs[|cs| - 1].file == file then [cs[|cs| - 1]] else [])
  }

  method AggregateByFile(chunks: seq<Chunk>) returns (result: map<string, seq<Chunk>>)
    ensures forall f :: f in result <==> ForFile(chunks, f) != []
    ensures forall f :: f in result ==> result[f] == ForFile(chunks, f)
  {
    result := map[];
    for n := 0 to |chunks|
      invariant forall f :: f in result <==> ForFile(chunks[..n], f) != []
      invariant forall f :: f in result ==> result[f] == ForFile(chunks[..n], f)
    {
      var h := chunks[n];
      assert chunks[..n + 1][..n] == chunks[..n];
      var group := if h.file in result then result[h.file] else [];
      result := result[h.file := group + [h]];
    }
    assert chunks[..|chunks|] == chunks;
  }

  function Contents(cs: seq<Chunk>): seq<string> {
    seq(|cs|, i requires 0 <= i < |cs| => cs[i].content)
  }

  method ConcatChunkContent(chunks: seq<Chunk>) returns (content: string)
    ensures content == Join(Contents(chunks))
  {
    var parts := [];
    for n := 0 to |chunks|
      invariant parts == Contents(chunks[..n])
    {
      parts := parts + [chunks[n].content];
    }
    assert chunks[..|chunks|] == chunks;
    content := Join(parts);
  }

  lemma {:induction false} JoinOfContents(cs: seq<Chunk>)
    requires cs != []
    ensures LinesOf(cs) != [] && Join(Contents(cs)) == Join(LinesOf(cs))
    decreases |cs|
  {
    var front, last := cs[..|cs| - 1], cs[|cs| - 1];
    JoinOfSplit(last.content);
    if front == [] {
      assert Contents(cs) == [last.content];
      assert Unlines([]) == "";
      assert LinesOf(cs) == Split(last.content);
    } else {
      JoinOfContents(front);
      assert Contents(cs) == Contents(front) + [last.content];
      JoinConcat(Contents(front), [last.content]);
      assert Join([last.content]) == last.content by {
        assert Unlines([]) == "";
      }
      JoinConcat(LinesOf(front), Split(last.content));
    }
  }

  lemma {:induction false} ForFileMembers(cs: seq<Chunk>, file: string)
    requires forall i :: 0 <= i < |cs| ==> ParsedChunk(cs[i])
    ensures ChunksOf(ForFile(cs, file), file)
  {
    if cs != [] {
      ForFileMembers(cs[..|cs| - 1], file);
    }
  }

  lemma {:induction false} ForFileAppend(a: seq<Chunk>, b: seq<Chunk>, file: string)
    ensures ForFile(a + b, file) == ForFile(a, file) + ForFile(b, file)
    decreases |b|
  {
    if b == [] {
      assert a + b == a;
    } else {
      ForFileAppend(a, b[..|b| - 1], file);
      assert (a + b)[..|a + b| - 1] == a + b[..|b| - 1];
    }
  }
}
