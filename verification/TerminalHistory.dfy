/** The terminal history of host/internal/pty/session.go: chunks of output, however the
    terminal cut them, become lines in the ring buffer. */
module TerminalHistory {
  import opened Text
  import opened RingBuffer
  import opened Utf8

  function Flatten(chunks: seq<string>): string {
    if chunks == [] then "" else Flatten(chunks[..|chunks| - 1]) + chunks[|chunks| - 1]
  }

  function Terminated(ls: seq<string>): (r: seq<string>)
    ensures |r| == |ls|
  {
    if ls == [] then [] else Terminated(ls[..|ls| - 1]) + [ls[|ls| - 1] + "\n"]
  }

  lemma {:induction false} TerminatedAppend(a: seq<string>, b: seq<string>)
    ensures Terminated(a + b) == Terminated(a) + Terminated(b)
  {
    if b == [] {
      assert a + b == a;
    } else {
      assert (a + b)[..|a + b| - 1] == a + b[..|b| - 1];
      TerminatedAppend(a, b[..|b| - 1]);
    }
  }

  /** extractAndBufferLines: history receives the complete lines of pending + chunk, and
      the rest stays pending. */
  method ExtractAndBufferLines(buffer: Ring, chunk: string, pendingLine: string) returns (pending: string)
    requires buffer.Valid()
    modifies buffer, buffer.lines
    ensures buffer.Valid()
    ensures buffer.Contents() ==
            LastN(old(buffer.Contents()) + Terminated(CompleteLines(pendingLine + chunk)), buffer.cap)
    ensures pending == Remainder(pendingLine + chunk)
  {
    hide LastN, Terminated, CompleteLines, Remainder, Ring.Contents, LeftOf;
    var rest := chunk;
    if |pendingLine| > 0 {
      rest := pendingLine + rest;
    }
    assert rest == pendingLine + chunk;
    ghost var before, whole, done: seq<string> := buffer.Contents(), rest, [];
    NothingWritten(before, buffer.cap);
    LeftAtStart(whole);
    while true
      invariant buffer.Valid() && LeftOf(rest, done, whole)
      invariant buffer.Contents() == LastN(before + Terminated(done), buffer.cap)
      decreases |rest|
    {
      var idx := NewlineAt(rest);
      if idx == |rest| {
        LeftAtEnd(rest, done, whole);
        return rest;
      }
      LeftAfterLine(rest, done, whole);
      CutLine(rest, idx);
      LineWritten(before, done, rest[..idx], buffer.cap);
      var line := rest[..idx + 1];
      buffer.Write(line);
      done := done + [rest[..idx]];
      rest := rest[idx + 1..];
    }
  }

  lemma NothingWritten(contents: seq<string>, cap: nat)
    requires |contents| <= cap
    ensures contents == LastN(contents + Terminated([]), cap)
  {
    assert contents + Terminated([]) == contents;
  }

  lemma LineWritten(before: seq<string>, done: seq<string>, line: string, cap: nat)
    ensures LastN(LastN(before + Terminated(done), cap) + [line + "\n"], cap) == LastN(before + Terminated(done + [line]), cap)
  {
    TerminatedSnoc(done, line);
    hide LastN, Terminated;
    Assoc(before, Terminated(done), [line + "\n"]);
    LastNAppend(before + Terminated(done), [line + "\n"], cap);
  }

  lemma TerminatedSnoc(ls: seq<string>, line: string)
    ensures Terminated(ls + [line]) == Terminated(ls) + [line + "\n"]
  {
    assert (ls + [line])[..|ls|] == ls;
  }

  /** What a whole stream leaves in an empty history: its lines, and an unterminated last
      line flushed when the stream ends. */
  function History(stream: string): seq<string> {
    Terminated(CompleteLines(stream)) + if Remainder(stream) != "" then [Remainder(stream)] else []
  }

  /** Each chunk sanitized by itself, as it arrives. */
  function Sanitized(chunks: seq<string>): (r: seq<string>)
    ensures |r| == |chunks|
  {
    if chunks == [] then [] else Sanitized(chunks[..|chunks| - 1]) + [Sanitize(chunks[|chunks| - 1])]
  }

  /** The reads that returned something. */
  function NonEmpty(chunks: seq<string>): seq<string> {
    if chunks == [] then []
    else NonEmpty(chunks[..|chunks| - 1]) + (if chunks[|chunks| - 1] == "" then [] else [chunks[|chunks| - 1]])
  }

  lemma NonEmptySnoc(chunks: seq<string>, chunk: string)
    ensures chunk == "" ==> Sanitized(NonEmpty(chunks + [chunk])) == Sanitized(NonEmpty(chunks))
    ensures chunk != "" ==> Sanitized(NonEmpty(chunks + [chunk])) == Sanitized(NonEmpty(chunks)) + [Sanitize(chunk)]
  {
    hide Sanitize;
    assert (chunks + [chunk])[..|chunks|] == chunks;
    assert (NonEmpty(chunks) + [chunk])[..|NonEmpty(chunks)|] == NonEmpty(chunks);
    assert NonEmpty(chunks) + [] == NonEmpty(chunks);
  }

  /** captureOutput: arrived are the chunks the terminal returned before it failed or ended
      (empty ones are skipped); each is sanitized and forwarded at once. */
  method CaptureOutput(buffer: Ring, arrived: seq<string>) returns (forwarded: seq<string>)
    requires buffer.Valid()
    modifies buffer, buffer.lines
    ensures buffer.Valid()
    ensures buffer.Contents() == LastN(old(buffer.Contents()) + History(Flatten(Sanitized(arrived))), buffer.cap)
    ensures forwarded == Sanitized(NonEmpty(arrived)) && "" !in forwarded
    ensures Flatten(forwarded) == Flatten(Sanitized(arrived))
  {
    hide Sanitize, CompleteLines, Remainder, LastN, Terminated, Ring.Contents;
    var pending := "";
    forwarded := [];
    ghost var before := buffer.Contents();
    NothingArrived(before, buffer.cap);
    for n := 0 to |arrived|
      invariant buffer.Valid() && forwarded == Sanitized(NonEmpty(arrived[..n])) && "" !in forwarded
      invariant Flatten(forwarded) == Flatten(Sanitized(arrived[..n]))
      invariant pending == Remainder(Flatten(Sanitized(arrived[..n])))
      invariant buffer.Contents() ==
                LastN(before + Terminated(CompleteLines(Flatten(Sanitized(arrived[..n])))), buffer.cap)
    {
      var chunk := arrived[n];
      assert arrived[..n + 1] == arrived[..n] + [chunk];
      SanitizedSnoc(arrived[..n], chunk);
      NonEmptySnoc(arrived[..n], chunk);
      if |chunk| > 0 {
        var sanitized := SanitizeUTF8(chunk);
        FlattenSnoc(forwarded, sanitized);
        forwarded := forwarded + [sanitized];
        ChunkArrives(before, Flatten(Sanitized(arrived[..n])), sanitized, buffer.cap);
        pending := ExtractAndBufferLines(buffer, sanitized, pending);
      }
    }
    assert arrived[..|arrived|] == arrived;
    Flushed(before, Flatten(Sanitized(arrived)), buffer.cap);
    if |pending| > 0 {
      buffer.Write(pending);
    }
  }

  lemma NothingArrived(before: seq<string>, cap: nat)
    requires |before| <= cap
    ensures Remainder(Flatten(Sanitized([]))) == ""
    ensures before == LastN(before + Terminated(CompleteLines(Flatten(Sanitized([])))), cap)
  {
    NothingWritten(before, cap);
  }

  lemma SanitizedSnoc(chunks: seq<string>, chunk: string)
    ensures Flatten(Sanitized(chunks + [chunk])) == Flatten(Sanitized(chunks)) + Sanitize(chunk)
    ensures chunk == "" ==> Flatten(Sanitized(chunks + [chunk])) == Flatten(Sanitized(chunks))
    ensures chunk != "" ==> Sanitize(chunk) != ""
  {
    assert (chunks + [chunk])[..|chunks|] == chunks;
    FlattenSnoc(Sanitized(chunks), Sanitize(chunk));
  }

  lemma FlattenSnoc(chunks: seq<string>, chunk: string)
    ensures Flatten(chunks + [chunk]) == Flatten(chunks) + chunk
  {
    assert (chunks + [chunk])[..|chunks|] == chunks;
  }

  lemma ChunkArrives(before: seq<string>, sofar: string, chunk: string, cap: nat)
    ensures LastN(LastN(before + Terminated(CompleteLines(sofar)), cap) +
                  Terminated(CompleteLines(Remainder(sofar) + chunk)), cap) ==
            LastN(before + Terminated(CompleteLines(sofar + chunk)), cap)
    ensures Remainder(Remainder(sofar) + chunk) == Remainder(sofar + chunk)
  {
    var a, b := CompleteLines(sofar), CompleteLines(Remainder(sofar) + chunk);
    LinesAppend(sofar, chunk);
    TerminatedAppend(a, b);
    LastNAppend(before + Terminated(a), Terminated(b), cap);
    Assoc(before, Terminated(a), Terminated(b));
  }

  lemma Flushed(before: seq<string>, stream: string, cap: nat)
    ensures var lines, rest := Terminated(CompleteLines(stream)), Remainder(stream);
            if rest == "" then before + lines == before + History(stream)
            else LastN(LastN(before + lines, cap) + [rest], cap) == LastN(before + History(stream), cap)
  {
    var lines, rest := Terminated(CompleteLines(stream)), Remainder(stream);
    if rest == "" {
      assert lines + [] == lines;
    } else {
      LastNAppend(before + lines, [rest], cap);
      Assoc(before, lines, [rest]);
    }
  }

  // ---------------------------------------------------------------------------
  // Where the terminal cut the stream
  // ---------------------------------------------------------------------------

  /** No chunk ends inside a rune. */
  ghost predicate WholeRunes(chunks: seq<string>) {
    forall n :: 0 <= n < |chunks| ==> !SplitsRune(Flatten(chunks[..n]), chunks[n])
  }

  lemma WholeRunesFront(chunks: seq<string>)
    requires chunks != []
    ensures var last := |chunks| - 1;
            WholeRunes(chunks) <==> WholeRunes(chunks[..last]) && !SplitsRune(Flatten(chunks[..last]), chunks[last])
  {
    var front := chunks[..|chunks| - 1];
    assert forall n :: 0 <= n < |front| ==> front[..n] == chunks[..n] && front[n] == chunks[n];
  }

  /** The exact condition: chunks sanitized one by one give the sanitized stream if and only
      if none of them ends inside a rune; only then is what clients see independent of where
      the terminal cut its output. */
  lemma {:induction false} ChunksAreTheStream(chunks: seq<string>)
    ensures Flatten(Sanitized(chunks)) == Sanitize(Flatten(chunks)) <==> WholeRunes(chunks)
    ensures |Flatten(Sanitized(chunks))| >= |Sanitize(Flatten(chunks))|
    ensures !WholeRunes(chunks) ==> |Flatten(Sanitized(chunks))| > |Sanitize(Flatten(chunks))|
  {
    if chunks != [] {
      hide Sanitize, SplitsRune, WholeRunes;
      var front, last := chunks[..|chunks| - 1], chunks[|chunks| - 1];
      assert chunks == front + [last];
      SanitizedSnoc(front, last);
      WholeRunesFront(chunks);
      ChunksAreTheStream(front);
      SanitizeSplit(Flatten(front), last);
    }
  }

  const EURO := "\U{E2}\U{82}\U{AC}"

  lemma EuroIsValid()
    ensures Valid(EURO)
  {
    assert RuneLength(EURO) == 3 && EURO[3..] == "" && Valid("");
  }

  lemma OneLoose(c: char)
    requires Continues(c)
    ensures Sanitize([c]) == REPLACEMENT
  {
    assert RuneLength([c]) == 0 && [c][1..] == [];
  }

  lemma TwoLoose(s: string)
    requires |s| == 2 && RuneLength(s) == 0 && Continues(s[1])
    ensures Sanitize(s) == REPLACEMENT + REPLACEMENT
  {
    assert s[1..] == [s[1]];
    OneLoose(s[1]);
    hide RuneLength;
  }

  lemma TwoChunks(a: string, b: string)
    ensures Flatten(Sanitized([a, b])) == Sanitize(a) + Sanitize(b)
  {
    SanitizedSnoc([], a);
    SanitizedSnoc([a], b);
    assert [] + [a] == [a] && [a] + [b] == [a, b];
    hide Sanitize;
    assert "" + Sanitize(a) == Sanitize(a);
  }

  /** The euro sign read in two pieces becomes three replacement characters. */
  lemma EuroInTwo()
    ensures Valid(EURO) && Flatten(Sanitized([EURO[..2], EURO[2..]])) == REPLACEMENT + REPLACEMENT + REPLACEMENT
  {
    EuroIsValid();
    TwoLoose(EURO[..2]);
    assert EURO[2..] == [EURO[2]];
    OneLoose(EURO[2]);
    TwoChunks(EURO[..2], EURO[2..]);
  }

  // ---------------------------------------------------------------------------
  // What the history is of the stream
  // ---------------------------------------------------------------------------

  /** Replaying an unclipped history gives back the stream, byte for byte. */
  lemma ReplayIsTheStream(stream: string)
    ensures Flatten(History(stream)) == stream
  {
    var ls, rest := CompleteLines(stream), Remainder(stream);
    UnlinesOfLines(stream);
    FlattenTerminated(ls);
    if rest == "" {
      assert History(stream) == Terminated(ls);
      assert Unlines(ls) + rest == Unlines(ls);
    } else {
      FlattenSnoc(Terminated(ls), rest);
    }
  }

  lemma {:induction false} FlattenTerminated(ls: seq<string>)
    ensures Flatten(Terminated(ls)) == Unlines(ls)
  {
    if ls != [] {
      var front, last := ls[..|ls| - 1], ls[|ls| - 1];
      FlattenTerminated(front);
      FlattenSnoc(Terminated(front), last + "\n");
      UnlinesSnoc(front, last);
      assert front + [last] == ls;
      Assoc(Unlines(front), last, "\n");
    }
  }

  lemma {:induction false} FlattenAppend(a: seq<string>, b: seq<string>)
    ensures Flatten(a + b) == Flatten(a) + Flatten(b)
  {
    if b == [] {
      assert a + b == a;
    } else {
      assert (a + b)[..|a + b| - 1] == a + b[..|b| - 1];
      FlattenAppend(a, b[..|b| - 1]);
      Assoc(Flatten(a), Flatten(b[..|b| - 1]), b[|b| - 1]);
    }
  }

  lemma Halves(h: seq<string>, n: nat)
    ensures h == h[..|h| - |LastN(h, n)|] + LastN(h, n)
  {
  }

  /** A clipped history replays a tail of the stream that starts at a line: what it leaves
      out are the first of its lines. */
  lemma ReplayIsATail(stream: string, cap: nat)
    ensures var h := History(stream);
            stream == Flatten(h[..|h| - |LastN(h, cap)|]) + Flatten(LastN(h, cap))
  {
    hide History, Flatten;
    var h := History(stream);
    ReplayIsTheStream(stream);
    Halves(h, cap);
    FlattenAppend(h[..|h| - |LastN(h, cap)|], LastN(h, cap));
  }
}
