/** The incremental reader and the incremental parser against reading and parsing the
    file once, over every sequence of read cycles. */
module TailLaws {
  import opened Text
  import opened TailReader
  import EP = EventParser
  import CP = ClaudePipeline

  datatype Cycle = Cycle(v: View, again: View)

  function Run(f: Filter, first: View, cs: seq<Cycle>): State {
    if cs == [] then StartSpec(f, first)
    else PollSpec(f, Run(f, first, cs[..|cs| - 1]), cs[|cs| - 1].v, cs[|cs| - 1].again)
  }

  // ---------------------------------------------------------------------------
  // What the reader has consumed
  // ---------------------------------------------------------------------------

  predicate Resets(s: State, v: View) {
    v.Opened? && (Rotated(s, v) || v.size < s.offset)
  }

  function FreshContent(v: View): string {
    if v.Opened? && v.content.Some? then v.content.value else ""
  }

  /** The bytes consumed since the last reset, after one more cycle. */
  function Consume(s: State, consumed: string, c: Cycle): string {
    if Resets(s, c.v) then FreshContent(c.again)
    else if c.v.Opened? && c.v.size > s.offset && c.v.content.Some?
    then consumed + From(c.v.content.value, |consumed|)
    else consumed
  }

  function Consumed(f: Filter, first: View, cs: seq<Cycle>): string {
    if cs == [] then FreshContent(first)
    else
      var front := cs[..|cs| - 1];
      Consume(Run(f, first, front), Consumed(f, first, front), cs[|cs| - 1])
  }

  /** The lines delivered since the last reset. */
  function LinesSince(calls: seq<Call>): seq<string> {
    if calls == [] then []
    else
      var before := LinesSince(calls[..|calls| - 1]);
      match calls[|calls| - 1]
      case Line(l) => before + [l]
      case Reset => []
      case ReadComplete => before
  }

  predicate Tracks(f: Filter, s: State, consumed: string) {
    && s.offset == |consumed|
    && s.buf == Remainder(consumed)
    && LinesSince(s.calls) == Kept(f, CompleteLines(consumed))
  }

  lemma {:induction false} KeptAppend(f: Filter, a: seq<string>, b: seq<string>)
    ensures Kept(f, a + b) == Kept(f, a) + Kept(f, b)
    decreases |b|
  {
    if b == [] {
      assert a + b == a;
    } else {
      KeptAppend(f, a, b[..|b| - 1]);
      assert (a + b)[..|a + b| - 1] == a + b[..|b| - 1];
    }
  }

  lemma {:induction false} LinesSinceAppend(calls: seq<Call>, more: seq<Call>)
    requires forall i :: 0 <= i < |more| ==> more[i].Line?
    ensures |LinesSince(calls + more)| == |LinesSince(calls)| + |more|
    ensures LinesSince(calls) <= LinesSince(calls + more)
    ensures forall i :: 0 <= i < |more| ==> LinesSince(calls + more)[|LinesSince(calls)| + i] == more[i].line
    decreases |more|
  {
    if more == [] {
      assert calls + more == calls;
    } else {
      var front := more[..|more| - 1];
      LinesSinceAppend(calls, front);
      assert (calls + more)[..|calls + more| - 1] == calls + front;
      assert LinesSince(calls + more) == LinesSince(calls + front) + [more[|more| - 1].line];
    }
  }

  lemma DeliveredLines(f: Filter, calls: seq<Call>, ls: seq<string>)
    ensures LinesSince(calls + Deliver(f, ls)) == LinesSince(calls) + Kept(f, ls)
  {
    var more := Deliver(f, ls);
    LinesSinceAppend(calls, more);
    forall i | |LinesSince(calls)| <= i < |LinesSince(calls + more)|
      ensures LinesSince(calls + more)[i] == (LinesSince(calls) + Kept(f, ls))[i]
    {
      assert LinesSince(calls + more)[|LinesSince(calls)| + (i - |LinesSince(calls)|)] == more[i - |LinesSince(calls)|].line;
    }
  }

  lemma LinesSinceMark(calls: seq<Call>, c: Call)
    ensures c == ReadComplete ==> LinesSince(calls + [c]) == LinesSince(calls)
    ensures c == Reset ==> LinesSince(calls + [c]) == []
  {
    assert (calls + [c])[..|calls|] == calls;
  }

  /** Appending to what was consumed keeps buffer, offset and deliveries in step. */
  lemma ReadTracks(f: Filter, s: State, consumed: string, content: string)
    requires Tracks(f, s, consumed)
    ensures Tracks(f, ReadNewSpec(f, s, Some(content)), consumed + From(content, |consumed|))
  {
    var more := From(content, |consumed|);
    LinesAppend(consumed, more);
    DeliveredLines(f, s.calls, CompleteLines(s.buf + more));
    KeptAppend(f, CompleteLines(consumed), CompleteLines(s.buf + more));
  }

  lemma FromBeginningTracks(f: Filter, s: State, v: View)
    requires LinesSince(s.calls) == []
    ensures Tracks(f, FromBeginningSpec(f, s, v), FreshContent(v))
  {
    var s' := s.(offset := 0, buf := "");
    assert Tracks(f, s', "");
    if v.Opened? && v.content.Some? {
      var c := v.content.value;
      ReadTracks(f, s'.(fileInfo := Some(v.inode)), "", c);
      assert "" + From(c, 0) == c;
    }
  }

  lemma CycleTracks(f: Filter, s: State, consumed: string, c: Cycle)
    requires Tracks(f, s, consumed)
    ensures Tracks(f, PollSpec(f, s, c.v, c.again), Consume(s, consumed, c))
  {
    if Resets(s, c.v) {
      var cleared := s.(calls := s.calls + [Reset]);
      LinesSinceMark(s.calls, Reset);
      FromBeginningTracks(f, cleared, c.again);
      LinesSinceMark(FromBeginningSpec(f, cleared, c.again).calls, ReadComplete);
    } else if c.v.Opened? && c.v.size > s.offset && c.v.content.Some? {
      ReadTracks(f, s.(fileInfo := Some(c.v.inode)), consumed, c.v.content.value);
    }
  }

  /** Whatever the file system answers: offset, leftover buffer and delivered lines are
      those of one read of the bytes consumed since the last reset. */
  lemma {:induction false} AlwaysTracks(f: Filter, first: View, cs: seq<Cycle>)
    ensures Tracks(f, Run(f, first, cs), Consumed(f, first, cs))
  {
    if cs == [] {
      FromBeginningTracks(f, START, first);
      LinesSinceMark(FromBeginningSpec(f, START, first).calls, ReadComplete);
    } else {
      var front := cs[..|cs| - 1];
      AlwaysTracks(f, first, front);
      CycleTracks(f, Run(f, first, front), Consumed(f, first, front), cs[|cs| - 1]);
    }
  }

  // ---------------------------------------------------------------------------
  // The file behind the bytes
  // ---------------------------------------------------------------------------

  /** The view whose file the reader ends the cycle with. */
  function LastView(s: State, c: Cycle): View {
    if Resets(s, c.v) then c.again else c.v
  }

  /** The cycle reads a file that is not changed between its stat and its read. */
  predicate Settled(v: View) {
    v.Opened? && v.content.Some? && v.size == |v.content.value|
  }

  /** Since the last reset the file only grew. */
  predicate OnlyGrew(consumed: string, content: string) {
    consumed <= content
  }

  /** After a cycle that could read, the consumed bytes are the whole current file
      exactly when the cycle detected a change or the file only grew. */
  lemma CycleReachesFile(s: State, consumed: string, c: Cycle)
    requires s.offset == |consumed| && Settled(LastView(s, c))
    ensures Consume(s, consumed, c) == LastView(s, c).content.value <==>
            Resets(s, c.v) || OnlyGrew(consumed, LastView(s, c).content.value)
  {
    if !Resets(s, c.v) {
      var content := c.v.content.value;
      assert |consumed| <= |content|;
      if OnlyGrew(consumed, content) {
        assert content == consumed + content[|consumed|..];
        if c.v.size == s.offset {
          assert content[|consumed|..] == "";
        }
      }
    }
  }

  /** A file truncated and regrown past the offset between two polls is not detected: from
      the first read on, the second cycle reads on in the new file, and the reader delivers
      the end of its only line instead of the line. */
  lemma RegrownFileIsMissed(f: Filter)
    requires forall l :: l in ["1", "4", "234"] ==> !f.blank(l) && f.valid(l)
    ensures var first, c := Opened(1, 2, Some("1\n")), Cycle(Opened(1, 4, Some("234\n")), OpenFailed);
            && Settled(c.v) && !Resets(Run(f, first, []), c.v)
            && Consumed(f, first, [c]) == "1\n4\n"
            && LinesSince(Run(f, first, [c]).calls) == ["1", "4"] != Kept(f, CompleteLines(c.v.content.value))
  {
    hide Run, Consumed, Kept, CompleteLines, LinesSince, Remainder, Settled;
    var first, c := Opened(1, 2, Some("1\n")), Cycle(Opened(1, 4, Some("234\n")), OpenFailed);
    FirstRead(f, first);
    AlwaysTracks(f, first, []);
    AlwaysTracks(f, first, [c]);
    SecondRead(f, first, c);
    KeptOfTwo(f);
  }

  lemma FirstRead(f: Filter, first: View)
    requires first == Opened(1, 2, Some("1\n"))
    ensures Run(f, first, []).fileInfo == Some(1) && Consumed(f, first, []) == "1\n"
  {
    hide Deliver, CompleteLines, Remainder;
  }

  lemma SecondRead(f: Filter, first: View, c: Cycle)
    requires c == Cycle(Opened(1, 4, Some("234\n")), OpenFailed)
    requires Run(f, first, []).fileInfo == Some(1) && Run(f, first, []).offset == 2 && Consumed(f, first, []) == "1\n"
    ensures !Resets(Run(f, first, []), c.v) && Settled(c.v) && Consumed(f, first, [c]) == "1\n4\n"
  {
    assert [c][..0] == [];
    assert Consumed(f, first, [c]) == Consume(Run(f, first, []), "1\n", c);
    hide Run, Consumed;
    assert "234\n"[2..] == "4\n" && "1\n" + "4\n" == "1\n4\n";
  }

  lemma KeptOfTwo(f: Filter)
    requires forall l :: l in ["1", "4", "234"] ==> !f.blank(l) && f.valid(l)
    ensures Kept(f, CompleteLines("1\n4\n")) == ["1", "4"] != Kept(f, CompleteLines("234\n"))
  {
    hide Kept, CompleteLines;
    assert "1" in ["1", "4", "234"] && "4" in ["1", "4", "234"] && "234" in ["1", "4", "234"];
    OneLine("4", "");
    OneLine("1", "4\n");
    OneLine("234", "");
    NoLine(f);
    assert "1" + "\n" + "4\n" == "1\n4\n" && "4" + "\n" + "" == "4\n" && "234" + "\n" + "" == "234\n";
    KeptLine(f, ["1"], "4");
    KeptLine(f, [], "1");
    KeptLine(f, [], "234");
    assert [] + ["1"] == ["1"] && ["1"] + ["4"] == ["1", "4"] && [] + ["234"] == ["234"];
    assert ["1"] + (["4"] + []) == ["1", "4"] && ["234"] + [] == ["234"];
    assert |["234"]| != |["1", "4"]|;
  }

  lemma NoLine(f: Filter)
    ensures CompleteLines("") == [] && Kept(f, []) == []
  {
  }

  lemma OneLine(line: string, rest: string)
    requires NoNewline(line)
    ensures CompleteLines(line + "\n" + rest) == [line] + CompleteLines(rest)
  {
    CutAt(line, rest);
    FirstLineCut(line + "\n" + rest);
  }

  lemma KeptLine(f: Filter, ls: seq<string>, line: string)
    requires !f.blank(line) && f.valid(line)
    ensures Kept(f, ls + [line]) == Kept(f, ls) + [line]
  {
    assert (ls + [line])[..|ls|] == ls;
  }

  // ---------------------------------------------------------------------------
  // One file at a time
  // ---------------------------------------------------------------------------

  /** The file that the consumed bytes were last read from. */
  function Origin(f: Filter, first: View, cs: seq<Cycle>): nat {
    if cs == [] then if first.Opened? then first.inode else 0
    else
      var front, c := cs[..|cs| - 1], cs[|cs| - 1];
      var before, after := Consumed(f, first, front), Consumed(f, first, cs);
      if Resets(Run(f, first, front), c.v) then if c.again.Opened? then c.again.inode else 0
      else if c.v.Opened? && before != after then c.v.inode
      else Origin(f, first, front)
  }

  /** As long as anything was consumed the reader knows the file it came from. */
  lemma {:induction false} KnowsItsFile(f: Filter, first: View, cs: seq<Cycle>)
    ensures Consumed(f, first, cs) != "" ==> Run(f, first, cs).fileInfo == Some(Origin(f, first, cs))
  {
    AlwaysTracks(f, first, cs);
    if cs != [] {
      var front, c := cs[..|cs| - 1], cs[|cs| - 1];
      KnowsItsFile(f, first, front);
      AlwaysTracks(f, first, front);
      hide Deliver, CompleteLines, Remainder, LinesSince, Kept;
    }
  }

  /** Main result: bytes of two files are never mixed.  Whatever happened before, a cycle that
      opens another file than the one the consumed bytes came from starts over: the reader
      says so, and what it has consumed afterwards is what it read of the path again. */
  lemma OtherFileStartsOver(f: Filter, first: View, cs: seq<Cycle>, c: Cycle)
    requires Consumed(f, first, cs) != "" && c.v.Opened? && c.v.inode != Origin(f, first, cs)
    ensures Consumed(f, first, cs + [c]) == if c.again.Opened? && c.again.content.Some? then c.again.content.value else ""
    ensures var calls, calls' := Run(f, first, cs).calls, Run(f, first, cs + [c]).calls;
            |calls| < |calls'| && calls <= calls' && calls'[|calls|] == Reset && calls'[|calls'| - 1] == ReadComplete
  {
    assert (cs + [c])[..|cs|] == cs;
    KnowsItsFile(f, first, cs);
    hide Deliver, CompleteLines, Remainder, LinesSince, Kept;
  }

  /** So does a cycle that finds the file shorter than what was consumed. */
  lemma ShorterFileStartsOver(f: Filter, first: View, cs: seq<Cycle>, c: Cycle)
    requires c.v.Opened? && c.v.size < |Consumed(f, first, cs)|
    ensures Consumed(f, first, cs + [c]) == if c.again.Opened? && c.again.content.Some? then c.again.content.value else ""
  {
    assert (cs + [c])[..|cs|] == cs;
    AlwaysTracks(f, first, cs);
  }

  /** A line reaches the parser exactly when it is not blank and is valid. */
  lemma {:induction false} KeptMembers(f: Filter, ls: seq<string>, l: string)
    ensures l in Kept(f, ls) <==> l in ls && !f.blank(l) && f.valid(l)
    ensures |Kept(f, ls)| <= |ls|
    ensures (forall k :: k in ls ==> !f.blank(k) && f.valid(k)) ==> Kept(f, ls) == ls
  {
    if ls != [] {
      var front, last := ls[..|ls| - 1], ls[|ls| - 1];
      assert ls == front + [last];
      KeptMembers(f, front, l);
    }
  }

  // ---------------------------------------------------------------------------
  // Parsing
  // ---------------------------------------------------------------------------

  /** Parsing lines one after the other; line i is parsed at clock(i). */
  function ParseAll(decode: string -> Option<EP.JsonlEvent>, clock: nat -> int, ls: seq<string>): EP.State {
    if ls == [] then EP.EMPTY
    else
      EP.ParseLine(ParseAll(decode, clock, ls[..|ls| - 1]), decode(ls[|ls| - 1]), clock(|ls| - 1))
  }

  /** The pipeline fed with the reader's calls; call i is made at clock(i). */
  function Drive(decode: string -> Option<EP.JsonlEvent>, clock: nat -> int, calls: seq<Call>): CP.State {
    if calls == [] then CP.START
    else
      CP.OnCall(decode, Drive(decode, clock, calls[..|calls| - 1]), calls[|calls| - 1], clock(|calls| - 1))
  }

  predicate Stamped(decode: string -> Option<EP.JsonlEvent>, line: string) {
    decode(line).Some? ==> decode(line).value.timestamp.Millis?
  }

  predicate AllStamped(decode: string -> Option<EP.JsonlEvent>, ls: seq<string>) {
    forall i :: 0 <= i < |ls| ==> Stamped(decode, ls[i])
  }

  /** With well-formed timestamps the incremental parse is the one-shot parse of the
      lines since the last reset, whenever each line was parsed. */
  lemma {:induction false} DriveIsOneShot(decode: string -> Option<EP.JsonlEvent>, clock: nat -> int, clock2: nat -> int,
                                          calls: seq<Call>)
    requires AllStamped(decode, LinesSince(calls))
    ensures Drive(decode, clock, calls).parser == ParseAll(decode, clock2, LinesSince(calls))
  {
    if calls != [] {
      var front, c := calls[..|calls| - 1], calls[|calls| - 1];
      if !c.Reset? {
        assert AllStamped(decode, LinesSince(front)) by {
          forall i | 0 <= i < |LinesSince(front)|
            ensures Stamped(decode, LinesSince(front)[i])
          {
            assert LinesSince(calls)[i] == LinesSince(front)[i];
          }
        }
        DriveIsOneShot(decode, clock, clock2, front);
        if c.Line? {
          var ls := LinesSince(calls);
          assert ls[..|ls| - 1] == LinesSince(front);
          assert Stamped(decode, ls[|ls| - 1]);
        }
      }
    }
  }

  // ---------------------------------------------------------------------------
  // Any timestamps: equal up to the times themselves
  // ---------------------------------------------------------------------------

  function Timeless(i: EP.ChatItem): EP.ChatItem {
    i.(createdAt := 0, startedAt := 0, completedAt := 0)
  }

  predicate SameItems(a: seq<EP.ChatItem>, b: seq<EP.ChatItem>) {
    |a| == |b| && forall i :: 0 <= i < |a| ==> Timeless(a[i]) == Timeless(b[i])
  }

  predicate Same(p: EP.State, q: EP.State) {
    SameItems(p.items, q.items) && p.toolIndex == q.toolIndex && p.pendingSeed == q.pendingSeed
  }

  lemma {:induction false} FindSame(a: seq<EP.ChatItem>, b: seq<EP.ChatItem>, id: string)
    requires SameItems(a, b)
    ensures EP.Find(a, id) == EP.Find(b, id)
  {
    if a != [] {
      assert Timeless(a[0]) == Timeless(b[0]);
      FindSame(a[1..], b[1..], id);
    }
  }

  lemma UserTextSame(p: EP.State, q: EP.State, text: string, uuid: string, t: int, u: int)
    requires Same(p, q)
    ensures Same(EP.UserText(p, text, uuid, t), EP.UserText(q, text, uuid, u))
  {
    hide EP.AddOrReplaceSpec, SameItems;
    PlaceSame(p.items, q.items, EP.UserItem(EP.UserId(uuid), t, "", text), EP.UserItem(EP.UserId(uuid), u, "", text));
    if p.pendingSeed.Some? {
      var rid := p.pendingSeed.value.requestId;
      PlaceSame(p.items, q.items, EP.UserItem(EP.UserId(rid), t, rid, text), EP.UserItem(EP.UserId(rid), u, rid, text));
    }
  }

  lemma PlaceSame(a: seq<EP.ChatItem>, b: seq<EP.ChatItem>, x: EP.ChatItem, y: EP.ChatItem)
    requires SameItems(a, b) && Timeless(x) == Timeless(y)
    ensures SameItems(EP.AddOrReplaceSpec(a, x), EP.AddOrReplaceSpec(b, y))
  {
    assert x.id == Timeless(x).id == y.id;
    FindSame(a, b, x.id);
  }

  lemma {:induction false} UserBlocksSame(p: EP.State, q: EP.State, bs: seq<EP.Block>, uuid: string, t: int, u: int)
    requires Same(p, q)
    ensures Same(EP.UserBlocks(p, bs, uuid, t), EP.UserBlocks(q, bs, uuid, u))
  {
    if bs != [] {
      var front, b := bs[..|bs| - 1], bs[|bs| - 1];
      UserBlocksSame(p, q, front, uuid, t, u);
      var p', q' := EP.UserBlocks(p, front, uuid, t), EP.UserBlocks(q, front, uuid, u);
      if b.TextBlock? {
        UserTextSame(p', q', b.text, uuid, t, u);
      } else if b.ToolResult? && b.toolUseId in p'.toolIndex && p'.toolIndex[b.toolUseId] < |p'.items| {
        var i := p'.toolIndex[b.toolUseId];
        assert Timeless(p'.items[i]) == Timeless(q'.items[i]);
      }
    }
  }

  lemma {:induction false} AssistantBlocksSame(p: EP.State, q: EP.State, bs: seq<EP.Block>, uuid: string, t: int, u: int)
    requires Same(p, q)
    ensures Same(EP.AssistantBlocks(p, bs, uuid, t), EP.AssistantBlocks(q, bs, uuid, u))
  {
    if bs != [] {
      AssistantBlocksSame(p, q, bs[..|bs| - 1], uuid, t, u);
    }
  }

  lemma ApplySame(p: EP.State, q: EP.State, e: EP.JsonlEvent, now1: int, now2: int)
    requires Same(p, q)
    ensures Same(EP.Apply(p, e, now1), EP.Apply(q, e, now2))
  {
    var t, u := EP.CreatedAt(p, e.timestamp, now1), EP.CreatedAt(q, e.timestamp, now2);
    var p', q' := p.(lastCreatedAt := t), q.(lastCreatedAt := u);
    if e.content.Blocks? {
      UserBlocksSame(p', q', e.content.blocks, e.uuid, t, u);
      AssistantBlocksSame(p', q', e.content.blocks, e.uuid, t, u);
    } else if e.content.Plain? {
      UserTextSame(p', q', e.content.text, e.uuid, t, u);
    }
  }

  /** With missing or malformed timestamps too, the incremental parse is the one-shot
      parse in every respect but the times taken from the wall clock. */
  lemma {:induction false} DriveSameAsOneShot(decode: string -> Option<EP.JsonlEvent>, clock: nat -> int, clock2: nat -> int,
                                              calls: seq<Call>)
    ensures Same(Drive(decode, clock, calls).parser, ParseAll(decode, clock2, LinesSince(calls)))
  {
    if calls != [] {
      var front, c := calls[..|calls| - 1], calls[|calls| - 1];
      DriveSameAsOneShot(decode, clock, clock2, front);
      if c.Line? {
        var ls := LinesSince(calls);
        assert ls[..|ls| - 1] == LinesSince(front);
        if decode(c.line).Some? {
          ApplySame(Drive(decode, clock, front).parser, ParseAll(decode, clock2, LinesSince(front)),
                    decode(c.line).value, clock(|calls| - 1), clock2(|ls| - 1));
        }
      }
    }
  }

  // ---------------------------------------------------------------------------
  // What the clients see
  // ---------------------------------------------------------------------------

  function LastMerge(ps: seq<CP.Publication>): Option<seq<EP.ChatItem>> {
    if ps == [] then None
    else if ps[|ps| - 1].Merge? then Some(ps[|ps| - 1].items)
    else LastMerge(ps[..|ps| - 1])
  }

  predicate Published(s: CP.State) {
    s.phase == CP.Live ==> LastMerge(s.published) == Some(s.parser.items)
  }

  lemma CallPublishes(decode: string -> Option<EP.JsonlEvent>, s: CP.State, c: Call, now: int)
    requires Published(s)
    ensures Published(CP.OnCall(decode, s, c, now))
  {
    var s' := CP.OnCall(decode, s, c, now);
    var ps := s'.published;
    if c == ReadComplete {
      assert ps[|ps| - 1] == CP.Snapshot && ps[..|ps| - 1][|ps| - 2] == CP.Merge(s.parser.items);
    }
  }

  lemma {:induction false} DrivePublishes(decode: string -> Option<EP.JsonlEvent>, clock: nat -> int, calls: seq<Call>)
    ensures Published(Drive(decode, clock, calls))
  {
    if calls != [] {
      DrivePublishes(decode, clock, calls[..|calls| - 1]);
      CallPublishes(decode, Drive(decode, clock, calls[..|calls| - 1]), calls[|calls| - 1], clock(|calls| - 1));
    }
  }

  /** Every cycle ends outside a replay: each reset is closed by its ReadComplete. */
  predicate Closed(calls: seq<Call>) {
    exists i :: 0 <= i < |calls| && calls[i] == ReadComplete && forall j :: i < j < |calls| ==> calls[j].Line?
  }

  lemma ClosedBy(calls: seq<Call>)
    ensures Closed(calls + [ReadComplete])
  {
    assert (calls + [ReadComplete])[|calls|] == ReadComplete;
  }

  lemma ClosedAppend(calls: seq<Call>, more: seq<Call>)
    requires Closed(calls) && forall i :: 0 <= i < |more| ==> more[i].Line?
    ensures Closed(calls + more)
  {
    var i :| 0 <= i < |calls| && calls[i] == ReadComplete && forall j :: i < j < |calls| ==> calls[j].Line?;
    assert (calls + more)[i] == ReadComplete;
  }

  lemma {:induction false} RunIsClosed(f: Filter, first: View, cs: seq<Cycle>)
    ensures Closed(Run(f, first, cs).calls)
  {
    if cs == [] {
      ClosedBy(FromBeginningSpec(f, START, first).calls);
    } else {
      var s, c := Run(f, first, cs[..|cs| - 1]), cs[|cs| - 1];
      RunIsClosed(f, first, cs[..|cs| - 1]);
      if Resets(s, c.v) {
        ClosedBy(FromBeginningSpec(f, s.(calls := s.calls + [Reset]), c.again).calls);
      } else if c.v.Opened? && c.v.size > s.offset && c.v.content.Some? {
        ClosedAppend(s.calls, Deliver(f, CompleteLines(s.buf + From(c.v.content.value, s.offset))));
      }
    }
  }

  lemma {:induction false} ClosedIsLive(decode: string -> Option<EP.JsonlEvent>, clock: nat -> int, calls: seq<Call>)
    requires Closed(calls)
    ensures Drive(decode, clock, calls).phase == CP.Live
  {
    var i :| 0 <= i < |calls| && calls[i] == ReadComplete && forall j :: i < j < |calls| ==> calls[j].Line?;
    var front := calls[..|calls| - 1];
    if i < |calls| - 1 {
      assert front[i] == ReadComplete && forall j :: i < j < |front| ==> front[j].Line?;
      ClosedIsLive(decode, clock, front);
    }
  }

  /** Main theorem.  After every cycle of every run, the timeline the clients were last
      sent is the one-shot parse of the valid complete lines consumed since the last
      reset, and the leftover buffer is the unterminated tail of those bytes. */
  lemma IncrementalIsOneShot(f: Filter, decode: string -> Option<EP.JsonlEvent>, clock: nat -> int, clock2: nat -> int,
                             first: View, cs: seq<Cycle>)
    ensures var s := Run(f, first, cs);
            var consumed := Consumed(f, first, cs);
            var lines := Kept(f, CompleteLines(consumed));
            var sent := LastMerge(Drive(decode, clock, s.calls).published);
            && s.offset == |consumed| && s.buf == Remainder(consumed)
            && sent.Some?
            && (AllStamped(decode, lines) ==> sent.value == ParseAll(decode, clock2, lines).items)
            && SameItems(sent.value, ParseAll(decode, clock2, lines).items)
  {
    var s := Run(f, first, cs);
    AlwaysTracks(f, first, cs);
    RunIsClosed(f, first, cs);
    ClosedIsLive(decode, clock, s.calls);
    DrivePublishes(decode, clock, s.calls);
    if AllStamped(decode, LinesSince(s.calls)) {
      DriveIsOneShot(decode, clock, clock2, s.calls);
    }
    DriveSameAsOneShot(decode, clock, clock2, s.calls);
  }

  /** And those bytes are the current file: after any history, a cycle that reads a
      settled file which was rotated, visibly truncated or only appended to leaves the
      clients with the one-shot parse of that file. */
  lemma CurrentFileIsShown(f: Filter, decode: string -> Option<EP.JsonlEvent>, clock: nat -> int, clock2: nat -> int,
                           first: View, cs: seq<Cycle>, c: Cycle)
    requires var s := Run(f, first, cs);
             && Settled(LastView(s, c))
             && (Resets(s, c.v) || OnlyGrew(Consumed(f, first, cs), LastView(s, c).content.value))
    ensures var content := LastView(Run(f, first, cs), c).content.value;
            var s' := Run(f, first, cs + [c]);
            var lines := Kept(f, CompleteLines(content));
            var sent := LastMerge(Drive(decode, clock, s'.calls).published);
            && s'.offset == |content| && s'.buf == Remainder(content) && sent.Some?
            && (AllStamped(decode, lines) ==> sent.value == ParseAll(decode, clock2, lines).items)
            && SameItems(sent.value, ParseAll(decode, clock2, lines).items)
  {
    assert (cs + [c])[..|cs|] == cs;
    AlwaysTracks(f, first, cs);
    CycleReachesFile(Run(f, first, cs), Consumed(f, first, cs), c);
    IncrementalIsOneShot(f, decode, clock, clock2, first, cs + [c]);
  }
}
