/** What the clients are sent in each read cycle, and when a prompt is seeded or rolled back. */
module PipelineLaws {
  import opened Text
  import opened TailReader
  import opened TailLaws
  import EP = EventParser
  import CP = ClaudePipeline

  function Published(decode: string -> Option<EP.JsonlEvent>, clock: nat -> int, calls: seq<Call>): seq<CP.Publication> {
    Drive(decode, clock, calls).published
  }

  /** During a replay nothing is sent. */
  lemma {:induction false} ReplayIsSilent(decode: string -> Option<EP.JsonlEvent>, clock: nat -> int, calls: seq<Call>, more: seq<Call>)
    requires Drive(decode, clock, calls).phase != CP.Live
    requires forall i :: 0 <= i < |more| ==> more[i].Line?
    ensures Published(decode, clock, calls + more) == Published(decode, clock, calls)
    ensures Drive(decode, clock, calls + more).phase == Drive(decode, clock, calls).phase
    decreases |more|
  {
    if more == [] {
      assert calls + more == calls;
    } else {
      var front := more[..|more| - 1];
      assert (calls + more)[..|calls + more| - 1] == calls + front && (calls + more)[|calls + more| - 1] == more[|more| - 1];
      ReplayIsSilent(decode, clock, calls, front);
    }
  }

  /** While live every line sends one timeline. */
  lemma {:induction false} LinesAreSent(decode: string -> Option<EP.JsonlEvent>, clock: nat -> int, calls: seq<Call>, more: seq<Call>)
    requires Drive(decode, clock, calls).phase == CP.Live
    requires forall i :: 0 <= i < |more| ==> more[i].Line?
    ensures Drive(decode, clock, calls + more).phase == CP.Live
    ensures var before, after := Published(decode, clock, calls), Published(decode, clock, calls + more);
            && |after| == |before| + |more| && before <= after
            && forall i :: |before| <= i < |after| ==> after[i].Merge?
    decreases |more|
  {
    if more == [] {
      assert calls + more == calls;
    } else {
      var front := more[..|more| - 1];
      assert (calls + more)[..|calls + more| - 1] == calls + front && (calls + more)[|calls + more| - 1] == more[|more| - 1];
      LinesAreSent(decode, clock, calls, front);
    }
  }

  lemma Completes(decode: string -> Option<EP.JsonlEvent>, clock: nat -> int, calls: seq<Call>)
    ensures var s := Drive(decode, clock, calls);
            Published(decode, clock, calls + [ReadComplete]) ==
            s.published + (if s.phase == CP.ResetReplay then [CP.ResetNotice] else []) + [CP.Merge(s.parser.items), CP.Snapshot]
    ensures Drive(decode, clock, calls + [ReadComplete]).parser == Drive(decode, clock, calls).parser
  {
    assert (calls + [ReadComplete])[..|calls|] == calls;
  }

  lemma Begins(decode: string -> Option<EP.JsonlEvent>, clock: nat -> int, calls: seq<Call>)
    ensures Drive(decode, clock, calls + [Reset]).phase == CP.ResetReplay
    ensures Published(decode, clock, calls + [Reset]) == Published(decode, clock, calls)
  {
    assert (calls + [Reset])[..|calls|] == calls;
  }

  /** What a replay adds to the calls: the lines it reads. */
  lemma FromBeginningCalls(f: Filter, s: State, v: View) returns (more: seq<Call>)
    ensures FromBeginningSpec(f, s, v).calls == s.calls + more
    ensures forall i :: 0 <= i < |more| ==> more[i].Line?
  {
    hide CompleteLines, Remainder, Kept;
    if v.Opened? && v.content.Some? {
      more := Deliver(f, CompleteLines("" + From(v.content.value, 0)));
    } else {
      more := [];
      assert s.calls + more == s.calls;
    }
  }

  /** The first cycle sends the timeline and a snapshot, and nothing before. */
  lemma FirstCycleSends(f: Filter, decode: string -> Option<EP.JsonlEvent>, clock: nat -> int, first: View)
    ensures var s := Drive(decode, clock, Run(f, first, []).calls);
            s.published == [CP.Merge(s.parser.items), CP.Snapshot]
  {
    var more := FromBeginningCalls(f, START, first);
    assert [] + more == more;
    ReplayIsSilent(decode, clock, [], more);
    Completes(decode, clock, more);
    hide Drive;
    assert [] + [] + [CP.Merge(Drive(decode, clock, more).parser.items), CP.Snapshot] ==
           [CP.Merge(Drive(decode, clock, more).parser.items), CP.Snapshot];
  }

  /** Main result, for every cycle of every run.  A cycle that starts over sends exactly three
      things, however many lines it replays: that the timeline was reset, the whole timeline,
      and a snapshot.  Any other cycle sends one timeline for each line it delivers. */
  lemma CycleSends(f: Filter, decode: string -> Option<EP.JsonlEvent>, clock: nat -> int, first: View, cs: seq<Cycle>, c: Cycle)
    ensures var s := Run(f, first, cs);
            var s' := Run(f, first, cs + [c]);
            var before, after := Published(decode, clock, s.calls), Published(decode, clock, s'.calls);
            && s.calls <= s'.calls
            && if Reset in s'.calls[|s.calls|..] then
                 after == before + [CP.ResetNotice, CP.Merge(Drive(decode, clock, s'.calls).parser.items), CP.Snapshot]
               else
                 && |after| == |before| + |s'.calls| - |s.calls| && before <= after
                 && (forall i :: |s.calls| <= i < |s'.calls| ==> s'.calls[i].Line?)
                 && forall i :: |before| <= i < |after| ==> after[i].Merge?
  {
    assert (cs + [c])[..|cs|] == cs;
    var s := Run(f, first, cs);
    RunIsClosed(f, first, cs);
    ClosedIsLive(decode, clock, s.calls);
    if Resets(s, c.v) {
      ResetCycleSends(f, decode, clock, s, c);
    } else {
      QuietCycleSends(f, decode, clock, s, c);
    }
    hide Run, Drive, PollSpec;
  }

  lemma ResetCycleSends(f: Filter, decode: string -> Option<EP.JsonlEvent>, clock: nat -> int, s: State, c: Cycle)
    requires Resets(s, c.v)
    ensures var s' := PollSpec(f, s, c.v, c.again);
            && s.calls <= s'.calls && Reset in s'.calls[|s.calls|..]
            && Published(decode, clock, s'.calls) ==
               Published(decode, clock, s.calls) + [CP.ResetNotice, CP.Merge(Drive(decode, clock, s'.calls).parser.items), CP.Snapshot]
  {
    var s' := PollSpec(f, s, c.v, c.again);
    var begun := s.calls + [Reset];
    var more := FromBeginningCalls(f, s.(calls := begun), c.again);
    assert s'.calls == begun + more + [ReadComplete];
    assert s'.calls[|s.calls|] == Reset && s'.calls[|s.calls|..][0] == Reset;
    Begins(decode, clock, s.calls);
    ReplayIsSilent(decode, clock, begun, more);
    Completes(decode, clock, begun + more);
    hide Drive, FromBeginningSpec;
  }

  lemma QuietCycleSends(f: Filter, decode: string -> Option<EP.JsonlEvent>, clock: nat -> int, s: State, c: Cycle)
    requires !Resets(s, c.v) && Drive(decode, clock, s.calls).phase == CP.Live
    ensures var s' := PollSpec(f, s, c.v, c.again);
            var before, after := Published(decode, clock, s.calls), Published(decode, clock, s'.calls);
            && s.calls <= s'.calls && Reset !in s'.calls[|s.calls|..]
            && |after| == |before| + |s'.calls| - |s.calls| && before <= after
            && (forall i :: |s.calls| <= i < |s'.calls| ==> s'.calls[i].Line?)
            && forall i :: |before| <= i < |after| ==> after[i].Merge?
  {
    var s' := PollSpec(f, s, c.v, c.again);
    if c.v.Opened? && c.v.size > s.offset && c.v.content.Some? {
      var more := Deliver(f, CompleteLines(s.buf + From(c.v.content.value, s.offset)));
      assert s'.calls == s.calls + more && s'.calls[|s.calls|..] == more;
      LinesAreSent(decode, clock, s.calls, more);
    } else {
      assert s'.calls == s.calls;
    }
    hide Drive, PollSpec;
  }

  /** Seeding a prompt sends the timeline with its bubble at the end. */
  lemma SeedIsSent(s: CP.State, text: string, requestId: string, at: int)
    ensures var s' := CP.OnSeed(s, text, requestId, at);
            && s'.published == s.published + [CP.Merge(s'.parser.items)] && s'.phase == s.phase
            && s'.parser.pendingSeed == Some(EP.Seed(requestId, text, at))
            && s'.parser.items == s.parser.items +
                 [EP.ChatItem("jsonl-user:" + requestId, EP.UserMessage, at, EP.Completed, requestId, text, "", "", 0, false, "", 0)]
  {
  }

  /** Rolling it back sends the timeline without the first item of that id. */
  lemma RollbackIsSent(s: CP.State, requestId: string)
    ensures var s' := CP.OnRollback(s, requestId);
            && s'.published == s.published + [CP.Merge(s'.parser.items)] && s'.parser.pendingSeed == None
            && (s'.parser.items == s.parser.items ||
                exists p :: 0 <= p < |s.parser.items| && s.parser.items[p].id == "jsonl-user:" + requestId
                            && (forall j :: 0 <= j < p ==> s.parser.items[j].id != "jsonl-user:" + requestId)
                            && s'.parser.items == s.parser.items[..p] + s.parser.items[p + 1..])
            && (s'.parser.items == s.parser.items <==> forall j :: 0 <= j < |s.parser.items| ==> s.parser.items[j].id != "jsonl-user:" + requestId)
  {
    var p := EP.Find(s.parser.items, EP.UserId(requestId));
    if p < |s.parser.items| {
      assert s.parser.items[p].id == "jsonl-user:" + requestId;
      assert |CP.OnRollback(s, requestId).parser.items| == |s.parser.items| - 1;
    }
  }
}
