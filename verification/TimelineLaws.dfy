/** Laws of the JSONL event parser over any sequence of events, seeds and rollbacks. */
module TimelineLaws {
  import opened Text
  import opened EventParser

  /** Everything that may happen to a parser. */
  datatype Input =
    | Event(e: JsonlEvent, now: int)
    | SeedPrompt(text: string, requestId: string, createdAt: int)
    | Rollback(requestId: string)
    | Reset

  function Next(s: State, x: Input): State {
    match x
    case Event(e, now) => Apply(s, e, now)
    case SeedPrompt(text, rid, createdAt) => SeedSpec(s, text, rid, createdAt)
    case Rollback(rid) => RollbackSpec(s, rid)
    case Reset => EMPTY
  }

  function Run(s: State, xs: seq<Input>): State {
    if xs == [] then s else Next(Run(s, xs[..|xs| - 1]), xs[|xs| - 1])
  }

  // ---------------------------------------------------------------------------
  // Identities are stable: events only append
  // ---------------------------------------------------------------------------

  predicate KeepsIds(a: seq<ChatItem>, b: seq<ChatItem>) {
    |a| <= |b| && forall i :: 0 <= i < |a| ==> b[i].id == a[i].id
  }

  lemma {:induction false} UserBlocksKeepIds(s: State, bs: seq<Block>, uuid: string, createdAt: int)
    ensures KeepsIds(s.items, UserBlocks(s, bs, uuid, createdAt).items)
  {
    if bs != [] {
      UserBlocksKeepIds(s, bs[..|bs| - 1], uuid, createdAt);
    }
  }

  lemma {:induction false} AssistantBlocksKeepIds(s: State, bs: seq<Block>, uuid: string, createdAt: int)
    ensures KeepsIds(s.items, AssistantBlocks(s, bs, uuid, createdAt).items)
  {
    if bs != [] {
      AssistantBlocksKeepIds(s, bs[..|bs| - 1], uuid, createdAt);
    }
  }

  /** An event never removes, reorders or renames an item already in the timeline. */
  lemma EventKeepsIds(s: State, e: JsonlEvent, now: int)
    ensures KeepsIds(s.items, Apply(s, e, now).items)
  {
    var createdAt := CreatedAt(s, e.timestamp, now);
    var s' := s.(lastCreatedAt := createdAt);
    if e.content.Blocks? {
      UserBlocksKeepIds(s', e.content.blocks, e.uuid, createdAt);
      AssistantBlocksKeepIds(s', e.content.blocks, e.uuid, createdAt);
    }
  }

  // ---------------------------------------------------------------------------
  // The tool index
  // ---------------------------------------------------------------------------

  /** An entry points at the last item that carries the tool's id. */
  predicate PointsAt(items: seq<ChatItem>, tool: string, i: nat) {
    && i < |items| && items[i].id == ToolId(tool)
    && forall j :: i < j < |items| ==> items[j].id != ToolId(tool)
  }

  predicate IndexAgrees(s: State) {
    forall t :: t in s.toolIndex ==> PointsAt(s.items, t, s.toolIndex[t])
  }

  lemma UserTextIndex(s: State, text: string, uuid: string, createdAt: int)
    requires IndexAgrees(s)
    ensures IndexAgrees(UserText(s, text, uuid, createdAt))
  {
    var s' := UserText(s, text, uuid, createdAt);
    forall t | t in s'.toolIndex
      ensures PointsAt(s'.items, t, s'.toolIndex[t])
    {
      assert PointsAt(s.items, t, s.toolIndex[t]);
      IdsDiffer(uuid, t);
      if s.pendingSeed.Some? {
        IdsDiffer(s.pendingSeed.value.requestId, t);
      }
    }
  }

  lemma ToolResultIndex(s: State, b: Block, createdAt: int)
    requires b.ToolResult? && IndexAgrees(s)
    ensures IndexAgrees(ToolResultSpec(s, b, createdAt))
  {
    var s' := ToolResultSpec(s, b, createdAt);
    forall t | t in s'.toolIndex
      ensures PointsAt(s'.items, t, s'.toolIndex[t])
    {
      assert PointsAt(s.items, t, s.toolIndex[t]);
      IdsDiffer("", b.toolUseId);
    }
  }

  lemma {:induction false} UserBlocksIndex(s: State, bs: seq<Block>, uuid: string, createdAt: int)
    requires IndexAgrees(s)
    ensures IndexAgrees(UserBlocks(s, bs, uuid, createdAt))
  {
    if bs != [] {
      var b := bs[|bs| - 1];
      var mid := UserBlocks(s, bs[..|bs| - 1], uuid, createdAt);
      UserBlocksIndex(s, bs[..|bs| - 1], uuid, createdAt);
      if b.TextBlock? {
        UserTextIndex(mid, b.text, uuid, createdAt);
      } else if b.ToolResult? {
        ToolResultIndex(mid, b, createdAt);
      }
    }
  }

  lemma AssistantBlockIndex(s: State, b: Block, i: nat, uuid: string, createdAt: int)
    requires IndexAgrees(s)
    ensures IndexAgrees(AssistantBlock(s, b, i, uuid, createdAt))
  {
    var s' := AssistantBlock(s, b, i, uuid, createdAt);
    forall t | t in s'.toolIndex
      ensures PointsAt(s'.items, t, s'.toolIndex[t])
    {
      if t in s.toolIndex {
        assert PointsAt(s.items, t, s.toolIndex[t]);
      }
      BlockIdsDiffer(uuid, i, t);
      if b.ToolUse? {
        IdsDiffer("", b.toolId);
      }
    }
  }

  lemma {:induction false} AssistantBlocksIndex(s: State, bs: seq<Block>, uuid: string, createdAt: int)
    requires IndexAgrees(s)
    ensures IndexAgrees(AssistantBlocks(s, bs, uuid, createdAt))
  {
    if bs != [] {
      AssistantBlocksIndex(s, bs[..|bs| - 1], uuid, createdAt);
      AssistantBlockIndex(AssistantBlocks(s, bs[..|bs| - 1], uuid, createdAt), bs[|bs| - 1], |bs| - 1, uuid, createdAt);
    }
  }

  lemma EventIndex(s: State, e: JsonlEvent, now: int)
    requires IndexAgrees(s)
    ensures IndexAgrees(Apply(s, e, now))
  {
    var createdAt := CreatedAt(s, e.timestamp, now);
    var s' := s.(lastCreatedAt := createdAt);
    if e.content.Blocks? {
      UserBlocksIndex(s', e.content.blocks, e.uuid, createdAt);
      AssistantBlocksIndex(s', e.content.blocks, e.uuid, createdAt);
    } else if e.content.Plain? {
      UserTextIndex(s', e.content.text, e.uuid, createdAt);
    }
  }

  lemma SeedIndex(s: State, text: string, requestId: string, createdAt: int)
    requires IndexAgrees(s)
    ensures IndexAgrees(SeedSpec(s, text, requestId, createdAt))
  {
    var s' := SeedSpec(s, text, requestId, createdAt);
    forall t | t in s'.toolIndex
      ensures PointsAt(s'.items, t, s'.toolIndex[t])
    {
      assert PointsAt(s.items, t, s.toolIndex[t]);
      IdsDiffer(requestId, t);
    }
  }

  /** The item a rollback removes lies after every indexed item, or there is none. */
  predicate RollbackIsSafe(s: State, requestId: string) {
    var p := Find(s.items, UserId(requestId));
    p < |s.items| ==> forall t :: t in s.toolIndex ==> s.toolIndex[t] < p
  }

  /** A rollback does not shift the index, so it keeps the agreement exactly when the
      removed item is behind every tool call. */
  lemma RollbackIndex(s: State, requestId: string)
    requires IndexAgrees(s)
    ensures IndexAgrees(RollbackSpec(s, requestId)) <==> RollbackIsSafe(s, requestId)
  {
    var p := Find(s.items, UserId(requestId));
    var s' := RollbackSpec(s, requestId);
    forall t | t in s.toolIndex
      ensures PointsAt(s'.items, t, s.toolIndex[t]) <==> (p < |s.items| ==> s.toolIndex[t] < p)
    {
      var i := s.toolIndex[t];
      assert PointsAt(s.items, t, i);
      IdsDiffer(requestId, t);
      if p < |s.items| {
        assert i != p;
        assert forall j :: p <= j < |s'.items| ==> s'.items[j] == s.items[j + 1];
        assert forall j :: 0 <= j < p ==> s'.items[j] == s.items[j];
        if i > p {
          assert i < |s'.items| ==> s'.items[i].id != ToolId(t);
        }
      }
    }
  }

  /** A prompt seeded before a tool call and then rolled back leaves the call's entry
      pointing past its item. */
  lemma RollbackCanBreakTheIndex()
    ensures var call := JsonlEvent("u", Assistant, Millis(1), Blocks([ToolUse("t", "Bash", "{}")]));
            var s := Run(EMPTY, [SeedPrompt("hi", "r", 0), Event(call, 1)]);
            IndexAgrees(s) && !RollbackIsSafe(s, "r") && !IndexAgrees(RollbackSpec(s, "r"))
  {
    var blocks := [ToolUse("t", "Bash", "{}")];
    var call := JsonlEvent("u", Assistant, Millis(1), Blocks(blocks));
    var xs := [SeedPrompt("hi", "r", 0), Event(call, 1)];
    var seeded := SeedSpec(EMPTY, "hi", "r", 0);
    assert xs[..1] == [xs[0]] && xs[..0] == [] && [xs[0]][..0] == [];
    assert Run(EMPTY, [xs[0]]) == Next(Run(EMPTY, []), xs[0]);
    assert Run(EMPTY, [xs[0]]) == seeded;
    assert blocks[..0] == [];
    var before := seeded.(lastCreatedAt := 1);
    assert AssistantBlocks(before, [], "u", 1) == before;
    var s := Apply(seeded, call, 1);
    assert Run(EMPTY, xs) == s;
    assert s.toolIndex == map["t" := 1] && |s.items| == 2;
    SeedIndex(EMPTY, "hi", "r", 0);
    EventIndex(seeded, call, 1);
    assert s.items[0].id == UserId("r");
    assert Find(s.items, UserId("r")) == 0;
    RollbackIndex(s, "r");
    assert s.toolIndex["t"] == 1;
  }

  predicate SafeRun(s: State, xs: seq<Input>) {
    forall n :: 0 <= n < |xs| && xs[n].Rollback? ==> RollbackIsSafe(Run(s, xs[..n]), xs[n].requestId)
  }

  /** Over every run of events, seeds, safe rollbacks and resets, each tool result can
      only reach the tool call it belongs to. */
  lemma {:induction false} IndexAlwaysAgrees(s: State, xs: seq<Input>)
    requires IndexAgrees(s) && SafeRun(s, xs)
    ensures IndexAgrees(Run(s, xs))
  {
    if xs != [] {
      var front := xs[..|xs| - 1];
      forall n | 0 <= n < |front| && front[n].Rollback?
        ensures RollbackIsSafe(Run(s, front[..n]), front[n].requestId)
      {
        assert front[..n] == xs[..n] && xs[n] == front[n];
      }
      IndexAlwaysAgrees(s, front);
      var mid := Run(s, front);
      match xs[|xs| - 1] {
        case Event(e, now) => EventIndex(mid, e, now);
        case SeedPrompt(text, rid, createdAt) => SeedIndex(mid, text, rid, createdAt);
        case Rollback(rid) =>
          assert xs[|xs| - 1].requestId == rid;
          RollbackIndex(mid, rid);
        case Reset =>
      }
    }
  }

  // ---------------------------------------------------------------------------
  // A seeded prompt and its echo
  // ---------------------------------------------------------------------------

  function Count(items: seq<ChatItem>, id: string): nat {
    if items == [] then 0 else Count(items[..|items| - 1], id) + (if items[|items| - 1].id == id then 1 else 0)
  }

  predicate Fresh(items: seq<ChatItem>, id: string) {
    forall i :: 0 <= i < |items| ==> items[i].id != id
  }

  /** The seeded bubble: alone under its id, at position p, still waiting for its echo. */
  predicate Waiting(s: State, seed: Seed, p: nat) {
    && s.pendingSeed == Some(seed)
    && p < |s.items|
    && (forall i :: 0 <= i < |s.items| && i != p ==> s.items[i].id != UserId(seed.requestId))
    && s.items[p] == UserItem(UserId(seed.requestId), seed.createdAt, seed.requestId, seed.text)
  }

  /** An event with another origin: no user text equals the prompt, and its uuid is not
      the request id. */
  predicate Unrelated(e: JsonlEvent, seed: Seed) {
    e.role == User ==>
      && e.uuid != seed.requestId
      && (e.content.Plain? ==> e.content.text != seed.text)
      && (e.content.Blocks? ==> forall i :: 0 <= i < |e.content.blocks| && e.content.blocks[i].TextBlock? ==>
                                  e.content.blocks[i].text != seed.text)
  }

  lemma UserTextWaits(s: State, seed: Seed, p: nat, text: string, uuid: string, createdAt: int)
    requires Waiting(s, seed, p) && text != seed.text && uuid != seed.requestId
    ensures Waiting(UserText(s, text, uuid, createdAt), seed, p)
  {
    assert UserId(uuid)[11..] == uuid && UserId(seed.requestId)[11..] == seed.requestId;
  }

  lemma {:induction false} UserBlocksWait(s: State, seed: Seed, p: nat, bs: seq<Block>, uuid: string, createdAt: int)
    requires Waiting(s, seed, p) && IndexAgrees(s) && uuid != seed.requestId
    requires forall i :: 0 <= i < |bs| && bs[i].TextBlock? ==> bs[i].text != seed.text
    ensures Waiting(UserBlocks(s, bs, uuid, createdAt), seed, p)
  {
    if bs != [] {
      var b := bs[|bs| - 1];
      var front := bs[..|bs| - 1];
      UserBlocksWait(s, seed, p, front, uuid, createdAt);
      UserBlocksIndex(s, front, uuid, createdAt);
      var mid := UserBlocks(s, front, uuid, createdAt);
      if b.TextBlock? {
        UserTextWaits(mid, seed, p, b.text, uuid, createdAt);
      } else if b.ToolResult? {
        ToolResultWaits(mid, seed, p, b, createdAt);
      }
    }
  }

  lemma ToolResultWaits(s: State, seed: Seed, p: nat, b: Block, createdAt: int)
    requires Waiting(s, seed, p) && IndexAgrees(s) && b.ToolResult?
    ensures Waiting(ToolResultSpec(s, b, createdAt), seed, p)
  {
    IdsDiffer(seed.requestId, b.toolUseId);
    if b.toolUseId in s.toolIndex {
      assert PointsAt(s.items, b.toolUseId, s.toolIndex[b.toolUseId]);
    }
  }

  lemma {:induction false} AssistantBlocksWait(s: State, seed: Seed, p: nat, bs: seq<Block>, uuid: string, createdAt: int)
    requires Waiting(s, seed, p)
    ensures Waiting(AssistantBlocks(s, bs, uuid, createdAt), seed, p)
  {
    if bs != [] {
      var b := bs[|bs| - 1];
      AssistantBlocksWait(s, seed, p, bs[..|bs| - 1], uuid, createdAt);
      BlockIdsDiffer(uuid, |bs| - 1, "");
      if b.ToolUse? {
        IdsDiffer(seed.requestId, b.toolId);
      }
    }
  }

  lemma UnrelatedWaits(s: State, seed: Seed, p: nat, e: JsonlEvent, now: int)
    requires Waiting(s, seed, p) && IndexAgrees(s) && Unrelated(e, seed)
    ensures Waiting(Apply(s, e, now), seed, p)
  {
    var createdAt := CreatedAt(s, e.timestamp, now);
    var s' := s.(lastCreatedAt := createdAt);
    if e.role == User {
      if e.content.Blocks? {
        UserBlocksWait(s', seed, p, e.content.blocks, e.uuid, createdAt);
      } else if e.content.Plain? {
        UserTextWaits(s', seed, p, e.content.text, e.uuid, createdAt);
      }
    } else if e.role == Assistant && e.content.Blocks? {
      AssistantBlocksWait(s', seed, p, e.content.blocks, e.uuid, createdAt);
    }
  }

  predicate AllUnrelated(xs: seq<Input>, seed: Seed) {
    forall n :: 0 <= n < |xs| ==> xs[n].Event? && Unrelated(xs[n].e, seed)
  }

  lemma {:induction false} RunWaits(s: State, seed: Seed, p: nat, xs: seq<Input>)
    requires Waiting(s, seed, p) && IndexAgrees(s) && AllUnrelated(xs, seed)
    ensures Waiting(Run(s, xs), seed, p) && IndexAgrees(Run(s, xs))
  {
    if xs != [] {
      var front := xs[..|xs| - 1];
      RunWaits(s, seed, p, front);
      assert xs[|xs| - 1].Event? && Unrelated(xs[|xs| - 1].e, seed);
      UnrelatedWaits(Run(s, front), seed, p, xs[|xs| - 1].e, xs[|xs| - 1].now);
      EventIndex(Run(s, front), xs[|xs| - 1].e, xs[|xs| - 1].now);
    }
  }

  lemma {:induction false} CountIsOne(items: seq<ChatItem>, id: string, p: nat)
    requires p < |items| && items[p].id == id
    requires forall i :: 0 <= i < |items| && i != p ==> items[i].id != id
    ensures Count(items, id) == 1
  {
    if p == |items| - 1 {
      CountIsZero(items[..p], id);
    } else {
      CountIsOne(items[..|items| - 1], id, p);
    }
  }

  lemma {:induction false} CountIsZero(items: seq<ChatItem>, id: string)
    requires Fresh(items, id)
    ensures Count(items, id) == 0
  {
    if items != [] {
      CountIsZero(items[..|items| - 1], id);
    }
  }

  /** The prompt comes back as a plain string or as a single text block. */
  predicate Echoes(e: JsonlEvent, seed: Seed) {
    e.role == User &&
    (e.content == Blocks([TextBlock(seed.text)]) || (e.content == Plain(seed.text) && seed.text != ""))
  }

  /** A prompt seeded under a fresh request id, any unrelated events, then its echo: the
      timeline holds the prompt exactly once, where it was seeded, and no seed is left. */
  lemma SeedThenEcho(s: State, seed: Seed, xs: seq<Input>, echo: JsonlEvent, now: int)
    requires IndexAgrees(s) && Fresh(s.items, UserId(seed.requestId))
    requires AllUnrelated(xs, seed)
    requires Echoes(echo, seed)
    ensures var last := Apply(Run(SeedSpec(s, seed.text, seed.requestId, seed.createdAt), xs), echo, now);
            var id := UserId(seed.requestId);
            && Count(last.items, id) == 1 && last.pendingSeed == None
            && |s.items| < |last.items| && last.items[|s.items|].id == id
            && last.items[|s.items|].text == seed.text && last.items[|s.items|].requestId == seed.requestId
  {
    var seeded := SeedSpec(s, seed.text, seed.requestId, seed.createdAt);
    SeedIndex(s, seed.text, seed.requestId, seed.createdAt);
    RunWaits(seeded, seed, |s.items|, xs);
    var mid := Run(seeded, xs);
    assert Find(mid.items, UserId(seed.requestId)) == |s.items|;
    var createdAt := CreatedAt(mid, echo.timestamp, now);
    var mid' := mid.(lastCreatedAt := createdAt);
    var last := UserText(mid', seed.text, echo.uuid, createdAt);
    if echo.content.Blocks? {
      assert [TextBlock(seed.text)][..0] == [];
      assert UserBlocks(mid', [], echo.uuid, createdAt) == mid';
    }
    assert Apply(mid, echo, now) == last;
    CountIsOne(last.items, UserId(seed.requestId), |s.items|);
  }

  /** Seeding and rolling back under a fresh id leaves the items as they were. */
  lemma SeedThenRollback(s: State, text: string, requestId: string, createdAt: int)
    requires Fresh(s.items, UserId(requestId))
    ensures RollbackSpec(SeedSpec(s, text, requestId, createdAt), requestId) == s.(pendingSeed := None)
  {
    var seeded := SeedSpec(s, text, requestId, createdAt);
    assert seeded.items[|s.items|].id == UserId(requestId);
    assert forall j :: 0 <= j < |s.items| ==> seeded.items[j] == s.items[j];
    assert seeded.items[..|s.items|] + seeded.items[|s.items| + 1..] == s.items;
  }

  // ---------------------------------------------------------------------------
  // A tool call and its result
  // ---------------------------------------------------------------------------

  /** The call of tool stands at i, under that name and input. */
  predicate CallAt(s: State, tool: string, i: nat, name: string, input: string) {
    && tool in s.toolIndex && s.toolIndex[tool] == i && i < |s.items|
    && s.items[i].id == ToolId(tool) && s.items[i].kind == ToolCall
    && s.items[i].toolName == name && s.items[i].inputExcerpt == input
  }

  predicate NoCallOf(bs: seq<Block>, tool: string) {
    forall n :: 0 <= n < |bs| && bs[n].ToolUse? ==> bs[n].toolId != tool
  }

  lemma UserTextKeepsCall(s: State, text: string, uuid: string, createdAt: int, tool: string, i: nat, name: string, input: string)
    requires CallAt(s, tool, i, name, input)
    ensures CallAt(UserText(s, text, uuid, createdAt), tool, i, name, input)
  {
    IdsDiffer(uuid, tool);
    if s.pendingSeed.Some? {
      IdsDiffer(s.pendingSeed.value.requestId, tool);
    }
  }

  lemma {:induction false} UserBlocksKeepCall(s: State, bs: seq<Block>, uuid: string, createdAt: int,
                                              tool: string, i: nat, name: string, input: string)
    requires CallAt(s, tool, i, name, input)
    ensures CallAt(UserBlocks(s, bs, uuid, createdAt), tool, i, name, input)
  {
    if bs != [] {
      var b, mid := bs[|bs| - 1], UserBlocks(s, bs[..|bs| - 1], uuid, createdAt);
      UserBlocksKeepCall(s, bs[..|bs| - 1], uuid, createdAt, tool, i, name, input);
      if b.TextBlock? {
        UserTextKeepsCall(mid, b.text, uuid, createdAt, tool, i, name, input);
      }
    }
  }

  lemma {:induction false} AssistantBlocksKeepCall(s: State, bs: seq<Block>, uuid: string, createdAt: int,
                                                   tool: string, i: nat, name: string, input: string)
    requires CallAt(s, tool, i, name, input) && NoCallOf(bs, tool)
    ensures CallAt(AssistantBlocks(s, bs, uuid, createdAt), tool, i, name, input)
  {
    if bs != [] {
      AssistantBlocksKeepCall(s, bs[..|bs| - 1], uuid, createdAt, tool, i, name, input);
      assert bs[|bs| - 1].ToolUse? ==> bs[|bs| - 1].toolId != tool;
    }
  }

  /** Events and seeds that do not call the tool again. */
  predicate NoOtherCall(xs: seq<Input>, tool: string) {
    forall n :: 0 <= n < |xs| ==>
      match xs[n]
      case Event(e, _) => e.content.Blocks? ==> NoCallOf(e.content.blocks, tool)
      case SeedPrompt(_, _, _) => true
      case _ => false
  }

  lemma {:induction false} RunKeepsCall(s: State, xs: seq<Input>, tool: string, i: nat, name: string, input: string)
    requires CallAt(s, tool, i, name, input) && NoOtherCall(xs, tool)
    ensures CallAt(Run(s, xs), tool, i, name, input)
  {
    if xs != [] {
      var front, x := xs[..|xs| - 1], xs[|xs| - 1];
      RunKeepsCall(s, front, tool, i, name, input);
      if x.Event? {
        EventKeepsCall(Run(s, front), x.e, x.now, tool, i, name, input);
      }
    }
  }

  lemma EventKeepsCall(s: State, e: JsonlEvent, now: int, tool: string, i: nat, name: string, input: string)
    requires CallAt(s, tool, i, name, input) && (e.content.Blocks? ==> NoCallOf(e.content.blocks, tool))
    ensures CallAt(Apply(s, e, now), tool, i, name, input)
  {
    var createdAt := CreatedAt(s, e.timestamp, now);
    var s' := s.(lastCreatedAt := createdAt);
    match e.content {
      case Plain(text) => UserTextKeepsCall(s', text, e.uuid, createdAt, tool, i, name, input);
      case Blocks(bs) =>
        UserBlocksKeepCall(s', bs, e.uuid, createdAt, tool, i, name, input);
        AssistantBlocksKeepCall(s', bs, e.uuid, createdAt, tool, i, name, input);
      case Unreadable =>
    }
  }

  /** A result reaches its call: whatever else happened since, the item that was the call
      keeps its name and input and gets the result and the final status, and no other item
      changes. */
  lemma ResultReachesItsCall(s: State, xs: seq<Input>, tool: string, i: nat, name: string, input: string,
                             result: string, isError: bool, createdAt: int)
    requires CallAt(s, tool, i, name, input) && NoOtherCall(xs, tool)
    ensures var mid := Run(s, xs);
            var last := ToolResultSpec(mid, ToolResult(tool, result, isError), createdAt);
            && CallAt(last, tool, i, name, input) && |last.items| == |mid.items|
            && last.items[i].resultExcerpt == result && last.items[i].completedAt == createdAt
            && last.items[i].status == (if isError then Failed else Completed)
            && forall j :: 0 <= j < |mid.items| && j != i ==> last.items[j] == mid.items[j]
  {
    RunKeepsCall(s, xs, tool, i, name, input);
  }
}
