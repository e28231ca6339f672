/** What each event of a JSONL file shows: the items it adds, field by field, and that later
    events keep them. */
module TimelineItems {
  import opened Text
  import opened Decimal
  import opened EventParser
  import opened TimelineLaws

  // ---------------------------------------------------------------------------
  // Assistant events
  // ---------------------------------------------------------------------------

  predicate Shown(b: Block) {
    b.TextBlock? || b.ThinkingBlock? || b.ToolUse?
  }

  /** The item of block i: a reply, a thought or a call in progress. */
  predicate Shows(item: ChatItem, b: Block, i: nat, uuid: string, at: int) {
    match b
    case TextBlock(text) =>
      item == ChatItem("jsonl-text:" + (uuid + ":" + Itoa(i)), AssistantMessage, at, Completed, "", text, "", "", 0, false, "", 0)
    case ThinkingBlock(thinking) =>
      item == ChatItem("jsonl-think:" + (uuid + ":" + Itoa(i)), Thinking, at, Completed, "", thinking, "", "", 0, false, "", 0)
    case ToolUse(id, name, input) =>
      item == ChatItem("jsonl-tool:" + id, ToolCall, at, InProgress, "", "", name, input, at, false, "", 0)
    case _ => false
  }

  /** The numbers of the blocks that show, in order. */
  ghost predicate ShownBlocks(bs: seq<Block>, shown: seq<nat>) {
    && (forall k, l :: 0 <= k < l < |shown| ==> shown[k] < shown[l])
    && (forall i: nat :: i in shown <==> i < |bs| && Shown(bs[i]))
  }

  /** The items before, then one for each of these blocks. */
  ghost predicate Adds(before: seq<ChatItem>, after: seq<ChatItem>, bs: seq<Block>, shown: seq<nat>, uuid: string, at: int) {
    && |after| == |before| + |shown| && before <= after
    && (forall k :: 0 <= k < |shown| ==> shown[k] < |bs| && Shows(after[|before| + k], bs[shown[k]], shown[k], uuid, at))
  }

  lemma BlockAdds(s: State, b: Block, i: nat, uuid: string, at: int)
    ensures var s' := AssistantBlock(s, b, i, uuid, at);
            && s'.pendingSeed == s.pendingSeed && s'.lastCreatedAt == s.lastCreatedAt
            && (if Shown(b) then |s'.items| == |s.items| + 1 && s.items <= s'.items && Shows(s'.items[|s.items|], b, i, uuid, at)
                else s'.items == s.items)
  {
  }

  lemma {:induction false} BlocksAdd(s: State, bs: seq<Block>, uuid: string, at: int) returns (shown: seq<nat>)
    ensures var s' := AssistantBlocks(s, bs, uuid, at);
            && ShownBlocks(bs, shown) && Adds(s.items, s'.items, bs, shown, uuid, at)
            && s'.pendingSeed == s.pendingSeed && s'.lastCreatedAt == s.lastCreatedAt
  {
    if bs == [] {
      shown := [];
    } else {
      var last := |bs| - 1;
      var mid := AssistantBlocks(s, bs[..last], uuid, at);
      shown := BlocksAdd(s, bs[..last], uuid, at);
      hide Shows, AssistantBlock;
      BlockAdds(mid, bs[last], last, uuid, at);
      MoreShown(bs, shown);
      MoreAdded(s.items, mid.items, AssistantBlocks(s, bs, uuid, at).items, bs, shown, uuid, at);
      shown := shown + if Shown(bs[last]) then [last] else [];
    }
  }

  lemma MoreShown(bs: seq<Block>, shown: seq<nat>)
    requires bs != [] && ShownBlocks(bs[..|bs| - 1], shown)
    ensures ShownBlocks(bs, shown + if Shown(bs[|bs| - 1]) then [|bs| - 1] else [])
  {
    var last := |bs| - 1;
    var more := shown + if Shown(bs[last]) then [last] else [];
    assert forall k :: 0 <= k < |shown| ==> shown[k] in shown;
    forall i: nat
      ensures i in more <==> i < |bs| && Shown(bs[i])
    {
      assert i in more <==> i in shown || (Shown(bs[last]) && i == last);
    }
  }

  lemma MoreAdded(before: seq<ChatItem>, mid: seq<ChatItem>, after: seq<ChatItem>, bs: seq<Block>, shown: seq<nat>, uuid: string, at: int)
    requires bs != [] && Adds(before, mid, bs[..|bs| - 1], shown, uuid, at)
    requires var last := |bs| - 1;
             if Shown(bs[last]) then |after| == |mid| + 1 && mid <= after && Shows(after[|mid|], bs[last], last, uuid, at)
             else after == mid
    ensures Adds(before, after, bs, shown + if Shown(bs[|bs| - 1]) then [|bs| - 1] else [], uuid, at)
  {
    hide Shows;
    var more := shown + if Shown(bs[|bs| - 1]) then [|bs| - 1] else [];
    forall k | 0 <= k < |more|
      ensures more[k] < |bs| && Shows(after[|before| + k], bs[more[k]], more[k], uuid, at)
    {
      if k < |shown| {
        assert Shows(mid[|before| + k], bs[..|bs| - 1][shown[k]], shown[k], uuid, at);
        assert after[|before| + k] == mid[|before| + k];
      }
    }
  }

  /** The time of an event: its own timestamp, or one past the last event and not before now. */
  predicate Dated(s: State, t: Timestamp, now: int, at: int) {
    match t
    case Millis(ms) => at == ms
    case Malformed => at > s.lastCreatedAt && at >= now && (at == now || at == s.lastCreatedAt + 1)
  }

  lemma EventDated(s: State, t: Timestamp, now: int)
    ensures Dated(s, t, now, CreatedAt(s, t, now))
  {
  }

  /** Main result, for every assistant event and every state: it appends, in block order,
      exactly one item for each text, thinking and tool_use block and none for any other, each
      read off its block. */
  lemma AssistantItems(s: State, e: JsonlEvent, now: int) returns (shown: seq<nat>)
    requires e.role == Assistant
    ensures var s' := Apply(s, e, now);
            var bs := if e.content.Blocks? then e.content.blocks else [];
            && Dated(s, e.timestamp, now, s'.lastCreatedAt) && s'.pendingSeed == s.pendingSeed
            && ShownBlocks(bs, shown) && Adds(s.items, s'.items, bs, shown, e.uuid, s'.lastCreatedAt)
  {
    var at := CreatedAt(s, e.timestamp, now);
    EventDated(s, e.timestamp, now);
    if e.content.Blocks? {
      shown := BlocksAdd(s.(lastCreatedAt := at), e.content.blocks, e.uuid, at);
    } else {
      shown := [];
    }
  }

  /** The last call of a tool in an event can be found by its result: it is indexed, under its
      name and input. */
  lemma {:induction false} CallIndexed(s: State, bs: seq<Block>, uuid: string, at: int, i: nat) returns (p: nat)
    requires i < |bs| && bs[i].ToolUse? && NoCallOf(bs[i + 1..], bs[i].toolId)
    ensures p >= |s.items| && CallAt(AssistantBlocks(s, bs, uuid, at), bs[i].toolId, p, bs[i].name, bs[i].input)
    decreases |bs|
  {
    var last := |bs| - 1;
    var mid := AssistantBlocks(s, bs[..last], uuid, at);
    var shown := BlocksAdd(s, bs[..last], uuid, at);
    if i == last {
      p := |mid.items|;
    } else {
      var b := bs[last];
      var all, later := bs[i + 1..], bs[..last][i + 1..];
      assert later == all[..|later|] && forall n :: 0 <= n < |later| ==> later[n] == all[n];
      p := CallIndexed(s, bs[..last], uuid, at, i);
      assert bs[i + 1..][last - i - 1] == b;
      hide AssistantBlocks;
      BlockKeepsCall(mid, b, last, uuid, at, bs[i].toolId, p, bs[i].name, bs[i].input);
      BlocksSnoc(s, bs, uuid, at);
    }
  }

  lemma BlockKeepsCall(s: State, b: Block, i: nat, uuid: string, at: int, tool: string, p: nat, name: string, input: string)
    requires CallAt(s, tool, p, name, input) && (b.ToolUse? ==> b.toolId != tool)
    ensures CallAt(AssistantBlock(s, b, i, uuid, at), tool, p, name, input)
  {
  }

  lemma BlocksSnoc(s: State, bs: seq<Block>, uuid: string, at: int)
    requires bs != []
    ensures AssistantBlocks(s, bs, uuid, at) ==
            AssistantBlock(AssistantBlocks(s, bs[..|bs| - 1], uuid, at), bs[|bs| - 1], |bs| - 1, uuid, at)
  {
  }

  // ---------------------------------------------------------------------------
  // User events
  // ---------------------------------------------------------------------------

  /** The item takes the place of the first with its id, or the end. */
  ghost predicate Placed(before: seq<ChatItem>, after: seq<ChatItem>, item: ChatItem) {
    if Fresh(before, item.id) then after == before + [item]
    else exists p :: 0 <= p < |before| && before[p].id == item.id && Fresh(before[..p], item.id) && after == before[p := item]
  }

  function UserBubble(id: string, at: int, requestId: string, text: string): ChatItem {
    ChatItem("jsonl-user:" + id, UserMessage, at, Completed, requestId, text, "", "", 0, false, "", 0)
  }

  lemma PlacedExactly(items: seq<ChatItem>, item: ChatItem)
    ensures Placed(items, AddOrReplaceSpec(items, item), item)
  {
    var p := Find(items, item.id);
    if p < |items| {
      assert items[p].id == item.id && Fresh(items[..p], item.id);
    }
  }

  /** A user's text: under the pending request when it is its echo, which is then used up, and
      under the event's own id otherwise. */
  lemma UserTextItem(s: State, text: string, uuid: string, at: int)
    ensures var s' := UserText(s, text, uuid, at);
            && s'.toolIndex == s.toolIndex && s'.lastCreatedAt == s.lastCreatedAt
            && if s.pendingSeed.Some? && s.pendingSeed.value.text == text then
                 var rid := s.pendingSeed.value.requestId;
                 s'.pendingSeed == None && Placed(s.items, s'.items, UserBubble(rid, at, rid, text))
               else s'.pendingSeed == s.pendingSeed && Placed(s.items, s'.items, UserBubble(uuid, at, "", text))
  {
    PlacedExactly(s.items, UserBubble(uuid, at, "", text));
    if s.pendingSeed.Some? {
      var rid := s.pendingSeed.value.requestId;
      PlacedExactly(s.items, UserBubble(rid, at, rid, text));
    }
    hide Placed;
  }

  /** A plain user message shows that one item, at the time of its event; an empty one and one
      that cannot be read show nothing. */
  lemma PlainItem(s: State, e: JsonlEvent, now: int)
    requires e.role == User && !e.content.Blocks?
    ensures var s' := Apply(s, e, now);
            var at := s'.lastCreatedAt;
            && Dated(s, e.timestamp, now, at)
            && if e.content.Unreadable? || e.content.text == "" then s' == s.(lastCreatedAt := at)
               else if s.pendingSeed.Some? && s.pendingSeed.value.text == e.content.text then
                 var rid := s.pendingSeed.value.requestId;
                 s'.pendingSeed == None && Placed(s.items, s'.items, UserBubble(rid, at, rid, e.content.text))
               else s'.pendingSeed == s.pendingSeed && Placed(s.items, s'.items, UserBubble(e.uuid, at, "", e.content.text))
  {
    EventDated(s, e.timestamp, now);
    if e.content.Plain? {
      UserTextItem(s.(lastCreatedAt := CreatedAt(s, e.timestamp, now)), e.content.text, e.uuid, CreatedAt(s, e.timestamp, now));
    }
    hide Placed, UserText;
  }

  /** The events of other roles show nothing. */
  lemma OtherRoles(s: State, e: JsonlEvent, now: int)
    requires e.role == OtherRole
    ensures Apply(s, e, now) == s.(lastCreatedAt := Apply(s, e, now).lastCreatedAt)
    ensures Dated(s, e.timestamp, now, Apply(s, e, now).lastCreatedAt)
  {
    EventDated(s, e.timestamp, now);
  }

  /** A result completes the last item of its call, or shows as a call of its own when the
      call is not known. */
  lemma ResultItem(s: State, b: Block, at: int)
    requires b.ToolResult? && IndexAgrees(s)
    ensures var s' := ToolResultSpec(s, b, at);
            var status := if b.isError then Failed else Completed;
            && s'.toolIndex == s.toolIndex && s'.pendingSeed == s.pendingSeed
            && if b.toolUseId in s.toolIndex then
                 var i := s.toolIndex[b.toolUseId];
                 && i < |s.items| && s.items[i].id == "jsonl-tool:" + b.toolUseId
                 && (forall j :: i < j < |s.items| ==> s.items[j].id != "jsonl-tool:" + b.toolUseId)
                 && s'.items == s.items[i := s.items[i].(status := status, isError := b.isError, resultExcerpt := b.result, completedAt := at)]
               else
                 s'.items == s.items + [ChatItem("jsonl-tool:" + b.toolUseId, ToolCall, at, status, "", "", "unknown", "", 0,
                                                 b.isError, b.result, at)]
  {
    assert b.toolUseId in s.toolIndex ==> PointsAt(s.items, b.toolUseId, s.toolIndex[b.toolUseId]);
  }

  /** The index is not touched by a user event. */
  lemma {:induction false} UserKeepsIndex(s: State, bs: seq<Block>, uuid: string, at: int)
    ensures UserBlocks(s, bs, uuid, at).toolIndex == s.toolIndex
  {
    if bs != [] {
      UserKeepsIndex(s, bs[..|bs| - 1], uuid, at);
    }
  }

  predicate NoResultFor(bs: seq<Block>, tool: string) {
    forall n :: 0 <= n < |bs| && bs[n].ToolResult? ==> bs[n].toolUseId != tool
  }

  /** A result in a user event completes its call, unless a later one in the event does again. */
  lemma {:induction false} EventCompletes(s: State, bs: seq<Block>, uuid: string, at: int, n: nat, p: nat, name: string, input: string)
    requires n < |bs| && bs[n].ToolResult? && NoResultFor(bs[n + 1..], bs[n].toolUseId)
    requires IndexAgrees(s) && CallAt(s, bs[n].toolUseId, p, name, input)
    ensures var s' := UserBlocks(s, bs, uuid, at);
            && CallAt(s', bs[n].toolUseId, p, name, input)
            && s'.items[p].resultExcerpt == bs[n].result && s'.items[p].isError == bs[n].isError
            && s'.items[p].status == (if bs[n].isError then Failed else Completed) && s'.items[p].completedAt == at
    decreases |bs|
  {
    var last := |bs| - 1;
    var front, b := bs[..last], bs[last];
    var mid := UserBlocks(s, front, uuid, at);
    UserBlocksIndex(s, front, uuid, at);
    UserBlocksKeepCall(s, front, uuid, at, bs[n].toolUseId, p, name, input);
    if n < last {
      var all, later := bs[n + 1..], front[n + 1..];
      assert later == all[..|later|] && forall k :: 0 <= k < |later| ==> later[k] == all[k];
      EventCompletes(s, front, uuid, at, n, p, name, input);
      assert all[last - n - 1] == b;
      OtherBlock(mid, b, uuid, at, bs[n].toolUseId, p, name, input);
    } else {
      ResultItem(mid, b, at);
    }
  }

  lemma OtherBlock(s: State, b: Block, uuid: string, at: int, tool: string, p: nat, name: string, input: string)
    requires IndexAgrees(s) && CallAt(s, tool, p, name, input) && (b.ToolResult? ==> b.toolUseId != tool)
    ensures CallAt(UserBlock(s, b, uuid, at), tool, p, name, input) && UserBlock(s, b, uuid, at).items[p] == s.items[p]
  {
    if b.TextBlock? {
      IdsDiffer(uuid, tool);
      if s.pendingSeed.Some? {
        IdsDiffer(s.pendingSeed.value.requestId, tool);
      }
    } else if b.ToolResult? {
      IdsDiffer("", b.toolUseId);
      ResultItem(s, b, at);
    }
  }

  /** A result of a call that was never shown becomes a call of its own, behind the items. */
  lemma {:induction false} EventShowsUnknown(s: State, bs: seq<Block>, uuid: string, at: int, n: nat) returns (p: nat)
    requires n < |bs| && bs[n].ToolResult? && bs[n].toolUseId !in s.toolIndex && IndexAgrees(s)
    ensures |s.items| <= p < |UserBlocks(s, bs, uuid, at).items|
    ensures UserBlocks(s, bs, uuid, at).items[p] ==
            ChatItem("jsonl-tool:" + bs[n].toolUseId, ToolCall, at, if bs[n].isError then Failed else Completed, "", "", "unknown", "", 0,
                     bs[n].isError, bs[n].result, at)
    decreases |bs|
  {
    var last := |bs| - 1;
    var front, b := bs[..last], bs[last];
    var mid := UserBlocks(s, front, uuid, at);
    UserBlocksIndex(s, front, uuid, at);
    UserBlocksKeepIds(s, front, uuid, at);
    UserKeepsIndex(s, front, uuid, at);
    if n < last {
      p := EventShowsUnknown(s, front, uuid, at, n);
      StaysUnknown(mid, b, uuid, at, bs[n].toolUseId, p);
    } else {
      p := |mid.items|;
      ResultItem(mid, b, at);
    }
  }

  lemma StaysUnknown(s: State, b: Block, uuid: string, at: int, tool: string, p: nat)
    requires IndexAgrees(s) && tool !in s.toolIndex && p < |s.items| && s.items[p].id == ToolId(tool)
    ensures p < |UserBlock(s, b, uuid, at).items| && UserBlock(s, b, uuid, at).items[p] == s.items[p]
  {
    IdsDiffer(uuid, tool);
    if s.pendingSeed.Some? {
      IdsDiffer(s.pendingSeed.value.requestId, tool);
    }
    if b.ToolResult? {
      IdsDiffer("", b.toolUseId);
      ResultItem(s, b, at);
    }
  }

  predicate HasText(bs: seq<Block>) {
    exists i :: 0 <= i < |bs| && bs[i].TextBlock?
  }

  /** The text of the last text block. */
  function LastText(bs: seq<Block>): string
    requires HasText(bs)
    decreases |bs|
  {
    if bs[|bs| - 1].TextBlock? then bs[|bs| - 1].text else TextBefore(bs); LastText(bs[..|bs| - 1])
  }

  lemma TextBefore(bs: seq<Block>)
    requires HasText(bs) && !bs[|bs| - 1].TextBlock?
    ensures HasText(bs[..|bs| - 1])
  {
    var i :| 0 <= i < |bs| && bs[i].TextBlock?;
    assert bs[..|bs| - 1][i] == bs[i];
  }

  /** The first item with the event's user id is this one. */
  predicate Bears(items: seq<ChatItem>, item: ChatItem) {
    Find(items, item.id) < |items| && items[Find(items, item.id)] == item
  }

  lemma FindPlaced(items: seq<ChatItem>, item: ChatItem)
    ensures Bears(AddOrReplaceSpec(items, item), item)
  {
    var p, after := Find(items, item.id), AddOrReplaceSpec(items, item);
    assert after[p] == item && forall j :: 0 <= j < p ==> after[j] == items[j];
  }

  lemma ResultBears(s: State, b: Block, at: int, item: ChatItem, key: string)
    requires b.ToolResult? && IndexAgrees(s) && item.id == UserId(key) && Bears(s.items, item)
    ensures Bears(ToolResultSpec(s, b, at).items, item)
  {
    var p, after := Find(s.items, item.id), ToolResultSpec(s, b, at).items;
    IdsDiffer(key, b.toolUseId);
    ResultItem(s, b, at);
    assert after[p] == item && forall j :: 0 <= j < p ==> after[j].id == s.items[j].id;
  }

  /** Of the text blocks of one user event, unless one is the echo of a prompt, the last one
      shows: they share one id, and each takes the place of the one before. */
  lemma {:induction false} UserTextsShow(s: State, bs: seq<Block>, uuid: string, at: int)
    requires IndexAgrees(s) && HasText(bs)
    requires s.pendingSeed.Some? ==> forall i :: 0 <= i < |bs| && bs[i].TextBlock? ==> bs[i].text != s.pendingSeed.value.text
    ensures var s' := UserBlocks(s, bs, uuid, at);
            s'.pendingSeed == s.pendingSeed && Bears(s'.items, UserBubble(uuid, at, "", LastText(bs)))
    decreases |bs|
  {
    var front, b := bs[..|bs| - 1], bs[|bs| - 1];
    var mid := UserBlocks(s, front, uuid, at);
    UserBlocksIndex(s, front, uuid, at);
    SeedStays(s, front, uuid, at);
    if b.TextBlock? {
      FindPlaced(mid.items, UserBubble(uuid, at, "", b.text));
    } else {
      TextBefore(bs);
      UserTextsShow(s, front, uuid, at);
      if b.ToolResult? {
        ResultBears(mid, b, at, UserBubble(uuid, at, "", LastText(bs)), uuid);
      }
    }
  }

  lemma {:induction false} SeedStays(s: State, bs: seq<Block>, uuid: string, at: int)
    requires s.pendingSeed.Some? ==> forall i :: 0 <= i < |bs| && bs[i].TextBlock? ==> bs[i].text != s.pendingSeed.value.text
    ensures UserBlocks(s, bs, uuid, at).pendingSeed == s.pendingSeed
  {
    if bs != [] {
      SeedStays(s, bs[..|bs| - 1], uuid, at);
    }
  }

  /** A user event with two texts shows only the second. */
  lemma FirstTextIsLost(uuid: string, at: int)
    ensures UserBlocks(EMPTY, [TextBlock("a"), TextBlock("b")], uuid, at).items == [UserBubble(uuid, at, "", "b")]
  {
    var a, b := TextBlock("a"), TextBlock("b");
    assert [a, b][..1] == [a] && [a][..0] == [];
    assert UserBlocks(EMPTY, [], uuid, at) == EMPTY;
    assert UserBlocks(EMPTY, [a], uuid, at).items == [] + [UserBubble(uuid, at, "", "a")];
    assert UserBlocks(EMPTY, [a, b], uuid, at) == UserBlock(UserBlocks(EMPTY, [a], uuid, at), b, uuid, at);
  }

  // ---------------------------------------------------------------------------
  // Items stay
  // ---------------------------------------------------------------------------

  /** Nothing under this id is written by a tool result, by the pending prompt or by these
      inputs, and nothing is taken out. */
  ghost predicate Untouched(s: State, xs: seq<Input>, id: string) {
    && (forall tool :: id != ToolId(tool))
    && (s.pendingSeed.Some? ==> UserId(s.pendingSeed.value.requestId) != id)
    && (forall n :: 0 <= n < |xs| ==>
          match xs[n]
          case Event(e, _) => e.role == User ==> UserId(e.uuid) != id
          case SeedPrompt(_, rid, _) => UserId(rid) != id
          case _ => false)
  }

  /** The item at p, and that the pending prompt has another id. */
  predicate Stands(s: State, p: nat, item: ChatItem) {
    p < |s.items| && s.items[p] == item && (s.pendingSeed.Some? ==> UserId(s.pendingSeed.value.requestId) != item.id)
  }

  lemma UserTextStands(s: State, text: string, uuid: string, at: int, p: nat, item: ChatItem)
    requires Stands(s, p, item) && UserId(uuid) != item.id
    ensures Stands(UserText(s, text, uuid, at), p, item)
  {
  }

  lemma {:induction false} UserBlocksStand(s: State, bs: seq<Block>, uuid: string, at: int, p: nat, item: ChatItem)
    requires Stands(s, p, item) && IndexAgrees(s) && UserId(uuid) != item.id && forall tool :: item.id != ToolId(tool)
    ensures Stands(UserBlocks(s, bs, uuid, at), p, item)
  {
    if bs != [] {
      var front, b := bs[..|bs| - 1], bs[|bs| - 1];
      var mid := UserBlocks(s, front, uuid, at);
      UserBlocksStand(s, front, uuid, at, p, item);
      UserBlocksIndex(s, front, uuid, at);
      if b.TextBlock? {
        UserTextStands(mid, b.text, uuid, at, p, item);
      } else if b.ToolResult? {
        ResultItem(mid, b, at);
      }
    }
  }

  lemma EventStands(s: State, e: JsonlEvent, now: int, p: nat, item: ChatItem)
    requires Stands(s, p, item) && IndexAgrees(s) && (e.role == User ==> UserId(e.uuid) != item.id)
    requires forall tool :: item.id != ToolId(tool)
    ensures Stands(Apply(s, e, now), p, item)
  {
    var at := CreatedAt(s, e.timestamp, now);
    var s' := s.(lastCreatedAt := at);
    match e.role {
      case User =>
        match e.content {
          case Plain(text) => UserTextStands(s', text, e.uuid, at, p, item);
          case Blocks(bs) => UserBlocksStand(s', bs, e.uuid, at, p, item);
          case Unreadable =>
        }
      case Assistant =>
        var shown := AssistantItems(s, e, now);
        assert s.items <= Apply(s, e, now).items;
      case OtherRole =>
    }
  }

  /** An item stays as it is, where it is, over every run that does not write its id. */
  lemma {:induction false} ItemStays(s: State, xs: seq<Input>, p: nat)
    requires IndexAgrees(s) && p < |s.items| && Untouched(s, xs, s.items[p].id)
    ensures Stands(Run(s, xs), p, s.items[p]) && IndexAgrees(Run(s, xs))
  {
    if xs != [] {
      var front, x := xs[..|xs| - 1], xs[|xs| - 1];
      assert forall n :: 0 <= n < |front| ==> front[n] == xs[n];
      ItemStays(s, front, p);
      match x {
        case Event(e, now) =>
          EventStands(Run(s, front), e, now, p, s.items[p]);
          EventIndex(Run(s, front), e, now);
        case SeedPrompt(text, rid, at) => SeedIndex(Run(s, front), text, rid, at);
      }
    }
  }

  predicate OnlyEventsAndSeeds(xs: seq<Input>) {
    forall n :: 0 <= n < |xs| ==> xs[n].Event? || xs[n].SeedPrompt?
  }

  /** So what an assistant said or thought stays, whatever events and prompts follow. */
  lemma RepliesStay(s: State, xs: seq<Input>, p: nat, b: Block, i: nat, uuid: string, at: int)
    requires IndexAgrees(s) && p < |s.items| && (b.TextBlock? || b.ThinkingBlock?) && Shows(s.items[p], b, i, uuid, at)
    requires OnlyEventsAndSeeds(xs)
    ensures p < |Run(s, xs).items| && Run(s, xs).items[p] == s.items[p]
  {
    var id := s.items[p].id;
    forall tool
      ensures id != ToolId(tool)
    {
      BlockIdsDiffer(uuid, i, tool);
    }
    BlockIdsDiffer(uuid, i, "");
    assert forall key :: UserId(key) != id;
    ItemStays(s, xs, p);
  }
}
