/** host/internal/server/jsonl_event_parser.go: from JSONL events to a chat timeline. */
module EventParser {
  import opened Text
  import opened Decimal

  datatype Block =
    | TextBlock(text: string)
    | ThinkingBlock(thinking: string)
    | ToolUse(toolId: string, name: string, input: string)
    | ToolResult(toolUseId: string, result: string, isError: bool)
    | UnknownBlock

  datatype Content = Plain(text: string) | Blocks(blocks: seq<Block>) | Unreadable

  datatype Timestamp = Millis(ms: int) | Malformed

  datatype Role = User | Assistant | OtherRole

  /** A decoded line. Excerpts are already sanitised by the decoder. */
  datatype JsonlEvent = JsonlEvent(uuid: string, role: Role, timestamp: Timestamp, content: Content)

  datatype Kind = UserMessage | AssistantMessage | Thinking | ToolCall
  datatype Status = InProgress | Completed | Failed

  datatype ChatItem = ChatItem(
    id: string, kind: Kind, createdAt: int, status: Status, requestId: string,
    text: string, toolName: string, inputExcerpt: string, startedAt: int,
    isError: bool, resultExcerpt: string, completedAt: int)

  datatype Seed = Seed(requestId: string, text: string, createdAt: int)

  datatype State = State(
    items: seq<ChatItem>, toolIndex: map<string, nat>, lastCreatedAt: int, pendingSeed: Option<Seed>)

  const EMPTY := State([], map[], 0, None)

  function UserId(key: string): string { "jsonl-user:" + key }
  function ToolId(key: string): string { "jsonl-tool:" + key }

  lemma IdsDiffer(user: string, tool: string)
    ensures UserId(user) != ToolId(tool)
    ensures forall other :: ToolId(tool) == ToolId(other) ==> tool == other
    ensures forall other :: UserId(user) == UserId(other) ==> user == other
  {
    assert UserId(user)[6] == 'u' && ToolId(tool)[6] == 't';
    assert ToolId(tool)[11..] == tool && UserId(user)[11..] == user;
    assert forall other :: ToolId(other)[11..] == other;
    assert forall other :: UserId(other)[11..] == other;
  }

  lemma BlockIdsDiffer(uuid: string, i: nat, tool: string)
    ensures TextId(uuid, i) != ToolId(tool) && ThinkId(uuid, i) != ToolId(tool)
    ensures forall key :: TextId(uuid, i) != UserId(key) && ThinkId(uuid, i) != UserId(key)
  {
    assert TextId(uuid, i)[8] == 'x' && ThinkId(uuid, i)[7] == 'h' && ToolId(tool)[7] == 'o' && ToolId(tool)[8] == 'o';
    assert TextId(uuid, i)[6] == 't' && ThinkId(uuid, i)[6] == 't';
    assert forall key :: UserId(key)[6] == 'u';
  }

  function TextId(uuid: string, i: nat): string { "jsonl-text:" + (uuid + ":" + Itoa(i)) }
  function ThinkId(uuid: string, i: nat): string { "jsonl-think:" + (uuid + ":" + Itoa(i)) }

  function UserItem(id: string, createdAt: int, requestId: string, text: string): ChatItem {
    ChatItem(id, UserMessage, createdAt, Completed, requestId, text, "", "", 0, false, "", 0)
  }

  function TextItem(id: string, kind: Kind, createdAt: int, text: string): ChatItem {
    ChatItem(id, kind, createdAt, Completed, "", text, "", "", 0, false, "", 0)
  }

  function ToolItem(b: Block, createdAt: int): ChatItem
    requires b.ToolUse?
  {
    ChatItem(ToolId(b.toolId), ToolCall, createdAt, InProgress, "", "", b.name, b.input, createdAt, false, "", 0)
  }

  function ResultStatus(b: Block): Status
    requires b.ToolResult?
  {
    if b.isError then Failed else Completed
  }

  function SyntheticTool(b: Block, createdAt: int): ChatItem
    requires b.ToolResult?
  {
    ChatItem(ToolId(b.toolUseId), ToolCall, createdAt, ResultStatus(b), "", "", "unknown", "", 0,
             b.isError, b.result, createdAt)
  }

  function WithResult(item: ChatItem, b: Block, createdAt: int): ChatItem
    requires b.ToolResult?
  {
    item.(status := ResultStatus(b), isError := b.isError, resultExcerpt := b.result, completedAt := createdAt)
  }

  // ---------------------------------------------------------------------------
  // One event, as a function of the state
  // ---------------------------------------------------------------------------

  /** Index of the first item with this id, or |items|. */
  function Find(items: seq<ChatItem>, id: string): (i: nat)
    ensures i <= |items|
    ensures i < |items| ==> items[i].id == id
    ensures forall j :: 0 <= j < i ==> items[j].id != id
  {
    if items == [] || items[0].id == id then 0 else 1 + Find(items[1..], id)
  }

  function AddOrReplaceSpec(items: seq<ChatItem>, item: ChatItem): seq<ChatItem> {
    var i := Find(items, item.id);
    if i < |items| then items[i := item] else items + [item]
  }

  function CreatedAt(s: State, t: Timestamp, now: int): int {
    match t
    case Millis(ms) => ms
    case Malformed => if s.lastCreatedAt + 1 > now then s.lastCreatedAt + 1 else now
  }

  function UserText(s: State, text: string, uuid: string, createdAt: int): State {
    if s.pendingSeed.Some? && s.pendingSeed.value.text == text then
      var rid := s.pendingSeed.value.requestId;
      s.(items := AddOrReplaceSpec(s.items, UserItem(UserId(rid), createdAt, rid, text)), pendingSeed := None)
    else
      s.(items := AddOrReplaceSpec(s.items, UserItem(UserId(uuid), createdAt, "", text)))
  }

  function ToolResultSpec(s: State, b: Block, createdAt: int): State
    requires b.ToolResult?
  {
    if b.toolUseId in s.toolIndex && s.toolIndex[b.toolUseId] < |s.items| then
      var i := s.toolIndex[b.toolUseId];
      s.(items := s.items[i := WithResult(s.items[i], b, createdAt)])
    else
      s.(items := s.items + [SyntheticTool(b, createdAt)])
  }

  function UserBlock(s: State, b: Block, uuid: string, createdAt: int): State {
    match b
    case TextBlock(text) => UserText(s, text, uuid, createdAt)
    case ToolResult(_, _, _) => ToolResultSpec(s, b, createdAt)
    case _ => s
  }

  function UserBlocks(s: State, bs: seq<Block>, uuid: string, createdAt: int): State {
    if bs == [] then s
    else UserBlock(UserBlocks(s, bs[..|bs| - 1], uuid, createdAt), bs[|bs| - 1], uuid, createdAt)
  }

  function AssistantBlock(s: State, b: Block, i: nat, uuid: string, createdAt: int): State {
    match b
    case TextBlock(text) =>
      s.(items := s.items + [TextItem(TextId(uuid, i), AssistantMessage, createdAt, text)])
    case ThinkingBlock(thinking) =>
      s.(items := s.items + [TextItem(ThinkId(uuid, i), Thinking, createdAt, thinking)])
    case ToolUse(id, _, _) =>
      s.(toolIndex := s.toolIndex[id := |s.items|], items := s.items + [ToolItem(b, createdAt)])
    case _ => s
  }

  function AssistantBlocks(s: State, bs: seq<Block>, uuid: string, createdAt: int): State {
    if bs == [] then s
    else
      AssistantBlock(AssistantBlocks(s, bs[..|bs| - 1], uuid, createdAt), bs[|bs| - 1], |bs| - 1, uuid, createdAt)
  }

  function Apply(s: State, e: JsonlEvent, now: int): State {
    var createdAt := CreatedAt(s, e.timestamp, now);
    var s' := s.(lastCreatedAt := createdAt);
    match e.role
    case User =>
      (match e.content
       case Plain(text) => if text != "" then UserText(s', text, e.uuid, createdAt) else s'
       case Blocks(bs) => UserBlocks(s', bs, e.uuid, createdAt)
       case Unreadable => s')
    case Assistant => if e.content.Blocks? then AssistantBlocks(s', e.content.blocks, e.uuid, createdAt) else s'
    case OtherRole => s'
  }

  /** A line the decoder rejects leaves everything as it was. */
  function ParseLine(s: State, e: Option<JsonlEvent>, now: int): State {
    if e.None? then s else Apply(s, e.value, now)
  }

  function SeedSpec(s: State, text: string, requestId: string, createdAt: int): State {
    s.(pendingSeed := Some(Seed(requestId, text, createdAt)),
       items := s.items + [UserItem(UserId(requestId), createdAt, requestId, text)])
  }

  function RollbackSpec(s: State, requestId: string): State {
    var i := Find(s.items, UserId(requestId));
    var s' := s.(pendingSeed := None);
    if i < |s.items| then s'.(items := s.items[..i] + s.items[i + 1..]) else s'
  }

  // ---------------------------------------------------------------------------
  // The parser object
  // ---------------------------------------------------------------------------

  class JsonlEventParser {
    const decode: string -> Option<JsonlEvent>
    var items: seq<ChatItem>
    var toolIndex: map<string, nat>
    var lastCreatedAt: int
    var pendingSeed: Option<Seed>

    ghost function Value(): State
      reads this
    {
      State(items, toolIndex, lastCreatedAt, pendingSeed)
    }

    constructor (decode: string -> Option<JsonlEvent>)
      ensures Value() == EMPTY && this.decode == decode
    {
      this.decode := decode;
      items, toolIndex, lastCreatedAt, pendingSeed := [], map[], 0, None;
    }

    method ParseEvent(line: string, now: int) returns (timeline: seq<ChatItem>)
      modifies this
      ensures Value() == ParseLine(old(Value()), decode(line), now) && timeline == items
    {
      var event := decode(line);
      if event.None? {
        return items;
      }
      var createdAt := ParseTimestamp(event.value.timestamp, now);
      lastCreatedAt := createdAt;
      match event.value.role {
        case User => ProcessUserEvent(event.value, createdAt);
        case Assistant => ProcessAssistantEvent(event.value, createdAt);
        case OtherRole =>
      }
      timeline := items;
    }

    function ParseTimestamp(t: Timestamp, now: int): (createdAt: int)
      reads this
      ensures createdAt == CreatedAt(Value(), t, now)
    {
      match t
      case Millis(ms) => ms
      case Malformed => if lastCreatedAt + 1 > now then lastCreatedAt + 1 else now
    }

    method ConsumeSeedOrFreshId(text: string, uuid: string) returns (id: string, requestId: string)
      modifies this`pendingSeed
      ensures var s := old(pendingSeed);
              if s.Some? && s.value.text == text
              then pendingSeed == None && requestId == s.value.requestId && id == UserId(requestId)
              else pendingSeed == s && requestId == "" && id == UserId(uuid)
    {
      if pendingSeed.Some? && pendingSeed.value.text == text {
        requestId := pendingSeed.value.requestId;
        id := UserId(requestId);
        pendingSeed := None;
      } else {
        id, requestId := UserId(uuid), "";
      }
    }

    method AddOrReplaceItem(item: ChatItem)
      modifies this`items
      ensures items == AddOrReplaceSpec(old(items), item)
    {
      for i := 0 to |items|
        invariant items == old(items)
        invariant forall j :: 0 <= j < i ==> items[j].id != item.id
      {
        if items[i].id == item.id {
          assert Find(items, item.id) == i;
          items := items[i := item];
          return;
        }
      }
      items := items + [item];
    }

    method ProcessUserEvent(event: JsonlEvent, createdAt: int)
      requires event.role == User
      modifies this
      ensures Value() ==
              match event.content
              case Plain(text) =>
                if text != "" then UserText(old(Value()), text, event.uuid, createdAt) else old(Value())
              case Blocks(bs) => UserBlocks(old(Value()), bs, event.uuid, createdAt)
              case Unreadable => old(Value())
    {
      match event.content {
        case Unreadable =>
        case Plain(text) =>
          if text != "" {
            var id, requestId := ConsumeSeedOrFreshId(text, event.uuid);
            AddOrReplaceItem(UserItem(id, createdAt, requestId, text));
          }
        case Blocks(bs) =>
          for i := 0 to |bs|
            invariant Value() == UserBlocks(old(Value()), bs[..i], event.uuid, createdAt)
          {
            assert bs[..i + 1][..i] == bs[..i];
            match bs[i] {
              case TextBlock(text) =>
                var id, requestId := ConsumeSeedOrFreshId(text, event.uuid);
                AddOrReplaceItem(UserItem(id, createdAt, requestId, text));
              case ToolResult(_, _, _) =>
                ProcessToolResult(bs[i], createdAt);
              case _ =>
            }
          }
          assert bs[..|bs|] == bs;
      }
    }

    method ProcessAssistantEvent(event: JsonlEvent, createdAt: int)
      modifies this
      ensures Value() ==
              if event.content.Blocks?
              then AssistantBlocks(old(Value()), event.content.blocks, event.uuid, createdAt)
              else old(Value())
    {
      if !event.content.Blocks? {
        return;
      }
      var bs := event.content.blocks;
      for i := 0 to |bs|
        invariant Value() == AssistantBlocks(old(Value()), bs[..i], event.uuid, createdAt)
      {
        assert bs[..i + 1][..i] == bs[..i];
        match bs[i] {
          case TextBlock(text) =>
            items := items + [TextItem(TextId(event.uuid, i), AssistantMessage, createdAt, text)];
          case ThinkingBlock(thinking) =>
            items := items + [TextItem(ThinkId(event.uuid, i), Thinking, createdAt, thinking)];
          case ToolUse(id, _, _) =>
            toolIndex := toolIndex[id := |items|];
            items := items + [ToolItem(bs[i], createdAt)];
          case _ =>
        }
      }
      assert bs[..|bs|] == bs;
    }

    method ProcessToolResult(b: Block, createdAt: int)
      requires b.ToolResult?
      modifies this`items
      ensures Value() == ToolResultSpec(old(Value()), b, createdAt)
    {
      if b.toolUseId in toolIndex && toolIndex[b.toolUseId] < |items| {
        var idx := toolIndex[b.toolUseId];
        items := items[idx := WithResult(items[idx], b, createdAt)];
        return;
      }
      items := items + [SyntheticTool(b, createdAt)];
    }

    method SeedPromptWithItem(text: string, requestId: string, createdAt: int)
      modifies this
      ensures Value() == SeedSpec(old(Value()), text, requestId, createdAt)
    {
      pendingSeed := Some(Seed(requestId, text, createdAt));
      items := items + [UserItem(UserId(requestId), createdAt, requestId, text)];
    }

    method RollbackSeedItem(requestId: string)
      modifies this
      ensures Value() == RollbackSpec(old(Value()), requestId)
    {
      pendingSeed := None;
      for i := 0 to |items|
        invariant Value() == old(Value()).(pendingSeed := None)
        invariant forall j :: 0 <= j < i ==> items[j].id != UserId(requestId)
      {
        if items[i].id == UserId(requestId) {
          assert Find(items, UserId(requestId)) == i;
          items := items[..i] + items[i + 1..];
          break;
        }
      }
    }

    method Reset()
      modifies this
      ensures Value() == EMPTY
    {
      items, toolIndex, lastCreatedAt, pendingSeed := [], map[], 0, None;
    }
  }
}
