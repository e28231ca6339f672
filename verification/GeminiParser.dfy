/** host/internal/server/gemini_event_parser.go: a chat timeline rebuilt from the whole
    session file each time, with the prompt just sent kept in place. */
module GeminiParser {
  import opened Text
  import opened Decimal

  datatype Thought = Thought(subject: string, description: string)
  datatype ToolCall = ToolCall(name: string, input: string, result: string, status: string)
  datatype Message = Message(
    kind: string, content: string, thoughts: seq<Thought>, toolCalls: seq<ToolCall>, timestamp: real)

  datatype Kind = UserMessage | Thinking | ToolUse | AssistantMessage | SystemEvent
  datatype Status = InProgress | Completed | Failed

  /** body is the item's text, markdown, summary or message, as its kind has it. */
  datatype Item = Item(
    id: string, kind: Kind, createdAt: int, status: Status, requestId: string, body: string,
    code: string, startedAt: int, inputExcerpt: string, resultExcerpt: string)

  datatype Seed = Seed(requestId: string, text: string, createdAt: int)

  /** stripANSIForChat and sanitizeToolExcerpt, and the stand-in for a missing timestamp. */
  datatype Settings = Settings(strip: string -> string, excerpt: string -> string, fallbackTime: int)

  function UserId(key: string): string { "gemini-user:" + key }
  function Numbered(prefix: string, i: nat): string { prefix + Itoa(i) }
  function Numbered2(prefix: string, i: nat, j: nat): string { prefix + Itoa(i) + ":" + Itoa(j) }

  function PlainItem(id: string, kind: Kind, createdAt: int, status: Status, body: string, code: string): Item {
    Item(id, kind, createdAt, status, "", body, code, 0, "", "")
  }

  function UserItem(id: string, createdAt: int, requestId: string, text: string): Item {
    PlainItem(id, UserMessage, createdAt, Completed, text, "").(requestId := requestId)
  }

  function SeedItem(seed: Seed): Item {
    UserItem(UserId(seed.requestId), seed.createdAt, seed.requestId, Trim(seed.text))
  }

  /** int64(ts * 1000), truncating towards zero; 0 means missing. */
  function Millis(f: Settings, ts: real): int {
    if ts == 0.0 then f.fallbackTime
    else if ts > 0.0 then (ts * 1000.0).Floor
    else -((-ts * 1000.0).Floor)
  }

  function ThoughtText(t: Thought): string {
    var s, d := Trim(t.subject), Trim(t.description);
    if s == "" then d else if d == "" then s else s + ": " + d
  }

  function ToolStatus(status: string): Status {
    if status == "success" then Completed else if status == "" then InProgress else Failed
  }

  function ToolItem(f: Settings, c: ToolCall, id: string, createdAt: int): Item {
    Item(id, ToolUse, createdAt, ToolStatus(c.status), "", c.name, "", createdAt,
         if c.input != "" then f.excerpt(c.input) else "(none)",
         if c.result != "" then f.excerpt(c.result) else "(pending)")
  }

  function ThoughtItems(thoughts: seq<Thought>, i: nat, createdAt: int): seq<Item> {
    if thoughts == [] then []
    else
      var j := |thoughts| - 1;
      var text := ThoughtText(thoughts[j]);
      ThoughtItems(thoughts[..j], i, createdAt)
      + if text == "" then [] else [PlainItem(Numbered2("gemini-think:", i, j), Thinking, createdAt, Completed, text, "")]
  }

  function ToolItems(f: Settings, calls: seq<ToolCall>, i: nat, createdAt: int): seq<Item> {
    if calls == [] then []
    else
      var j := |calls| - 1;
      ToolItems(f, calls[..j], i, createdAt) + [ToolItem(f, calls[j], Numbered2("gemini-tool:", i, j), createdAt)]
  }

  function TextItems(f: Settings, msg: Message, i: nat, createdAt: int): seq<Item> {
    var content := f.strip(msg.content);
    if content == "" then []
    else [PlainItem(Numbered("gemini-text:", i), AssistantMessage, createdAt, Completed, content, "")]
  }

  /** What a message that is not the user's adds. */
  function ReplyItems(f: Settings, msg: Message, i: nat): seq<Item> {
    var createdAt := Millis(f, msg.timestamp);
    if msg.kind == "gemini" then
      ThoughtItems(msg.thoughts, i, createdAt) + ToolItems(f, msg.toolCalls, i, createdAt) + TextItems(f, msg, i, createdAt)
    else if msg.kind == "info" then
      if msg.content == "" then []
      else [PlainItem(Numbered("gemini-event:", i), SystemEvent, createdAt, Completed, msg.content, "gemini_info")]
    else if msg.kind == "error" then
      [PlainItem(Numbered("gemini-event:", i), SystemEvent, createdAt, Failed,
                 if msg.content == "" then "Error" else msg.content, "gemini_error")]
    else []
  }

  /** The user message is the echo of the seed: same text, not older than five seconds
      before it. */
  predicate Echoes(f: Settings, msg: Message, seed: Seed) {
    && msg.kind == "user" && Trim(msg.content) != ""
    && Trim(seed.text) == Trim(msg.content)
    && Millis(f, msg.timestamp) >= seed.createdAt - 5000
  }

  datatype Build = Build(items: seq<Item>, consumed: bool)

  function AddMessage(f: Settings, b: Build, msg: Message, i: nat, seed: Option<Seed>): Build {
    if msg.kind != "user" then b.(items := b.items + ReplyItems(f, msg, i))
    else if Trim(msg.content) == "" then b
    else if seed.Some? && !b.consumed && Echoes(f, msg, seed.value) then
      var rid := seed.value.requestId;
      Build(b.items + [UserItem(UserId(rid), Millis(f, msg.timestamp), rid, Trim(msg.content))], true)
    else
      b.(items := b.items + [UserItem(UserId(Itoa(i)), Millis(f, msg.timestamp), "", Trim(msg.content))])
  }

  function Fold(f: Settings, messages: seq<Message>, seed: Option<Seed>): Build {
    if messages == [] then Build([], false)
    else
      var i := |messages| - 1;
      AddMessage(f, Fold(f, messages[..i], seed), messages[i], i, seed)
  }

  /** Before the first item that is newer, else at the end. */
  function Insert(items: seq<Item>, item: Item): seq<Item> {
    if items == [] then [item]
    else if items[0].createdAt > item.createdAt then [item] + items
    else [items[0]] + Insert(items[1..], item)
  }

  function Rebuild(f: Settings, messages: seq<Message>, seed: Option<Seed>): seq<Item> {
    var b := Fold(f, messages, seed);
    if seed.Some? && !b.consumed then Insert(b.items, SeedItem(seed.value)) else b.items
  }

  /** The items without the first that has this id. */
  function WithoutFirst(items: seq<Item>, id: string): seq<Item> {
    if items == [] then []
    else if items[0].id == id then items[1..]
    else [items[0]] + WithoutFirst(items[1..], id)
  }

  class GeminiEventParser {
    const settings: Settings
    var items: seq<Item>
    var pendingSeed: Option<Seed>

    constructor (settings: Settings)
      ensures this.settings == settings && items == [] && pendingSeed == None
    {
      this.settings := settings;
      items := [];
      pendingSeed := None;
    }

    method ProcessUserMessage(msg: Message, i: nat, createdAt: int, seed: Option<Seed>, consumed: bool)
      returns (consumed': bool)
      requires msg.kind == "user" && createdAt == Millis(settings, msg.timestamp)
      modifies this`items
      ensures Build(items, consumed') == AddMessage(settings, Build(old(items), consumed), msg, i, seed)
    {
      consumed' := consumed;
      var text := Trim(msg.content);
      if text == "" {
        return;
      }
      var id, requestId := "gemini-user:" + Itoa(i), "";
      if seed.Some? && !consumed && Trim(seed.value.text) == text {
        if createdAt >= seed.value.createdAt - 5000 {
          id := "gemini-user:" + seed.value.requestId;
          requestId := seed.value.requestId;
          consumed' := true;
        }
      }
      items := items + [UserItem(id, createdAt, requestId, text)];
    }

    /** Thoughts, then tool calls, then text. */
    method ProcessGeminiMessage(msg: Message, i: nat, createdAt: int)
      requires msg.kind == "gemini" && createdAt == Millis(settings, msg.timestamp)
      modifies this`items
      ensures items == old(items) + ReplyItems(settings, msg, i)
    {
      hide Millis, ThoughtItems, ToolItems;
      InOrder(items, ThoughtItems(msg.thoughts, i, createdAt), ToolItems(settings, msg.toolCalls, i, createdAt),
              TextItems(settings, msg, i, createdAt));
      AddThoughts(msg.thoughts, i, createdAt);
      AddToolCalls(msg.toolCalls, i, createdAt);
      var content := settings.strip(msg.content);
      if content != "" {
        items := items + [PlainItem(Numbered("gemini-text:", i), AssistantMessage, createdAt, Completed, content, "")];
      }
    }

    method AddThoughts(thoughts: seq<Thought>, i: nat, createdAt: int)
      modifies this`items
      ensures items == old(items) + ThoughtItems(thoughts, i, createdAt)
    {
      hide ThoughtText, Numbered2, PlainItem;
      ghost var before := items;
      for j := 0 to |thoughts|
        invariant items == before + ThoughtItems(thoughts[..j], i, createdAt)
      {
        assert thoughts[..j + 1][..j] == thoughts[..j];
        var text := ThoughtText(thoughts[j]);
        if text != "" {
          items := items + [PlainItem(Numbered2("gemini-think:", i, j), Thinking, createdAt, Completed, text, "")];
        }
      }
      assert thoughts[..|thoughts|] == thoughts;
    }

    method AddToolCalls(calls: seq<ToolCall>, i: nat, createdAt: int)
      modifies this`items
      ensures items == old(items) + ToolItems(settings, calls, i, createdAt)
    {
      hide ToolStatus, Numbered2;
      ghost var before := items;
      for j := 0 to |calls|
        invariant items == before + ToolItems(settings, calls[..j], i, createdAt)
      {
        assert calls[..j + 1][..j] == calls[..j];
        var c := calls[j];
        var input, result := "(none)", "(pending)";
        if c.input != "" {
          input := settings.excerpt(c.input);
        }
        if c.result != "" {
          result := settings.excerpt(c.result);
        }
        items := items + [Item(Numbered2("gemini-tool:", i, j), ToolUse, createdAt, ToolStatus(c.status), "",
                               c.name, "", createdAt, input, result)];
      }
      assert calls[..|calls|] == calls;
    }

    method ProcessInfoMessage(msg: Message, i: nat, createdAt: int)
      requires msg.kind == "info" && createdAt == Millis(settings, msg.timestamp)
      modifies this`items
      ensures items == old(items) + ReplyItems(settings, msg, i)
    {
      if msg.content == "" {
        return;
      }
      items := items + [PlainItem(Numbered("gemini-event:", i), SystemEvent, createdAt, Completed, msg.content, "gemini_info")];
    }

    method ProcessErrorMessage(msg: Message, i: nat, createdAt: int)
      requires msg.kind == "error" && createdAt == Millis(settings, msg.timestamp)
      modifies this`items
      ensures items == old(items) + ReplyItems(settings, msg, i)
    {
      var message := msg.content;
      if message == "" {
        message := "Error";
      }
      items := items + [PlainItem(Numbered("gemini-event:", i), SystemEvent, createdAt, Failed, message, "gemini_error")];
    }

    /** Starts over each time; the pending seed is never cleared here. */
    method RebuildTimeline(messages: seq<Message>) returns (timeline: seq<Item>)
      modifies this`items
      ensures items == timeline == Rebuild(settings, messages, pendingSeed)
    {
      items := [];
      var seed, consumed := pendingSeed, false;
      for i := 0 to |messages|
        invariant Build(items, consumed) == Fold(settings, messages[..i], seed)
      {
        assert messages[..i + 1][..i] == messages[..i];
        var msg := messages[i];
        var createdAt := Millis(settings, msg.timestamp);
        if msg.kind == "user" {
          consumed := ProcessUserMessage(msg, i, createdAt, seed, consumed);
        } else if msg.kind == "gemini" {
          ProcessGeminiMessage(msg, i, createdAt);
        } else if msg.kind == "info" {
          ProcessInfoMessage(msg, i, createdAt);
        } else if msg.kind == "error" {
          ProcessErrorMessage(msg, i, createdAt);
        }
      }
      assert messages[..|messages|] == messages;
      if !consumed && seed.Some? {
        InsertSeed(SeedItem(seed.value));
      }
      timeline := items;
    }

    method InsertSeed(item: Item)
      modifies this`items
      ensures items == Insert(old(items), item)
    {
      ghost var before := items;
      assert before[0..] == before;
      for i := 0 to |items|
        invariant items == before
        invariant Insert(before, item) == before[..i] + Insert(before[i..], item)
      {
        if items[i].createdAt > item.createdAt {
          items := items[..i] + [item] + items[i..];
          return;
        }
        PassOver(before, i, item);
      }
      items := items + [item];
    }

    method SeedPromptWithItem(text: string, requestId: string, createdAt: int)
      modifies this
      ensures pendingSeed == Some(Seed(requestId, text, createdAt))
      ensures items == old(items) + [UserItem(UserId(requestId), createdAt, requestId, text)]
    {
      pendingSeed := Some(Seed(requestId, text, createdAt));
      items := items + [UserItem("gemini-user:" + requestId, createdAt, requestId, text)];
    }

    method RollbackSeedItem(requestId: string)
      modifies this
      ensures pendingSeed == None && items == WithoutFirst(old(items), UserId(requestId))
    {
      pendingSeed := None;
      ghost var before := items;
      assert before[0..] == before;
      var target := "gemini-user:" + requestId;
      for i := 0 to |items|
        invariant items == before && pendingSeed == None
        invariant WithoutFirst(before, target) == before[..i] + WithoutFirst(before[i..], target)
      {
        if items[i].id == target {
          items := items[..i] + items[i + 1..];
          return;
        }
        PassOverId(before, i, target);
      }
    }
  }

  lemma InOrder(before: seq<Item>, a: seq<Item>, b: seq<Item>, c: seq<Item>)
    ensures before + a + b + c == before + (a + b + c)
    ensures before + a + b == before + (a + b + [])
  {
    assert a + b + [] == a + b;
  }

  lemma PassOver(items: seq<Item>, i: nat, item: Item)
    requires i < |items| && items[i].createdAt <= item.createdAt
    ensures items[..i] + Insert(items[i..], item) == items[..i + 1] + Insert(items[i + 1..], item)
  {
    assert items[i..][1..] == items[i + 1..];
    assert items[..i] + [items[i]] == items[..i + 1];
    Assoc(items[..i], [items[i]], Insert(items[i + 1..], item));
  }

  lemma PassOverId(items: seq<Item>, i: nat, id: string)
    requires i < |items| && items[i].id != id
    ensures items[..i] + WithoutFirst(items[i..], id) == items[..i + 1] + WithoutFirst(items[i + 1..], id)
  {
    assert items[i..][1..] == items[i + 1..];
    assert items[..i] + [items[i]] == items[..i + 1];
    Assoc(items[..i], [items[i]], WithoutFirst(items[i + 1..], id));
  }
}
