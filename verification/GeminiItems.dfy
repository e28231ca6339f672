/** What each message of a Gemini session shows: its items, field by field and in order. */
module GeminiItems {
  import opened Text
  import opened Decimal
  import opened GeminiParser
  import opened GeminiLaws
  import opened GeminiIds

  /** Whole milliseconds towards zero; a missing timestamp is the parser's fixed fallback. */
  predicate Times(f: Settings, ts: real, at: int) {
    if ts == 0.0 then at == f.fallbackTime
    else if ts > 0.0 then at as real <= ts * 1000.0 < at as real + 1.0
    else at as real - 1.0 < ts * 1000.0 <= at as real
  }

  lemma TimesExactly(f: Settings, ts: real)
    ensures Times(f, ts, Millis(f, ts))
  {
  }

  /** Subject and description, trimmed, with a colon between them when there are both. */
  function Said(t: Thought): string {
    if Trim(t.subject) != "" && Trim(t.description) != "" then Trim(t.subject) + ": " + Trim(t.description)
    else Trim(t.subject) + Trim(t.description)
  }

  lemma ThoughtExactly(t: Thought)
    ensures ThoughtText(t) == Said(t)
  {
    hide Trim;
  }

  predicate ThoughtShows(item: Item, t: Thought, i: nat, j: nat, at: int) {
    item == Item("gemini-think:" + Itoa(i) + ":" + Itoa(j), Thinking, at, Completed, "", Said(t), "", 0, "", "")
  }

  /** A call is completed on "success", in progress without a status, and failed otherwise. */
  predicate CallShows(f: Settings, item: Item, c: ToolCall, i: nat, j: nat, at: int) {
    && item.id == "gemini-tool:" + Itoa(i) + ":" + Itoa(j) && item.kind == ToolUse && item.requestId == ""
    && item.body == c.name && item.code == "" && item.createdAt == at && item.startedAt == at
    && (item.status == Completed <==> c.status == "success") && (item.status == InProgress <==> c.status == "")
    && (c.input == "" ==> item.inputExcerpt == "(none)") && (c.input != "" ==> item.inputExcerpt == f.excerpt(c.input))
    && (c.result == "" ==> item.resultExcerpt == "(pending)") && (c.result != "" ==> item.resultExcerpt == f.excerpt(c.result))
  }

  /** The numbers of the thoughts with some text, in order. */
  ghost predicate ShownThoughts(thoughts: seq<Thought>, shown: seq<nat>) {
    && (forall k, l :: 0 <= k < l < |shown| ==> shown[k] < shown[l])
    && (forall j: nat :: j in shown <==> j < |thoughts| && Said(thoughts[j]) != "")
  }

  ghost predicate ThoughtsShow(items: seq<Item>, thoughts: seq<Thought>, shown: seq<nat>, i: nat, at: int) {
    && |items| == |shown|
    && forall k :: 0 <= k < |shown| ==> shown[k] < |thoughts| && ThoughtShows(items[k], thoughts[shown[k]], i, shown[k], at)
  }

  lemma OneThought(t: Thought, i: nat, j: nat, at: int)
    ensures ThoughtText(t) == Said(t)
    ensures ThoughtShows(PlainItem(Numbered2("gemini-think:", i, j), Thinking, at, Completed, ThoughtText(t), ""), t, i, j, at)
  {
    ThoughtExactly(t);
    hide ThoughtText, Said, Itoa;
  }

  lemma MoreThoughtItems(items: seq<Item>, added: seq<Item>, thoughts: seq<Thought>, shown: seq<nat>, i: nat, at: int)
    requires thoughts != [] && ThoughtsShow(items, thoughts[..|thoughts| - 1], shown, i, at)
    requires var last := |thoughts| - 1;
             if Said(thoughts[last]) == "" then added == []
             else |added| == 1 && ThoughtShows(added[0], thoughts[last], i, last, at)
    ensures ThoughtsShow(items + added, thoughts, shown + if Said(thoughts[|thoughts| - 1]) != "" then [|thoughts| - 1] else [], i, at)
  {
    hide ThoughtShows, Said;
    var more := shown + if Said(thoughts[|thoughts| - 1]) != "" then [|thoughts| - 1] else [];
    forall k | 0 <= k < |more|
      ensures more[k] < |thoughts| && ThoughtShows((items + added)[k], thoughts[more[k]], i, more[k], at)
    {
      if k < |shown| {
        assert ThoughtShows(items[k], thoughts[..|thoughts| - 1][shown[k]], i, shown[k], at);
      }
    }
  }

  lemma {:induction false} AllThoughts(thoughts: seq<Thought>, i: nat, at: int) returns (shown: seq<nat>)
    ensures ShownThoughts(thoughts, shown) && ThoughtsShow(ThoughtItems(thoughts, i, at), thoughts, shown, i, at)
  {
    hide ThoughtText, Said, ThoughtShows, PlainItem, Numbered2;
    if thoughts == [] {
      shown := [];
    } else {
      hide ShownThoughts, ThoughtsShow;
      var last := |thoughts| - 1;
      shown := AllThoughts(thoughts[..last], i, at);
      OneThought(thoughts[last], i, last, at);
      MoreThoughts(thoughts, shown);
      var text := ThoughtText(thoughts[last]);
      var added := if text == "" then [] else [PlainItem(Numbered2("gemini-think:", i, last), Thinking, at, Completed, text, "")];
      MoreThoughtItems(ThoughtItems(thoughts[..last], i, at), added, thoughts, shown, i, at);
      shown := shown + if Said(thoughts[last]) != "" then [last] else [];
    }
  }

  lemma MoreThoughts(thoughts: seq<Thought>, shown: seq<nat>)
    requires thoughts != [] && ShownThoughts(thoughts[..|thoughts| - 1], shown)
    ensures ShownThoughts(thoughts, shown + if Said(thoughts[|thoughts| - 1]) != "" then [|thoughts| - 1] else [])
  {
    hide Said;
    var last := |thoughts| - 1;
    var more := shown + if Said(thoughts[last]) != "" then [last] else [];
    assert forall k :: 0 <= k < |shown| ==> shown[k] in shown;
    forall j: nat
      ensures j in more <==> j < |thoughts| && Said(thoughts[j]) != ""
    {
      assert j in more <==> j in shown || (Said(thoughts[last]) != "" && j == last);
    }
  }

  ghost predicate CallsShow(f: Settings, items: seq<Item>, calls: seq<ToolCall>, i: nat, at: int) {
    |items| == |calls| && forall j :: 0 <= j < |calls| ==> CallShows(f, items[j], calls[j], i, j, at)
  }

  lemma OneCall(f: Settings, c: ToolCall, i: nat, j: nat, at: int)
    ensures CallShows(f, ToolItem(f, c, Numbered2("gemini-tool:", i, j), at), c, i, j, at)
  {
    hide Itoa;
  }

  lemma MoreCalls(f: Settings, items: seq<Item>, item: Item, calls: seq<ToolCall>, i: nat, at: int)
    requires calls != [] && CallsShow(f, items, calls[..|calls| - 1], i, at)
    requires CallShows(f, item, calls[|calls| - 1], i, |calls| - 1, at)
    ensures CallsShow(f, items + [item], calls, i, at)
  {
    hide CallShows;
    forall j | 0 <= j < |calls|
      ensures CallShows(f, (items + [item])[j], calls[j], i, j, at)
    {
      if j < |calls| - 1 {
        assert CallShows(f, items[j], calls[..|calls| - 1][j], i, j, at);
      }
    }
  }

  lemma {:induction false} AllCalls(f: Settings, calls: seq<ToolCall>, i: nat, at: int)
    ensures CallsShow(f, ToolItems(f, calls, i, at), calls, i, at)
  {
    hide CallShows, ToolItem, Numbered2;
    if calls != [] {
      hide CallsShow;
      var last := |calls| - 1;
      AllCalls(f, calls[..last], i, at);
      OneCall(f, calls[last], i, last, at);
      MoreCalls(f, ToolItems(f, calls[..last], i, at), ToolItem(f, calls[last], Numbered2("gemini-tool:", i, last), at), calls, i, at);
    }
  }

  /** The user's message, as it shows when no prompt is pending. */
  predicate UserShows(items: seq<Item>, msg: Message, i: nat, at: int) {
    items == if Trim(msg.content) == "" then []
             else [Item("gemini-user:" + Itoa(i), UserMessage, at, Completed, "", Trim(msg.content), "", 0, "", "")]
  }

  /** A reply: its thoughts, then its calls, then its text. */
  ghost predicate ReplyShows(f: Settings, items: seq<Item>, msg: Message, i: nat, at: int) {
    exists shown, calls ::
      && ShownThoughts(msg.thoughts, shown) && |shown| <= calls <= |items|
      && ThoughtsShow(items[..|shown|], msg.thoughts, shown, i, at)
      && CallsShow(f, items[|shown|..calls], msg.toolCalls, i, at)
      && items[calls..] == if f.strip(msg.content) == "" then []
                           else [Item("gemini-text:" + Itoa(i), AssistantMessage, at, Completed, "", f.strip(msg.content), "", 0, "", "")]
  }

  /** A notice: an error always, with "Error" for want of a text; an information with a text. */
  predicate NoticeShows(items: seq<Item>, msg: Message, i: nat, at: int) {
    if msg.kind == "error" then
      items == [Item("gemini-event:" + Itoa(i), SystemEvent, at, Failed, "", if msg.content == "" then "Error" else msg.content,
                     "gemini_error", 0, "", "")]
    else
      items == if msg.content == "" then []
               else [Item("gemini-event:" + Itoa(i), SystemEvent, at, Completed, "", msg.content, "gemini_info", 0, "", "")]
  }

  ghost predicate MessageShows(f: Settings, items: seq<Item>, msg: Message, i: nat, at: int) {
    if msg.kind == "user" then UserShows(items, msg, i, at)
    else if msg.kind == "gemini" then ReplyShows(f, items, msg, i, at)
    else if msg.kind == "info" || msg.kind == "error" then NoticeShows(items, msg, i, at)
    else items == []
  }

  lemma ReplyExactly(f: Settings, msg: Message, i: nat)
    requires msg.kind == "gemini"
    ensures ReplyShows(f, ReplyItems(f, msg, i), msg, i, Millis(f, msg.timestamp))
  {
    hide Millis, ThoughtItems, ToolItems;
    var at := Millis(f, msg.timestamp);
    var shown := AllThoughts(msg.thoughts, i, at);
    AllCalls(f, msg.toolCalls, i, at);
    var a, b, c := ThoughtItems(msg.thoughts, i, at), ToolItems(f, msg.toolCalls, i, at), TextItems(f, msg, i, at);
    var items := ReplyItems(f, msg, i);
    assert items == a + b + c;
    assert items[..|shown|] == a && items[|shown|..|a + b|] == b && items[|a + b|..] == c;
  }

  lemma MessageExactly(f: Settings, b: Build, msg: Message, i: nat) returns (added: seq<Item>)
    ensures AddMessage(f, b, msg, i, None).items == b.items + added
    ensures MessageShows(f, added, msg, i, Millis(f, msg.timestamp))
  {
    hide Millis, Trim, ThoughtItems, ToolItems, ReplyShows;
    if msg.kind == "user" {
      added := if Trim(msg.content) == "" then [] else [UserItem(UserId(Itoa(i)), Millis(f, msg.timestamp), "", Trim(msg.content))];
      assert b.items + [] == b.items;
    } else {
      added := ReplyItems(f, msg, i);
      if msg.kind == "gemini" {
        ReplyExactly(f, msg, i);
      }
    }
  }

  /** Main result, for all messages: without a pending prompt the timeline is what message 0
      shows, then what message 1 shows, and so on; each message shows what its kind and its
      fields say, at its time. */
  lemma RebuildItems(f: Settings, messages: seq<Message>, i: nat) returns (before: seq<Item>, added: seq<Item>)
    requires i < |messages|
    ensures Rebuild(f, [], None) == []
    ensures before == Rebuild(f, messages[..i], None) && before + added == Rebuild(f, messages[..i + 1], None)
    ensures before + added <= Rebuild(f, messages, None)
    ensures exists at :: Times(f, messages[i].timestamp, at) && MessageShows(f, added, messages[i], i, at)
  {
    hide AddMessage, MessageShows, Millis, Times;
    before := Rebuild(f, messages[..i], None);
    TimesExactly(f, messages[i].timestamp);
    assert messages[..i + 1][..i] == messages[..i];
    added := MessageExactly(f, Fold(f, messages[..i], None), messages[i], i);
    FoldPrefix(f, messages, i + 1);
  }

  // ---------------------------------------------------------------------------
  // The pending prompt
  // ---------------------------------------------------------------------------

  /** A user message is the echo of a prompt: the same text, but for white space around it,
      and not more than five seconds older. */
  predicate IsEcho(f: Settings, msg: Message, seed: Seed) {
    && msg.kind == "user" && Trim(msg.content) != "" && Trim(msg.content) == Trim(seed.text)
    && seed.createdAt - Millis(f, msg.timestamp) <= 5_000
  }

  /** With a pending prompt: the first echo carries the request id and the prompt's id, and
      everything else is as without; or, when there is no echo, the prompt itself stands before
      the first newer item. */
  lemma PromptShows(f: Settings, messages: seq<Message>, seed: Seed) returns (p: nat)
    ensures var items, plain := Rebuild(f, messages, Some(seed)), Rebuild(f, messages, None);
            var id := "gemini-user:" + seed.requestId;
            if exists i :: 0 <= i < |messages| && IsEcho(f, messages[i], seed) then
              && p < |plain| && items == plain[p := plain[p].(id := id, requestId := seed.requestId)]
              && exists e :: 0 <= e < |messages| && IsEcho(f, messages[e], seed)
                             && (forall i :: 0 <= i < e ==> !IsEcho(f, messages[i], seed))
                             && plain[p].id == "gemini-user:" + Itoa(e)
            else
              && p <= |plain| && items == plain[..p] +
                   [Item(id, UserMessage, seed.createdAt, Completed, seed.requestId, Trim(seed.text), "", 0, "", "")] + plain[p..]
              && (forall k :: 0 <= k < p ==> plain[k].createdAt <= seed.createdAt)
              && (p < |plain| ==> plain[p].createdAt > seed.createdAt)
  {
    EchoedIs(f, messages, seed);
    ConsumedExactly(f, messages, seed);
    hide Fold, Echoed, IsEcho, Trim;
    if Echoed(f, messages, seed) {
      var e;
      p, e := EchoPlace(f, messages, seed);
      FirstIsEcho(f, messages, seed, e);
    } else {
      var unused := FoldWithSeed(f, messages, seed);
      p := InsertAt(Fold(f, messages, None).items, SeedItem(seed));
    }
  }

  lemma EchoesExactly(f: Settings, msg: Message, seed: Seed)
    ensures Echoes(f, msg, seed) <==> IsEcho(f, msg, seed)
  {
  }

  lemma EchoedIs(f: Settings, messages: seq<Message>, seed: Seed)
    ensures Echoed(f, messages, seed) <==> exists i :: 0 <= i < |messages| && IsEcho(f, messages[i], seed)
  {
    EchoedExactly(f, messages, seed);
    hide Echoed, IsEcho, Echoes;
    forall i | 0 <= i < |messages|
      ensures Echoes(f, messages[i], seed) <==> IsEcho(f, messages[i], seed)
    {
      EchoesExactly(f, messages[i], seed);
    }
  }

  lemma FirstIsEcho(f: Settings, messages: seq<Message>, seed: Seed, e: nat)
    requires FirstEcho(f, messages, seed, e)
    ensures IsEcho(f, messages[e], seed) && forall i :: 0 <= i < e ==> !IsEcho(f, messages[i], seed)
  {
    hide IsEcho, Echoes;
    forall i | 0 <= i <= e
      ensures Echoes(f, messages[i], seed) <==> IsEcho(f, messages[i], seed)
    {
      EchoesExactly(f, messages[i], seed);
    }
  }
}
