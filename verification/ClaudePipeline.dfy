/** host/internal/server/claude_pipeline.go: the callbacks that drive the event parser
    from one bound tail reader, and what they publish. */
module ClaudePipeline {
  import opened Text
  import EP = EventParser
  import TR = TailReader

  datatype Phase = InitialReplay | Live | ResetReplay

  /** What reaches the clients: merged timelines, reset notices and snapshots. */
  datatype Publication = Merge(items: seq<EP.ChatItem>) | ResetNotice | Snapshot

  datatype State = State(parser: EP.State, phase: Phase, published: seq<Publication>)

  const START := State(EP.EMPTY, InitialReplay, [])

  function OnCall(decode: string -> Option<EP.JsonlEvent>, s: State, c: TR.Call, now: int): State {
    match c
    case Line(line) =>
      var p := EP.ParseLine(s.parser, decode(line), now);
      State(p, s.phase, if s.phase == Live then s.published + [Merge(p.items)] else s.published)
    case Reset => State(EP.EMPTY, ResetReplay, s.published)
    case ReadComplete =>
      State(s.parser, Live,
            s.published + (if s.phase == ResetReplay then [ResetNotice] else []) + [Merge(s.parser.items), Snapshot])
  }

  function OnSeed(s: State, text: string, requestId: string, createdAt: int): State {
    var p := EP.SeedSpec(s.parser, text, requestId, createdAt);
    State(p, s.phase, s.published + [Merge(p.items)])
  }

  function OnRollback(s: State, requestId: string): State {
    var p := EP.RollbackSpec(s.parser, requestId);
    State(p, s.phase, s.published + [Merge(p.items)])
  }

  class Pipeline {
    const parser: EP.JsonlEventParser
    var phase: Phase
    var published: seq<Publication>

    ghost function Value(): State
      reads this, parser
    {
      State(parser.Value(), phase, published)
    }

    constructor (decode: string -> Option<EP.JsonlEvent>)
      ensures Value() == START && parser.decode == decode && fresh(parser)
    {
      parser := new EP.JsonlEventParser(decode);
      phase, published := InitialReplay, [];
    }

    method OnLine(line: string, now: int)
      modifies this, parser
      ensures Value() == OnCall(parser.decode, old(Value()), TR.Line(line), now)
    {
      var items := parser.ParseEvent(line, now);
      if phase != Live {
        return;
      }
      published := published + [Merge(items)];
    }

    method OnReset()
      modifies this, parser
      ensures Value() == OnCall(parser.decode, old(Value()), TR.Reset, 0)
    {
      parser.Reset();
      phase := ResetReplay;
    }

    method OnReadComplete()
      modifies this
      ensures Value() == OnCall(parser.decode, old(Value()), TR.ReadComplete, 0)
    {
      var prev := phase;
      phase := Live;
      if prev == ResetReplay {
        published := published + [ResetNotice];
      }
      published := published + [Merge(parser.items)];
      published := published + [Snapshot];
    }

    method SeedPrompt(text: string, requestId: string, createdAt: int)
      modifies this, parser
      ensures Value() == OnSeed(old(Value()), text, requestId, createdAt)
    {
      parser.SeedPromptWithItem(text, requestId, createdAt);
      published := published + [Merge(parser.items)];
    }

    method RollbackPrompt(requestId: string)
      modifies this, parser
      ensures Value() == OnRollback(old(Value()), requestId)
    {
      parser.RollbackSeedItem(requestId);
      published := published + [Merge(parser.items)];
    }
  }
}
