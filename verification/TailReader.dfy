/** host/internal/server/jsonl_tail_reader.go: following a JSONL file by byte offset.
    One call of a reader method is one read cycle; what the operating system answers
    during the cycle is its input. */
module TailReader {
  import opened Text

  /** One open/stat/read of the path.  content is the whole file at the time of the
      read, or None when seeking or reading fails. */
  datatype View =
    | OpenFailed
    | StatFailed
    | Opened(inode: nat, size: nat, content: Option<string>)

  /** The reader's callbacks, in the order it makes them. */
  datatype Call = Line(line: string) | Reset | ReadComplete

  /** bytes.TrimSpace leaving nothing, and json.Valid. */
  datatype Filter = Filter(blank: string -> bool, valid: string -> bool)

  /** The lines of a text that reach OnLine. */
  function Kept(f: Filter, ls: seq<string>): seq<string> {
    if ls == [] then []
    else
      var last := ls[|ls| - 1];
      Kept(f, ls[..|ls| - 1]) + (if !f.blank(last) && f.valid(last) then [last] else [])
  }

  function Deliver(f: Filter, ls: seq<string>): seq<Call> {
    seq(|Kept(f, ls)|, i requires 0 <= i < |Kept(f, ls)| => Line(Kept(f, ls)[i]))
  }

  datatype State = State(offset: nat, buf: string, fileInfo: Option<nat>, calls: seq<Call>)

  const START := State(0, "", None, [])

  function From(content: string, offset: nat): string {
    if offset <= |content| then content[offset..] else ""
  }

  function ReadNewSpec(f: Filter, s: State, content: Option<string>): State {
    match content
    case None => s
    case Some(c) =>
      var data := s.buf + From(c, s.offset);
      State(s.offset + |From(c, s.offset)|, Remainder(data), s.fileInfo, s.calls + Deliver(f, CompleteLines(data)))
  }

  function FromBeginningSpec(f: Filter, s: State, v: View): State {
    var s' := s.(offset := 0, buf := "");
    if v.Opened? then ReadNewSpec(f, s'.(fileInfo := Some(v.inode)), v.content) else s'
  }

  function ResetSpec(f: Filter, s: State, again: View): State {
    var s' := FromBeginningSpec(f, s.(calls := s.calls + [Reset]), again);
    s'.(calls := s'.calls + [ReadComplete])
  }

  predicate Rotated(s: State, v: View)
    requires v.Opened?
  {
    s.fileInfo.Some? && s.fileInfo.value != v.inode
  }

  function PollSpec(f: Filter, s: State, v: View, again: View): State {
    if !v.Opened? then s
    else if Rotated(s, v) || v.size < s.offset then ResetSpec(f, s, again)
    else if v.size == s.offset then s
    else ReadNewSpec(f, s.(fileInfo := Some(v.inode)), v.content)
  }

  function StartSpec(f: Filter, v: View): State {
    var s := FromBeginningSpec(f, START, v);
    s.(calls := s.calls + [ReadComplete])
  }

  class JSONLTailReader {
    const filter: Filter
    var offset: nat
    var fileInfo: Option<nat>
    var buf: string
    var calls: seq<Call>

    ghost function Value(): State
      reads this
    {
      State(offset, buf, fileInfo, calls)
    }

    constructor (filter: Filter)
      ensures Value() == START && this.filter == filter
    {
      this.filter := filter;
      offset, fileInfo, buf, calls := 0, None, "", [];
    }

    /** The first cycle of the poll loop. */
    method InitialRead(v: View)
      requires Value() == START
      modifies this
      ensures Value() == StartSpec(filter, v)
    {
      ReadFromBeginning(v);
      calls := calls + [ReadComplete];
    }

    method ReadFromBeginning(v: View)
      modifies this
      ensures Value() == FromBeginningSpec(filter, old(Value()), v)
    {
      offset := 0;
      buf := "";
      if !v.Opened? {
        return;
      }
      fileInfo := Some(v.inode);
      ReadNewContent(v.content);
    }

    method Poll(v: View, again: View)
      modifies this
      ensures Value() == PollSpec(filter, old(Value()), v, again)
    {
      if !v.Opened? {
        return;
      }
      if fileInfo.Some? && fileInfo.value != v.inode {
        calls := calls + [Reset];
        ReadFromBeginning(again);
        calls := calls + [ReadComplete];
        return;
      }
      if v.size < offset {
        calls := calls + [Reset];
        ReadFromBeginning(again);
        calls := calls + [ReadComplete];
        return;
      }
      if v.size == offset {
        return;
      }
      fileInfo := Some(v.inode);
      ReadNewContent(v.content);
    }

    method ReadNewContent(content: Option<string>)
      modifies this`offset, this`buf, this`calls
      ensures Value() == ReadNewSpec(filter, old(Value()), content)
    {
      if content.None? {
        return;
      }
      var data := From(content.value, offset);
      offset := offset + |data|;
      if |buf| > 0 {
        data := buf + data;
        buf := "";
      } else {
        assert buf + data == data;
      }
      DeliverLines(data);
    }

    method DeliverLines(data: string)
      requires buf == ""
      modifies this`buf, this`calls
      ensures buf == Remainder(data)
      ensures calls == old(calls) + Deliver(filter, CompleteLines(data))
    {
      hide LeftOf, CompleteLines, Remainder, NewlineAt, Deliver;
      var rest := data;
      ghost var done: seq<string> := [];
      LeftAtStart(data);
      NothingDelivered(filter, calls);
      while |rest| > 0
        invariant buf == ""
        invariant LeftOf(rest, done, data)
        invariant calls == old(calls) + Deliver(filter, done)
        decreases |rest|
      {
        var idx := NewlineAt(rest);
        if idx == |rest| {
          LeftAtEnd(rest, done, data);
          buf := rest;
          return;
        }
        var line := rest[..idx];
        LeftAfterLine(rest, done, data);
        DeliverOne(filter, old(calls), done, line);
        rest := rest[idx + 1..];
        done := done + [line];
        if filter.blank(line) {
          continue;
        }
        if !filter.valid(line) {
          continue;
        }
        calls := calls + [Line(line)];
      }
      LeftAtEnd(rest, done, data);
    }
  }

  lemma NothingDelivered(f: Filter, calls: seq<Call>)
    ensures calls + Deliver(f, []) == calls
  {
  }

  lemma DeliverOne(f: Filter, calls: seq<Call>, done: seq<string>, line: string)
    ensures calls + Deliver(f, done + [line]) ==
            calls + Deliver(f, done) + if !f.blank(line) && f.valid(line) then [Line(line)] else []
  {
    assert (done + [line])[..|done|] == done;
  }
}
