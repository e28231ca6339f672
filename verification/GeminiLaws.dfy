/** What the pending seed does to a rebuilt Gemini timeline. */
module GeminiLaws {
  import opened Text
  import opened GeminiParser

  /** The user message a matched seed takes over, as the seedless rebuild has it. */
  function Claim(item: Item, seed: Seed): Item {
    item.(id := UserId(seed.requestId), requestId := seed.requestId)
  }

  function Echoed(f: Settings, messages: seq<Message>, seed: Seed): bool {
    messages != [] && (Echoed(f, messages[..|messages| - 1], seed) || Echoes(f, messages[|messages| - 1], seed))
  }

  lemma {:induction false} EchoedExactly(f: Settings, messages: seq<Message>, seed: Seed)
    ensures Echoed(f, messages, seed) <==> exists i :: 0 <= i < |messages| && Echoes(f, messages[i], seed)
  {
    if messages != [] {
      var front, last := messages[..|messages| - 1], |messages| - 1;
      EchoedExactly(f, front, seed);
      if Echoed(f, front, seed) {
        var i :| 0 <= i < |front| && Echoes(f, front[i], seed);
        assert Echoes(f, messages[i], seed);
      } else {
        assert forall i :: 0 <= i < last ==> messages[i] == front[i];
      }
    }
  }

  /** The seed is consumed exactly when some user message echoes it. */
  lemma {:induction false} ConsumedExactly(f: Settings, messages: seq<Message>, seed: Seed)
    ensures Fold(f, messages, Some(seed)).consumed <==> Echoed(f, messages, seed)
  {
    if messages != [] {
      ConsumedExactly(f, messages[..|messages| - 1], seed);
    }
  }

  lemma {:induction false} SeedlessFold(f: Settings, messages: seq<Message>)
    ensures !Fold(f, messages, None).consumed
    ensures forall i :: 0 <= i < |Fold(f, messages, None).items| ==> Fold(f, messages, None).items[i].requestId == ""
  {
    if messages != [] {
      var last := |messages| - 1;
      SeedlessFold(f, messages[..last]);
      ReplyIds(f, messages[last], last);
    }
  }

  lemma ReplyIds(f: Settings, msg: Message, i: nat)
    ensures forall k :: 0 <= k < |ReplyItems(f, msg, i)| ==> ReplyItems(f, msg, i)[k].requestId == ""
  {
    ThoughtIds(msg.thoughts, i, Millis(f, msg.timestamp));
    ToolIds(f, msg.toolCalls, i, Millis(f, msg.timestamp));
  }

  lemma {:induction false} ThoughtIds(thoughts: seq<Thought>, i: nat, at: int)
    ensures forall k :: 0 <= k < |ThoughtItems(thoughts, i, at)| ==> ThoughtItems(thoughts, i, at)[k].requestId == ""
  {
    if thoughts != [] {
      ThoughtIds(thoughts[..|thoughts| - 1], i, at);
    }
  }

  lemma {:induction false} ToolIds(f: Settings, calls: seq<ToolCall>, i: nat, at: int)
    ensures forall k :: 0 <= k < |ToolItems(f, calls, i, at)| ==> ToolItems(f, calls, i, at)[k].requestId == ""
  {
    if calls != [] {
      ToolIds(f, calls[..|calls| - 1], i, at);
    }
  }

  /** With and without the seed, the messages give the same items in the same places; a
      consumed seed has put its ids on exactly one of them. */
  ghost predicate SameButOne(with: seq<Item>, without: seq<Item>, seed: Seed, p: int) {
    0 <= p < |without| && with == without[p := Claim(without[p], seed)]
  }

  lemma {:induction false} FoldWithSeed(f: Settings, messages: seq<Message>, seed: Seed) returns (p: int)
    ensures var b, plain := Fold(f, messages, Some(seed)), Fold(f, messages, None).items;
            if b.consumed then SameButOne(b.items, plain, seed, p) else b.items == plain
  {
    hide Echoes, ReplyItems, Millis, Trim;
    p := -1;
    if messages != [] {
      var last := |messages| - 1;
      var b0, plain0 := Fold(f, messages[..last], Some(seed)), Fold(f, messages[..last], None).items;
      SeedlessFold(f, messages[..last]);
      p := FoldWithSeed(f, messages[..last], seed);
      var b, plain := Fold(f, messages, Some(seed)), Fold(f, messages, None).items;
      if b.consumed && !b0.consumed {
        p := |plain0|;
        assert plain[..p] == plain0;
      }
    }
  }

  // ---------------------------------------------------------------------------
  // Exactly one item carries the seed
  // ---------------------------------------------------------------------------

  function Carrying(items: seq<Item>, requestId: string): nat {
    if items == [] then 0
    else Carrying(items[1..], requestId) + if items[0].requestId == requestId then 1 else 0
  }

  lemma {:induction false} CarryingAppend(a: seq<Item>, b: seq<Item>, requestId: string)
    ensures Carrying(a + b, requestId) == Carrying(a, requestId) + Carrying(b, requestId)
  {
    if a == [] {
      assert a + b == b;
    } else {
      assert (a + b)[1..] == a[1..] + b;
      CarryingAppend(a[1..], b, requestId);
    }
  }

  lemma {:induction false} CarryingNone(items: seq<Item>, requestId: string)
    requires forall i :: 0 <= i < |items| ==> items[i].requestId == ""
    ensures Carrying(items, requestId) == if requestId == "" then |items| else 0
  {
    if items != [] {
      CarryingNone(items[1..], requestId);
    }
  }

  /** Every item but the one at p has no request id. */
  lemma CarryingAt(items: seq<Item>, requestId: string, p: nat)
    requires p < |items| && items[p].requestId == requestId
    requires forall i :: 0 <= i < |items| && i != p ==> items[i].requestId == ""
    ensures Carrying(items, requestId) == if requestId == "" then |items| else 1
  {
    var a, b := items[..p], items[p + 1..];
    assert items == a + ([items[p]] + b);
    CarryingNone(a, requestId);
    CarryingNone(b, requestId);
    CarryingAppend(a, [items[p]] + b, requestId);
    assert ([items[p]] + b)[1..] == b;
  }

  lemma {:induction false} InsertAt(items: seq<Item>, item: Item) returns (p: nat)
    ensures p <= |items| && Insert(items, item) == items[..p] + [item] + items[p..]
    ensures forall i :: 0 <= i < p ==> items[i].createdAt <= item.createdAt
    ensures p < |items| ==> items[p].createdAt > item.createdAt
  {
    p := 0;
    if items != [] && items[0].createdAt <= item.createdAt {
      var q := InsertAt(items[1..], item);
      p := q + 1;
      assert items[1..][..q] == items[1..p] && items[1..][q..] == items[p..];
      assert [items[0]] + items[1..p] == items[..p];
      Assoc([items[0]], items[1..p], [item]);
      Assoc([items[0]], items[1..p] + [item], items[p..]);
    }
  }

  /** Main result: while a seed is pending, exactly one item of every rebuild carries its
      request id, whether or not the file has caught up; an empty request id is carried by
      every item, so then only a timeline of one item has that property. */
  lemma SeedShownOnce(f: Settings, messages: seq<Message>, seed: Seed)
    ensures Carrying(Rebuild(f, messages, Some(seed)), seed.requestId) == 1 <==>
            seed.requestId != "" || |Rebuild(f, messages, Some(seed))| == 1
  {
    var b, plain := Fold(f, messages, Some(seed)), Fold(f, messages, None).items;
    var items := Rebuild(f, messages, Some(seed));
    SeedlessFold(f, messages);
    var p := FoldWithSeed(f, messages, seed);
    if !b.consumed {
      p := InsertAt(plain, SeedItem(seed));
    }
    CarryingAt(items, seed.requestId, p);
  }

  // ---------------------------------------------------------------------------
  // Nothing else changes
  // ---------------------------------------------------------------------------

  /** Main result: taking the seed's item out, or giving the echo its plain ids back, is the
      rebuild without a seed. */
  lemma SeedlessOtherwise(f: Settings, messages: seq<Message>, seed: Seed) returns (p: nat)
    ensures var items, plain := Rebuild(f, messages, Some(seed)), Rebuild(f, messages, None);
            && p < |items|
            && if Echoed(f, messages, seed) then p < |plain| && items == plain[p := Claim(plain[p], seed)]
               else items[p] == SeedItem(seed) && items[..p] + items[p + 1..] == plain
  {
    hide Fold, Insert, SeedItem, Echoed;
    SeedlessFold(f, messages);
    ConsumedExactly(f, messages, seed);
    var q := FoldWithSeed(f, messages, seed);
    if Echoed(f, messages, seed) {
      p := q;
    } else {
      p := InsertAt(Fold(f, messages, None).items, SeedItem(seed));
    }
  }

  ghost predicate Sorted(items: seq<Item>) {
    forall i, j :: 0 <= i < j < |items| ==> items[i].createdAt <= items[j].createdAt
  }

  /** The seed neither breaks nor repairs the timestamp order of a timeline. */
  lemma SeedKeepsOrder(f: Settings, messages: seq<Message>, seed: Seed)
    ensures Sorted(Rebuild(f, messages, Some(seed))) <==> Sorted(Rebuild(f, messages, None))
  {
    hide Fold, Insert, SeedItem;
    var items, plain := Rebuild(f, messages, Some(seed)), Rebuild(f, messages, None);
    SeedlessFold(f, messages);
    var p := FoldWithSeed(f, messages, seed);
    if Fold(f, messages, Some(seed)).consumed {
      assert forall i :: 0 <= i < |plain| ==> items[i].createdAt == plain[i].createdAt;
    } else {
      p := InsertAt(plain, SeedItem(seed));
      InsertionSorted(plain, SeedItem(seed), p);
    }
  }

  lemma InsertionSorted(plain: seq<Item>, item: Item, p: nat)
    requires p <= |plain|
    requires forall i :: 0 <= i < p ==> plain[i].createdAt <= item.createdAt
    requires p < |plain| ==> plain[p].createdAt > item.createdAt
    ensures Sorted(plain[..p] + [item] + plain[p..]) <==> Sorted(plain)
  {
    hide Sorted;
    var items := plain[..p] + [item] + plain[p..];
    if Sorted(plain) {
      SortedAfter(plain, items, item, p);
    }
    if Sorted(items) {
      SortedBefore(plain, items, item, p);
    }
  }

  lemma SortedAfter(plain: seq<Item>, items: seq<Item>, item: Item, p: nat)
    requires p <= |plain| && items == plain[..p] + [item] + plain[p..] && Sorted(plain)
    requires forall i :: 0 <= i < p ==> plain[i].createdAt <= item.createdAt
    requires p < |plain| ==> plain[p].createdAt > item.createdAt
    ensures Sorted(items)
  {
    assert items[p] == item;
    assert forall i :: 0 <= i < p ==> items[i] == plain[i];
    assert forall i :: p < i < |items| ==> items[i] == plain[i - 1];
  }

  lemma SortedBefore(plain: seq<Item>, items: seq<Item>, item: Item, p: nat)
    requires p <= |plain| && items == plain[..p] + [item] + plain[p..] && Sorted(items)
    ensures Sorted(plain)
  {
    forall i, j | 0 <= i < j < |plain|
      ensures plain[i].createdAt <= plain[j].createdAt
    {
      var i', j' := if i < p then i else i + 1, if j < p then j else j + 1;
      assert items[i'] == plain[i] && items[j'] == plain[j];
    }
  }

  lemma {:induction false} FirstAt(items: seq<Item>, id: string, p: nat)
    requires p < |items| && items[p].id == id && forall i :: 0 <= i < p ==> items[i].id != id
    ensures WithoutFirst(items, id) == items[..p] + items[p + 1..]
  {
    if p > 0 {
      FirstAt(items[1..], id, p - 1);
      assert items[1..][..p - 1] == items[1..p] && items[1..][p..] == items[p + 1..];
      assert items[..p] == [items[0]] + items[1..p];
      Assoc([items[0]], items[1..p], items[p + 1..]);
    }
  }
}
