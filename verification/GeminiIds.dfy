/** The item ids of a rebuilt Gemini timeline are stable and pairwise distinct. */
module GeminiIds {
  import opened Text
  import opened Decimal
  import opened GeminiParser
  import opened GeminiLaws

  /** Where an item comes from: its message, and its place in it for thoughts and tools. */
  datatype Origin =
    | User(i: nat)
    | Think(i: nat, j: nat)
    | Tool(i: nat, j: nat)
    | Reply(i: nat)
    | Notice(i: nat)

  function IdOf(o: Origin): string {
    match o
    case User(i) => UserId(Itoa(i))
    case Think(i, j) => Numbered2("gemini-think:", i, j)
    case Tool(i, j) => Numbered2("gemini-tool:", i, j)
    case Reply(i) => Numbered("gemini-text:", i)
    case Notice(i) => Numbered("gemini-event:", i)
  }

  lemma ItoaInjective(m: nat, n: nat)
    requires Itoa(m) == Itoa(n)
    ensures m == n
  {
    ValueOfItoa(m);
    ValueOfItoa(n);
  }

  lemma PairInjective(i: nat, j: nat, k: nat, l: nat)
    requires Itoa(i) + (":" + Itoa(j)) == Itoa(k) + (":" + Itoa(l))
    ensures i == k && j == l
  {
    DigitRunOf(Itoa(i), ":" + Itoa(j));
    DigitRunOf(Itoa(k), ":" + Itoa(l));
    assert (":" + Itoa(j))[1..] == Itoa(j) && (":" + Itoa(l))[1..] == Itoa(l);
    ItoaInjective(i, k);
    ItoaInjective(j, l);
  }

  lemma NumberedInjective(prefix: string, i: nat, k: nat)
    requires Numbered(prefix, i) == Numbered(prefix, k)
    ensures i == k
  {
    assert Numbered(prefix, i)[|prefix|..] == Itoa(i) && Numbered(prefix, k)[|prefix|..] == Itoa(k);
    ItoaInjective(i, k);
  }

  lemma Numbered2Injective(prefix: string, i: nat, j: nat, k: nat, l: nat)
    requires Numbered2(prefix, i, j) == Numbered2(prefix, k, l)
    ensures i == k && j == l
  {
    assert Numbered2(prefix, i, j)[|prefix|..] == Itoa(i) + (":" + Itoa(j));
    assert Numbered2(prefix, k, l)[|prefix|..] == Itoa(k) + (":" + Itoa(l));
    PairInjective(i, j, k, l);
  }

  /** The prefixes tell the kinds apart at their eighth and ninth byte. */
  lemma KindRead(o: Origin)
    ensures |IdOf(o)| > 8
    ensures IdOf(o)[7] == if o.User? then 'u' else if o.Notice? then 'e' else 't'
    ensures o.Think? ==> IdOf(o)[8] == 'h'
    ensures o.Tool? ==> IdOf(o)[8] == 'o'
    ensures o.Reply? ==> IdOf(o)[8] == 'e'
  {
  }

  /** An id names one origin. */
  lemma IdInjective(o: Origin, p: Origin)
    requires IdOf(o) == IdOf(p)
    ensures o == p
  {
    KindRead(o);
    KindRead(p);
    match o {
      case User(i) =>
        assert UserId(Itoa(i)) == Numbered("gemini-user:", i) && UserId(Itoa(p.i)) == Numbered("gemini-user:", p.i);
        NumberedInjective("gemini-user:", i, p.i);
      case Think(i, j) => Numbered2Injective("gemini-think:", i, j, p.i, p.j);
      case Tool(i, j) => Numbered2Injective("gemini-tool:", i, j, p.i, p.j);
      case Reply(i) => NumberedInjective("gemini-text:", i, p.i);
      case Notice(i) => NumberedInjective("gemini-event:", i, p.i);
    }
  }

  // ---------------------------------------------------------------------------
  // Origins of whole timelines
  // ---------------------------------------------------------------------------

  ghost predicate Originate(items: seq<Item>, os: seq<Origin>) {
    |items| == |os| && forall k :: 0 <= k < |items| ==> items[k].id == IdOf(os[k])
  }

  predicate DistinctOrigins(os: seq<Origin>) {
    forall k, l :: 0 <= k < l < |os| ==> os[k] != os[l]
  }

  predicate Within(os: seq<Origin>, lo: nat, hi: nat) {
    forall k :: 0 <= k < |os| ==> lo <= os[k].i < hi
  }

  predicate Apart(a: seq<Origin>, b: seq<Origin>) {
    forall k, l :: 0 <= k < |a| && 0 <= l < |b| ==> a[k] != b[l]
  }

  lemma Append(x: seq<Item>, a: seq<Origin>, y: seq<Item>, b: seq<Origin>)
    requires Originate(x, a) && Originate(y, b) && DistinctOrigins(a) && DistinctOrigins(b) && Apart(a, b)
    ensures Originate(x + y, a + b) && DistinctOrigins(a + b)
  {
    hide IdOf, DistinctOrigins, Apart;
    AppendDistinct(a, b);
  }

  lemma AppendDistinct(a: seq<Origin>, b: seq<Origin>)
    requires DistinctOrigins(a) && DistinctOrigins(b) && Apart(a, b)
    ensures DistinctOrigins(a + b)
  {
    var os := a + b;
    forall k, l | 0 <= k < l < |os|
      ensures os[k] != os[l]
    {
      if k < |a| {
        if l >= |a| {
          assert a[k] != b[l - |a|];
        }
      } else {
        assert b[k - |a|] != b[l - |a|];
      }
    }
  }

  /** Thought origins of one message, up to its n-th thought. */
  predicate Thoughts(os: seq<Origin>, i: nat, n: nat) {
    forall k :: 0 <= k < |os| ==> os[k].Think? && os[k].i == i && os[k].j < n
  }

  lemma {:induction false} ThoughtOrigins(thoughts: seq<Thought>, i: nat, at: int) returns (os: seq<Origin>)
    ensures Originate(ThoughtItems(thoughts, i, at), os) && DistinctOrigins(os) && Thoughts(os, i, |thoughts|)
  {
    if thoughts == [] {
      os := [];
    } else {
      var j := |thoughts| - 1;
      var a := ThoughtOrigins(thoughts[..j], i, at);
      var text := ThoughtText(thoughts[j]);
      var id := Numbered2("gemini-think:", i, j);
      hide ThoughtText, Numbered2, Originate, DistinctOrigins, Apart;
      var added := if text == "" then [] else [PlainItem(id, Thinking, at, Completed, text, "")];
      var b := if text == "" then [] else [Think(i, j)];
      OneOrigin(added, b, i, j);
      NextThought(a, b, i, j);
      Append(ThoughtItems(thoughts[..j], i, at), a, added, b);
      os := a + b;
    }
  }

  lemma OneOrigin(added: seq<Item>, b: seq<Origin>, i: nat, j: nat)
    requires (added == [] && b == []) || (|added| == 1 && b == [Think(i, j)] && added[0].id == Numbered2("gemini-think:", i, j))
    ensures Originate(added, b) && DistinctOrigins(b)
  {
  }

  lemma ThoughtsWithin(os: seq<Origin>, i: nat, n: nat)
    requires Thoughts(os, i, n)
    ensures Within(os, i, i + 1)
  {
  }

  lemma NextThought(a: seq<Origin>, b: seq<Origin>, i: nat, j: nat)
    requires Thoughts(a, i, j) && (b == [] || b == [Think(i, j)])
    ensures Apart(a, b) && Thoughts(a + b, i, j + 1)
  {
  }

  lemma {:induction false} ToolOrigins(f: Settings, calls: seq<ToolCall>, i: nat, at: int) returns (os: seq<Origin>)
    ensures Originate(ToolItems(f, calls, i, at), os) && DistinctOrigins(os) && Within(os, i, i + 1)
    ensures forall k :: 0 <= k < |os| ==> os[k].Tool? && os[k].j < |calls|
  {
    os := [];
    if calls != [] {
      var j := |calls| - 1;
      os := ToolOrigins(f, calls[..j], i, at);
      os := os + [Tool(i, j)];
    }
  }

  lemma AppendWithin(a: seq<Origin>, b: seq<Origin>, lo: nat, hi: nat)
    requires Within(a, lo, hi) && Within(b, lo, hi)
    ensures Within(a + b, lo, hi)
  {
  }

  lemma LaterApart(a: seq<Origin>, b: seq<Origin>, n: nat)
    requires Within(a, 0, n) && Within(b, n, n + 1)
    ensures Apart(a, b) && Within(a + b, 0, n + 1)
  {
    forall k, l | 0 <= k < |a| && 0 <= l < |b|
      ensures a[k] != b[l]
    {
      assert a[k].i < n <= b[l].i;
    }
  }

  lemma TextOrigins(f: Settings, msg: Message, i: nat, at: int) returns (os: seq<Origin>)
    ensures Originate(TextItems(f, msg, i, at), os) && DistinctOrigins(os) && Within(os, i, i + 1)
    ensures forall k :: 0 <= k < |os| ==> os[k].Reply?
  {
    os := if f.strip(msg.content) == "" then [] else [Reply(i)];
  }

  /** Thoughts, tool calls and text of one message. */
  lemma GeminiOrigins(f: Settings, msg: Message, i: nat, at: int) returns (os: seq<Origin>)
    ensures Originate(ThoughtItems(msg.thoughts, i, at) + ToolItems(f, msg.toolCalls, i, at) + TextItems(f, msg, i, at), os)
    ensures DistinctOrigins(os) && Within(os, i, i + 1) && NoUser(os)
  {
    hide ThoughtItems, ToolItems, TextItems, Originate, DistinctOrigins, Within;
    var a := ThoughtOrigins(msg.thoughts, i, at);
    ThoughtsWithin(a, i, |msg.thoughts|);
    var b := ToolOrigins(f, msg.toolCalls, i, at);
    var c := TextOrigins(f, msg, i, at);
    Append(ThoughtItems(msg.thoughts, i, at), a, ToolItems(f, msg.toolCalls, i, at), b);
    AppendWithin(a, b, i, i + 1);
    os := a + b;
    assert forall k :: 0 <= k < |os| ==> !os[k].Reply?;
    Append(ThoughtItems(msg.thoughts, i, at) + ToolItems(f, msg.toolCalls, i, at), os, TextItems(f, msg, i, at), c);
    AppendWithin(os, c, i, i + 1);
    os := os + c;
  }

  predicate NoUser(os: seq<Origin>) {
    forall k :: 0 <= k < |os| ==> !os[k].User?
  }

  lemma ReplyOrigins(f: Settings, msg: Message, i: nat) returns (os: seq<Origin>)
    ensures Originate(ReplyItems(f, msg, i), os) && DistinctOrigins(os) && Within(os, i, i + 1) && NoUser(os)
  {
    hide Millis, ThoughtItems, ToolItems, TextItems;
    if msg.kind == "gemini" {
      hide Originate, DistinctOrigins, Within;
      os := GeminiOrigins(f, msg, i, Millis(f, msg.timestamp));
    } else if (msg.kind == "info" && msg.content != "") || msg.kind == "error" {
      os := [Notice(i)];
    } else {
      os := [];
    }
  }

  /** The message shows a user's text. */
  predicate Shows(msg: Message) {
    msg.kind == "user" && Trim(msg.content) != ""
  }

  /** The items message i adds when no seed is pending. */
  lemma MessageOrigins(f: Settings, b: Build, msg: Message, i: nat) returns (added: seq<Item>, os: seq<Origin>)
    ensures AddMessage(f, b, msg, i, None).items == b.items + added
    ensures Originate(added, os) && DistinctOrigins(os) && Within(os, i, i + 1)
    ensures if Shows(msg) then os == [User(i)] else NoUser(os)
  {
    hide ReplyItems, Millis, Trim;
    if msg.kind != "user" {
      added := ReplyItems(f, msg, i);
      os := ReplyOrigins(f, msg, i);
    } else if Trim(msg.content) == "" {
      added, os := [], [];
      assert b.items + added == b.items;
    } else {
      added, os := [UserItem(UserId(Itoa(i)), Millis(f, msg.timestamp), "", Trim(msg.content))], [User(i)];
    }
  }

  lemma {:induction false} SeedlessOrigins(f: Settings, messages: seq<Message>) returns (os: seq<Origin>)
    ensures Originate(Fold(f, messages, None).items, os) && DistinctOrigins(os) && Within(os, 0, |messages|)
    ensures forall i: nat :: User(i) in os <==> i < |messages| && Shows(messages[i])
  {
    if messages == [] {
      os := [];
    } else {
      hide Originate, DistinctOrigins, Within, AddMessage;
      var last := |messages| - 1;
      var before := Fold(f, messages[..last], None);
      var a := SeedlessOrigins(f, messages[..last]);
      var added, b := MessageOrigins(f, before, messages[last], last);
      LaterApart(a, b, last);
      Append(before.items, a, added, b);
      os := a + b;
      UsersOf(messages, a, b);
    }
  }

  lemma UsersOf(messages: seq<Message>, a: seq<Origin>, b: seq<Origin>)
    requires messages != []
    requires var last := |messages| - 1;
             && (forall i: nat :: User(i) in a <==> i < last && Shows(messages[i]))
             && (if Shows(messages[last]) then b == [User(last)] else NoUser(b))
    ensures forall i: nat :: User(i) in a + b <==> i < |messages| && Shows(messages[i])
  {
    var last := |messages| - 1;
    forall i: nat
      ensures User(i) in a + b <==> i < |messages| && Shows(messages[i])
    {
      assert User(i) in a + b <==> User(i) in a || User(i) in b;
    }
  }

  ghost predicate DistinctIds(items: seq<Item>) {
    forall k, l :: 0 <= k < l < |items| ==> items[k].id != items[l].id
  }

  /** Main result: without a seed no two items of a rebuild have the same id, whatever the
      messages hold. */
  lemma SeedlessIdsDistinct(f: Settings, messages: seq<Message>)
    ensures DistinctIds(Rebuild(f, messages, None))
  {
    var os := SeedlessOrigins(f, messages);
    var items := Rebuild(f, messages, None);
    forall k, l | 0 <= k < l < |items|
      ensures items[k].id != items[l].id
    {
      if IdOf(os[k]) == IdOf(os[l]) {
        IdInjective(os[k], os[l]);
      }
    }
  }

  // ---------------------------------------------------------------------------
  // A pending seed
  // ---------------------------------------------------------------------------

  /** The item of a user message, in the seedless rebuild. */
  lemma UserPlace(f: Settings, messages: seq<Message>, i: nat) returns (k: nat)
    requires i < |messages| && Shows(messages[i])
    ensures k < |Rebuild(f, messages, None)| && Rebuild(f, messages, None)[k].id == UserId(Itoa(i))
  {
    var os := SeedlessOrigins(f, messages);
    k :| 0 <= k < |os| && os[k] == User(i);
  }

  /** The seedless rebuild uses a user id only for the message with that number. */
  lemma OwnerOf(f: Settings, messages: seq<Message>, requestId: string, k: nat) returns (i: nat)
    requires k < |Rebuild(f, messages, None)| && Rebuild(f, messages, None)[k].id == UserId(requestId)
    ensures i < |messages| && Shows(messages[i]) && Itoa(i) == requestId
  {
    var os := SeedlessOrigins(f, messages);
    KindRead(os[k]);
    assert UserId(requestId)[7] == 'u';
    assert os[k] in os;
    i := os[k].i;
    assert UserId(Itoa(i))[12..] == Itoa(i) && UserId(requestId)[12..] == requestId;
  }

  predicate FirstEcho(f: Settings, messages: seq<Message>, seed: Seed, e: nat) {
    e < |messages| && Echoes(f, messages[e], seed) && forall i :: 0 <= i < e ==> !Echoes(f, messages[i], seed)
  }

  /** A user message is numbered like the request, and is not the one that echoes it. */
  predicate Collides(f: Settings, messages: seq<Message>, seed: Seed, i: nat) {
    i < |messages| && Shows(messages[i]) && Itoa(i) == seed.requestId && !FirstEcho(f, messages, seed, i)
  }

  /** The echo's item is the one that takes over the seed's ids. */
  lemma {:induction false} EchoPlace(f: Settings, messages: seq<Message>, seed: Seed) returns (p: nat, e: nat)
    requires Echoed(f, messages, seed)
    ensures FirstEcho(f, messages, seed, e) && Shows(messages[e])
    ensures var plain := Fold(f, messages, None).items;
            SameButOne(Fold(f, messages, Some(seed)).items, plain, seed, p) && plain[p].id == UserId(Itoa(e))
  {
    hide Echoes, ReplyItems, Millis, Trim;
    var last := |messages| - 1;
    var front := messages[..last];
    var plain0 := Fold(f, front, None).items;
    SeedlessFold(f, front);
    ConsumedExactly(f, front, seed);
    if Echoed(f, front, seed) {
      p, e := EchoPlace(f, front, seed);
      assert messages[e] == front[e] && forall i :: 0 <= i < e ==> messages[i] == front[i];
    } else {
      var unused := FoldWithSeed(f, front, seed);
      NoneBefore(f, messages, seed);
      EchoShows(f, messages[last], seed);
      p, e := |plain0|, last;
      assert Fold(f, messages, None).items[..p] == plain0;
    }
  }

  lemma EchoShows(f: Settings, msg: Message, seed: Seed)
    requires Echoes(f, msg, seed)
    ensures Shows(msg)
  {
  }

  lemma NoneBefore(f: Settings, messages: seq<Message>, seed: Seed)
    requires messages != [] && !Echoed(f, messages[..|messages| - 1], seed)
    ensures forall i :: 0 <= i < |messages| - 1 ==> !Echoes(f, messages[i], seed)
  {
    var front := messages[..|messages| - 1];
    EchoedExactly(f, front, seed);
    assert forall i :: 0 <= i < |front| ==> messages[i] == front[i];
  }

  /** Ids that were distinct, with one more or one replaced. */
  lemma OneMoreId(plain: seq<Item>, items: seq<Item>, item: Item, p: nat)
    requires DistinctIds(plain) && p <= |plain| && items == plain[..p] + [item] + plain[p..]
    ensures DistinctIds(items) <==> forall k :: 0 <= k < |plain| ==> plain[k].id != item.id
  {
    hide DistinctIds;
    if k :| 0 <= k < |plain| && plain[k].id == item.id {
      ClashingId(plain, items, item, p, k);
    } else {
      FreshId(plain, items, item, p);
    }
  }

  lemma ClashingId(plain: seq<Item>, items: seq<Item>, item: Item, p: nat, k: nat)
    requires p <= |plain| && items == plain[..p] + [item] + plain[p..]
    requires k < |plain| && plain[k].id == item.id
    ensures !DistinctIds(items)
  {
    assert items[p] == item;
    if k < p {
      assert items[k] == plain[k];
    } else {
      assert items[k + 1] == plain[k];
    }
  }

  lemma FreshId(plain: seq<Item>, items: seq<Item>, item: Item, p: nat)
    requires DistinctIds(plain) && p <= |plain| && items == plain[..p] + [item] + plain[p..]
    requires forall k :: 0 <= k < |plain| ==> plain[k].id != item.id
    ensures DistinctIds(items)
  {
    forall k, l | 0 <= k < l < |items|
      ensures items[k].id != items[l].id
    {
      FreshPair(plain, items, item, p, k, l);
    }
  }

  lemma FreshPair(plain: seq<Item>, items: seq<Item>, item: Item, p: nat, k: nat, l: nat)
    requires DistinctIds(plain) && p <= |plain| && items == plain[..p] + [item] + plain[p..]
    requires forall n :: 0 <= n < |plain| ==> plain[n].id != item.id
    requires k < l < |items|
    ensures items[k].id != items[l].id
  {
    if l < p {
      assert items[k] == plain[k] && items[l] == plain[l];
    } else if l == p {
      assert items[k] == plain[k] && items[l] == item;
    } else {
      assert items[l] == plain[l - 1];
      if k < p {
        assert items[k] == plain[k];
      } else if k == p {
        assert items[k] == item;
      } else {
        assert items[k] == plain[k - 1];
      }
    }
  }

  lemma OneOtherId(plain: seq<Item>, items: seq<Item>, item: Item, p: nat)
    requires DistinctIds(plain) && p < |plain| && items == plain[p := item]
    ensures DistinctIds(items) <==> forall k :: 0 <= k < |plain| && k != p ==> plain[k].id != item.id
  {
    if exists k :: 0 <= k < |plain| && k != p && plain[k].id == item.id {
      var k :| 0 <= k < |plain| && k != p && plain[k].id == item.id;
      assert items[k].id == items[p].id;
    }
  }

  /** The exact condition: with a pending seed the ids stay distinct if and only if no other
      user message carries the request id as its number. */
  lemma SeededIdsDistinct(f: Settings, messages: seq<Message>, seed: Seed)
    ensures DistinctIds(Rebuild(f, messages, Some(seed))) <==> forall i :: 0 <= i < |messages| ==> !Collides(f, messages, seed, i)
  {
    hide Collides, FirstEcho, Echoed;
    SeedlessIdsDistinct(f, messages);
    ConsumedExactly(f, messages, seed);
    if Echoed(f, messages, seed) {
      EchoedIds(f, messages, seed);
    } else {
      UnechoedIds(f, messages, seed);
    }
  }

  lemma SameOwner(f: Settings, messages: seq<Message>, k: nat, p: nat, i: nat, e: nat)
    requires k < |Rebuild(f, messages, None)| && Rebuild(f, messages, None)[k].id == UserId(Itoa(i))
    requires p < |Rebuild(f, messages, None)| && Rebuild(f, messages, None)[p].id == UserId(Itoa(e))
    ensures k == p <==> i == e
  {
    SeedlessIdsDistinct(f, messages);
    if k == p {
      assert IdOf(User(i)) == IdOf(User(e));
      IdInjective(User(i), User(e));
    }
  }

  lemma OnlyEcho(f: Settings, messages: seq<Message>, seed: Seed, e: nat, i: nat)
    requires FirstEcho(f, messages, seed, e)
    ensures FirstEcho(f, messages, seed, i) <==> i == e
  {
  }

  lemma EchoedIds(f: Settings, messages: seq<Message>, seed: Seed)
    requires Echoed(f, messages, seed) && Fold(f, messages, Some(seed)).consumed
    ensures DistinctIds(Rebuild(f, messages, Some(seed))) <==> forall i :: 0 <= i < |messages| ==> !Collides(f, messages, seed, i)
  {
    hide FirstEcho, Echoed, Fold, DistinctIds, Shows;
    var p, e := EchoPlace(f, messages, seed);
    var items, plain := Rebuild(f, messages, Some(seed)), Rebuild(f, messages, None);
    SeedlessIdsDistinct(f, messages);
    OneOtherId(plain, items, Claim(plain[p], seed), p);
    if i :| 0 <= i < |messages| && Collides(f, messages, seed, i) {
      var k := UserPlace(f, messages, i);
      SameOwner(f, messages, k, p, i, e);
      OnlyEcho(f, messages, seed, e, i);
    }
    if k :| 0 <= k < |plain| && k != p && plain[k].id == UserId(seed.requestId) {
      var i := OwnerOf(f, messages, seed.requestId, k);
      SameOwner(f, messages, k, p, i, e);
      OnlyEcho(f, messages, seed, e, i);
      assert Collides(f, messages, seed, i);
    }
  }

  lemma NoFirstEcho(f: Settings, messages: seq<Message>, seed: Seed, i: nat)
    requires !Echoed(f, messages, seed)
    ensures !FirstEcho(f, messages, seed, i)
  {
    EchoedExactly(f, messages, seed);
  }

  lemma UnechoedIds(f: Settings, messages: seq<Message>, seed: Seed)
    requires !Echoed(f, messages, seed) && !Fold(f, messages, Some(seed)).consumed
    ensures DistinctIds(Rebuild(f, messages, Some(seed))) <==> forall i :: 0 <= i < |messages| ==> !Collides(f, messages, seed, i)
  {
    hide FirstEcho, Echoed, Fold, DistinctIds, Shows;
    var items, plain := Rebuild(f, messages, Some(seed)), Rebuild(f, messages, None);
    var unused := FoldWithSeed(f, messages, seed);
    var p := InsertAt(plain, SeedItem(seed));
    SeedlessIdsDistinct(f, messages);
    OneMoreId(plain, items, SeedItem(seed), p);
    if i :| 0 <= i < |messages| && Collides(f, messages, seed, i) {
      var k := UserPlace(f, messages, i);
    }
    if k :| 0 <= k < |plain| && plain[k].id == UserId(seed.requestId) {
      var i := OwnerOf(f, messages, seed.requestId, k);
      NoFirstEcho(f, messages, seed, i);
      assert Collides(f, messages, seed, i);
    }
  }

  // ---------------------------------------------------------------------------
  // Rolling back
  // ---------------------------------------------------------------------------

  /** The message adds some item to a seedless rebuild. */
  predicate Adds(f: Settings, msg: Message, j: nat) {
    if msg.kind == "user" then Trim(msg.content) != "" else ReplyItems(f, msg, j) != []
  }

  /** No message up to i shows anything newer than the seed, so that the seed's item comes
      behind the item of message i. */
  predicate Precedes(f: Settings, messages: seq<Message>, seed: Seed, i: nat) {
    forall j :: 0 <= j <= i < |messages| && Adds(f, messages[j], j) ==> Millis(f, messages[j].timestamp) <= seed.createdAt
  }

  ghost predicate AtMost(items: seq<Item>, t: int) {
    forall k :: 0 <= k < |items| ==> items[k].createdAt <= t
  }

  ghost predicate AllAt(items: seq<Item>, t: int) {
    forall k :: 0 <= k < |items| ==> items[k].createdAt == t
  }

  lemma {:induction false} ThoughtTimes(thoughts: seq<Thought>, i: nat, at: int)
    ensures AllAt(ThoughtItems(thoughts, i, at), at)
  {
    if thoughts != [] {
      ThoughtTimes(thoughts[..|thoughts| - 1], i, at);
    }
  }

  lemma {:induction false} ToolTimes(f: Settings, calls: seq<ToolCall>, i: nat, at: int)
    ensures AllAt(ToolItems(f, calls, i, at), at)
  {
    if calls != [] {
      ToolTimes(f, calls[..|calls| - 1], i, at);
    }
  }

  lemma ReplyTimes(f: Settings, msg: Message, i: nat)
    ensures AllAt(ReplyItems(f, msg, i), Millis(f, msg.timestamp))
  {
    ThoughtTimes(msg.thoughts, i, Millis(f, msg.timestamp));
    ToolTimes(f, msg.toolCalls, i, Millis(f, msg.timestamp));
  }

  lemma MessageTimes(f: Settings, b: Build, msg: Message, i: nat, t: int)
    ensures AtMost(AddMessage(f, b, msg, i, None).items, t) <==>
            AtMost(b.items, t) && (Adds(f, msg, i) ==> Millis(f, msg.timestamp) <= t)
  {
    hide ReplyItems, Millis, Trim;
    ReplyTimes(f, msg, i);
    var at := Millis(f, msg.timestamp);
    var added := if msg.kind != "user" then ReplyItems(f, msg, i)
                 else if Trim(msg.content) == "" then []
                 else [UserItem(UserId(Itoa(i)), at, "", Trim(msg.content))];
    assert b.items + [] == b.items;
    assert AddMessage(f, b, msg, i, None).items == b.items + added && (Adds(f, msg, i) <==> added != []);
    AtMostAppend(b.items, added, t);
    SameTimes(added, at, t);
  }

  lemma SameTimes(added: seq<Item>, at: int, t: int)
    requires AllAt(added, at)
    ensures AtMost(added, t) <==> (added != [] ==> at <= t)
  {
    if added != [] {
      assert added[0].createdAt == at;
    }
  }

  lemma AtMostAppend(a: seq<Item>, b: seq<Item>, t: int)
    ensures AtMost(a + b, t) <==> AtMost(a, t) && AtMost(b, t)
  {
    assert forall k :: 0 <= k < |a| ==> (a + b)[k] == a[k];
    assert forall k :: 0 <= k < |b| ==> (a + b)[|a| + k] == b[k];
  }

  lemma {:induction false} FoldTimes(f: Settings, messages: seq<Message>, t: int)
    ensures AtMost(Fold(f, messages, None).items, t) <==>
            forall j :: 0 <= j < |messages| && Adds(f, messages[j], j) ==> Millis(f, messages[j].timestamp) <= t
  {
    if messages != [] {
      hide AddMessage, Adds, Millis, AtMost;
      var last := |messages| - 1;
      var front := messages[..last];
      FoldTimes(f, front, t);
      MessageTimes(f, Fold(f, front, None), messages[last], last, t);
      assert forall j :: 0 <= j < last ==> messages[j] == front[j];
    } else {
      assert AtMost([], t);
    }
  }

  lemma {:induction false} FoldPrefix(f: Settings, messages: seq<Message>, n: nat)
    requires n <= |messages|
    ensures Fold(f, messages[..n], None).items <= Fold(f, messages, None).items
  {
    if n == |messages| {
      assert messages[..n] == messages;
    } else {
      var last := |messages| - 1;
      FoldPrefix(f, messages[..last], n);
      assert messages[..last][..n] == messages[..n];
      hide ReplyItems, Millis, Trim;
    }
  }

  /** Where the item of user message i stands. */
  lemma UserItemAt(f: Settings, messages: seq<Message>, i: nat)
    requires i < |messages| && Shows(messages[i])
    ensures var upTo, plain := Fold(f, messages[..i + 1], None).items, Rebuild(f, messages, None);
            0 < |upTo| <= |plain| && upTo == plain[..|upTo|] && plain[|upTo| - 1].id == UserId(Itoa(i))
  {
    FoldPrefix(f, messages, i + 1);
    assert messages[..i + 1][..i] == messages[..i];
    hide Millis, Trim;
  }

  /** The item of message i stands before the place of the seed. */
  lemma BeforeSeed(f: Settings, messages: seq<Message>, seed: Seed, i: nat, p: nat, k: nat)
    requires i < |messages| && Shows(messages[i])
    requires var plain := Rebuild(f, messages, None);
             && p <= |plain| && (forall n :: 0 <= n < p ==> plain[n].createdAt <= seed.createdAt)
             && (p < |plain| ==> plain[p].createdAt > seed.createdAt)
             && k < |plain| && plain[k].id == UserId(Itoa(i))
    ensures k < p <==> Precedes(f, messages, seed, i)
  {
    hide Rebuild, Fold, Adds, Millis, Shows;
    var upTo, plain := Fold(f, messages[..i + 1], None).items, Rebuild(f, messages, None);
    UserItemAt(f, messages, i);
    SameOwner(f, messages, k, |upTo| - 1, i, i);
    FoldTimes(f, messages[..i + 1], seed.createdAt);
    assert forall j :: 0 <= j <= i ==> messages[..i + 1][j] == messages[j];
    assert forall n :: 0 <= n < |upTo| ==> upTo[n] == plain[n];
    if p <= k {
      assert upTo[p].createdAt > seed.createdAt;
    }
  }

  lemma {:induction false} WithoutFirstShrinks(items: seq<Item>, id: string, p: nat)
    requires p < |items| && items[p].id == id
    ensures |WithoutFirst(items, id)| == |items| - 1
  {
    if items[0].id != id {
      WithoutFirstShrinks(items[1..], id, p - 1);
    }
  }

  /** The exact condition: rolling a prompt back restores the seedless timeline if and only
      if the file has not echoed it, and no user message that carries the request id as its
      number stands before the prompt. */
  lemma RollbackRestores(f: Settings, messages: seq<Message>, seed: Seed)
    ensures WithoutFirst(Rebuild(f, messages, Some(seed)), UserId(seed.requestId)) == Rebuild(f, messages, None) <==>
            !Echoed(f, messages, seed) &&
            forall i :: 0 <= i < |messages| && Shows(messages[i]) && Itoa(i) == seed.requestId ==> !Precedes(f, messages, seed, i)
  {
    hide Fold, Echoed, Precedes, Shows;
    ConsumedExactly(f, messages, seed);
    var items, plain := Rebuild(f, messages, Some(seed)), Rebuild(f, messages, None);
    if Echoed(f, messages, seed) {
      var p, e := EchoPlace(f, messages, seed);
      WithoutFirstShrinks(items, UserId(seed.requestId), p);
    } else {
      UnechoedRollback(f, messages, seed);
    }
  }

  lemma UnechoedRollback(f: Settings, messages: seq<Message>, seed: Seed)
    requires !Echoed(f, messages, seed) && !Fold(f, messages, Some(seed)).consumed
    ensures WithoutFirst(Rebuild(f, messages, Some(seed)), UserId(seed.requestId)) == Rebuild(f, messages, None) <==>
            forall i :: 0 <= i < |messages| && Shows(messages[i]) && Itoa(i) == seed.requestId ==> !Precedes(f, messages, seed, i)
  {
    hide Fold, Precedes, Shows, Echoed;
    var id := UserId(seed.requestId);
    var items, plain := Rebuild(f, messages, Some(seed)), Rebuild(f, messages, None);
    var unused := FoldWithSeed(f, messages, seed);
    var p := InsertAt(plain, SeedItem(seed));
    RemovalRestores(f, messages, seed, p);
    if i :| 0 <= i < |messages| && Shows(messages[i]) && Itoa(i) == seed.requestId && Precedes(f, messages, seed, i) {
      var k := UserPlace(f, messages, i);
      BeforeSeed(f, messages, seed, i, p, k);
    }
    if k :| 0 <= k < p && plain[k].id == id {
      var i := OwnerOf(f, messages, seed.requestId, k);
      BeforeSeed(f, messages, seed, i, p, k);
    }
  }

  lemma RemovalRestores(f: Settings, messages: seq<Message>, seed: Seed, p: nat)
    requires var items, plain := Rebuild(f, messages, Some(seed)), Rebuild(f, messages, None);
             p <= |plain| && items == plain[..p] + [SeedItem(seed)] + plain[p..]
    ensures var items, plain := Rebuild(f, messages, Some(seed)), Rebuild(f, messages, None);
            WithoutFirst(items, UserId(seed.requestId)) == plain <==>
            forall k :: 0 <= k < p ==> plain[k].id != UserId(seed.requestId)
  {
    var plain := Rebuild(f, messages, None);
    SeedlessFold(f, messages);
    assert forall k :: 0 <= k < |plain| ==> plain[k].requestId == "";
    hide Rebuild, Fold;
    if k :| 0 <= k < p && plain[k].id == UserId(seed.requestId) {
      var i := OwnerOf(f, messages, seed.requestId, k);
      SeedlessIdsDistinct(f, messages);
      AnotherRemoved(plain, SeedItem(seed), p, k);
    } else {
      SeedRemoved(plain, SeedItem(seed), p);
    }
  }

  /** The first item with the id stands before the inserted one and goes instead of it. */
  lemma AnotherRemoved(plain: seq<Item>, item: Item, p: nat, k: nat)
    requires k < p <= |plain| && plain[k].id == item.id && DistinctIds(plain)
    requires item.requestId != "" && plain[p - 1].requestId == ""
    ensures WithoutFirst(plain[..p] + [item] + plain[p..], item.id) != plain
  {
    var items := plain[..p] + [item] + plain[p..];
    assert items[p] == item && forall l :: 0 <= l < p ==> items[l] == plain[l];
    hide DistinctIds;
    FirstIs(plain, k);
    FirstAt(items, item.id, k);
    var left := items[..k] + items[k + 1..];
    assert left[p - 1] == items[p];
  }

  lemma FirstIs(plain: seq<Item>, k: nat)
    requires k < |plain| && DistinctIds(plain)
    ensures forall l :: 0 <= l < k ==> plain[l].id != plain[k].id
  {
  }

  lemma SeedRemoved(plain: seq<Item>, item: Item, p: nat)
    requires p <= |plain| && forall k :: 0 <= k < p ==> plain[k].id != item.id
    ensures WithoutFirst(plain[..p] + [item] + plain[p..], item.id) == plain
  {
    var items := plain[..p] + [item] + plain[p..];
    assert items[p] == item && forall l :: 0 <= l < p ==> items[l] == plain[l];
    FirstAt(items, item.id, p);
    assert items[..p] == plain[..p] && items[p + 1..] == plain[p..];
  }

  /** A request id that is a message number: the timeline shows two items with one id, and
      rolling the prompt back removes the older message instead. */
  lemma NumberedRequestCollides(f: Settings)
    ensures var hi := Message("user", "hi", [], [], 1.0);
            var seed := Seed("0", "yo", 2000);
            var items := Rebuild(f, [hi], Some(seed));
            && !DistinctIds(items)
            && WithoutFirst(items, UserId("0")) == [SeedItem(seed)] != Rebuild(f, [hi], None)
  {
    var hi, seed := Message("user", "hi", [], [], 1.0), Seed("0", "yo", 2000);
    TrimWord("hi");
    TrimWord("yo");
    assert "hi"[0] != "yo"[0];
    var first := UserItem(UserId("0"), 1000, "", "hi");
    assert [hi][..0] == [] && Itoa(0) == "0" && Millis(f, 1.0) == 1000;
    assert !Echoes(f, hi, seed);
    assert Fold(f, [], Some(seed)) == Build([], false) == Fold(f, [], None) && [] + [first] == [first];
    assert AddMessage(f, Build([], false), hi, 0, None) == Build([first], false);
    assert Fold(f, [hi], Some(seed)) == Build([first], false) == Fold(f, [hi], None);
    hide Fold, Trim;
    assert Insert([first], SeedItem(seed)) == [first] + Insert([], SeedItem(seed));
    var items := Rebuild(f, [hi], Some(seed));
    assert items == [first, SeedItem(seed)] && items[0].id == items[1].id;
  }

  lemma TrimWord(s: string)
    requires s != "" && !IsSpace(s[0]) && !IsSpace(s[|s| - 1])
    ensures Trim(s) == s
  {
  }
}
