/** host/internal/server/session_output_gate.go: output is held back until the session is
    ready, then drained and passed through.  The class has one method per critical section;
    the state machine below interleaves them with the forwarding done without the lock. */
module OutputGate {
  import opened Text

  datatype Item = Item(sessionId: string, chunk: string)

  datatype Gate = Gate(active: bool, draining: bool, dropped: bool, buffered: seq<Item>)

  const NEW_GATE := Gate(false, false, false, [])

  datatype Decision = Discard | Keep | Forward

  function Decide(g: Gate): Decision {
    if g.dropped then Discard else if g.draining || !g.active then Keep else Forward
  }

  function Received(g: Gate, item: Item): Gate {
    if Decide(g).Keep? then g.(buffered := g.buffered + [item]) else g
  }

  /** One turn of the drain loop with the lock held: the next batch, unless it is over. */
  function Take(g: Gate): (Gate, Option<seq<Item>>) {
    if g.dropped then (g.(draining := false, buffered := []), None)
    else (g.(buffered := []), Some(g.buffered))
  }

  function StartDrain(g: Gate): (Gate, Option<seq<Item>>) {
    if g.dropped || g.active then (g, None) else Take(g.(draining := true))
  }

  function ContinueDrain(g: Gate): (Gate, Option<seq<Item>>) {
    if g.buffered == [] then (g.(draining := false, active := true), None) else Take(g)
  }

  function Dropped(g: Gate): Gate {
    g.(dropped := true, buffered := [])
  }

  class SessionOutputGate {
    var active: bool
    var draining: bool
    var dropped: bool
    var buffered: seq<Item>

    ghost function Value(): Gate
      reads this
    {
      Gate(active, draining, dropped, buffered)
    }

    constructor ()
      ensures Value() == NEW_GATE
    {
      active, draining, dropped, buffered := false, false, false, [];
    }

    method CallbackEnter(item: Item) returns (forward: bool)
      modifies this`buffered
      ensures Value() == Received(old(Value()), item)
      ensures forward == Decide(old(Value())).Forward?
    {
      if dropped {
        return false;
      }
      if draining || !active {
        buffered := buffered + [item];
        return false;
      }
      forward := true;
    }

    method NextBatch() returns (batch: Option<seq<Item>>)
      modifies this`draining, this`buffered
      ensures (Value(), batch) == Take(old(Value()))
    {
      if dropped {
        draining := false;
        buffered := [];
        return None;
      }
      batch := Some(buffered);
      buffered := [];
    }

    method ActivateEnter() returns (batch: Option<seq<Item>>)
      modifies this`draining, this`buffered
      ensures (Value(), batch) == StartDrain(old(Value()))
    {
      if dropped || active {
        return None;
      }
      draining := true;
      batch := NextBatch();
    }

    method ActivateAgain() returns (batch: Option<seq<Item>>)
      modifies this`active, this`draining, this`buffered
      ensures (Value(), batch) == ContinueDrain(old(Value()))
    {
      if |buffered| == 0 {
        draining := false;
        active := true;
        return None;
      }
      batch := NextBatch();
    }

    method Drop()
      modifies this`dropped, this`buffered
      ensures Value() == Dropped(old(Value()))
    {
      dropped := true;
      buffered := [];
    }
  }

  // ---------------------------------------------------------------------------
  // Interleavings
  // ---------------------------------------------------------------------------

  /** The gate; the chunk the producer took past the gate but has not forwarded; for each
      Activate that is draining, what is left of its batch, in the order in which the
      batches were taken; all chunks that arrived and all that were forwarded, in order. */
  datatype World = World(
    gate: Gate, inHand: Option<Item>, drains: seq<seq<Item>>, received: seq<Item>, forwarded: seq<Item>)

  const NEW_WORLD := World(NEW_GATE, None, [], [], [])

  datatype Event =
    | Arrives(item: Item)
    | ProducerForwards
    | ActivateCalled
    | DrainForwards(i: nat)
    | DrainRelocks(i: nat)
    | DropCalled

  predicate Legal(w: World, e: Event) {
    match e
    case Arrives(_) => w.inHand.None?
    case ProducerForwards => w.inHand.Some?
    case ActivateCalled => true
    case DrainForwards(i) => i < |w.drains| && w.drains[i] != []
    case DrainRelocks(i) => i < |w.drains| && w.drains[i] == []
    case DropCalled => true
  }

  function Next(w: World, e: Event): World
    requires Legal(w, e)
  {
    match e
    case Arrives(item) =>
      if item.chunk == "" then w
      else
        w.(gate := Received(w.gate, item), received := w.received + [item],
           inHand := if Decide(w.gate).Forward? then Some(item) else None)
    case ProducerForwards => w.(inHand := None, forwarded := w.forwarded + [w.inHand.value])
    case ActivateCalled =>
      var (g, batch) := StartDrain(w.gate);
      w.(gate := g, drains := if batch.Some? then w.drains + [batch.value] else w.drains)
    case DrainForwards(i) =>
      w.(drains := w.drains[i := w.drains[i][1..]], forwarded := w.forwarded + [w.drains[i][0]])
    case DrainRelocks(i) =>
      var (g, batch) := ContinueDrain(w.gate);
      w.(gate := g,
         drains := w.drains[..i] + w.drains[i + 1..] + (if batch.Some? then [batch.value] else []))
    case DropCalled => w.(gate := Dropped(w.gate))
  }

  predicate LegalRun(w: World, es: seq<Event>)
    decreases |es|
  {
    es == [] || (Legal(w, es[0]) && LegalRun(Next(w, es[0]), es[1..]))
  }

  function Run(w: World, es: seq<Event>): World
    requires LegalRun(w, es)
    decreases |es|
  {
    if es == [] then w else Run(Next(w, es[0]), es[1..])
  }

  // ---------------------------------------------------------------------------
  // Any number of Activates
  // ---------------------------------------------------------------------------

  function Flatten(drains: seq<seq<Item>>): seq<Item> {
    if drains == [] then [] else drains[0] + Flatten(drains[1..])
  }

  function InHand(w: World): seq<Item> {
    if w.inHand.Some? then [w.inHand.value] else []
  }

  /** Everything on its way: forwarded, in batches, buffered, in hand. */
  function Passing(w: World): seq<Item> {
    w.forwarded + Flatten(w.drains) + w.gate.buffered + InHand(w)
  }

  predicate Shape(w: World) {
    && (w.gate.active ==> !w.gate.draining)
    && (!w.gate.active ==> (w.gate.draining <==> w.drains != []))
    && (w.inHand.Some? ==> w.gate.active)
    && (w.gate.active || w.gate.dropped ==> w.gate.buffered == [])
  }

  /** Before a drop nothing is lost, duplicated or reordered; after one, what was forwarded
      or is still in flight is a prefix of what arrived. */
  predicate Ordered(w: World) {
    if w.gate.dropped then Passing(w) <= w.received else Passing(w) == w.received
  }

  predicate Inv(w: World) {
    Shape(w) && Ordered(w)
  }

  /** The step forwards a chunk ahead of a different one: a later batch overtakes an
      earlier one, or the producer overtakes a batch. */
  predicate Overtakes(w: World, e: Event)
    requires Legal(w, e)
  {
    match e
    case DrainForwards(i) => exists x :: x in Flatten(w.drains[..i]) && x != w.drains[i][0]
    case ProducerForwards => exists x :: x in Flatten(w.drains) && x != w.inHand.value
    case _ => false
  }

  lemma {:induction false} FlattenSplit(drains: seq<seq<Item>>, i: nat)
    requires i < |drains|
    ensures Flatten(drains) == Flatten(drains[..i]) + (drains[i] + Flatten(drains[i + 1..]))
  {
    if i > 0 {
      FlattenSplit(drains[1..], i - 1);
      assert drains[1..][..i - 1] == drains[..i][1..] && drains[1..][i..] == drains[i + 1..];
      Assoc(drains[0], Flatten(drains[..i][1..]), drains[i] + Flatten(drains[i + 1..]));
    }
  }

  lemma {:induction false} FlattenAppend(a: seq<seq<Item>>, b: seq<seq<Item>>)
    ensures Flatten(a + b) == Flatten(a) + Flatten(b)
  {
    if a == [] {
      assert a + b == b;
    } else {
      assert (a + b)[1..] == a[1..] + b;
      FlattenAppend(a[1..], b);
    }
  }

  /** A chunk changes places with a list of chunks unnoticed only if they are all the same. */
  lemma {:induction false} Commutes(x: Item, rest: seq<Item>)
    ensures [x] + rest == rest + [x] <==> forall y :: y in rest ==> y == x
  {
    if rest != [] {
      var a, b := [x] + rest, rest + [x];
      Commutes(x, rest[1..]);
      assert rest == [rest[0]] + rest[1..];
      assert a[0] == x && b[0] == rest[0] && a[1..] == rest && b[1..] == rest[1..] + [x];
      if rest[0] == x {
        assert a == [x] + rest && b == [x] + (rest[1..] + [x]);
        assert a == b <==> rest == rest[1..] + [x];
        assert forall y :: y in rest <==> y == x || y in rest[1..];
      } else {
        assert a != b && rest[0] in rest;
      }
    }
  }

  lemma StepShape(w: World, e: Event)
    requires Shape(w) && Legal(w, e)
    ensures Shape(Next(w, e))
  {
  }

  lemma SameLength(a: seq<Item>, b: seq<Item>, whole: seq<Item>)
    requires |a| == |b| && a <= whole
    ensures b <= whole <==> a == b
  {
  }

  lemma Regroup(a: seq<Item>, b: seq<Item>, x: Item, c: seq<Item>)
    ensures a + (b + ([x] + c)) == a + ((b + [x]) + c)
    ensures a + [x] + (b + c) == a + (([x] + b) + c)
  {
    Assoc(b, [x], c);
    Assoc(a, [x], b + c);
    Assoc([x], b, c);
  }

  lemma SameMiddle(a: seq<Item>, b: seq<Item>, b': seq<Item>, c: seq<Item>)
    requires |b| == |b'|
    ensures a + (b + c) == a + (b' + c) <==> b == b'
  {
    if a + (b + c) == a + (b' + c) {
      assert (a + (b + c))[|a|..][..|b|] == b;
      assert (a + (b' + c))[|a|..][..|b'|] == b';
    }
  }

  lemma DrainPasses(w: World, i: nat)
    requires Shape(w) && Legal(w, DrainForwards(i))
    ensures |Passing(Next(w, DrainForwards(i)))| == |Passing(w)|
    ensures Passing(Next(w, DrainForwards(i))) == Passing(w) <==> !Overtakes(w, DrainForwards(i))
  {
    var w' := Next(w, DrainForwards(i));
    var before, x, left := Flatten(w.drains[..i]), w.drains[i][0], w.drains[i][1..];
    var behind := left + Flatten(w.drains[i + 1..]);
    FlattenSplit(w.drains, i);
    FlattenSplit(w'.drains, i);
    assert w'.drains[..i] == w.drains[..i] && w'.drains[i + 1..] == w.drains[i + 1..];
    assert w.drains[i] == [x] + left;
    Assoc([x], left, Flatten(w.drains[i + 1..]));
    Commutes(x, before);
    hide Flatten, Shape, Legal, Next;
    assert Flatten(w.drains) == before + ([x] + behind) && Flatten(w'.drains) == before + behind;
    TwoWays(w.forwarded, before, x, behind, w.gate.buffered, InHand(w));
  }

  /** The first chunk of a later batch before and after it is forwarded. */
  lemma TwoWays(done: seq<Item>, before: seq<Item>, x: Item, behind: seq<Item>, b: seq<Item>, h: seq<Item>)
    ensures var was, now := done + (before + ([x] + behind)) + b + h, done + [x] + (before + behind) + b + h;
            |was| == |now| && (was == now <==> [x] + before == before + [x])
  {
    var was, now := done + (before + ([x] + behind)) + b + h, done + [x] + (before + behind) + b + h;
    var tail := behind + (b + h);
    Tail(done, before + [x], behind, b, h);
    Tail(done, [x] + before, behind, b, h);
    Regroup(done, before, x, behind);
    SameMiddle(done, before + [x], [x] + before, tail);
  }

  lemma Tail(done: seq<Item>, mid: seq<Item>, behind: seq<Item>, b: seq<Item>, h: seq<Item>)
    ensures done + (mid + behind) + b + h == done + (mid + (behind + (b + h)))
  {
    Assoc(done + (mid + behind), b, h);
    Assoc(done, mid + behind, b + h);
    Assoc(mid, behind, b + h);
  }

  lemma ProducerPasses(w: World)
    requires Shape(w) && Legal(w, ProducerForwards)
    ensures |Passing(Next(w, ProducerForwards))| == |Passing(w)|
    ensures Passing(Next(w, ProducerForwards)) == Passing(w) <==> !Overtakes(w, ProducerForwards)
  {
    var w', x, before := Next(w, ProducerForwards), w.inHand.value, Flatten(w.drains);
    Commutes(x, before);
    assert w.gate.buffered == [] && InHand(w) == [x] && InHand(w') == [];
    hide Flatten, Shape, Legal;
    assert Passing(w) == w.forwarded + (before + ([x] + [])) + [] + [];
    assert Passing(w') == w.forwarded + [x] + (before + []) + [] + [];
    TwoWays(w.forwarded, before, x, [], [], []);
  }

  lemma RelockPasses(w: World, i: nat)
    requires Shape(w) && Legal(w, DrainRelocks(i))
    ensures Passing(Next(w, DrainRelocks(i))) == Passing(w)
  {
    var w' := Next(w, DrainRelocks(i));
    var kept := w.drains[..i] + w.drains[i + 1..];
    FlattenSplit(w.drains, i);
    FlattenAppend(w.drains[..i], w.drains[i + 1..]);
    assert [] + Flatten(w.drains[i + 1..]) == Flatten(w.drains[i + 1..]);
    assert Flatten(kept) == Flatten(w.drains);
    BatchPasses(w, w', kept);
  }

  /** Taking the buffer as the last batch keeps the order. */
  lemma BatchPasses(w: World, w': World, kept: seq<seq<Item>>)
    requires Flatten(kept) == Flatten(w.drains)
    requires w'.forwarded == w.forwarded && w'.inHand == w.inHand && w'.gate.buffered == []
    requires w'.drains == kept + [w.gate.buffered] || (w'.drains == kept + [] && w.gate.buffered == [])
    ensures Passing(w') == Passing(w)
  {
    if w'.drains == kept + [w.gate.buffered] {
      FlattenAppend(kept, [w.gate.buffered]);
      assert [w.gate.buffered][1..] == [];
      assert Flatten([w.gate.buffered]) == w.gate.buffered + [] == w.gate.buffered;
    } else {
      assert kept + [] == kept;
    }
    var f := Flatten(w.drains);
    hide Flatten;
    Assoc(w.forwarded, f, w.gate.buffered);
    assert w.forwarded + (f + w.gate.buffered) + [] == w.forwarded + f + w.gate.buffered;
  }

  lemma ActivatePasses(w: World)
    requires Shape(w)
    ensures Passing(Next(w, ActivateCalled)) == Passing(w)
  {
    var w' := Next(w, ActivateCalled);
    hide Passing, Flatten;
    if w'.drains != w.drains {
      BatchPasses(w, w', w.drains);
    } else {
      assert w' == w;
    }
  }

  lemma ArrivesOrdered(w: World, item: Item)
    requires Inv(w) && Legal(w, Arrives(item))
    ensures Ordered(Next(w, Arrives(item)))
  {
    hide Flatten;
    var way := w.forwarded + Flatten(w.drains);
    if !w.gate.dropped && item.chunk != "" {
      assert Passing(w) == way + w.gate.buffered;
      Assoc(way, w.gate.buffered, [item]);
    }
  }

  lemma DropOrdered(w: World)
    requires Inv(w)
    ensures Ordered(Next(w, DropCalled))
  {
    hide Flatten;
    if !w.gate.dropped {
      var way := w.forwarded + Flatten(w.drains);
      if w.inHand.Some? {
        assert w.gate.buffered == [];
      } else {
        assert way + [] + [] == way && way <= way + w.gate.buffered + [];
      }
    }
  }

  /** The exact condition, for any number of Activates at once: a step keeps every chunk in
      order if and only if it does not forward a chunk ahead of a different one. */
  lemma StepOrdered(w: World, e: Event)
    requires Inv(w) && Legal(w, e)
    ensures Ordered(Next(w, e)) <==> !Overtakes(w, e)
  {
    hide Shape, Passing;
    match e {
      case Arrives(item) => ArrivesOrdered(w, item);
      case DropCalled => DropOrdered(w);
      case ActivateCalled => ActivatePasses(w);
      case DrainRelocks(i) => RelockPasses(w, i);
      case DrainForwards(i) =>
        DrainPasses(w, i);
        SameLength(Passing(w), Passing(Next(w, e)), w.received);
      case ProducerForwards =>
        ProducerPasses(w);
        SameLength(Passing(w), Passing(Next(w, e)), w.received);
    }
  }

  ghost predicate NeverOvertakes(w: World, es: seq<Event>)
    requires LegalRun(w, es)
    decreases |es|
  {
    es == [] || (!Overtakes(w, es[0]) && NeverOvertakes(Next(w, es[0]), es[1..]))
  }

  /** Main result, for every interleaving of one producer, any Activates and any drops. */
  lemma {:induction false} AlwaysInv(w: World, es: seq<Event>)
    requires Inv(w) && LegalRun(w, es) && NeverOvertakes(w, es)
    ensures Inv(Run(w, es))
    decreases |es|
  {
    hide Shape, Ordered, Overtakes, Next, Legal;
    if es != [] {
      StepShape(w, es[0]);
      StepOrdered(w, es[0]);
      AlwaysInv(Next(w, es[0]), es[1..]);
    }
  }

  // ---------------------------------------------------------------------------
  // One Activate at a time
  // ---------------------------------------------------------------------------

  /** No Activate starts to drain while another one drains, as in the session handlers,
      which activate each gate once; everything else interleaves freely. */
  predicate OneActivate(w: World, es: seq<Event>)
    requires LegalRun(w, es)
    decreases |es|
  {
    es == [] || (StartsAlone(w, es[0]) && OneActivate(Next(w, es[0]), es[1..]))
  }

  predicate StartsAlone(w: World, e: Event) {
    e.ActivateCalled? && StartDrain(w.gate).1.Some? ==> w.drains == []
  }

  /** At most one batch, and none while the gate is open. */
  predicate Single(w: World) {
    |w.drains| <= 1 && (w.gate.active ==> w.drains == [])
  }

  lemma StepSingle(w: World, e: Event)
    requires Shape(w) && Single(w) && Legal(w, e) && StartsAlone(w, e)
    ensures Single(Next(w, e)) && !Overtakes(w, e)
  {
  }

  /** With one Activate at a time no chunk overtakes another. */
  lemma {:induction false} OneActivateSuffices(w: World, es: seq<Event>)
    requires Inv(w) && Single(w) && LegalRun(w, es) && OneActivate(w, es)
    ensures NeverOvertakes(w, es) && Single(Run(w, es))
    decreases |es|
  {
    if es != [] {
      hide Shape, Ordered, Overtakes, Next, Legal, Single, StartsAlone;
      StepSingle(w, es[0]);
      StepShape(w, es[0]);
      StepOrdered(w, es[0]);
      OneActivateSuffices(Next(w, es[0]), es[1..]);
    }
  }

  /** Once Activate has returned and the producer is idle, all that arrived was forwarded. */
  lemma CaughtUp(es: seq<Event>)
    requires LegalRun(NEW_WORLD, es) && OneActivate(NEW_WORLD, es)
    ensures var w := Run(NEW_WORLD, es);
            w.gate.active && !w.gate.dropped && w.inHand.None? ==> w.forwarded == w.received
  {
    OneActivateSuffices(NEW_WORLD, es);
    AlwaysInv(NEW_WORLD, es);
  }

  /** The gate is open, gone, or being drained. */
  predicate Opening(w: World) {
    w.gate.active || w.gate.dropped || w.drains != []
  }

  lemma StepOpening(w: World, e: Event)
    requires Shape(w) && Opening(w) && Legal(w, e)
    ensures Opening(Next(w, e))
  {
  }

  lemma {:induction false} StaysOpening(w: World, es: seq<Event>)
    requires Inv(w) && Opening(w) && LegalRun(w, es) && NeverOvertakes(w, es)
    ensures Opening(Run(w, es)) && Inv(Run(w, es))
    decreases |es|
  {
    if es != [] {
      hide Shape, Ordered, Overtakes, Next, Legal, Opening;
      StepOpening(w, es[0]);
      StepShape(w, es[0]);
      StepOrdered(w, es[0]);
      StaysOpening(Next(w, es[0]), es[1..]);
    }
  }

  /** Activating delivers: once it was called, whenever no drain is at work, the producer is
      idle and nobody dropped the gate, everything that arrived was forwarded, in order. */
  lemma ActivateDelivers(w: World, es: seq<Event>)
    requires Inv(w) && LegalRun(Next(w, ActivateCalled), es) && NeverOvertakes(Next(w, ActivateCalled), es)
    ensures var last := Run(Next(w, ActivateCalled), es);
            last.drains == [] && last.inHand.None? && !last.gate.dropped ==> last.gate.active && last.forwarded == last.received
  {
    StepShape(w, ActivateCalled);
    StepOrdered(w, ActivateCalled);
    StaysOpening(Next(w, ActivateCalled), es);
    var last := Run(Next(w, ActivateCalled), es);
    hide Run, LegalRun, Next;
    if last.drains == [] && last.inHand.None? && !last.gate.dropped {
      assert last.gate.active && last.gate.buffered == [] && Flatten(last.drains) == [];
      assert last.forwarded + [] + [] + [] == last.forwarded;
    }
  }

  /** After a drop only chunks that were in flight at that moment are still forwarded, in
      their order, unless one overtakes another. */
  lemma {:induction false} OnlyInFlightAfterDrop(w: World, es: seq<Event>)
    requires Inv(w) && w.gate.dropped && LegalRun(w, es) && NeverOvertakes(w, es)
    ensures Run(w, es).gate.dropped && Inv(Run(w, es)) && Passing(Run(w, es)) == Passing(w)
    ensures Single(w) ==> Single(Run(w, es))
    decreases |es|
  {
    if es != [] {
      hide Shape, Ordered, Overtakes, Next, Legal, Single, Passing;
      StepShape(w, es[0]);
      StepOrdered(w, es[0]);
      AfterDropStep(w, es[0]);
      OnlyInFlightAfterDrop(Next(w, es[0]), es[1..]);
    }
  }

  /** So a drop forgets what is buffered and everything that arrives later: afterwards nothing
      is forwarded but what had been taken out of the gate before. */
  lemma DropForgets(w: World, es: seq<Event>)
    requires Inv(w) && LegalRun(Next(w, DropCalled), es) && NeverOvertakes(Next(w, DropCalled), es)
    ensures var last := Run(Next(w, DropCalled), es);
            last.forwarded + Flatten(last.drains) + InHand(last) == w.forwarded + Flatten(w.drains) + InHand(w)
  {
    var dropped := Next(w, DropCalled);
    StepShape(w, DropCalled);
    DropOrdered(w);
    OnlyInFlightAfterDrop(dropped, es);
    var last := Run(dropped, es);
    assert dropped.gate.buffered == [] == last.gate.buffered;
    hide Flatten, Run, LegalRun;
    assert w.forwarded + Flatten(w.drains) + [] == w.forwarded + Flatten(w.drains);
    assert last.forwarded + Flatten(last.drains) + [] == last.forwarded + Flatten(last.drains);
  }

  lemma AfterDropStep(w: World, e: Event)
    requires Inv(w) && w.gate.dropped && Legal(w, e) && !Overtakes(w, e)
    ensures Next(w, e).gate.dropped && Passing(Next(w, e)) == Passing(w)
    ensures Single(w) ==> Single(Next(w, e))
  {
    assert w.gate.buffered == [];
    hide Passing, Overtakes;
    match e {
      case DrainForwards(i) => DrainPasses(w, i);
      case ProducerForwards => ProducerPasses(w);
      case DrainRelocks(i) => RelockPasses(w, i);
      case ActivateCalled =>
      case Arrives(_) => SamePassing(w, Next(w, e));
      case DropCalled => SamePassing(w, Next(w, e));
    }
  }

  lemma SamePassing(w: World, w': World)
    requires w'.forwarded == w.forwarded && w'.drains == w.drains && w'.gate.buffered == w.gate.buffered && w'.inHand == w.inHand
    ensures Passing(w') == Passing(w)
  {
  }

  /** The drop check inside the drain loop never stops a drain: a dropped gate has nothing
      buffered, so the loop has ended before it. */
  lemma DropNeverSeenInLoop(w: World, i: nat)
    requires Inv(w) && Legal(w, DrainRelocks(i)) && w.gate.dropped
    ensures ContinueDrain(w.gate) == (w.gate.(draining := false, active := true), None)
  {
  }

  /** Two overlapping Activates of one gate can reorder output: the second drains what
      arrived last while the first still holds its batch. */
  lemma OverlapReorders(a: Item, b: Item)
    requires a.chunk != "" && b.chunk != "" && a != b
    ensures var es := [Arrives(a), ActivateCalled, Arrives(b), ActivateCalled, DrainForwards(1), DrainForwards(0)];
            LegalRun(NEW_WORLD, es) &&
            Run(NEW_WORLD, es).received == [a, b] && Run(NEW_WORLD, es).forwarded == [b, a]
  {
    var tail := [DrainForwards(1), DrainForwards(0)];
    var w1 := World(Gate(false, false, false, [a]), None, [], [a], []);
    var w2 := World(Gate(false, true, false, []), None, [[a]], [a], []);
    var w3 := World(Gate(false, true, false, [b]), None, [[a]], [a, b], []);
    var w4 := World(Gate(false, true, false, []), None, [[a], [b]], [a, b], []);
    assert Next(NEW_WORLD, Arrives(a)) == w1 && Next(w1, ActivateCalled) == w2;
    assert Next(w2, Arrives(b)) == w3 && Next(w3, ActivateCalled) == w4;
    SecondFirst(w4, a, b);
    hide Next, LegalRun, Run, Legal;
    Unroll(w3, ActivateCalled, tail);
    Unroll(w2, Arrives(b), [ActivateCalled] + tail);
    Unroll(w1, ActivateCalled, [Arrives(b)] + ([ActivateCalled] + tail));
    Unroll(NEW_WORLD, Arrives(a), [ActivateCalled] + ([Arrives(b)] + ([ActivateCalled] + tail)));
    assert [Arrives(a)] + ([ActivateCalled] + ([Arrives(b)] + ([ActivateCalled] + tail))) ==
           [Arrives(a), ActivateCalled, Arrives(b), ActivateCalled, DrainForwards(1), DrainForwards(0)];
  }

  lemma SecondFirst(w: World, a: Item, b: Item)
    requires w.drains == [[a], [b]] && w.forwarded == []
    ensures var tail := [DrainForwards(1), DrainForwards(0)];
            LegalRun(w, tail) && Run(w, tail).forwarded == [b, a] && Run(w, tail).received == w.received
  {
    var w5 := Next(w, DrainForwards(1));
    assert w5.drains[0] == [a] && w5.forwarded == [b];
    Unroll(w5, DrainForwards(0), []);
    Unroll(w, DrainForwards(1), [DrainForwards(0)]);
    assert [DrainForwards(0)] + [] == [DrainForwards(0)];
    assert [DrainForwards(1)] + [DrainForwards(0)] == [DrainForwards(1), DrainForwards(0)];
  }

  lemma Unroll(w: World, e: Event, es: seq<Event>)
    requires Legal(w, e) && LegalRun(Next(w, e), es)
    ensures LegalRun(w, [e] + es) && Run(w, [e] + es) == Run(Next(w, e), es)
  {
    assert ([e] + es)[1..] == es;
  }
}
