/** Queue calls, decisions and rules interleaving at every unlock of the approval queue. */
module ApprovalLaws {
  import opened Text
  import opened AllowRules

  datatype Response = Response(decision: string, until: Option<int>)

  datatype Result =
    | AutoApproved(rule: Rule)
    | Duplicate
    | Returned(response: Response)
    | Denied(response: Response)
    | TimedOut
    | ContextDone

  /** Where a Queue call is: checked against the rules, waiting, woken by its channel, its
      timer or its context, or returned. */
  datatype Phase = Checked | Waiting | Woken(result: Result) | Finished(result: Result)

  datatype Call = Call(requestId: string, command: string, phase: Phase, channel: seq<Response>)

  datatype Stage = Taken | RuleAdded | Sent

  /** A DecideWithDevice call that found its request pending. */
  datatype Decider = Decider(call: nat, response: Response, deviceId: string, stage: Stage)

  datatype World = World(
    pending: map<string, nat>, rules: seq<Rule>, calls: seq<Call>, deciders: seq<Decider>,
    overflowed: bool, grants: map<string, Rule>, clock: int)

  function Start(clock: int): World {
    World(map[], [], [], [], false, map[], clock)
  }

  datatype Event =
    | Submit(requestId: string, command: string, now: int)
    | Register(c: nat)
    | Decide(requestId: string, response: Response, deviceId: string)
    | AddRule(d: nat)
    | Send(d: nat)
    | Receive(c: nat)
    | Expire(c: nat)
    | ContextEnds(c: nat)
    | CleanUp(c: nat)
    | Cancel(requestId: string)
    | CleanRules(now: int)

  predicate Legal(w: World, e: Event) {
    match e
    case Submit(_, _, now) => w.clock <= now
    case Register(c) => c < |w.calls| && w.calls[c].phase == Checked
    case Decide(_, _, _) => true
    case AddRule(d) => d < |w.deciders| && w.deciders[d].stage == Taken
    case Send(d) => d < |w.deciders| && w.deciders[d].stage == RuleAdded && w.deciders[d].call < |w.calls|
    case Receive(c) => c < |w.calls| && w.calls[c].phase == Waiting && w.calls[c].channel != []
    case Expire(c) => c < |w.calls| && w.calls[c].phase == Waiting
    case ContextEnds(c) => c < |w.calls| && w.calls[c].phase == Waiting
    case CleanUp(c) => c < |w.calls| && w.calls[c].phase.Woken?
    case Cancel(_) => true
    case CleanRules(now) => w.clock <= now
  }

  function SetPhase(w: World, c: nat, phase: Phase): World
    requires c < |w.calls|
  {
    w.(calls := w.calls[c := w.calls[c].(phase := phase)])
  }

  function Submitted(w: World, requestId: string, command: string, now: int): World {
    var matched := First(Alive(w.rules, now), command);
    w.(rules := Alive(w.rules, now), clock := now,
       calls := w.calls + [Call(requestId, command, if matched.Some? then Finished(AutoApproved(matched.value)) else Checked, [])])
  }

  function Registered(w: World, c: nat): World
    requires c < |w.calls|
  {
    if w.calls[c].requestId in w.pending then SetPhase(w, c, Finished(Duplicate))
    else SetPhase(w, c, Waiting).(pending := w.pending[w.calls[c].requestId := c])
  }

  function Decided(w: World, requestId: string, response: Response, deviceId: string): World {
    if requestId !in w.pending then w
    else
      w.(pending := w.pending - {requestId},
         deciders := w.deciders + [Decider(w.pending[requestId], response, deviceId, Taken)])
  }

  function RuleStep(w: World, d: nat): World
    requires d < |w.deciders|
  {
    var x := w.deciders[d];
    var w1 := w.(deciders := w.deciders[d := x.(stage := RuleAdded)]);
    if x.response.decision == "approve" && x.response.until.Some? && x.call < |w.calls| then
      var rule := Rule(w.calls[x.call].command, x.response.until.value, x.deviceId);
      w1.(rules := Grant(w.rules, rule), grants := w.grants[rule.command := rule])
    else w1
  }

  function SendStep(w: World, d: nat): World
    requires d < |w.deciders| && w.deciders[d].call < |w.calls|
  {
    var x := w.deciders[d];
    var call := w.calls[x.call];
    var w1 := w.(deciders := w.deciders[d := x.(stage := Sent)]);
    if |call.channel| < 1 then w1.(calls := w.calls[x.call := call.(channel := call.channel + [x.response])])
    else w1.(overflowed := true)
  }

  function Received(w: World, c: nat): World
    requires c < |w.calls| && w.calls[c].channel != []
  {
    var response := w.calls[c].channel[0];
    var result := if response.decision == "deny" then Denied(response) else Returned(response);
    w.(calls := w.calls[c := w.calls[c].(phase := Woken(result), channel := w.calls[c].channel[1..])])
  }

  function Next(w: World, e: Event): World
    requires Legal(w, e)
  {
    match e
    case Submit(requestId, command, now) => Submitted(w, requestId, command, now)
    case Register(c) => Registered(w, c)
    case Decide(requestId, response, deviceId) => Decided(w, requestId, response, deviceId)
    case AddRule(d) => RuleStep(w, d)
    case Send(d) => SendStep(w, d)
    case Receive(c) => Received(w, c)
    case Expire(c) => SetPhase(w, c, Woken(TimedOut))
    case ContextEnds(c) => SetPhase(w, c, Woken(ContextDone))
    case CleanUp(c) =>
      SetPhase(w, c, Finished(w.calls[c].phase.result)).(pending := w.pending - {w.calls[c].requestId})
    case Cancel(requestId) => w.(pending := w.pending - {requestId})
    case CleanRules(now) => w.(rules := Alive(w.rules, now), clock := now)
  }

  predicate LegalRun(w: World, es: seq<Event>)
    decreases |es|
  {
    es == [] || (Legal(w, es[0]) && LegalRun(Next(w, es[0]), es[1..]))
  }

  function Run(w: World, es: seq<Event>): World
    requires LegalRun(w, es)
    decreases |es|
  {
    if es == [] then w else Run(Next(w, es[0]), es[1..])
  }

  // ---------------------------------------------------------------------------
  // Rules
  // ---------------------------------------------------------------------------

  lemma StepRules(w: World, e: Event)
    requires Refines(w.rules, w.grants, w.clock) && Legal(w, e)
    ensures Refines(Next(w, e).rules, Next(w, e).grants, Next(w, e).clock)
  {
    hide Refines, Alive, Grant, First;
    match e {
      case Submit(_, _, now) => AliveRefines(w.rules, w.grants, w.clock, now);
      case CleanRules(now) => AliveRefines(w.rules, w.grants, w.clock, now);
      case AddRule(d) =>
        var x := w.deciders[d];
        if x.response.until.Some? && x.call < |w.calls| {
          GrantRefines(w.rules, w.grants, w.clock, Rule(w.calls[x.call].command, x.response.until.value, x.deviceId));
        }
      case _ =>
    }
  }

  /** In every reachable state the rule list stands for the latest grants. */
  lemma {:induction false} RulesAlwaysRefine(w: World, es: seq<Event>)
    requires Refines(w.rules, w.grants, w.clock) && LegalRun(w, es)
    ensures Refines(Run(w, es).rules, Run(w, es).grants, Run(w, es).clock)
    decreases |es|
  {
    hide Refines;
    if es != [] {
      StepRules(w, es[0]);
      RulesAlwaysRefine(Next(w, es[0]), es[1..]);
    }
  }

  /** Main result: a Queue call is approved by a rule exactly when the latest grant of its
      command, by whichever decision, expires after the call. */
  lemma AutoApprovedExactly(clock: int, es: seq<Event>, requestId: string, command: string, now: int)
    requires LegalRun(Start(clock), es) && Run(Start(clock), es).clock <= now
    ensures var w := Run(Start(clock), es);
            var w' := Next(w, Submit(requestId, command, now));
            w'.calls[|w.calls|].phase ==
            if Active(w.grants, command, now) then Finished(AutoApproved(w.grants[command])) else Checked
  {
    RulesAlwaysRefine(Start(clock), es);
    var w := Run(Start(clock), es);
    MatchExact(w.rules, w.grants, w.clock, now, command);
  }

  // ---------------------------------------------------------------------------
  // One send per channel
  // ---------------------------------------------------------------------------

  ghost predicate DecidedOnce(w: World) {
    forall i, j :: 0 <= i < j < |w.deciders| ==> w.deciders[i].call != w.deciders[j].call
  }

  ghost predicate PastCheck(w: World, c: nat) {
    c < |w.calls| && w.calls[c].phase != Checked
  }

  ghost predicate DecidersRegistered(w: World) {
    forall d :: 0 <= d < |w.deciders| ==> PastCheck(w, w.deciders[d].call)
  }

  ghost predicate PendingRegistered(w: World) {
    forall id :: id in w.pending ==> PastCheck(w, w.pending[id]) && w.calls[w.pending[id]].requestId == id
  }

  ghost predicate PendingUndecided(w: World) {
    forall id, d :: id in w.pending && 0 <= d < |w.deciders| ==> w.deciders[d].call != w.pending[id]
  }

  /** A call is decided by at most one decision, and one that is pending by none yet. */
  ghost predicate OneDecision(w: World) {
    DecidedOnce(w) && DecidersRegistered(w) && PendingRegistered(w) && PendingUndecided(w)
  }

  /** A channel is empty until its decision is sent, and never overflows. */
  ghost predicate ChannelsOk(w: World) {
    && !w.overflowed
    && (forall d :: 0 <= d < |w.deciders| && w.deciders[d].stage != Sent && w.deciders[d].call < |w.calls| ==>
          w.calls[w.deciders[d].call].channel == [])
  }

  lemma PastCheckStays(w: World, e: Event, c: nat)
    requires Legal(w, e) && PastCheck(w, c)
    ensures PastCheck(Next(w, e), c) && Next(w, e).calls[c].requestId == w.calls[c].requestId
  {
  }

  lemma StepDeciders(w: World, e: Event)
    requires DecidersRegistered(w) && PendingRegistered(w) && Legal(w, e)
    ensures DecidersRegistered(Next(w, e))
  {
    var w' := Next(w, e);
    forall d | 0 <= d < |w'.deciders|
      ensures PastCheck(w', w'.deciders[d].call)
    {
      PastCheckStays(w, e, w'.deciders[d].call);
    }
  }

  lemma StepPending(w: World, e: Event)
    requires PendingRegistered(w) && Legal(w, e)
    ensures PendingRegistered(Next(w, e))
  {
    var w' := Next(w, e);
    forall id | id in w'.pending
      ensures PastCheck(w', w'.pending[id]) && w'.calls[w'.pending[id]].requestId == id
    {
      if id in w.pending && w'.pending[id] == w.pending[id] {
        PastCheckStays(w, e, w.pending[id]);
      }
    }
  }

  lemma StepDecided(w: World, e: Event)
    requires OneDecision(w) && Legal(w, e)
    ensures DecidedOnce(Next(w, e))
  {
    hide DecidersRegistered, PendingRegistered;
    if e.Decide? && e.requestId in w.pending {
      var w' := Decided(w, e.requestId, e.response, e.deviceId);
      assert w'.deciders[..|w.deciders|] == w.deciders;
      assert forall d :: 0 <= d < |w.deciders| ==> w'.deciders[d] == w.deciders[d];
    } else {
      DecidersKeepCalls(w, e);
      hide Next, Legal, PendingUndecided;
    }
  }

  /** Only a decision adds a decider, and none changes its call. */
  lemma DecidersKeepCalls(w: World, e: Event)
    requires Legal(w, e) && !(e.Decide? && e.requestId in w.pending)
    ensures var ds' := Next(w, e).deciders;
            |ds'| == |w.deciders| && forall d :: 0 <= d < |ds'| ==> ds'[d].call == w.deciders[d].call
  {
    hide Alive, Grant;
  }

  lemma StepUndecided(w: World, e: Event)
    requires OneDecision(w) && Legal(w, e)
    ensures PendingUndecided(Next(w, e))
  {
    var w' := Next(w, e);
    forall id, d | id in w'.pending && 0 <= d < |w'.deciders|
      ensures w'.deciders[d].call != w'.pending[id]
    {
      if d == |w.deciders| {
        assert w.calls[w.pending[id]].requestId == id;
      } else {
        assert w'.deciders[d].call == w.deciders[d].call;
        assert PastCheck(w, w.deciders[d].call);
      }
    }
  }

  lemma StepOneDecision(w: World, e: Event)
    requires OneDecision(w) && Legal(w, e)
    ensures OneDecision(Next(w, e))
  {
    StepDeciders(w, e);
    StepPending(w, e);
    StepDecided(w, e);
    StepUndecided(w, e);
  }

  lemma StepChannels(w: World, e: Event)
    requires OneDecision(w) && ChannelsOk(w) && NoDeciderNoContent(w) && Legal(w, e)
    ensures ChannelsOk(Next(w, e))
  {
    var w' := Next(w, e);
    if e.Decide? && e.requestId in w.pending {
      PendingEmpty(w, e.requestId);
    }
    forall d | 0 <= d < |w'.deciders| && w'.deciders[d].stage != Sent && w'.deciders[d].call < |w'.calls|
      ensures w'.calls[w'.deciders[d].call].channel == []
    {
      if d < |w.deciders| {
        assert PastCheck(w, w.deciders[d].call);
      }
    }
  }

  /** Nothing was sent to a call that is still pending. */
  lemma PendingEmpty(w: World, id: string)
    requires OneDecision(w) && NoDeciderNoContent(w) && id in w.pending
    ensures w.calls[w.pending[id]].channel == []
  {
    var c := w.pending[id];
    assert PastCheck(w, c);
    assert w.calls[c].channel != [] ==> Backed(w, c, w.calls[c].channel[0]);
  }

  /** Whatever is in a channel was put there by a decision about that very call. */
  ghost predicate Backed(w: World, c: nat, response: Response) {
    exists d :: 0 <= d < |w.deciders| && w.deciders[d].call == c && w.deciders[d].response == response &&
                w.deciders[d].stage == Sent
  }

  ghost predicate NoDeciderNoContent(w: World) {
    forall c, r :: 0 <= c < |w.calls| && r in w.calls[c].channel ==> Backed(w, c, r)
  }

  predicate Carries(phase: Phase, response: Response) {
    (phase.Woken? || phase.Finished?) && (phase.result == Returned(response) || phase.result == Denied(response))
  }

  ghost predicate ResultsBacked(w: World) {
    forall c, r :: 0 <= c < |w.calls| && Carries(w.calls[c].phase, r) ==> Backed(w, c, r)
  }

  lemma BackedStays(w: World, e: Event, c: nat, r: Response)
    requires Legal(w, e) && Backed(w, c, r)
    ensures Backed(Next(w, e), c, r)
  {
    var d :| 0 <= d < |w.deciders| && w.deciders[d].call == c && w.deciders[d].response == r && w.deciders[d].stage == Sent;
    assert Next(w, e).deciders[d] == w.deciders[d];
  }

  lemma StepContent(w: World, e: Event)
    requires NoDeciderNoContent(w) && Legal(w, e)
    ensures NoDeciderNoContent(Next(w, e))
  {
    var w' := Next(w, e);
    forall c, r | 0 <= c < |w'.calls| && r in w'.calls[c].channel
      ensures Backed(w', c, r)
    {
      if c < |w.calls| && r in w.calls[c].channel {
        BackedStays(w, e, c, r);
      } else {
        assert e.Send?;
        assert w'.deciders[e.d].call == c && w'.deciders[e.d].response == r;
      }
    }
  }

  lemma StepResults(w: World, e: Event)
    requires NoDeciderNoContent(w) && ResultsBacked(w) && Legal(w, e)
    ensures ResultsBacked(Next(w, e))
  {
    var w' := Next(w, e);
    forall c, r | 0 <= c < |w'.calls| && Carries(w'.calls[c].phase, r)
      ensures Backed(w', c, r)
    {
      assert c < |w.calls| && (Carries(w.calls[c].phase, r) || r in w.calls[c].channel);
      BackedStays(w, e, c, r);
    }
  }

  ghost predicate Inv(w: World) {
    OneDecision(w) && ChannelsOk(w) && NoDeciderNoContent(w) && ResultsBacked(w)
  }

  /** Main result, for every interleaving and even if request ids repeat: each response
      channel gets at most one send, so the "channel full" branch is never taken, and a
      Queue call returns only a response that a decision about that very call sent. */
  lemma {:induction false} AlwaysInv(w: World, es: seq<Event>)
    requires Inv(w) && LegalRun(w, es)
    ensures Inv(Run(w, es))
    decreases |es|
  {
    if es != [] {
      hide OneDecision, ChannelsOk, NoDeciderNoContent, ResultsBacked, Legal, Next;
      StepOneDecision(w, es[0]);
      StepChannels(w, es[0]);
      StepContent(w, es[0]);
      StepResults(w, es[0]);
      AlwaysInv(Next(w, es[0]), es[1..]);
    }
  }

  /** Nothing but a rule or an approving decision approves. */
  lemma ApprovedOnlyByDecision(clock: int, es: seq<Event>, c: nat, response: Response)
    requires LegalRun(Start(clock), es)
    requires c < |Run(Start(clock), es).calls| && Run(Start(clock), es).calls[c].phase == Finished(Returned(response))
    ensures Backed(Run(Start(clock), es), c, response)
  {
    AlwaysInv(Start(clock), es);
    assert Carries(Run(Start(clock), es).calls[c].phase, response);
  }

  // ---------------------------------------------------------------------------
  // What each step does
  // ---------------------------------------------------------------------------

  /** A grant is made by exactly one thing: an approving decision with an expiry.  It is for the
      command of the decided call, until that time, by that device. */
  lemma GrantsExactly(w: World, e: Event)
    requires Legal(w, e) && forall d :: 0 <= d < |w.deciders| ==> w.deciders[d].call < |w.calls|
    ensures Next(w, e).grants ==
            if e.AddRule? && w.deciders[e.d].response.decision == "approve" && w.deciders[e.d].response.until.Some? then
              var command := w.calls[w.deciders[e.d].call].command;
              w.grants[command := Rule(command, w.deciders[e.d].response.until.value, w.deciders[e.d].deviceId)]
            else w.grants
  {
  }

  /** A decision is about the call registered under its request id, and is kept as it was made;
      it takes the registration. */
  lemma DecisionsExactly(w: World, e: Event)
    requires Legal(w, e)
    ensures |w.deciders| <= |Next(w, e).deciders|
    ensures forall d :: 0 <= d < |w.deciders| ==>
              var x, y := w.deciders[d], Next(w, e).deciders[d];
              y.call == x.call && y.response == x.response && y.deviceId == x.deviceId
    ensures if e.Decide? && e.requestId in w.pending then
              && Next(w, e).deciders == w.deciders + [Decider(w.pending[e.requestId], e.response, e.deviceId, Taken)]
              && e.requestId !in Next(w, e).pending
            else |Next(w, e).deciders| == |w.deciders|
  {
  }

  /** How a call comes to its result: a duplicate id is turned away at once; otherwise the call
      waits until it receives a decision, its timer runs out or its context ends, whichever
      wakes it first, and returns with that. */
  lemma PhasesExactly(w: World, e: Event, c: nat)
    requires Legal(w, e) && c < |w.calls|
    ensures var call := w.calls[c];
            && c < |Next(w, e).calls| && Next(w, e).calls[c].command == call.command
            && Next(w, e).calls[c].phase ==
               if e == Register(c) then if call.requestId in w.pending then Finished(Duplicate) else Waiting
               else if e == Receive(c) then
                 Woken(if call.channel[0].decision == "deny" then Denied(call.channel[0]) else Returned(call.channel[0]))
               else if e == Expire(c) then Woken(TimedOut)
               else if e == ContextEnds(c) then Woken(ContextDone)
               else if e == CleanUp(c) then Finished(call.phase.result)
               else call.phase
  {
  }

  // ---------------------------------------------------------------------------
  // Every waiting call can be decided
  // ---------------------------------------------------------------------------

  ghost predicate HasDecider(w: World, c: nat) {
    exists d :: 0 <= d < |w.deciders| && w.deciders[d].call == c
  }

  /** A waiting call is registered, or its decision is on the way. */
  ghost predicate Decidable(w: World, c: nat)
    requires c < |w.calls|
  {
    w.calls[c].phase == Waiting ==>
      (w.calls[c].requestId in w.pending && w.pending[w.calls[c].requestId] == c) || HasDecider(w, c)
  }

  ghost predicate AllDecidable(w: World) {
    forall c :: 0 <= c < |w.calls| ==> Decidable(w, c)
  }

  /** The step removes the registration of a call that is waiting and is not the one whose
      Queue goroutine is cleaning up. */
  predicate Orphans(w: World, e: Event)
    requires Legal(w, e)
  {
    match e
    case CleanUp(c) => WaitsUnder(w, w.calls[c].requestId) && w.pending[w.calls[c].requestId] != c
    case Cancel(requestId) => WaitsUnder(w, requestId)
    case _ => false
  }

  predicate WaitsUnder(w: World, requestId: string) {
    requestId in w.pending && w.pending[requestId] < |w.calls| && w.calls[w.pending[requestId]].phase == Waiting
  }

  lemma DeciderStays(w: World, e: Event, c: nat)
    requires Legal(w, e) && HasDecider(w, c)
    ensures HasDecider(Next(w, e), c)
  {
    var d :| 0 <= d < |w.deciders| && w.deciders[d].call == c;
    assert Next(w, e).deciders[d].call == c;
  }

  predicate Unregisters(e: Event) {
    e.CleanUp? || e.Cancel? || e.Decide?
  }

  lemma StillDecidable(w: World, e: Event, c: nat)
    requires OneDecision(w) && AllDecidable(w) && Legal(w, e) && !Orphans(w, e) && c < |Next(w, e).calls|
    ensures Decidable(Next(w, e), c)
  {
    if c < |w.calls| {
      assert Decidable(w, c);
      if HasDecider(w, c) {
        DeciderStays(w, e, c);
        hide Next, HasDecider, OneDecision;
      } else if Unregisters(e) {
        StillRegistered(w, e, c);
      } else {
        RegistrationStays(w, e, c);
      }
    }
  }

  lemma StillRegistered(w: World, e: Event, c: nat)
    requires Unregisters(e) && Legal(w, e) && !Orphans(w, e) && c < |w.calls|
    requires Decidable(w, c) && !HasDecider(w, c)
    ensures Decidable(Next(w, e), c)
  {
    if e.Decide? && e.requestId in w.pending && w.pending[e.requestId] == c {
      assert Next(w, e).deciders[|w.deciders|].call == c;
    }
  }

  lemma RegistrationStays(w: World, e: Event, c: nat)
    requires !Unregisters(e) && Legal(w, e) && c < |w.calls| && Decidable(w, c) && !HasDecider(w, c)
    ensures Decidable(Next(w, e), c)
  {
    hide HasDecider;
  }

  /** Exactly which steps leave a waiting call that nobody can decide any more. */
  lemma StepDecidable(w: World, e: Event)
    requires OneDecision(w) && AllDecidable(w) && Legal(w, e)
    ensures AllDecidable(Next(w, e)) <==> !Orphans(w, e)
  {
    if Orphans(w, e) {
      var id := if e.CleanUp? then w.calls[e.c].requestId else e.requestId;
      var o := w.pending[id];
      assert !HasDecider(w, o);
      assert w.calls[o].requestId == id;
      assert !Decidable(Next(w, e), o);
    } else {
      forall c | 0 <= c < |Next(w, e).calls|
        ensures Decidable(Next(w, e), c)
      {
        StillDecidable(w, e, c);
      }
    }
  }

  ghost predicate FreshIds(w: World) {
    forall i, j :: 0 <= i < j < |w.calls| ==> w.calls[i].requestId != w.calls[j].requestId
  }

  /** With request ids that do not repeat, a cleanup never takes another call's place. */
  lemma CleanupOfOwn(w: World, c: nat)
    requires OneDecision(w) && FreshIds(w) && Legal(w, CleanUp(c))
    ensures !Orphans(w, CleanUp(c))
  {
    var id := w.calls[c].requestId;
    assert id in w.pending ==> w.calls[w.pending[id]].requestId == id;
  }

  lemma IdsStay(w: World, e: Event)
    requires Legal(w, e)
    ensures |w.calls| <= |Next(w, e).calls|
    ensures forall c :: 0 <= c < |w.calls| ==> Next(w, e).calls[c].requestId == w.calls[c].requestId
  {
  }

  lemma {:induction false} IdsStayLong(w: World, es: seq<Event>)
    requires LegalRun(w, es)
    ensures |w.calls| <= |Run(w, es).calls|
    ensures forall c :: 0 <= c < |w.calls| ==> Run(w, es).calls[c].requestId == w.calls[c].requestId
    decreases |es|
  {
    hide Next, Legal;
    if es != [] {
      IdsStay(w, es[0]);
      IdsStayLong(Next(w, es[0]), es[1..]);
    }
  }

  /** Main result: over every run in which no request id repeats and none is cancelled, every
      waiting call can be decided at every moment. */
  lemma {:induction false} FreshIdsSuffice(w: World, es: seq<Event>)
    requires Inv(w) && AllDecidable(w) && LegalRun(w, es)
    requires FreshIds(Run(w, es)) && forall e :: e in es ==> !e.Cancel?
    ensures AllDecidable(Run(w, es))
    decreases |es|
  {
    hide Inv, AllDecidable, Legal, Next, Orphans, FreshIds;
    if es != [] {
      IdsStayLong(w, es);
      FreshBefore(w, Run(w, es));
      OneOf(w);
      NotCancelled(w, es[0]);
      StepDecidable(w, es[0]);
      AlwaysInv(w, [es[0]]);
      assert [es[0]][1..] == [] && Run(w, [es[0]]) == Next(w, es[0]);
      assert forall e :: e in es[1..] ==> e in es;
      FreshIdsSuffice(Next(w, es[0]), es[1..]);
    }
  }

  lemma OneOf(w: World)
    requires Inv(w)
    ensures OneDecision(w)
  {
  }

  lemma FreshBefore(w: World, later: World)
    requires FreshIds(later) && |w.calls| <= |later.calls|
    requires forall c :: 0 <= c < |w.calls| ==> later.calls[c].requestId == w.calls[c].requestId
    ensures FreshIds(w)
  {
  }

  lemma NotCancelled(w: World, e: Event)
    requires OneDecision(w) && FreshIds(w) && Legal(w, e) && !e.Cancel?
    ensures !Orphans(w, e)
  {
    if e.CleanUp? {
      CleanupOfOwn(w, e.c);
    }
  }

  lemma {:induction false} RunAppend(w: World, a: seq<Event>, b: seq<Event>)
    requires LegalRun(w, a) && LegalRun(Run(w, a), b)
    ensures LegalRun(w, a + b) && Run(w, a + b) == Run(Run(w, a), b)
    decreases |a|
  {
    hide Next, Legal;
    if a == [] {
      assert a + b == b;
    } else {
      assert (a + b)[1..] == a[1..] + b && (a + b)[0] == a[0];
      RunAppend(Next(w, a[0]), a[1..], b);
    }
  }

  lemma RunOne(w: World, e: Event)
    requires Legal(w, e)
    ensures LegalRun(w, [e]) && Run(w, [e]) == Next(w, e)
  {
    hide Next, Legal;
    assert [e][1..] == [] && LegalRun(Next(w, e), []);
  }

  lemma RunThree(w: World, e1: Event, e2: Event, e3: Event)
    requires Legal(w, e1) && Legal(Next(w, e1), e2) && Legal(Next(Next(w, e1), e2), e3)
    ensures LegalRun(w, [e1, e2, e3]) && Run(w, [e1, e2, e3]) == Next(Next(Next(w, e1), e2), e3)
  {
    hide Next, Legal;
    RunOne(w, e1);
    RunOne(Next(w, e1), e2);
    RunOne(Next(Next(w, e1), e2), e3);
    RunAppend(Next(w, e1), [e2], [e3]);
    RunAppend(w, [e1], [e2] + [e3]);
    assert [e1] + ([e2] + [e3]) == [e1, e2, e3];
  }

  /** A repeated request id can lose a call: the first call was decided and woke up, the
      second registered under the same id, and the first call's cleanup removes it. */
  lemma ReusedIdOrphans(x: string)
    ensures var es := [Submit(x, "ls", 0), Register(0), Decide(x, Response("deny", None), "phone"),
                       AddRule(0), Send(0), Receive(0),
                       Submit(x, "ls", 0), Register(1), CleanUp(0)];
            && LegalRun(Start(0), es)
            && var w := Run(Start(0), es);
               |w.calls| == 2 && w.calls[1].phase == Waiting && w.pending == map[] && !HasDecider(w, 1)
  {
    var r := Response("deny", None);
    var first := [Submit(x, "ls", 0), Register(0), Decide(x, r, "phone")];
    var second, third := [AddRule(0), Send(0), Receive(0)], [Submit(x, "ls", 0), Register(1), CleanUp(0)];
    FirstDecided(x, r);
    FirstWoken(x, r);
    SecondOrphaned(x, r);
    hide LegalRun, Run, HasDecider, Start;
    RunAppend(Run(Start(0), first), second, third);
    RunAppend(Start(0), first, second + third);
    assert first + (second + third) ==
           [Submit(x, "ls", 0), Register(0), Decide(x, r, "phone"), AddRule(0), Send(0), Receive(0),
            Submit(x, "ls", 0), Register(1), CleanUp(0)];
  }

  function DecidedWorld(x: string, r: Response): World {
    World(map[], [], [Call(x, "ls", Waiting, [])], [Decider(0, r, "phone", Taken)], false, map[], 0)
  }

  function WokenWorld(x: string, r: Response): World {
    World(map[], [], [Call(x, "ls", Woken(Denied(r)), [])], [Decider(0, r, "phone", Sent)], false, map[], 0)
  }

  lemma FirstDecided(x: string, r: Response)
    ensures var es := [Submit(x, "ls", 0), Register(0), Decide(x, r, "phone")];
            LegalRun(Start(0), es) && Run(Start(0), es) == DecidedWorld(x, r)
  {
    var w1, w2 := World(map[], [], [Call(x, "ls", Checked, [])], [], false, map[], 0),
                  World(map[x := 0], [], [Call(x, "ls", Waiting, [])], [], false, map[], 0);
    assert Next(Start(0), Submit(x, "ls", 0)) == w1;
    assert Next(w1, Register(0)) == w2;
    assert Next(w2, Decide(x, r, "phone")) == DecidedWorld(x, r);
    assert Legal(Start(0), Submit(x, "ls", 0)) && Legal(w1, Register(0)) && Legal(w2, Decide(x, r, "phone"));
    hide Next, Legal;
    RunThree(Start(0), Submit(x, "ls", 0), Register(0), Decide(x, r, "phone"));
  }

  lemma FirstWoken(x: string, r: Response)
    requires r.until.None? && r.decision == "deny"
    ensures var es := [AddRule(0), Send(0), Receive(0)];
            LegalRun(DecidedWorld(x, r), es) && Run(DecidedWorld(x, r), es) == WokenWorld(x, r)
  {
    var w0 := DecidedWorld(x, r);
    var w1 := w0.(deciders := [Decider(0, r, "phone", RuleAdded)]);
    var w2 := w0.(calls := [Call(x, "ls", Waiting, [r])], deciders := [Decider(0, r, "phone", Sent)]);
    assert Next(w0, AddRule(0)) == w1;
    assert [] + [r] == [r] && Next(w1, Send(0)).calls == w2.calls && Next(w1, Send(0)) == w2;
    assert [r][1..] == [] && Next(w2, Receive(0)).calls == WokenWorld(x, r).calls;
    assert Legal(w0, AddRule(0)) && Legal(w1, Send(0)) && Legal(w2, Receive(0));
    assert Next(w2, Receive(0)) == WokenWorld(x, r);
    hide Next, Legal;
    RunThree(w0, AddRule(0), Send(0), Receive(0));
  }

  lemma SecondOrphaned(x: string, r: Response)
    ensures var es := [Submit(x, "ls", 0), Register(1), CleanUp(0)];
            && LegalRun(WokenWorld(x, r), es)
            && var w := Run(WokenWorld(x, r), es);
               |w.calls| == 2 && w.calls[1].phase == Waiting && w.pending == map[] && !HasDecider(w, 1)
  {
    var w0, first := WokenWorld(x, r), Call(x, "ls", Woken(Denied(r)), []);
    var w1 := w0.(calls := [first, Call(x, "ls", Checked, [])]);
    var w2 := w0.(calls := [first, Call(x, "ls", Waiting, [])], pending := map[x := 1]);
    assert Next(w0, Submit(x, "ls", 0)).calls == w1.calls && Next(w0, Submit(x, "ls", 0)) == w1;
    assert Next(w1, Register(1)).calls == w2.calls && Next(w1, Register(1)) == w2;
    var w3 := Next(w2, CleanUp(0));
    assert |w3.calls| == 2 && w3.calls[1].phase == Waiting && w3.pending == map[] && !HasDecider(w3, 1);
    assert Legal(w0, Submit(x, "ls", 0)) && Legal(w1, Register(1)) && Legal(w2, CleanUp(0));
    hide Next, Legal, HasDecider;
    RunThree(w0, Submit(x, "ls", 0), Register(1), CleanUp(0));
  }
}
