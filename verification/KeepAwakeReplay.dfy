/** Exactly-once mutations: what the two result caches guarantee over runs. */
module KeepAwakeReplay {
  import opened Text
  import opened Decimal
  import opened FifoCache
  import opened KeepAwakeState
  import opened KeepAwakeLaws
  import opened KeepAwakeFingerprint
  import opened KeepAwakeCollision

  /** A request whose key has a stored result changes nothing: it gets that result if its
      hashed bytes are those of the first request, and a conflict otherwise. */
  lemma ReplayIsInert(s: State, r: Request, env: Env)
    requires WellFormed(r) && KeyOf(r) in s.idem.cache.entries
    ensures Mutate(s, r, env).0 == s
    ensures var entry := s.idem.cache.entries[KeyOf(r)];
            Mutate(s, r, env).1 == if entry.fingerprint == Fingerprint(r) then Replayed(entry.result)
                                   else Mismatched(Failure(s, "", Conflict))
  {
  }

  /** The step runs a mutation body, and so stores one result. */
  predicate Stores(m: Machine, e: Event) {
    e.Mutation? && Mutate(m.s, e.r, e.env).1.Done?
  }

  function Cost(m: Machine, e: Event): nat {
    if Stores(m, e) then 1 else 0
  }

  function StoresIn(m: Machine, es: seq<Event>): nat {
    if es == [] then 0 else StoresIn(m, es[..|es| - 1]) + Cost(Run(m, es[..|es| - 1]), es[|es| - 1])
  }

  lemma MutateStores(s: State, r: Request, env: Env)
    requires CachesOk(s.idem)
    ensures var (s', reply) := Mutate(s, r, env);
            if reply.Done? then
              KeyOf(r) !in s.idem.cache.entries &&
              s'.idem.cache == Store(s.idem.cache, MAX_IDEMPOTENCY, KeyOf(r), CacheEntry(Fingerprint(r), reply.outcome))
            else s'.idem.cache == s.idem.cache
  {
    if WellFormed(r) {
      BodyKeepsIdem(s.(idem := Reserve(s.idem, KeyOf(r), Fingerprint(r))), r, env);
    }
    hide Body, Fingerprint, Store;
  }

  lemma OthersKeepCache(m: Machine, e: Event)
    requires !e.Mutation?
    ensures NextState(m, e).idem.cache == m.s.idem.cache
  {
    if !TouchesIdem(e) {
      OthersKeepIdem(m, e);
    } else if e.PolicyApplied? && e.policyKey in m.tickets {
      ApplyKeepsCache(m.s, m.tickets[e.policyKey], e.env);
    }
  }

  lemma ApplyKeepsCache(s: State, t: Ticket, env: Env)
    ensures ApplyPolicy(s, t, env).idem.cache == s.idem.cache
  {
    var s1 := WithPolicy(s, s.config.policy.(remoteEnabled := t.remoteEnabled)).(
                audit := Audited(s.audit, AuditRecord(PolicyChangeOp, "cli", "", env.now)));
    PolicyKeepsIdem(s1, t.oldPolicy.remoteEnabled, t.remoteEnabled, "cli", env);
    hide RevokeForPolicy;
  }

  lemma StepCached(m: Machine, e: Event, key: CacheKey, entry: CacheEntry, stores: int)
    requires Inv(m) && Legal(m, e) && Cached(m.s.idem.cache, MAX_IDEMPOTENCY, key, entry, stores) && Cost(m, e) <= stores
    ensures Cached(NextState(m, e).idem.cache, MAX_IDEMPOTENCY, key, entry, stores - Cost(m, e))
  {
    if e.Mutation? {
      MutateStores(m.s, e.r, e.env);
      if Stores(m, e) {
        hide Mutate, Survives, Store, Agrees;
        StoreOther(m.s.idem.cache, MAX_IDEMPOTENCY, KeyOf(e.r),
                   CacheEntry(Fingerprint(e.r), Mutate(m.s, e.r, e.env).1.outcome), key, stores);
      }
    } else {
      OthersKeepCache(m, e);
    }
  }

  /** A stored result stays until as many other results were stored as it has places left. */
  lemma {:induction false} RunCached(m: Machine, es: seq<Event>, key: CacheKey, entry: CacheEntry, stores: int)
    requires Inv(m) && LegalRun(m, es) && Cached(m.s.idem.cache, MAX_IDEMPOTENCY, key, entry, stores) && StoresIn(m, es) <= stores
    ensures Cached(Run(m, es).s.idem.cache, MAX_IDEMPOTENCY, key, entry, stores - StoresIn(m, es))
    ensures Inv(Run(m, es))
  {
    hide Inv, Legal, LegalRun, NextState, NextTickets, Clock, Cached, Cost;
    if es != [] {
      var front := es[..|es| - 1];
      RunFront(m, es);
      RunCached(m, front, key, entry, stores);
      StepInv(Run(m, front), es[|es| - 1]);
      StepCached(Run(m, front), es[|es| - 1], key, entry, stores - StoresIn(m, front));
    }
  }

  lemma FirstRunCached(m: Machine, e: Event)
    requires Inv(m) && Legal(m, e) && Stores(m, e)
    ensures Inv(Next(m, e))
    ensures Cached(NextState(m, e).idem.cache, MAX_IDEMPOTENCY, KeyOf(e.r),
                   CacheEntry(Fingerprint(e.r), Mutate(m.s, e.r, e.env).1.outcome), MAX_IDEMPOTENCY - 1)
  {
    MutateStores(m.s, e.r, e.env);
    StepInv(m, e);
    hide Mutate, Legal, Store, Survives;
    StoreCached(m.s.idem.cache, MAX_IDEMPOTENCY, KeyOf(e.r),
                CacheEntry(Fingerprint(e.r), Mutate(m.s, e.r, e.env).1.outcome));
  }

  lemma CachedReplay(s: State, r: Request, env: Env, entry: CacheEntry, stores: int)
    requires WellFormed(r) && Cached(s.idem.cache, MAX_IDEMPOTENCY, KeyOf(r), entry, stores)
    ensures Mutate(s, r, env).0 == s
    ensures Mutate(s, r, env).1 ==
            if Fingerprint(r) == entry.fingerprint then Replayed(entry.result) else Mismatched(Failure(s, "", Conflict))
  {
    ReplayIsInert(s, r, env);
  }

  /** Main result, exactly once: when a mutation ran, and at most 255 other mutations ran
      since, a retry with the same key changes nothing; it gets the first result if the
      hashed bytes are the same, and a conflict otherwise. */
  lemma RetryIsReplay(m: Machine, e: Event, es: seq<Event>, retry: Request, env: Env)
    requires Inv(m) && Legal(m, e) && Stores(m, e) && LegalRun(Next(m, e), es)
    requires StoresIn(Next(m, e), es) < 256
    requires WellFormed(retry) && KeyOf(retry) == KeyOf(e.r)
    ensures var s := Run(Next(m, e), es).s;
            && Mutate(s, retry, env).0 == s
            && Mutate(s, retry, env).1 ==
               if Fingerprint(retry) == Fingerprint(e.r) then Replayed(Mutate(m.s, e.r, e.env).1.outcome)
               else Mismatched(Failure(s, "", Conflict))
  {
    hide Mutate, Cached, Inv, Legal, LegalRun, StoresIn, NextState, WellFormed, Fingerprint;
    FirstRunCached(m, e);
    var entry := CacheEntry(Fingerprint(e.r), Mutate(m.s, e.r, e.env).1.outcome);
    RunCached(Next(m, e), es, KeyOf(e.r), entry, MAX_IDEMPOTENCY - 1);
    CachedReplay(Run(Next(m, e), es).s, retry, env, entry, MAX_IDEMPOTENCY - 1 - StoresIn(Next(m, e), es));
  }

  /** Requests under one key are those of one device, one operation and one request id. */
  lemma KeysExactly(r: Request, other: Request)
    ensures KeyOf(r) == KeyOf(other) <==>
            r.deviceId == other.deviceId && r.operation == other.operation && r.requestId == other.requestId
  {
  }

  /** Two requests of one operation ask for the same thing: session and reason, and where they
      count the lease and the duration. */
  predicate SameRequest(r: Request, other: Request) {
    && r.sessionId == other.sessionId && r.reason == other.reason
    && (r.operation != EnableOp ==> r.leaseId == other.leaseId)
    && (r.operation != DisableOp ==> r.durationMs == other.durationMs)
  }

  lemma FieldsExactly(r: Request, other: Request)
    requires r.operation == other.operation && r.operation in {EnableOp, DisableOp, ExtendOp}
    requires r.operation != DisableOp ==> r.durationMs >= 0 && other.durationMs >= 0
    ensures Fields(r) == Fields(other) <==> SameRequest(r, other)
  {
    if r.operation != DisableOp {
      ValueOfItoa(r.durationMs);
      ValueOfItoa(other.durationMs);
      hide Itoa;
      if Fields(r) == Fields(other) {
        assert Fields(r)[1] == Fields(other)[1] && Fields(r)[2] == Fields(other)[2] && Fields(r)[3] == Fields(other)[3];
        assert r.operation == ExtendOp ==> Fields(r)[4] == Fields(other)[4];
      }
    } else if Fields(r) == Fields(other) {
      assert Fields(r)[1] == Fields(other)[1] && Fields(r)[2] == Fields(other)[2] && Fields(r)[3] == Fields(other)[3];
    }
  }

  lemma ParsedDuration(r: Request)
    requires Parsed(r)
    ensures r.operation in {EnableOp, DisableOp, ExtendOp} && (r.operation != DisableOp ==> r.durationMs >= 0)
  {
  }

  /** When the first request is not ambiguous, the retry gets the first result exactly when
      it asks for the same thing. */
  lemma RetryByFields(m: Machine, e: Event, es: seq<Event>, retry: Request, env: Env)
    requires Inv(m) && Legal(m, e) && Stores(m, e) && LegalRun(Next(m, e), es)
    requires StoresIn(Next(m, e), es) < 256
    requires Parsed(e.r) && Parsed(retry) && KeyOf(retry) == KeyOf(e.r) && !Ambiguous(e.r)
    ensures var s := Run(Next(m, e), es).s;
            && Mutate(s, retry, env).0 == s
            && Mutate(s, retry, env).1 ==
               if SameRequest(retry, e.r) then Replayed(Mutate(m.s, e.r, e.env).1.outcome)
               else Mismatched(Failure(s, "", Conflict))
  {
    hide Mutate, Inv, Legal, LegalRun, StoresIn, NextState, Ambiguous, Fields, WellFormed, NulJoined;
    SameKeyParsed(e.r, retry);
    RetryIsReplay(m, e, es, retry, env);
    ParsedDuration(e.r);
    ParsedDuration(retry);
    FieldsExactly(retry, e.r);
    if Fingerprint(retry) == Fingerprint(e.r) {
      UnambiguousIsIdentified(e.r, retry);
    }
  }

  lemma SameKeyParsed(r: Request, retry: Request)
    requires Parsed(r) && Parsed(retry) && KeyOf(retry) == KeyOf(r)
    ensures WellFormed(retry) && retry.operation == r.operation
  {
  }

  /** And when it is ambiguous, some request for something else is taken for its retry. */
  lemma RetryOfAnother(m: Machine, e: Event, es: seq<Event>, env: Env) returns (other: Request)
    requires Inv(m) && Legal(m, e) && Stores(m, e) && LegalRun(Next(m, e), es)
    requires StoresIn(Next(m, e), es) < 256
    requires Parsed(e.r) && Ambiguous(e.r)
    ensures Parsed(other) && KeyOf(other) == KeyOf(e.r) && Fields(other) != Fields(e.r)
    ensures var s := Run(Next(m, e), es).s;
            Mutate(s, other, env) == (s, Replayed(Mutate(m.s, e.r, e.env).1.outcome))
  {
    hide Mutate, Inv, Legal, LegalRun, StoresIn, NextState, Ambiguous, Fields, WellFormed, NulJoined;
    other := AmbiguousCollides(e.r);
    SameKeyParsed(e.r, other);
    RetryIsReplay(m, e, es, other, env);
  }

  const FIRST := Request(DisableOp, "d", "q", "s", "a\0b", 0, "c", true, "s")
  const SECOND := FIRST.(leaseId := "a", reason := "b\0c")

  /** Two disables of one device under one request id, for lease "a\0b" and for lease "a":
      the second gets the answer of the first. */
  lemma TwoDisablesCollide(clock: int, env: Env)
    requires clock <= env.now <= env.armAt && env.order == [] && env.order2 == []
    ensures Parsed(FIRST) && Parsed(SECOND) && KeyOf(FIRST) == KeyOf(SECOND) && Fields(FIRST) != Fields(SECOND)
    ensures Legal(Start(clock), Mutation(FIRST, env)) && Stores(Start(clock), Mutation(FIRST, env))
    ensures var s := NextState(Start(clock), Mutation(FIRST, env));
            Mutate(s, SECOND, env) == (s, Replayed(Mutate(INITIAL, FIRST, env).1.outcome))
  {
    TwoParsed();
    TwoDigested();
    assert Legal(Start(clock), Mutation(FIRST, env));
    FirstIsDone(env);
    StartInv(clock);
    hide Mutate, Legal, Inv, Parsed, KeyOf, Fields;
    RetryIsReplay(Start(clock), Mutation(FIRST, env), [], SECOND, env);
  }

  lemma TwoParsed()
    ensures Parsed(FIRST) && Parsed(SECOND) && WellFormed(SECOND)
  {
    TightExactly(FIRST.reason);
    TightExactly(SECOND.reason);
    BlankExactly("q");
    BlankExactly("s");
    BlankExactly(FIRST.leaseId);
    BlankExactly(SECOND.leaseId);
    assert FIRST.leaseId[0] == 'a' == SECOND.leaseId[0];
    assert "q"[0] == 'q' && "s"[0] == 's';
    hide Trim;
  }

  lemma TwoDigested()
    requires Parsed(FIRST) && Parsed(SECOND)
    ensures KeyOf(FIRST) == KeyOf(SECOND) && Fingerprint(FIRST) == Fingerprint(SECOND) && Fields(FIRST) != Fields(SECOND)
  {
    hide Parsed, Fingerprint;
    Digested(FIRST);
    Digested(SECOND);
    assert Core("s", "a\0b", "c") == "s" + "\0" + "a\0b\0c" == Core("s", "a", "b\0c");
  }

  lemma FirstIsDone(env: Env)
    requires WellFormed(FIRST)
    ensures Mutate(INITIAL, FIRST, env).1.Done?
  {
    hide WellFormed, Fingerprint, Body;
  }

  // ---------------------------------------------------------------------------
  // Policy mutations
  // ---------------------------------------------------------------------------

  /** No open policy mutation has a stored response. */
  predicate Unanswered(m: Machine) {
    forall k :: k in m.tickets ==> k !in m.s.idem.policyCache.entries
  }

  /** What the step stores in the policy cache: the response of a mutation that changes
      nothing, or of one that was applied. */
  function Answer(m: Machine, e: Event): Option<PolicyEntry> {
    match e
    case PolicyBegun(key, enabled, reason) =>
      var begin := BeginPolicy(m.s, key, enabled, reason).1;
      if begin.PolicyNoOp? then Some(PolicyEntry(PolicyFingerprint(enabled, reason), begin.noop)) else None
    case PolicyApplied(key, env) =>
      var s' := NextState(m, e);
      if key in m.tickets && AuditOk(m.s.audit, env, "") && !Revocation(m.s, m.tickets[key], env).failed
      then Some(PolicyEntry(m.tickets[key].fingerprint, PolicyResponse(s'.statusRevision, true)))
      else None
    case _ => None
  }

  /** The revocations of an applied policy mutation. */
  function Revocation(s: State, t: Ticket, env: Env): Swept {
    var s1 := WithPolicy(s, s.config.policy.(remoteEnabled := t.remoteEnabled)).(
                audit := Audited(s.audit, AuditRecord(PolicyChangeOp, "cli", "", env.now)));
    RevokeForPolicy(s1, t.oldPolicy.remoteEnabled, t.remoteEnabled, "cli", env)
  }

  /** The policy cache after a step, by what it stores. */
  ghost predicate Answers(m: Machine, e: Event) {
    var c, c' := m.s.idem.policyCache, NextState(m, e).idem.policyCache;
    match Answer(m, e)
    case None => c' == c
    case Some(entry) => e.policyKey !in c.entries && c' == Store(c, MAX_POLICY_IDEMPOTENCY, e.policyKey, entry)
  }

  lemma StepAnswers(m: Machine, e: Event)
    requires Inv(m) && Legal(m, e) && Unanswered(m)
    ensures Answer(m, e).Some? ==> e.PolicyBegun? || e.PolicyApplied?
    ensures Answers(m, e)
  {
    if e.Mutation? {
      MutatePolicyCache(m.s, e.r, e.env);
    } else if !TouchesIdem(e) {
      OthersKeepIdem(m, e);
    } else if e.PolicyApplied? {
      ApplyAnswers(m, e);
    } else {
      hide Inv, Legal, Store, PolicyFingerprint;
    }
  }

  lemma MutatePolicyCache(s: State, r: Request, env: Env)
    ensures Mutate(s, r, env).0.idem.policyCache == s.idem.policyCache
  {
    if WellFormed(r) {
      BodyKeepsIdem(s.(idem := Reserve(s.idem, KeyOf(r), Fingerprint(r))), r, env);
    }
    hide Body, Fingerprint, Store;
  }

  lemma ApplyAnswers(m: Machine, e: Event)
    requires TicketsOk(m) && e.PolicyApplied? && e.policyKey in m.tickets && Unanswered(m)
    ensures Answers(m, e)
  {
    var s, t, env := m.s, m.tickets[e.policyKey], e.env;
    var s1 := WithPolicy(s, s.config.policy.(remoteEnabled := t.remoteEnabled)).(
                audit := Audited(s.audit, AuditRecord(PolicyChangeOp, "cli", "", env.now)));
    PolicyKeepsIdem(s1, t.oldPolicy.remoteEnabled, t.remoteEnabled, "cli", env);
    hide RevokeForPolicy, Store;
  }

  lemma StepUnanswered(m: Machine, e: Event)
    requires Inv(m) && Legal(m, e) && Unanswered(m)
    ensures Unanswered(Next(m, e))
  {
    StepAnswers(m, e);
    hide Inv, Legal, Mutate, ApplyPolicy;
  }

  function AnswersIn(m: Machine, es: seq<Event>): nat {
    if es == [] then 0
    else AnswersIn(m, es[..|es| - 1]) + if Answer(Run(m, es[..|es| - 1]), es[|es| - 1]).Some? then 1 else 0
  }

  lemma StepPolicyCached(m: Machine, e: Event, key: PolicyKey, entry: PolicyEntry, stores: int)
    requires Inv(m) && Legal(m, e) && Unanswered(m)
    requires Cached(m.s.idem.policyCache, MAX_POLICY_IDEMPOTENCY, key, entry, stores)
    requires stores > 0 || Answer(m, e).None?
    ensures Cached(NextState(m, e).idem.policyCache, MAX_POLICY_IDEMPOTENCY, key, entry,
                   stores - if Answer(m, e).Some? then 1 else 0)
  {
    StepAnswers(m, e);
    hide Answer, NextState, Store, Agrees, Legal;
    if Answer(m, e).Some? {
      StoreOther(m.s.idem.policyCache, MAX_POLICY_IDEMPOTENCY, e.policyKey, Answer(m, e).value, key, stores);
    }
  }

  /** A stored response stays until as many others were stored as it has places left. */
  lemma {:induction false} RunPolicyCached(m: Machine, es: seq<Event>, key: PolicyKey, entry: PolicyEntry, stores: int)
    requires Inv(m) && LegalRun(m, es) && Unanswered(m)
    requires Cached(m.s.idem.policyCache, MAX_POLICY_IDEMPOTENCY, key, entry, stores) && AnswersIn(m, es) <= stores
    ensures Cached(Run(m, es).s.idem.policyCache, MAX_POLICY_IDEMPOTENCY, key, entry, stores - AnswersIn(m, es))
    ensures Inv(Run(m, es)) && Unanswered(Run(m, es))
  {
    hide Inv, Legal, LegalRun, NextState, NextTickets, Clock, Cached, Answer, Unanswered;
    if es != [] {
      var front := es[..|es| - 1];
      RunFront(m, es);
      RunPolicyCached(m, front, key, entry, stores);
      StepInv(Run(m, front), es[|es| - 1]);
      StepUnanswered(Run(m, front), es[|es| - 1]);
      StepPolicyCached(Run(m, front), es[|es| - 1], key, entry, stores - AnswersIn(m, front));
    }
  }

  /** A reservation stays as it was made until its own mutation is cancelled or applied. */
  lemma {:induction false} TicketKept(m: Machine, es: seq<Event>, key: PolicyKey)
    requires Inv(m) && LegalRun(m, es) && Unanswered(m) && key in m.tickets
    requires forall e :: e in es ==> e != PolicyCancelled(key) && !(e.PolicyApplied? && e.policyKey == key)
    ensures key in Run(m, es).tickets && Run(m, es).tickets[key] == m.tickets[key]
    ensures Inv(Run(m, es)) && Unanswered(Run(m, es))
  {
    hide Inv, Legal, LegalRun, NextState, NextTickets, Clock, Unanswered;
    if es != [] {
      var front, e := es[..|es| - 1], es[|es| - 1];
      RunFront(m, es);
      assert forall x :: x in front ==> x in es;
      TicketKept(m, front, key);
      StepInv(Run(m, front), e);
      StepUnanswered(Run(m, front), e);
      StepTicket(Run(m, front), e, key);
    }
  }

  lemma StepTicket(m: Machine, e: Event, key: PolicyKey)
    requires Inv(m) && key in m.tickets && e != PolicyCancelled(key) && !(e.PolicyApplied? && e.policyKey == key)
    ensures key in NextTickets(m, e) && NextTickets(m, e)[key] == m.tickets[key]
  {
  }

  /** The hashed bytes of a policy mutation tell what it asks for. */
  lemma PolicyFingerprintReads(enabled: bool, reason: string, enabled': bool, reason': string)
    ensures PolicyFingerprint(enabled, reason) == PolicyFingerprint(enabled', reason') <==>
            enabled == enabled' && reason == reason'
  {
    PolicyDigested(enabled, reason);
    PolicyDigested(enabled', reason');
    if PolicyFingerprint(enabled, reason) == PolicyFingerprint(enabled', reason') {
      var x, y := if enabled then "true" else "false", if enabled' then "true" else "false";
      hide PolicyFingerprint;
      CutOnce("policy_mutation", x + "\0" + reason, "policy_mutation", y + "\0" + reason');
      CleanHeads(x, reason, y, reason');
    }
  }

  lemma PolicyDigested(enabled: bool, reason: string)
    ensures PolicyFingerprint(enabled, reason) ==
            "policy_mutation" + "\0" + ((if enabled then "true" else "false") + "\0" + reason)
  {
    var x := if enabled then "true" else "false";
    JoinedCons("policy_mutation", [x, reason]);
    JoinedCons(x, [reason]);
  }

  lemma AnswerCached(m: Machine, e: Event)
    requires Inv(m) && Legal(m, e) && Unanswered(m) && Answer(m, e).Some?
    ensures e.PolicyBegun? || e.PolicyApplied?
    ensures Cached(NextState(m, e).idem.policyCache, MAX_POLICY_IDEMPOTENCY, e.policyKey, Answer(m, e).value,
                   MAX_POLICY_IDEMPOTENCY - 1)
  {
    StepAnswers(m, e);
    assert Agrees(m.s.idem.policyCache, MAX_POLICY_IDEMPOTENCY);
    hide Answer, NextState, Store, Agrees, Legal, Inv;
    StoreCached(m.s.idem.policyCache, MAX_POLICY_IDEMPOTENCY, e.policyKey, Answer(m, e).value);
  }

  lemma PolicyReplayed(s: State, key: PolicyKey, entry: PolicyEntry, stores: int, enabled: bool, reason: string)
    requires Cached(s.idem.policyCache, MAX_POLICY_IDEMPOTENCY, key, entry, stores)
    ensures BeginPolicy(s, key, enabled, reason) ==
            (s, if PolicyFingerprint(enabled, reason) == entry.fingerprint then PolicyReplay(entry.response)
                else PolicyConflict)
  {
    hide PolicyFingerprint;
  }

  /** A stored response is replayed, while at most 63 others were stored since, to a request
      under its key with the same hashed bytes; every other request under its key gets a
      conflict; neither changes anything. */
  lemma AnsweredIsReplayed(m: Machine, e: Event, es: seq<Event>, enabled: bool, reason: string)
    requires Inv(m) && Unanswered(m) && Legal(m, e) && Answer(m, e).Some? && LegalRun(Next(m, e), es)
    requires AnswersIn(Next(m, e), es) < 64
    ensures e.PolicyBegun? || e.PolicyApplied?
    ensures var s, entry := Run(Next(m, e), es).s, Answer(m, e).value;
            BeginPolicy(s, e.policyKey, enabled, reason) ==
            (s, if PolicyFingerprint(enabled, reason) == entry.fingerprint then PolicyReplay(entry.response)
                else PolicyConflict)
  {
    hide Inv, Legal, LegalRun, NextState, NextTickets, Clock, Cached, Unanswered, AnswersIn, PolicyFingerprint, Answer,
      BeginPolicy;
    AnswerCached(m, e);
    StepInv(m, e);
    StepUnanswered(m, e);
    var entry := Answer(m, e).value;
    RunPolicyCached(Next(m, e), es, e.policyKey, entry, MAX_POLICY_IDEMPOTENCY - 1);
    var left := MAX_POLICY_IDEMPOTENCY - 1 - AnswersIn(Next(m, e), es);
    PolicyReplayed(Run(Next(m, e), es).s, e.policyKey, entry, left, enabled, reason);
  }

  /** Main result for policy mutations: from its reservation to the end of the run the key
      stands for what was asked first.  Once it was applied, a retry that asks for the same
      thing gets the first response, and any other request under the key a conflict. */
  lemma PolicyRetryIsReplay(
    m: Machine, enabled: bool, reason: string, waiting: seq<Event>, applied: Event, es: seq<Event>,
    key: PolicyKey, enabled': bool, reason': string)
    requires Inv(m) && Unanswered(m) && Legal(m, PolicyBegun(key, enabled, reason))
    requires BeginPolicy(m.s, key, enabled, reason).1.PolicyReserved?
    requires var m1 := Next(m, PolicyBegun(key, enabled, reason));
             && LegalRun(m1, waiting)
             && (forall e :: e in waiting ==> e != PolicyCancelled(key) && !(e.PolicyApplied? && e.policyKey == key))
             && applied.PolicyApplied? && applied.policyKey == key && Legal(Run(m1, waiting), applied)
             && Answer(Run(m1, waiting), applied).Some?
             && LegalRun(Next(Run(m1, waiting), applied), es)
             && AnswersIn(Next(Run(m1, waiting), applied), es) < 64
    ensures var m2 := Run(Next(m, PolicyBegun(key, enabled, reason)), waiting);
            var s := Run(Next(m2, applied), es).s;
            BeginPolicy(s, key, enabled', reason') ==
            (s, if enabled' == enabled && reason' == reason then PolicyReplay(Answer(m2, applied).value.response)
                else PolicyConflict)
  {
    hide Inv, Legal, LegalRun, NextState, NextTickets, Clock, Cached, Unanswered, AnswersIn, PolicyFingerprint, Answer,
      BeginPolicy;
    var begun := PolicyBegun(key, enabled, reason);
    var m1 := Next(m, begun);
    StepInv(m, begun);
    StepUnanswered(m, begun);
    Reserved(m, key, enabled, reason);
    TicketKept(m1, waiting, key);
    var m2 := Run(m1, waiting);
    AppliedFingerprint(m2, applied);
    AnsweredIsReplayed(m2, applied, es, enabled', reason');
    PolicyFingerprintReads(enabled', reason', enabled, reason);
  }

  lemma Reserved(m: Machine, key: PolicyKey, enabled: bool, reason: string)
    requires BeginPolicy(m.s, key, enabled, reason).1.PolicyReserved?
    ensures var m1 := Next(m, PolicyBegun(key, enabled, reason));
            key in m1.tickets && m1.tickets[key].fingerprint == PolicyFingerprint(enabled, reason)
  {
    hide PolicyFingerprint;
  }

  lemma AppliedFingerprint(m: Machine, e: Event)
    requires e.PolicyApplied? && Answer(m, e).Some?
    ensures e.policyKey in m.tickets && Answer(m, e).value.fingerprint == m.tickets[e.policyKey].fingerprint
  {
  }
}
