/** The keep-awake control plane as a state machine over its critical sections, and what
    holds in every reachable state. */
module KeepAwakeLaws {
  import opened FifoCache
  import opened KeepAwakeState
  import opened KeepAwakeTable

  datatype Event =
    | Mutation(r: Request, env: Env)
    | StatusQuery(env: Env)
    | SummaryQuery(env: Env)
    | TimerFires(key: string, at: int)
    | TimerRuns(key: string, env: Env)
    | ClientConnected(deviceId: string, env: Env)
    | ClientDisconnected(deviceId: string, online: bool, env: Env)
    | DeviceRevoked(deviceId: string, env: Env)
    | PolicySet(policy: Policy, env: Env)
    | PolicyBegun(policyKey: PolicyKey, remoteEnabled: bool, reason: string)
    | PolicyCancelled(policyKey: PolicyKey)
    | PolicyApplied(policyKey: PolicyKey, env: Env)
    | GraceSet(grace: int)
    | MigrationFlagSet(failed: bool)
    | AuditWired
    | RuntimeWired
    | Stopped

  /** The control plane, the policy handlers between their two critical sections, and the
      latest clock reading. */
  datatype Machine = Machine(s: State, tickets: map<PolicyKey, Ticket>, clock: int)

  predicate HasEnv(e: Event) {
    e.Mutation? || e.StatusQuery? || e.SummaryQuery? || e.TimerRuns? || e.ClientConnected? ||
    e.ClientDisconnected? || e.DeviceRevoked? || e.PolicySet? || e.PolicyApplied?
  }

  function Clock(m: Machine, e: Event): int {
    if HasEnv(e) then e.env.armAt else if e.TimerFires? then e.at else m.clock
  }

  function Ticketed(m: Machine, key: PolicyKey, begin: PolicyBegin): map<PolicyKey, Ticket> {
    if begin.PolicyReserved? then m.tickets[key := begin.ticket] else m.tickets
  }

  function NextState(m: Machine, e: Event): State {
    match e
    case Mutation(r, env) => Mutate(m.s, r, env).0
    case StatusQuery(env) => Status(m.s, env)
    case SummaryQuery(env) => Reconcile(m.s, env)
    case TimerFires(key, _) => Fire(m.s, key)
    case TimerRuns(key, env) => OnTimer(m.s, key, env)
    case ClientConnected(d, env) => Connected(m.s, d, env)
    case ClientDisconnected(d, online, env) => Disconnected(m.s, d, online, env)
    case DeviceRevoked(d, env) => RevokeDevice(m.s, d, env)
    case PolicySet(p, env) => SetPolicy(m.s, p, env)
    case PolicyBegun(key, enabled, reason) => BeginPolicy(m.s, key, enabled, reason).0
    case PolicyCancelled(key) => CancelPolicy(m.s, key)
    case PolicyApplied(key, env) => if key in m.tickets then ApplyPolicy(m.s, m.tickets[key], env) else m.s
    case GraceSet(grace) => SetGrace(m.s, grace)
    case MigrationFlagSet(failed) => m.s.(config := m.s.config.(migrationFailed := failed))
    case AuditWired => m.s.(audit := m.s.audit.(writer := true))
    case RuntimeWired => m.s.(runtime := m.s.runtime.(wired := true))
    case Stopped => Shutdown(m.s)
  }

  function NextTickets(m: Machine, e: Event): map<PolicyKey, Ticket> {
    match e
    case PolicyBegun(key, enabled, reason) => Ticketed(m, key, BeginPolicy(m.s, key, enabled, reason).1)
    case PolicyCancelled(key) => m.tickets - {key}
    case PolicyApplied(key, _) => m.tickets - {key}
    case _ => m.tickets
  }

  function Next(m: Machine, e: Event): Machine {
    Machine(NextState(m, e), NextTickets(m, e), Clock(m, e))
  }

  /** What the environment guarantees: the clock does not go back, loops visit the whole
      table, only armed timers that are due fire, only queued runs execute, and only an
      open policy mutation is cancelled or applied. */
  ghost predicate Legal(m: Machine, e: Event) {
    && (HasEnv(e) ==>
          m.clock <= e.env.now <= e.env.armAt && Visits(e.env.order, m.s.table.leases) &&
          Visits(e.env.order2, Prune(m.s.table, e.env.order, e.env.now).leases))
    && (e.Mutation? ==> e.r.operation in {EnableOp, DisableOp, ExtendOp})
    && (e.TimerFires? ==>
          m.clock <= e.at && e.key in m.s.table.timers && m.s.table.timers[e.key].Armed? &&
          m.s.table.timers[e.key].deadline <= e.at)
    && (e.TimerRuns? ==> e.key in m.s.table.queued)
    && (e.PolicyCancelled? || e.PolicyApplied? ==> e.policyKey in m.tickets)
  }

  function Run(m: Machine, es: seq<Event>): Machine {
    if es == [] then m else Next(Run(m, es[..|es| - 1]), es[|es| - 1])
  }

  ghost predicate LegalRun(m: Machine, es: seq<Event>) {
    forall i :: 0 <= i < |es| ==> Legal(Run(m, es[..i]), es[i])
  }

  lemma RunFront(m: Machine, es: seq<Event>)
    requires es != [] && LegalRun(m, es)
    ensures LegalRun(m, es[..|es| - 1])
    ensures Legal(Run(m, es[..|es| - 1]), es[|es| - 1])
  {
    var front := es[..|es| - 1];
    forall i | 0 <= i < |front|
      ensures Legal(Run(m, front[..i]), front[i])
    {
      assert front[..i] == es[..i] && front[i] == es[i];
    }
  }

  // ---------------------------------------------------------------------------
  // The invariant
  // ---------------------------------------------------------------------------

  predicate TicketsOk(m: Machine) {
    && m.s.idem.policyInFlight == m.tickets.Keys
    && forall k :: k in m.tickets ==>
         m.tickets[k].key == k && m.tickets[k].remoteEnabled != m.tickets[k].oldPolicy.remoteEnabled
  }

  ghost predicate CachesOk(i: Idempotency) {
    && Agrees(i.cache, 256)
    && Agrees(i.policyCache, 64)
    && i.inFlight == map[]
  }

  /** Table, caches and reservations; see also Follows, RemoteOff and AllWatched. */
  ghost predicate Inv(m: Machine) {
    Sound(m.s.table, m.clock) && CachesOk(m.s.idem) && TicketsOk(m)
  }

  function Start(clock: int): Machine {
    Machine(INITIAL, map[], clock)
  }

  lemma StartInv(clock: int)
    ensures Inv(Start(clock)) && AllWatched(INITIAL.table, clock) && Follows(INITIAL) && RemoteOff(INITIAL)
  {
  }

  // ---------------------------------------------------------------------------
  // Table
  // ---------------------------------------------------------------------------

  /** The queue of expiry runs is not part of what Sound says. */
  lemma QueuedIrrelevant(t: Table, queued: multiset<string>, clock: int)
    requires Sound(t, clock)
    ensures Sound(t.(queued := queued), clock)
  {
  }

  /** The table after a reconciliation: the pruned one, or every lease of it removed. */
  lemma ReconcileTable(s: State, env: Env)
    requires Visits(env.order2, Prune(s.table, env.order, env.now).leases)
    ensures var t, t' := Prune(s.table, env.order, env.now), Reconcile(s, env).table;
            t' == t || (t' == RemoveEach(t, env.order2).(thresholdDisabled := true) && t'.leases == map[])
  {
    RemoveEachAll(Prune(s.table, env.order, env.now), env.order2);
    hide Prune, RemoveEach, ThresholdReached, AuditEach;
  }

  lemma ReconcileSound(s: State, env: Env, clock: int)
    requires Sound(s.table, clock) && Visits(env.order2, Prune(s.table, env.order, env.now).leases)
    ensures Sound(Reconcile(s, env).table, clock)
    ensures WatchedIf(Prune(s.table, env.order, env.now), Reconcile(s, env).table, clock)
  {
    var t := Prune(s.table, env.order, env.now);
    PruneSound(s.table, env.order, env.now, clock);
    ReconcileTable(s, env);
    RemoveEachSound(t, env.order2, clock);
    if Reconcile(s, env).table != t {
      FlagSound(RemoveEach(t, env.order2), clock);
    }
    hide Sound, AllWatched, Prune, RemoveEach, Reconcile;
  }

  lemma FlagSound(t: Table, clock: int)
    requires Sound(t, clock) && t.leases == map[]
    ensures Sound(t.(thresholdDisabled := true), clock) && AllWatched(t.(thresholdDisabled := true), clock)
  {
  }

  lemma SeqNoWatched(t: Table, n: nat, clock: int)
    requires Sound(t, clock) && t.nextLeaseSeq <= n
    ensures Sound(t.(nextLeaseSeq := n), clock) && WatchedIf(t, t.(nextLeaseSeq := n), clock)
  {
    forall k | k in t.leases
      ensures LeaseOk(k, t.leases[k], n, clock)
      ensures Watched(t.(nextLeaseSeq := n), k, clock) <==> Watched(t, k, clock)
    {
      assert LeaseOk(k, t.leases[k], t.nextLeaseSeq, clock);
      GeneratedMonotone(t.leases[k].leaseId, t.nextLeaseSeq, n);
    }
  }

  /** The table after an enable: as it was, with one id used up, or with the lease added. */
  lemma EnableTable(s: State, r: Request, env: Env)
    ensures var t, t' := s.table, EnableBody(s, r, env).0.table;
            var t1 := t.(nextLeaseSeq := t.nextLeaseSeq + 1);
            var id := LeaseId(t1.nextLeaseSeq);
            t' == t || t' == t1 || (LeaseKey(r.sessionId, r.deviceId, id) !in t.leases && t' == Added(t1, r, id, env))
  {
    hide Authorize, PowerAllowed, LeaseKey, LeaseId, Added, Audited, SetRuntime, AuditOk;
  }

  /** The table after a disable or extend: as it was, or with the admitted lease changed. */
  lemma MutateTable(s: State, r: Request, env: Env)
    ensures var t, t' := s.table, MutateBody(s, r, env).0.table;
            t' == t || exists key :: key in t.leases && t' == Mutated(t, key, r, env)
  {
    match Admit(s, r, env)
    case Refused(_) =>
    case Admitted(key) => assert key in s.table.leases && Mutated(s.table, key, r, env) == Mutated(s.table, key, r, env);
  }

  lemma MutatedSound(t: Table, key: string, r: Request, env: Env)
    requires Sound(t, env.armAt) && key in t.leases && env.now <= env.armAt
    requires r.operation == ExtendOp ==> DurationOk(r.durationMs)
    ensures Sound(Mutated(t, key, r, env), env.armAt) && WatchedIf(t, Mutated(t, key, r, env), env.armAt)
  {
    if r.operation == ExtendOp {
      PutSound(t, key, Extend(t.leases[key], r.durationMs, env.now), env.armAt);
    } else {
      RemoveSound(t, key, env.armAt);
    }
  }

  lemma EnableSound(s: State, r: Request, env: Env)
    requires Sound(s.table, env.armAt) && env.now <= env.armAt && DurationOk(r.durationMs)
    ensures var t' := EnableBody(s, r, env).0.table; Sound(t', env.armAt) && WatchedIf(s.table, t', env.armAt)
  {
    hide Sound, AllWatched, Added;
    EnableTable(s, r, env);
    SeqNoWatched(s.table, s.table.nextLeaseSeq + 1, env.armAt);
    AddedSound(s.table, r, env);
  }

  lemma MutateBodySound(s: State, r: Request, env: Env)
    requires Sound(s.table, env.armAt) && env.now <= env.armAt
    requires r.operation == ExtendOp ==> DurationOk(r.durationMs)
    ensures var t' := MutateBody(s, r, env).0.table; Sound(t', env.armAt) && WatchedIf(s.table, t', env.armAt)
  {
    MutateTable(s, r, env);
    var t' := MutateBody(s, r, env).0.table;
    if t' != s.table {
      var key :| key in s.table.leases && t' == Mutated(s.table, key, r, env);
      MutatedSound(s.table, key, r, env);
    }
  }

  /** A request that is refused before its body runs changes nothing; one that runs does
      what its body does, but for the result cache. */
  lemma MutateRuns(s: State, r: Request, env: Env)
    ensures var s' := Mutate(s, r, env).0;
            var key, fingerprint := KeyOf(r), Fingerprint(r);
            || s' == s
            || (&& WellFormed(r) && CheckOrBegin(s.idem, key, fingerprint) == Begun
                && s' == Body(s, r, env).0.(idem :=
                           Complete(Reserve(s.idem, key, fingerprint), key, fingerprint, Body(s, r, env).1)))
  {
    BodyIgnoresIdem(s, Reserve(s.idem, KeyOf(r), Fingerprint(r)), r, env);
  }

  lemma EnableIgnoresIdem(s: State, idem: Idempotency, r: Request, env: Env)
    ensures EnableBody(s.(idem := idem), r, env) == (EnableBody(s, r, env).0.(idem := idem), EnableBody(s, r, env).1)
    ensures EnableBody(s, r, env).0.idem == s.idem
  {
    hide Authorize, PowerAllowed, LeaseKey, LeaseId, Added, SetRuntime, AuditOk;
  }

  lemma MutateIgnoresIdem(s: State, idem: Idempotency, r: Request, env: Env)
    ensures MutateBody(s.(idem := idem), r, env) == (MutateBody(s, r, env).0.(idem := idem), MutateBody(s, r, env).1)
    ensures MutateBody(s, r, env).0.idem == s.idem
  {
    hide Mutated, SetRuntime, AuditOk, FindLease, Authorize, PowerAllowed;
    assert Admit(s.(idem := idem), r, env) == Admit(s, r, env);
  }

  lemma BodyIgnoresIdem(s: State, idem: Idempotency, r: Request, env: Env)
    ensures Body(s.(idem := idem), r, env) == (Body(s, r, env).0.(idem := idem), Body(s, r, env).1)
    ensures Body(s, r, env).0.idem == s.idem
  {
    hide EnableBody, MutateBody;
    EnableIgnoresIdem(s, idem, r, env);
    MutateIgnoresIdem(s, idem, r, env);
  }

  lemma MutateSound(s: State, r: Request, env: Env)
    requires Sound(s.table, env.armAt) && env.now <= env.armAt && r.operation in {EnableOp, DisableOp, ExtendOp}
    ensures var t' := Mutate(s, r, env).0.table; Sound(t', env.armAt) && WatchedIf(s.table, t', env.armAt)
  {
    MutateRuns(s, r, env);
    if WellFormed(r) {
      if r.operation == EnableOp {
        EnableSound(s, r, env);
      } else {
        MutateBodySound(s, r, env);
      }
    }
  }

  lemma ClearedSound(t: Table, clock: int)
    ensures Sound(t.(timers := map[], leases := map[]), clock)
    ensures AllWatched(t.(timers := map[], leases := map[]), clock)
  {
  }

  lemma RevokeForPolicySound(s: State, was: bool, now: bool, actor: string, env: Env, clock: int)
    requires Sound(s.table, clock)
    ensures var t' := RevokeForPolicy(s, was, now, actor, env).state.table;
            Sound(t', clock) && WatchedIf(s.table, t', clock)
  {
    SweepSound(Sweep(s.table, s.audit, false), env.order, actor, env, clock);
  }

  predicate ByClient(e: Event) {
    e.Mutation? || e.StatusQuery? || e.SummaryQuery? || e.ClientConnected? || e.ClientDisconnected? || e.DeviceRevoked?
  }

  lemma ClientStepSound(s: State, m: Machine, e: Event)
    requires m.s == s && ByClient(e) && Sound(s.table, e.env.armAt) && Legal(m, e)
    ensures var t' := NextState(m, e).table; Sound(t', e.env.armAt) && WatchedIf(s.table, t', e.env.armAt)
  {
    var env := e.env;
    assert Visits(env.order2, Prune(s.table, env.order, env.now).leases) && env.now <= env.armAt;
    assert e.Mutation? ==> e.r.operation in {EnableOp, DisableOp, ExtendOp};
    hide Sound, AllWatched, Prune, ConnectAll, DisconnectAll, RevokeAll, Reconcile, Legal, Visits, Mutate;
    match e {
      case Mutation(r, _) => MutateSound(s, r, env);
      case StatusQuery(_) => PruneSound(s.table, env.order, env.now, env.armAt);
      case SummaryQuery(_) =>
        ReconcileSound(s, env, env.armAt);
        PruneSound(s.table, env.order, env.now, env.armAt);
      case ClientConnected(d, _) => ConnectSound(s.table, env.order, d, env.armAt);
      case ClientDisconnected(d, _, _) => DisconnectSound(s.table, env.order, d, s.config.grace, env.now, env.armAt);
      case DeviceRevoked(d, _) => RevokeSound(Sweep(s.table, s.audit, false), env.order, d, env, env.armAt);
    }
  }

  /** Every critical section keeps the lease table sound. */
  lemma StepSound(m: Machine, e: Event)
    requires Inv(m) && Legal(m, e)
    ensures Sound(Next(m, e).s.table, Clock(m, e))
  {
    LaterClock(m.s.table, m.clock, Clock(m, e));
    if ByClient(e) {
      hide Sound, WatchedIf, Legal, NextState;
      ClientStepSound(m.s, m, e);
    } else {
      OtherStepSound(m, e);
    }
  }

  lemma OtherStepSound(m: Machine, e: Event)
    requires Inv(m) && Legal(m, e) && !ByClient(e) && Sound(m.s.table, Clock(m, e))
    ensures Sound(NextState(m, e).table, Clock(m, e))
  {
    hide Sound, WatchedIf, AllWatched, Visits, OnTimer, SetPolicy, ApplyPolicy;
    match e {
      case TimerFires(key, at) => FireSound(m.s, key, at);
      case TimerRuns(key, env) => TimerRunSound(m, key, env);
      case PolicySet(p, env) => SetPolicySound(m.s, p, env);
      case PolicyApplied(key, env) => ApplyPolicySound(m.s, m.tickets[key], env);
      case Stopped => ShutdownSound(m.s, m.clock);
      case _ =>
    }
  }

  lemma FireSound(s: State, key: string, at: int)
    requires Sound(s.table, at) && key in s.table.timers && s.table.timers[key].Armed? && s.table.timers[key].deadline <= at
    ensures Sound(Fire(s, key).table, at) && WatchedIf(s.table, Fire(s, key).table, at)
  {
    var t, t' := s.table, Fire(s, key).table;
    if AllWatched(t, at) {
      forall k | k in t'.leases
        ensures Watched(t', k, at)
      {
        assert Watched(t, k, at);
      }
    }
  }

  lemma ShutdownSound(s: State, clock: int)
    requires Sound(s.table, clock)
    ensures Sound(Shutdown(s).table, clock)
  {
  }

  lemma WatchedSelf(t: Table, clock: int)
    ensures WatchedIf(t, t, clock)
  {
  }

  lemma SetPolicySound(s: State, p: Policy, env: Env)
    requires Sound(s.table, env.armAt)
    ensures var t' := SetPolicy(s, p, env).table; Sound(t', env.armAt) && WatchedIf(s.table, t', env.armAt)
  {
    hide Sound, AllWatched, RevokeForPolicy;
    WatchedSelf(s.table, env.armAt);
    var w := RevokeForPolicy(WithPolicy(s, p), s.config.policy.remoteEnabled, p.remoteEnabled, "system", env);
    RevokeForPolicySound(WithPolicy(s, p), s.config.policy.remoteEnabled, p.remoteEnabled, "system", env, env.armAt);
    ClearedSound(w.state.table, env.armAt);
  }

  lemma ApplyPolicySound(s: State, t: Ticket, env: Env)
    requires Sound(s.table, env.armAt)
    ensures var t' := ApplyPolicy(s, t, env).table; Sound(t', env.armAt) && WatchedIf(s.table, t', env.armAt)
  {
    if AuditOk(s.audit, env, "") {
      var s1 := WithPolicy(s, s.config.policy.(remoteEnabled := t.remoteEnabled)).(
                  audit := Audited(s.audit, AuditRecord(PolicyChangeOp, "cli", "", env.now)));
      RevokeForPolicySound(s1, t.oldPolicy.remoteEnabled, t.remoteEnabled, "cli", env, env.armAt);
      ClearedSound(RevokeForPolicy(s1, t.oldPolicy.remoteEnabled, t.remoteEnabled, "cli", env).state.table, env.armAt);
    }
  }

  /** Dropping a queued run from the table leaves the pruned leases the same. */
  lemma {:induction false} PruneQueued(t: Table, queued: multiset<string>, order: seq<string>, now: int)
    ensures Prune(t.(queued := queued), order, now) == Prune(t, order, now).(queued := queued)
  {
    if order != [] {
      PruneQueued(t, queued, order[..|order| - 1], now);
    }
  }

  lemma TimerRunSound(m: Machine, key: string, env: Env)
    requires Inv(m) && Legal(m, TimerRuns(key, env))
    ensures Sound(OnTimer(m.s, key, env).table, env.armAt)
  {
    var t := m.s.table;
    var queued := t.queued - multiset{key};
    LaterClock(t, m.clock, env.armAt);
    QueuedIrrelevant(t, queued, env.armAt);
    PruneQueued(t, queued, env.order, env.now);
    ReconcileSound(m.s.(table := t.(queued := queued)), env, env.armAt);
  }

  // ---------------------------------------------------------------------------
  // Caches and reservations
  // ---------------------------------------------------------------------------

  lemma BodyKeepsIdem(s: State, r: Request, env: Env)
    ensures Body(s, r, env).0.idem == s.idem
  {
  }

  lemma MutateIdem(s: State, r: Request, env: Env)
    requires CachesOk(s.idem)
    ensures CachesOk(Mutate(s, r, env).0.idem) && !Mutate(s, r, env).1.Waits?
    ensures Mutate(s, r, env).0.idem.policyInFlight == s.idem.policyInFlight
  {
    if WellFormed(r) && CheckOrBegin(s.idem, KeyOf(r), Fingerprint(r)) == Begun {
      var key, fingerprint := KeyOf(r), Fingerprint(r);
      var s1 := s.(idem := Reserve(s.idem, key, fingerprint));
      BodyKeepsIdem(s1, r, env);
      StoreAgrees(s.idem.cache, MAX_IDEMPOTENCY, key, CacheEntry(fingerprint, Body(s1, r, env).1));
      assert s1.idem.inFlight - {key} == map[];
    }
  }

  lemma PolicyKeepsIdem(s: State, was: bool, now: bool, actor: string, env: Env)
    ensures RevokeForPolicy(s, was, now, actor, env).state.idem == s.idem
  {
  }

  predicate TouchesIdem(e: Event) {
    e.Mutation? || e.PolicyBegun? || e.PolicyCancelled? || e.PolicyApplied?
  }

  lemma OthersKeepIdem(m: Machine, e: Event)
    requires !TouchesIdem(e)
    ensures NextState(m, e).idem == m.s.idem
  {
    if e.PolicySet? {
      PolicyKeepsIdem(WithPolicy(m.s, e.policy), m.s.config.policy.remoteEnabled, e.policy.remoteEnabled, "system", e.env);
    }
  }

  lemma BeginIdem(m: Machine, key: PolicyKey, enabled: bool, reason: string)
    requires CachesOk(m.s.idem) && TicketsOk(m)
    ensures CachesOk(BeginPolicy(m.s, key, enabled, reason).0.idem)
    ensures TicketsOk(Next(m, PolicyBegun(key, enabled, reason)))
  {
    hide Agrees, Store;
    StoreAgrees(m.s.idem.policyCache, MAX_POLICY_IDEMPOTENCY, key,
                PolicyEntry(PolicyFingerprint(enabled, reason), PolicyResponse(m.s.statusRevision, false)));
  }

  /** Reservations are discharged on every path: no lease mutation is in flight while the
      lock is free, and the policy keys in flight are those of the open handlers. */
  lemma StepIdem(m: Machine, e: Event)
    requires Inv(m) && Legal(m, e)
    ensures CachesOk(Next(m, e).s.idem) && TicketsOk(Next(m, e))
  {
    hide Sound, CachesOk, Visits, Mutate, BeginPolicy, ApplyPolicy;
    assert CachesOk(m.s.idem) && TicketsOk(m);
    if !TouchesIdem(e) {
      OthersKeepIdem(m, e);
    } else {
      TouchedIdem(m, e);
    }
  }

  lemma TouchedIdem(m: Machine, e: Event)
    requires CachesOk(m.s.idem) && TicketsOk(m) && Legal(m, e) && TouchesIdem(e)
    ensures CachesOk(NextState(m, e).idem) && TicketsOk(Next(m, e))
  {
    hide Visits, Agrees, Mutate, BeginPolicy, ApplyPolicy;
    match e {
      case Mutation(r, env) => MutateIdem(m.s, r, env);
      case PolicyBegun(key, enabled, reason) => BeginIdem(m, key, enabled, reason);
      case PolicyApplied(key, env) => ApplyIdem(m.s, m.tickets[key], env);
      case PolicyCancelled(key) =>
    }
  }

  lemma ApplyIdem(s: State, t: Ticket, env: Env)
    requires CachesOk(s.idem)
    ensures CachesOk(ApplyPolicy(s, t, env).idem)
    ensures ApplyPolicy(s, t, env).idem.policyInFlight == s.idem.policyInFlight - {t.key}
  {
    if AuditOk(s.audit, env, "") {
      var s1 := WithPolicy(s, s.config.policy.(remoteEnabled := t.remoteEnabled)).(
                  audit := Audited(s.audit, AuditRecord(PolicyChangeOp, "cli", "", env.now)));
      PolicyKeepsIdem(s1, t.oldPolicy.remoteEnabled, t.remoteEnabled, "cli", env);
      var w := RevokeForPolicy(s1, t.oldPolicy.remoteEnabled, t.remoteEnabled, "cli", env);
      StoreAgrees(s.idem.policyCache, MAX_POLICY_IDEMPOTENCY, t.key,
                  PolicyEntry(t.fingerprint, PolicyResponse(w.state.statusRevision + 1, true)));
    }
  }

  lemma StepInv(m: Machine, e: Event)
    requires Inv(m) && Legal(m, e)
    ensures Inv(Next(m, e))
  {
    StepSound(m, e);
    StepIdem(m, e);
  }

  /** Main invariant: it holds in every reachable state. */
  lemma {:induction false} AlwaysInv(clock: int, es: seq<Event>)
    requires LegalRun(Start(clock), es)
    ensures Inv(Run(Start(clock), es))
  {
    if es == [] {
      StartInv(clock);
    } else {
      RunFront(Start(clock), es);
      AlwaysInv(clock, es[..|es| - 1]);
      StepInv(Run(Start(clock), es[..|es| - 1]), es[|es| - 1]);
    }
  }

  // ---------------------------------------------------------------------------
  // The runtime follows the lease table
  // ---------------------------------------------------------------------------

  function LastRequest(rt: Runtime): bool {
    rt.requests != [] && rt.requests[|rt.requests| - 1]
  }

  /** The last value passed to the runtime manager is "some lease is in the table". */
  predicate Follows(s: State) {
    s.runtime.wired ==> (LastRequest(s.runtime) <==> s.table.leases != map[])
  }

  /** The manager is wired while no lease is there, or was wired before. */
  predicate WiresInTime(m: Machine, e: Event) {
    e.RuntimeWired? && !m.s.runtime.wired ==>
      (LastRequest(m.s.runtime) <==> m.s.table.leases != map[])
  }

  lemma RevokeForPolicyFollows(s: State, was: bool, now: bool, actor: string, env: Env)
    requires Follows(s) && Visits(env.order, s.table.leases)
    ensures var w := RevokeForPolicy(s, was, now, actor, env);
            (!w.failed ==> Follows(w.state)) && (w.failed ==> w.state.runtime == s.runtime)
    ensures var w := RevokeForPolicy(s, was, now, actor, env);
            was && !now && !w.failed ==> w.state.table.leases == map[]
  {
    if was && !now && s.table.leases != map[] {
      var w := SweepAll(Sweep(s.table, s.audit, false), env.order, actor, env);
      if !w.failed {
        SweepClears(Sweep(s.table, s.audit, false), env.order, actor, env);
      }
    }
  }

  lemma ReconcileFollows(s: State, env: Env)
    requires Follows(s)
    ensures Follows(Reconcile(s, env))
  {
  }

  lemma MutateFollows(s: State, r: Request, env: Env)
    requires Follows(s)
    ensures Follows(Mutate(s, r, env).0)
  {
    MutateRuns(s, r, env);
    hide Mutate;
    if r.operation == EnableOp {
      EnableFollows(s, r, env);
    } else {
      MutateBodyFollows(s, r, env);
    }
  }

  lemma EnableFollows(s: State, r: Request, env: Env)
    requires Follows(s)
    ensures Follows(EnableBody(s, r, env).0)
  {
    hide Authorize, PowerAllowed, LeaseKey, LeaseId, Added, AuditOk;
  }

  lemma MutateBodyFollows(s: State, r: Request, env: Env)
    requires Follows(s)
    ensures Follows(MutateBody(s, r, env).0)
  {
    hide Admit, Mutated, AuditOk;
  }

  lemma SetPolicyFollows(s: State, p: Policy, env: Env)
    requires Follows(s) && Visits(env.order, s.table.leases)
    ensures Follows(SetPolicy(s, p, env))
  {
    RevokeForPolicyFollows(WithPolicy(s, p), s.config.policy.remoteEnabled, p.remoteEnabled, "system", env);
  }

  lemma ApplyPolicyFollows(s: State, t: Ticket, env: Env)
    requires Follows(s) && Visits(env.order, s.table.leases)
    ensures Follows(ApplyPolicy(s, t, env))
  {
    var s1 := WithPolicy(s, s.config.policy.(remoteEnabled := t.remoteEnabled)).(
                audit := Audited(s.audit, AuditRecord(PolicyChangeOp, "cli", "", env.now)));
    RevokeForPolicyFollows(s1, t.oldPolicy.remoteEnabled, t.remoteEnabled, "cli", env);
  }

  lemma ClientFollows(m: Machine, e: Event)
    requires Follows(m.s) && ByClient(e)
    ensures Follows(NextState(m, e))
  {
    hide Follows, Reconcile, Mutate, Changed, Prune, ConnectAll, DisconnectAll, RevokeAll;
    match e {
      case Mutation(r, env) => MutateFollows(m.s, r, env);
      case SummaryQuery(env) => ReconcileFollows(m.s, env);
      case StatusQuery(env) => UpdateFollows(m.s, Prune(m.s.table, env.order, env.now), m.s.audit, env);
      case ClientConnected(d, env) => UpdateFollows(m.s, ConnectAll(m.s.table, env.order, d, env.armAt), m.s.audit, env);
      case ClientDisconnected(d, _, env) =>
        UpdateFollows(m.s, DisconnectAll(m.s.table, env.order, d, m.s.config.grace, env.now, env.armAt), m.s.audit, env);
      case DeviceRevoked(d, env) =>
        var w := RevokeAll(Sweep(m.s.table, m.s.audit, false), env.order, d, env);
        UpdateFollows(m.s, w.table, w.audit, env);
    }
  }

  lemma UpdateFollows(s: State, t: Table, a: Audit, env: Env)
    requires Follows(s)
    ensures Follows(Update(s, t, a, env))
  {
  }

  lemma OtherFollows(m: Machine, e: Event)
    requires Follows(m.s) && !ByClient(e) && Legal(m, e)
    ensures Follows(NextState(m, e)) <==> WiresInTime(m, e)
  {
    hide Reconcile, SetPolicy, ApplyPolicy, Prune;
    match e {
      case TimerRuns(key, env) =>
        ReconcileFollows(m.s.(table := m.s.table.(queued := m.s.table.queued - multiset{key})), env);
      case PolicySet(p, env) => SetPolicyFollows(m.s, p, env);
      case PolicyApplied(key, env) => ApplyPolicyFollows(m.s, m.tickets[key], env);
      case _ =>
    }
  }

  /** Each critical section leaves the runtime in step with the table, provided the
      manager is not wired too late; and then only. */
  lemma StepFollows(m: Machine, e: Event)
    requires Follows(m.s) && Legal(m, e)
    ensures Follows(Next(m, e).s) <==> WiresInTime(m, e)
  {
    hide Follows, Legal, NextState;
    if ByClient(e) {
      ClientFollows(m, e);
    } else {
      OtherFollows(m, e);
    }
  }

  ghost predicate WiredInTime(m: Machine, es: seq<Event>) {
    forall i :: 0 <= i < |es| ==> WiresInTime(Run(m, es[..i]), es[i])
  }

  lemma {:induction false} RuntimeAlwaysFollows(clock: int, es: seq<Event>)
    requires LegalRun(Start(clock), es) && WiredInTime(Start(clock), es)
    ensures Follows(Run(Start(clock), es).s)
  {
    if es != [] {
      var front := es[..|es| - 1];
      RunFront(Start(clock), es);
      forall i | 0 <= i < |front|
        ensures WiresInTime(Run(Start(clock), front[..i]), front[i])
      {
        assert front[..i] == es[..i] && front[i] == es[i];
      }
      RuntimeAlwaysFollows(clock, front);
      assert WiresInTime(Run(Start(clock), front), es[|es| - 1]);
      StepFollows(Run(Start(clock), front), es[|es| - 1]);
    }
  }

  // ---------------------------------------------------------------------------
  // Remote control switched off
  // ---------------------------------------------------------------------------

  predicate RemoteOff(s: State) {
    !s.config.policy.remoteEnabled ==> s.table.leases == map[]
  }

  /** The two ways the policy can be switched off without the revoke loop: the bootstrap
      seed, and the rollback of an enable whose audit write failed. */
  predicate OffWithoutLeases(m: Machine, e: Event) {
    && (e.PolicySet? && !m.s.config.policySet && !e.policy.remoteEnabled ==> m.s.table.leases == map[])
    && ((e.PolicyApplied? && e.policyKey in m.tickets && !AuditOk(m.s.audit, e.env, "") &&
         !m.tickets[e.policyKey].oldPolicy.remoteEnabled) ==> m.s.table.leases == map[])
  }
}
