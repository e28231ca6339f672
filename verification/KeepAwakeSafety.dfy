/** Expiry over whole runs of the keep-awake control plane: every lease is watched, its
    expiry moves only by a grant, and no lease outlives its last grant by eight hours. */
module KeepAwakeSafety {
  import opened KeepAwakeState
  import opened KeepAwakeTable
  import opened KeepAwakeLaws

  // ---------------------------------------------------------------------------
  // Every lease is watched
  // ---------------------------------------------------------------------------

  /** An expiry run leaves no lease that only it watched. */
  lemma TimerRunWatched(m: Machine, key: string, env: Env)
    requires Inv(m) && Legal(m, TimerRuns(key, env)) && AllWatched(m.s.table, m.clock)
    ensures AllWatched(OnTimer(m.s, key, env).table, env.armAt)
  {
    var t := m.s.table;
    var queued := t.queued - multiset{key};
    var s1 := m.s.(table := t.(queued := queued));
    PruneQueued(t, queued, env.order, env.now);
    PrunedWatched(t, queued, env.order, env.now, m.clock, env.armAt);
    LaterClock(t, m.clock, env.armAt);
    QueuedIrrelevant(t, queued, env.armAt);
    hide Sound, AllWatched, Visits, Prune, Reconcile;
    ReconcileSound(s1, env, env.armAt);
  }

  lemma PrunedWatched(t: Table, queued: multiset<string>, order: seq<string>, now: int, clock: int, later: int)
    requires Sound(t, clock) && AllWatched(t, clock) && Visits(order, t.leases) && clock <= now
    ensures AllWatched(Prune(t, order, now).(queued := queued), later)
  {
    var p := Prune(t, order, now);
    PruneSound(t, order, now, clock);
    PruneLeavesNoneDue(t, order, now, clock);
    forall k | k in p.leases
      ensures Watched(p.(queued := queued), k, later)
    {
      assert Watched(p, k, clock);
      assert LeaseOk(k, t.leases[k], t.nextLeaseSeq, clock);
      DueIsOver(t.leases[k], now);
    }
  }

  lemma StepWatched(m: Machine, e: Event)
    requires Inv(m) && Legal(m, e) && AllWatched(m.s.table, m.clock) && !e.Stopped?
    ensures AllWatched(Next(m, e).s.table, Clock(m, e))
  {
    LaterClock(m.s.table, m.clock, Clock(m, e));
    if ByClient(e) {
      hide Sound, AllWatched, Legal, NextState;
      ClientStepSound(m.s, m, e);
    } else {
      OtherStepWatched(m, e);
    }
  }

  lemma OtherStepWatched(m: Machine, e: Event)
    requires Inv(m) && Legal(m, e) && !ByClient(e) && !e.Stopped?
    requires AllWatched(m.s.table, m.clock) && AllWatched(m.s.table, Clock(m, e)) && Sound(m.s.table, Clock(m, e))
    ensures AllWatched(NextState(m, e).table, Clock(m, e))
  {
    hide Sound, AllWatched, Visits, OnTimer, SetPolicy, ApplyPolicy;
    match e {
      case TimerFires(key, at) => FireSound(m.s, key, at);
      case TimerRuns(key, env) => TimerRunWatched(m, key, env);
      case PolicySet(p, env) => SetPolicySound(m.s, p, env);
      case PolicyApplied(key, env) => ApplyPolicySound(m.s, m.tickets[key], env);
      case _ =>
    }
  }

  /** Main result: until shutdown, every lease has a timer armed at exactly its deadline,
      or is due and has an expiry run on its way. */
  lemma {:induction false} AlwaysWatched(clock: int, es: seq<Event>)
    requires LegalRun(Start(clock), es) && forall e :: e in es ==> !e.Stopped?
    ensures AllWatched(Run(Start(clock), es).s.table, Run(Start(clock), es).clock)
  {
    if es == [] {
      StartInv(clock);
    } else {
      var front := es[..|es| - 1];
      RunFront(Start(clock), es);
      assert forall e :: e in front ==> e in es;
      AlwaysWatched(clock, front);
      AlwaysInv(clock, front);
      hide Sound, AllWatched, Legal, LegalRun, NextState;
      StepWatched(Run(Start(clock), front), es[|es| - 1]);
    }
  }

  predicate Prunes(e: Event) {
    e.StatusQuery? || e.SummaryQuery? || e.TimerRuns?
  }

  ghost predicate Submap(a: map<string, Lease>, b: map<string, Lease>) {
    forall k :: k in a ==> k in b && a[k] == b[k]
  }

  lemma {:induction false} RemoveEachShrinks(t: Table, order: seq<string>)
    ensures Submap(RemoveEach(t, order).leases, t.leases)
  {
    if order != [] {
      RemoveEachShrinks(t, order[..|order| - 1]);
    }
  }

  lemma ReconcileShrinks(s: State, env: Env)
    ensures Submap(Reconcile(s, env).table.leases, Prune(s.table, env.order, env.now).leases)
  {
    RemoveEachShrinks(Prune(s.table, env.order, env.now), env.order2);
  }

  /** Once an expiry run, a status query or a summary executed, no lease past its deadline
      is left. */
  lemma NoneDueAfter(m: Machine, e: Event)
    requires Inv(m) && Legal(m, e) && Prunes(e)
    ensures forall k :: k in Next(m, e).s.table.leases ==> !Over(Next(m, e).s.table.leases[k], e.env.now)
  {
    var env := e.env;
    var queued := if e.TimerRuns? then m.s.table.queued - multiset{e.key} else m.s.table.queued;
    PruneQueued(m.s.table, queued, env.order, env.now);
    PruneLeavesNoneDue(m.s.table, env.order, env.now, m.clock);
    if !e.StatusQuery? {
      ReconcileShrinks(m.s.(table := m.s.table.(queued := queued)), env);
    }
  }

  // ---------------------------------------------------------------------------
  // Only a grant sets an expiry
  // ---------------------------------------------------------------------------

  /** Every lease of b was in a, with the same session, device, id and expiry. */
  ghost predicate Inherits(b: map<string, Lease>, a: map<string, Lease>) {
    forall k :: k in b ==> k in a && SameIdentity(a[k], b[k]) && a[k].expiresAt == b[k].expiresAt
  }

  lemma PruneInherits(t: Table, order: seq<string>, now: int)
    ensures Inherits(Prune(t, order, now).leases, t.leases)
  {
    PruneExact(t, order, now);
  }

  lemma {:induction false} ConnectInherits(t: Table, order: seq<string>, deviceId: string, armAt: int)
    ensures Inherits(ConnectAll(t, order, deviceId, armAt).leases, t.leases)
  {
    if order != [] {
      ConnectInherits(t, order[..|order| - 1], deviceId, armAt);
    }
  }

  lemma {:induction false} DisconnectInherits(t: Table, order: seq<string>, deviceId: string, grace: int, now: int, armAt: int)
    ensures Inherits(DisconnectAll(t, order, deviceId, grace, now, armAt).leases, t.leases)
  {
    if order != [] {
      DisconnectInherits(t, order[..|order| - 1], deviceId, grace, now, armAt);
    }
  }

  lemma {:induction false} RevokeInherits(w: Sweep, order: seq<string>, deviceId: string, env: Env)
    ensures Inherits(RevokeAll(w, order, deviceId, env).table.leases, w.table.leases)
  {
    if order != [] {
      RevokeInherits(w, order[..|order| - 1], deviceId, env);
    }
  }

  lemma {:induction false} SweepInherits(w: Sweep, order: seq<string>, actor: string, env: Env)
    ensures Inherits(SweepAll(w, order, actor, env).table.leases, w.table.leases)
  {
    if order != [] {
      SweepInherits(w, order[..|order| - 1], actor, env);
    }
  }

  lemma ReconcileInherits(s: State, env: Env)
    ensures Inherits(Reconcile(s, env).table.leases, s.table.leases)
  {
    PruneInherits(s.table, env.order, env.now);
    ReconcileShrinks(s, env);
  }

  lemma InheritsSelf(leases: map<string, Lease>)
    ensures Inherits(leases, leases) && Inherits(map[], leases)
  {
  }

  lemma SetPolicyInherits(s: State, p: Policy, env: Env)
    ensures Inherits(SetPolicy(s, p, env).table.leases, s.table.leases)
  {
    hide Inherits, SweepAll;
    InheritsSelf(s.table.leases);
    SweepInherits(Sweep(s.table, s.audit, false), env.order, "system", env);
  }

  lemma ApplyPolicyInherits(s: State, t: Ticket, env: Env)
    ensures Inherits(ApplyPolicy(s, t, env).table.leases, s.table.leases)
  {
    SweepInherits(Sweep(s.table, Audited(s.audit, AuditRecord(PolicyChangeOp, "cli", "", env.now)), false),
                  env.order, "cli", env);
  }

  lemma OnTimerInherits(s: State, key: string, env: Env)
    ensures Inherits(OnTimer(s, key, env).table.leases, s.table.leases)
  {
    ReconcileInherits(s.(table := s.table.(queued := s.table.queued - multiset{key})), env);
  }

  /** Nothing but a lease mutation adds a lease or changes its owner or expiry. */
  lemma OthersInherit(m: Machine, e: Event)
    requires !e.Mutation?
    ensures Inherits(NextState(m, e).table.leases, m.s.table.leases)
  {
    hide Inherits, Prune, ConnectAll, DisconnectAll, RevokeAll, Reconcile, OnTimer, SetPolicy, ApplyPolicy, Mutate;
    InheritsSelf(m.s.table.leases);
    match e {
      case StatusQuery(env) => PruneInherits(m.s.table, env.order, env.now);
      case SummaryQuery(env) => ReconcileInherits(m.s, env);
      case TimerRuns(key, env) => OnTimerInherits(m.s, key, env);
      case ClientConnected(d, env) => ConnectInherits(m.s.table, env.order, d, env.armAt);
      case ClientDisconnected(d, _, env) =>
        DisconnectInherits(m.s.table, env.order, d, m.s.config.grace, env.now, env.armAt);
      case DeviceRevoked(d, env) => RevokeInherits(Sweep(m.s.table, m.s.audit, false), env.order, d, env);
      case PolicySet(p, env) => SetPolicyInherits(m.s, p, env);
      case PolicyApplied(key, env) => if key in m.tickets { ApplyPolicyInherits(m.s, m.tickets[key], env); }
      case _ =>
    }
  }

  /** The step gives lease k a new expiry: an enable that adds it, or an extend of it. */
  predicate Grants(m: Machine, e: Event, k: string) {
    && e.Mutation?
    && k in Next(m, e).s.table.leases
    && Next(m, e).s.table.leases[k].expiresAt == e.env.now + e.r.durationMs * MS
    && DurationOk(e.r.durationMs)
    && (if k in m.s.table.leases then e.r.operation == ExtendOp else e.r.operation == EnableOp)
  }

  lemma AddedLeases(t: Table, r: Request, leaseId: string, env: Env)
    ensures Added(t, r, leaseId, env).leases ==
            t.leases[LeaseKey(r.sessionId, r.deviceId, leaseId) := NewLease(r, leaseId, env.now)]
  {
  }

  lemma EnableGrants(s: State, r: Request, env: Env, k: string)
    requires k in EnableBody(s, r, env).0.table.leases
    ensures var leases' := EnableBody(s, r, env).0.table.leases;
            if k in s.table.leases then leases'[k] == s.table.leases[k]
            else leases'[k].expiresAt == env.now + r.durationMs * MS
  {
    var t1 := s.table.(nextLeaseSeq := s.table.nextLeaseSeq + 1);
    EnableTable(s, r, env);
    AddedLeases(t1, r, LeaseId(t1.nextLeaseSeq), env);
    hide EnableBody, Added, LeaseKey;
  }

  lemma MutateGrants(s: State, r: Request, env: Env, k: string)
    requires k in MutateBody(s, r, env).0.table.leases
    ensures var leases' := MutateBody(s, r, env).0.table.leases;
            && k in s.table.leases
            && (|| leases'[k].expiresAt == s.table.leases[k].expiresAt
                || (r.operation == ExtendOp && leases'[k].expiresAt == env.now + r.durationMs * MS))
  {
    MutateTable(s, r, env);
    hide MutateBody;
  }

  lemma MutationGrants(m: Machine, e: Event, k: string)
    requires e.Mutation? && e.r.operation in {EnableOp, DisableOp, ExtendOp} && k in NextState(m, e).table.leases
    ensures Grants(m, e, k) ||
            (k in m.s.table.leases && NextState(m, e).table.leases[k].expiresAt == m.s.table.leases[k].expiresAt)
  {
    var s, r, env := m.s, e.r, e.env;
    MutateRuns(s, r, env);
    hide EnableBody, MutateBody, Mutate;
    if Mutate(s, r, env).0 != s {
      if r.operation == EnableOp {
        EnableGrants(s, r, env, k);
      } else {
        MutateGrants(s, r, env, k);
      }
    }
  }

  /** Along a run without a grant of k, the lease keeps its expiry while it is there. */
  lemma {:induction false} ExpiryFixed(m: Machine, es: seq<Event>, k: string)
    requires LegalRun(m, es) && forall i :: 0 <= i < |es| ==> !Grants(Run(m, es[..i]), es[i], k)
    ensures k in Run(m, es).s.table.leases ==>
              k in m.s.table.leases && Run(m, es).s.table.leases[k].expiresAt == m.s.table.leases[k].expiresAt
  {
    if es != [] {
      var front, e := es[..|es| - 1], es[|es| - 1];
      RunFront(m, es);
      forall i | 0 <= i < |front|
        ensures !Grants(Run(m, front[..i]), front[i], k)
      {
        assert front[..i] == es[..i] && front[i] == es[i];
      }
      ExpiryFixed(m, front, k);
      var mid := Run(m, front);
      assert !Grants(mid, e, k);
      hide NextState, LegalRun;
      if e.Mutation? {
        if k in NextState(mid, e).table.leases {
          MutationGrants(mid, e, k);
        }
      } else {
        OthersInherit(mid, e);
      }
    }
  }

  /** Main result: no lease outlives its last grant by more than eight hours.  From any
      reachable state, without further grants of k, an expiry run, status query or summary
      at least eight hours later leaves k out of the table. */
  lemma EightHours(m: Machine, es: seq<Event>, e: Event, k: string)
    requires Inv(m) && LegalRun(m, es) && Legal(Run(m, es), e) && Prunes(e)
    requires forall i :: 0 <= i < |es| ==> !Grants(Run(m, es[..i]), es[i], k)
    requires e.env.now >= m.clock + MAX_DURATION_MS * MS
    ensures k !in Next(Run(m, es), e).s.table.leases
  {
    var last := Run(m, es);
    hide Legal, LegalRun, NextState, Grants;
    InvStays(m, es);
    ExpiryFixed(m, es, k);
    OthersInherit(last, e);
    NoneDueAfter(last, e);
    assert k in m.s.table.leases ==> LeaseOk(k, m.s.table.leases[k], m.s.table.nextLeaseSeq, m.clock);
  }

  /** The invariant along a run from any state that has it. */
  lemma {:induction false} InvStays(m: Machine, es: seq<Event>)
    requires Inv(m) && LegalRun(m, es)
    ensures Inv(Run(m, es))
  {
    hide Inv, Legal, LegalRun, NextState, NextTickets, Clock;
    if es != [] {
      RunFront(m, es);
      InvStays(m, es[..|es| - 1]);
      StepInv(Run(m, es[..|es| - 1]), es[|es| - 1]);
    }
  }

  /** A shutdown leaves the leases and takes every timer, so none can fire after it. */
  lemma StoppedIsQuiet(m: Machine, key: string, at: int)
    ensures var s' := NextState(m, Stopped);
            s'.table.timers == map[] && s' == m.s.(table := m.s.table.(timers := s'.table.timers))
    ensures !Legal(Next(m, Stopped), TimerFires(key, at))
  {
  }
}
