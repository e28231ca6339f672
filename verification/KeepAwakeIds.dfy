/** Generated lease ids over whole runs: none is used twice, also when its lease is gone. */
module KeepAwakeIds {
  import opened KeepAwakeState
  import opened KeepAwakeTable
  import opened KeepAwakeLaws
  import opened KeepAwakeSafety

  // ---------------------------------------------------------------------------
  // Loops leave the counter alone
  // ---------------------------------------------------------------------------

  lemma {:induction false} PruneSeq(t: Table, order: seq<string>, now: int)
    ensures Prune(t, order, now).nextLeaseSeq == t.nextLeaseSeq
  {
    if order != [] {
      PruneSeq(t, order[..|order| - 1], now);
    }
  }

  lemma {:induction false} RemoveEachSeq(t: Table, order: seq<string>)
    ensures RemoveEach(t, order).nextLeaseSeq == t.nextLeaseSeq
  {
    if order != [] {
      RemoveEachSeq(t, order[..|order| - 1]);
    }
  }

  lemma {:induction false} ConnectSeq(t: Table, order: seq<string>, deviceId: string, armAt: int)
    ensures ConnectAll(t, order, deviceId, armAt).nextLeaseSeq == t.nextLeaseSeq
  {
    if order != [] {
      ConnectSeq(t, order[..|order| - 1], deviceId, armAt);
    }
  }

  lemma {:induction false} DisconnectSeq(t: Table, order: seq<string>, deviceId: string, grace: int, now: int, armAt: int)
    ensures DisconnectAll(t, order, deviceId, grace, now, armAt).nextLeaseSeq == t.nextLeaseSeq
  {
    if order != [] {
      DisconnectSeq(t, order[..|order| - 1], deviceId, grace, now, armAt);
    }
  }

  lemma {:induction false} RevokeSeq(w: Sweep, order: seq<string>, deviceId: string, env: Env)
    ensures RevokeAll(w, order, deviceId, env).table.nextLeaseSeq == w.table.nextLeaseSeq
  {
    if order != [] {
      RevokeSeq(w, order[..|order| - 1], deviceId, env);
    }
  }

  lemma {:induction false} SweepSeq(w: Sweep, order: seq<string>, actor: string, env: Env)
    ensures SweepAll(w, order, actor, env).table.nextLeaseSeq == w.table.nextLeaseSeq
  {
    if order != [] {
      SweepSeq(w, order[..|order| - 1], actor, env);
    }
  }

  lemma ReconcileSeq(s: State, env: Env)
    ensures Reconcile(s, env).table.nextLeaseSeq == s.table.nextLeaseSeq
  {
    PruneSeq(s.table, env.order, env.now);
    RemoveEachSeq(Prune(s.table, env.order, env.now), env.order2);
  }

  lemma SetPolicySeq(s: State, p: Policy, env: Env)
    ensures SetPolicy(s, p, env).table.nextLeaseSeq == s.table.nextLeaseSeq
  {
    SweepSeq(Sweep(s.table, s.audit, false), env.order, "system", env);
  }

  lemma ApplyPolicySeq(s: State, t: Ticket, env: Env)
    ensures ApplyPolicy(s, t, env).table.nextLeaseSeq == s.table.nextLeaseSeq
  {
    SweepSeq(Sweep(s.table, Audited(s.audit, AuditRecord(PolicyChangeOp, "cli", "", env.now)), false), env.order, "cli", env);
  }

  lemma OthersKeepSeq(m: Machine, e: Event)
    requires !e.Mutation?
    ensures NextState(m, e).table.nextLeaseSeq == m.s.table.nextLeaseSeq
  {
    hide Prune, ConnectAll, DisconnectAll, RevokeAll, Reconcile, SetPolicy, ApplyPolicy;
    match e {
      case StatusQuery(env) => PruneSeq(m.s.table, env.order, env.now);
      case SummaryQuery(env) => ReconcileSeq(m.s, env);
      case TimerRuns(key, env) =>
        ReconcileSeq(m.s.(table := m.s.table.(queued := m.s.table.queued - multiset{key})), env);
      case ClientConnected(d, env) => ConnectSeq(m.s.table, env.order, d, env.armAt);
      case ClientDisconnected(d, _, env) => DisconnectSeq(m.s.table, env.order, d, m.s.config.grace, env.now, env.armAt);
      case DeviceRevoked(d, env) => RevokeSeq(Sweep(m.s.table, m.s.audit, false), env.order, d, env);
      case PolicySet(p, env) => SetPolicySeq(m.s, p, env);
      case PolicyApplied(key, env) => if key in m.tickets { ApplyPolicySeq(m.s, m.tickets[key], env); }
      case _ =>
    }
  }

  // ---------------------------------------------------------------------------
  // Grants
  // ---------------------------------------------------------------------------

  /** The step puts a new lease under the key. */
  predicate Adds(m: Machine, e: Event, k: string) {
    k !in m.s.table.leases && k in NextState(m, e).table.leases
  }

  lemma EnableSeq(s: State, r: Request, env: Env, k: string)
    ensures var t, t' := s.table, EnableBody(s, r, env).0.table;
            && t.nextLeaseSeq <= t'.nextLeaseSeq
            && (k !in t.leases && k in t'.leases ==>
                  t'.nextLeaseSeq == t.nextLeaseSeq + 1 && t'.leases[k].leaseId == LeaseId(t'.nextLeaseSeq))
  {
    var t1 := s.table.(nextLeaseSeq := s.table.nextLeaseSeq + 1);
    EnableTable(s, r, env);
    AddedLeases(t1, r, LeaseId(t1.nextLeaseSeq), env);
    hide EnableBody, LeaseId, LeaseKey;
  }

  lemma MutateSeq(s: State, r: Request, env: Env, k: string)
    ensures var t, t' := s.table, MutateBody(s, r, env).0.table;
            t'.nextLeaseSeq == t.nextLeaseSeq && (k in t'.leases ==> k in t.leases)
  {
    MutateTable(s, r, env);
    hide MutateBody;
  }

  lemma MutationSeq(m: Machine, e: Event, k: string)
    requires e.Mutation?
    ensures var t, t' := m.s.table, Mutate(m.s, e.r, e.env).0.table;
            && t.nextLeaseSeq <= t'.nextLeaseSeq
            && (k !in t.leases && k in t'.leases ==>
                  && e.r.operation == EnableOp && t'.nextLeaseSeq == t.nextLeaseSeq + 1
                  && t'.leases[k].leaseId == LeaseId(t.nextLeaseSeq + 1))
  {
    hide Mutate, EnableBody, MutateBody, LeaseId;
    MutateRuns(m.s, e.r, e.env);
    EnableSeq(m.s, e.r, e.env, k);
    MutateSeq(m.s, e.r, e.env, k);
  }

  /** The counter never falls, and every grant takes the id of its next value. */
  lemma StepSeq(m: Machine, e: Event, k: string)
    ensures m.s.table.nextLeaseSeq <= NextState(m, e).table.nextLeaseSeq
    ensures Adds(m, e, k) ==>
              && e.Mutation? && e.r.operation == EnableOp
              && NextState(m, e).table.nextLeaseSeq == m.s.table.nextLeaseSeq + 1
              && NextState(m, e).table.leases[k].leaseId == LeaseId(m.s.table.nextLeaseSeq + 1)
  {
    hide Mutate, LeaseId;
    if e.Mutation? {
      MutationSeq(m, e, k);
    } else {
      hide NextState;
      OthersKeepSeq(m, e);
      OthersInherit(m, e);
    }
  }

  lemma {:induction false} SeqNeverFalls(m: Machine, es: seq<Event>)
    ensures m.s.table.nextLeaseSeq <= Run(m, es).s.table.nextLeaseSeq
  {
    if es != [] {
      SeqNeverFalls(m, es[..|es| - 1]);
      hide NextState;
      StepSeq(Run(m, es[..|es| - 1]), es[|es| - 1], "");
    }
  }

  /** Main result: two grants of one run, however far apart and whatever became of the
      first lease, never share a lease id. */
  lemma IdsNeverReused(m: Machine, first: Event, es: seq<Event>, second: Event, k: string, k': string)
    requires Adds(m, first, k)
    requires Adds(Run(Next(m, first), es), second, k')
    ensures NextState(m, first).table.leases[k].leaseId !=
            NextState(Run(Next(m, first), es), second).table.leases[k'].leaseId
  {
    hide NextState, LeaseId, NextTickets, Clock;
    var later := Run(Next(m, first), es);
    StepSeq(m, first, k);
    SeqNeverFalls(Next(m, first), es);
    StepSeq(later, second, k');
    if LeaseId(m.s.table.nextLeaseSeq + 1) == LeaseId(later.s.table.nextLeaseSeq + 1) {
      LeaseIdInjective(m.s.table.nextLeaseSeq + 1, later.s.table.nextLeaseSeq + 1);
    }
  }
}
