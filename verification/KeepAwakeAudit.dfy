/** The status revision, and the audit trail of every lease that leaves the table. */
module KeepAwakeAudit {
  import opened KeepAwakeState
  import opened KeepAwakeTable
  import opened KeepAwakeLaws
  import opened KeepAwakeSafety
  import opened KeepAwakePolicy

  // ---------------------------------------------------------------------------
  // The status revision
  // ---------------------------------------------------------------------------

  /** The steps that change the policy without a new revision: a bootstrap seed with
      another policy, and the rollback of a policy change that was overtaken. */
  predicate Silent(m: Machine, e: Event) {
    || (e.PolicySet? && !m.s.config.policySet && e.policy != m.s.config.policy)
    || (e.PolicyApplied? && e.policyKey in m.tickets && !AuditOk(m.s.audit, e.env, "") &&
        m.tickets[e.policyKey].oldPolicy != m.s.config.policy)
  }

  /** What a client sees of the leases and the policy. */
  predicate SameView(s: State, s': State) {
    s.table.leases == s'.table.leases && s.config.policy == s'.config.policy
  }

  predicate Counted(s: State, s': State) {
    s.statusRevision <= s'.statusRevision <= s.statusRevision + 1 &&
    (SameView(s, s') || s'.statusRevision == s.statusRevision + 1)
  }

  lemma MutateCounted(s: State, r: Request, env: Env)
    ensures Counted(s, Mutate(s, r, env).0)
  {
    MutateRuns(s, r, env);
    hide FindLease, Admit, Mutated, Added, Authorize, PowerAllowed, LeaseKey, LeaseId, SetRuntime;
  }

  lemma SetPolicyCounted(s: State, p: Policy, env: Env)
    requires s.config.policySet
    ensures Counted(s, SetPolicy(s, p, env))
  {
  }

  lemma ApplyPolicyCounted(s: State, t: Ticket, env: Env)
    requires AuditOk(s.audit, env, "")
    ensures Counted(s, ApplyPolicy(s, t, env))
  {
  }

  lemma ReconcileCounted(s: State, env: Env)
    ensures Counted(s, Reconcile(s, env))
  {
  }

  lemma OnTimerCounted(s: State, key: string, env: Env)
    ensures Counted(s, OnTimer(s, key, env))
  {
    ReconcileCounted(s.(table := s.table.(queued := s.table.queued - multiset{key})), env);
    hide Reconcile;
  }

  lemma UpdateCounted(s: State, t: Table, a: Audit, env: Env)
    ensures Counted(s, Update(s, t, a, env))
  {
  }

  lemma ClientCounted(m: Machine, e: Event)
    requires ByClient(e)
    ensures Counted(m.s, NextState(m, e))
  {
    hide Counted, Reconcile, Mutate, Update, Prune, ConnectAll, DisconnectAll, RevokeAll;
    match e {
      case Mutation(r, env) => MutateCounted(m.s, r, env);
      case SummaryQuery(env) => ReconcileCounted(m.s, env);
      case StatusQuery(env) => UpdateCounted(m.s, Prune(m.s.table, env.order, env.now), m.s.audit, env);
      case ClientConnected(d, env) =>
        UpdateCounted(m.s, ConnectAll(m.s.table, env.order, d, env.armAt), m.s.audit, env);
        UnchangedCounted(m.s);
      case ClientDisconnected(d, _, env) =>
        UpdateCounted(m.s, DisconnectAll(m.s.table, env.order, d, m.s.config.grace, env.now, env.armAt), m.s.audit, env);
        UnchangedCounted(m.s);
      case DeviceRevoked(d, env) =>
        var w := RevokeAll(Sweep(m.s.table, m.s.audit, false), env.order, d, env);
        UpdateCounted(m.s, w.table, w.audit, env);
        UnchangedCounted(m.s);
    }
  }

  lemma UnchangedCounted(s: State)
    ensures Counted(s, s)
  {
  }

  /** The exact condition: a step counts, that is moves the revision by at most one and by
      exactly one whenever a lease or the policy changes, if and only if it is not silent;
      a silent step moves neither the revision nor a lease. */
  lemma StepRevision(m: Machine, e: Event)
    requires Legal(m, e)
    ensures Counted(m.s, NextState(m, e)) <==> !Silent(m, e)
    ensures Silent(m, e) ==>
              NextState(m, e).statusRevision == m.s.statusRevision && NextState(m, e).table == m.s.table
  {
    hide OnTimer, Prune, SetPolicy, ApplyPolicy;
    if ByClient(e) {
      ClientCounted(m, e);
      hide NextState, Legal;
    } else {
      match e {
        case TimerRuns(key, env) => OnTimerCounted(m.s, key, env);
        case PolicySet(p, env) => SetPolicySilent(m.s, p, env);
        case PolicyApplied(key, env) => ApplyPolicySilent(m.s, m.tickets[key], env);
        case _ =>
      }
    }
  }

  lemma SetPolicySilent(s: State, p: Policy, env: Env)
    ensures Counted(s, SetPolicy(s, p, env)) <==> s.config.policySet || p == s.config.policy
    ensures !s.config.policySet ==>
              SetPolicy(s, p, env).statusRevision == s.statusRevision && SetPolicy(s, p, env).table == s.table
  {
    if s.config.policySet {
      SetPolicyCounted(s, p, env);
    }
  }

  lemma ApplyPolicySilent(s: State, t: Ticket, env: Env)
    ensures Counted(s, ApplyPolicy(s, t, env)) <==> AuditOk(s.audit, env, "") || t.oldPolicy == s.config.policy
    ensures !AuditOk(s.audit, env, "") ==>
              ApplyPolicy(s, t, env).statusRevision == s.statusRevision && ApplyPolicy(s, t, env).table == s.table
  {
    if AuditOk(s.audit, env, "") {
      ApplyPolicyCounted(s, t, env);
    }
  }

  lemma CountedThen(a: State, b: State, c: State)
    requires a.statusRevision <= b.statusRevision
    requires Counted(b, c) || (c.statusRevision == b.statusRevision && c.table == b.table)
    ensures a.statusRevision <= c.statusRevision
    ensures Counted(b, c) && (b.statusRevision == a.statusRevision ==> SameView(a, b)) ==>
              (c.statusRevision == a.statusRevision ==> SameView(a, c))
  {
  }

  ghost predicate NeverSilent(m: Machine, es: seq<Event>) {
    forall i :: 0 <= i < |es| ==> !Silent(Run(m, es[..i]), es[i])
  }

  /** Main result: the revision never goes back over a run, and two states of a run without
      silent steps that carry the same revision show the same leases and the same policy. */
  lemma {:induction false} RevisionIdentifiesView(m: Machine, es: seq<Event>)
    requires LegalRun(m, es)
    ensures m.s.statusRevision <= Run(m, es).s.statusRevision
    ensures NeverSilent(m, es) ==>
              Run(m, es).s.statusRevision == m.s.statusRevision ==> SameView(m.s, Run(m, es).s)
  {
    hide Legal, LegalRun, NextState, Silent, SameView, Counted, NextTickets, Clock;
    if es == [] {
      CountedThen(m.s, m.s, m.s) by { UnchangedCounted(m.s); }
      SameSelf(m.s);
    } else {
      var front := es[..|es| - 1];
      RunFront(m, es);
      RevisionIdentifiesView(m, front);
      StepRevision(Run(m, front), es[|es| - 1]);
      assert forall i :: 0 <= i < |front| ==> front[..i] == es[..i] && front[i] == es[i];
      CountedThen(m.s, Run(m, front).s, Run(m, es).s);
    }
  }

  lemma SameSelf(s: State)
    ensures SameView(s, s)
  {
  }

  ghost predicate AllDisciplined(clock: int, es: seq<Event>) {
    forall i :: 0 <= i < |es| ==> Disciplined(Run(Start(clock), es[..i]), es[i])
  }

  lemma DisciplinedFront(clock: int, es: seq<Event>)
    requires AllDisciplined(clock, es) && es != []
    ensures AllDisciplined(clock, es[..|es| - 1])
  {
    var front := es[..|es| - 1];
    forall i | 0 <= i < |front|
      ensures Disciplined(Run(Start(clock), front[..i]), front[i])
    {
      assert front[..i] == es[..i] && front[i] == es[i];
    }
  }

  /** With policy mutations one at a time only the bootstrap seed can be silent. */
  lemma OnlySeedIsSilent(clock: int, es: seq<Event>, e: Event)
    requires LegalRun(Start(clock), es) && Legal(Run(Start(clock), es), e) && AllDisciplined(clock, es)
    ensures Silent(Run(Start(clock), es), e) ==> e.PolicySet? && !Run(Start(clock), es).s.config.policySet
  {
    RemoteOffAlways(clock, es);
  }

  lemma StaysSeeded(m: Machine, e: Event)
    requires m.s.config.policySet
    ensures NextState(m, e).config.policySet
  {
    if e.Mutation? {
      MutationAuthority(m.s, e.r, e.env, "");
    }
    hide Mutate;
  }

  /** Main result: in a run with policy mutations one at a time, from the bootstrap seed on,
      equal revisions mean equal leases and policy, whatever audits fail. */
  lemma {:induction false} DisciplinedViews(clock: int, es: seq<Event>, later: seq<Event>)
    requires LegalRun(Start(clock), es + later) && AllDisciplined(clock, es + later)
    requires Run(Start(clock), es).s.config.policySet
    ensures var s, s' := Run(Start(clock), es).s, Run(Start(clock), es + later).s;
            && s'.config.policySet && s.statusRevision <= s'.statusRevision
            && (s.statusRevision == s'.statusRevision ==> SameView(s, s'))
  {
    hide Legal, LegalRun, NextState, Silent, SameView, Counted, NextTickets, Clock, AllDisciplined, Start;
    if later == [] {
      assert es + later == es;
      SameSelf(Run(Start(clock), es).s);
    } else {
      var run, front, e := es + later, later[..|later| - 1], later[|later| - 1];
      assert run[..|run| - 1] == es + front && run[|run| - 1] == e;
      RunFront(Start(clock), run);
      DisciplinedFront(clock, run);
      DisciplinedViews(clock, es, front);
      OnlySeedIsSilent(clock, es + front, e);
      StepRevision(Run(Start(clock), es + front), e);
      StaysSeeded(Run(Start(clock), es + front), e);
      CountedThen(Run(Start(clock), es).s, Run(Start(clock), es + front).s, Run(Start(clock), run).s);
    }
  }

  /** The rollback of an overtaken policy mutation changes what clients see under an
      unchanged revision: remote control goes off. */
  lemma RollbackIsSilent()
    ensures var e1, e2, e3 := PolicyBegun(REMOTE_ON, true, ""), PolicyBegun(SECOND_ON, true, ""), PolicyApplied(SECOND_ON, At([], {}));
            var e4 := PolicyApplied(REMOTE_ON, At([], {""}));
            var m1 := Next(Start(0), AuditWired);
            var m2 := Next(m1, e1);
            var m3 := Next(m2, e2);
            var m4 := Next(m3, e3);
            && Legal(Start(0), AuditWired) && Legal(m1, e1) && Legal(m2, e2) && Legal(m3, e3) && Legal(m4, e4)
            && m4.s.config.policy.remoteEnabled && !Next(m4, e4).s.config.policy.remoteEnabled
            && Next(m4, e4).s.statusRevision == m4.s.statusRevision
  {
    hide BeginPolicy, RevokeForPolicy, PolicyComplete;
    var m1 := Next(Start(0), AuditWired);
    var m2 := Next(m1, PolicyBegun(REMOTE_ON, true, ""));
    var m3 := Next(m2, PolicyBegun(SECOND_ON, true, ""));
    var m4 := Next(m3, PolicyApplied(SECOND_ON, At([], {})));
    Overlapped();
    UnseenRollback(m4);
    hide NextState, NextTickets, Legal;
  }

  lemma UnseenRollback(m: Machine)
    requires m.s.table == INITIAL.table && m.clock == 0 && m.s.audit.writer
    requires REMOTE_ON in m.tickets && m.tickets[REMOTE_ON].oldPolicy == POLICY_OFF
    ensures var e := PolicyApplied(REMOTE_ON, At([], {""}));
            && Legal(m, e) && !NextState(m, e).config.policy.remoteEnabled
            && NextState(m, e).statusRevision == m.s.statusRevision
  {
  }

  // ---------------------------------------------------------------------------
  // One battery shutdown per epoch
  // ---------------------------------------------------------------------------

  lemma FirstIsIn(order: seq<string>)
    ensures order == [] || order[0] in order
  {
  }

  lemma NothingToVisit(order: seq<string>)
    requires Visits(order, map[])
    ensures order == []
  {
    FirstIsIn(order);
  }

  lemma EnableStartsEpoch(s: State, r: Request, env: Env)
    requires s.table.thresholdDisabled
    ensures var t' := EnableBody(s, r, env).0.table; t'.thresholdDisabled || t'.leases != map[]
  {
    var t1 := s.table.(nextLeaseSeq := s.table.nextLeaseSeq + 1);
    EnableTable(s, r, env);
    AddedLeases(t1, r, LeaseId(t1.nextLeaseSeq), env);
    hide EnableBody;
    assert Added(t1, r, LeaseId(t1.nextLeaseSeq), env).leases.Keys != {};
  }

  lemma MutateKeepsFlag(s: State, r: Request, env: Env)
    ensures MutateBody(s, r, env).0.table.thresholdDisabled == s.table.thresholdDisabled
  {
    MutateTable(s, r, env);
    hide MutateBody;
  }

  /** The flag of a battery shutdown stays until an enable puts a lease into the table. */
  lemma FlagStays(m: Machine, e: Event)
    requires Inv(m) && Legal(m, e) && m.s.table.thresholdDisabled
    ensures var t' := NextState(m, e).table;
            t'.thresholdDisabled || (e.Mutation? && e.r.operation == EnableOp && t'.leases != map[])
  {
    assert m.s.table.leases == map[];
    if HasEnv(e) {
      NothingToVisit(e.env.order);
    }
    if e.Mutation? {
      MutateRuns(m.s, e.r, e.env);
      EnableStartsEpoch(m.s, e.r, e.env);
      MutateKeepsFlag(m.s, e.r, e.env);
      hide Mutate, EnableBody, MutateBody;
    }
  }

  lemma FlagMeansEmpty(m: Machine)
    requires Inv(m) && m.s.table.thresholdDisabled
    ensures m.s.table.leases == map[]
    ensures forall power :: !ThresholdReached(m.s.config, m.s.table, power)
  {
  }

  /** Main result: after a battery shutdown there is no lease and no second shutdown until
      an enable starts a new epoch. */
  lemma {:induction false} OncePerEpoch(m: Machine, es: seq<Event>)
    requires Inv(m) && m.s.table.thresholdDisabled && LegalRun(m, es)
    requires forall i :: 0 <= i < |es| && es[i].Mutation? && es[i].r.operation == EnableOp ==>
               Run(m, es[..i + 1]).s.table.leases == map[]
    ensures Run(m, es).s.table.thresholdDisabled && Run(m, es).s.table.leases == map[] && Inv(Run(m, es))
    ensures forall power :: !ThresholdReached(Run(m, es).s.config, Run(m, es).s.table, power)
  {
    hide Inv, Legal, LegalRun, NextState, NextTickets, Clock, ThresholdReached;
    if es != [] {
      var front, e := es[..|es| - 1], es[|es| - 1];
      RunFront(m, es);
      forall i | 0 <= i < |front| && front[i].Mutation? && front[i].r.operation == EnableOp
        ensures Run(m, front[..i + 1]).s.table.leases == map[]
      {
        assert front[..i + 1] == es[..i + 1] && front[i] == es[i];
      }
      OncePerEpoch(m, front);
      assert es[..|es|] == es;
      StepInv(Run(m, front), e);
      FlagStays(Run(m, front), e);
    }
    FlagMeansEmpty(Run(m, es));
  }

  // ---------------------------------------------------------------------------
  // Why a lease left
  // ---------------------------------------------------------------------------

  predicate RemovalOp(op: Operation) {
    op == DisableOp || op == RevokeOp || op == AutoDisableOp || op == PolicyRevokeOp
  }

  /** A removal record for the lease was appended between the two logs. */
  ghost predicate AuditedSince(before: Audit, after: Audit, leaseId: string) {
    before.log <= after.log &&
    exists i :: |before.log| <= i < |after.log| && RemovalOp(after.log[i].operation) && after.log[i].leaseId == leaseId
  }

  predicate Grows(before: Audit, after: Audit) {
    before.log <= after.log && before.writer == after.writer
  }

  lemma AuditedLater(a: Audit, b: Audit, c: Audit, leaseId: string)
    requires AuditedSince(a, b, leaseId) && Grows(b, c)
    ensures AuditedSince(a, c, leaseId)
  {
    var i :| |a.log| <= i < |b.log| && RemovalOp(b.log[i].operation) && b.log[i].leaseId == leaseId;
    assert c.log[i] == b.log[i];
  }

  lemma AuditedEarlier(a: Audit, b: Audit, c: Audit, leaseId: string)
    requires Grows(a, b) && AuditedSince(b, c, leaseId)
    ensures AuditedSince(a, c, leaseId)
  {
    var i :| |b.log| <= i < |c.log| && RemovalOp(c.log[i].operation) && c.log[i].leaseId == leaseId;
    assert |a.log| <= i;
  }

  lemma AuditedNow(a: Audit, r: AuditRecord)
    requires a.writer && RemovalOp(r.operation)
    ensures AuditedSince(a, Audited(a, r), r.leaseId)
  {
    assert Audited(a, r).log[|a.log|] == r;
  }

  lemma {:induction false} RevokeAudited(w: Sweep, order: seq<string>, deviceId: string, env: Env, k: string)
    ensures var w' := RevokeAll(w, order, deviceId, env);
            && Grows(w.audit, w'.audit)
            && (k in w.table.leases && k !in w'.table.leases && w.audit.writer ==>
                  AuditedSince(w.audit, w'.audit, w.table.leases[k].leaseId))
  {
    if order != [] {
      var front, key := order[..|order| - 1], order[|order| - 1];
      var mid, w' := RevokeAll(w, front, deviceId, env), RevokeAll(w, order, deviceId, env);
      RevokeAudited(w, front, deviceId, env, k);
      RevokeInherits(w, front, deviceId, env);
      if k in w.table.leases && k !in w'.table.leases && w.audit.writer {
        if k in mid.table.leases {
          AuditedNow(mid.audit, AuditRecord(RevokeOp, "host", mid.table.leases[k].leaseId, env.now));
          AuditedEarlier(w.audit, mid.audit, w'.audit, w.table.leases[k].leaseId);
        } else {
          AuditedLater(w.audit, mid.audit, w'.audit, w.table.leases[k].leaseId);
        }
      }
    }
  }

  lemma {:induction false} SweepAudited(w: Sweep, order: seq<string>, actor: string, env: Env, k: string)
    ensures var w' := SweepAll(w, order, actor, env);
            && Grows(w.audit, w'.audit)
            && (k in w.table.leases && k !in w'.table.leases && w.audit.writer ==>
                  AuditedSince(w.audit, w'.audit, w.table.leases[k].leaseId))
  {
    if order != [] {
      var front, key := order[..|order| - 1], order[|order| - 1];
      var mid, w' := SweepAll(w, front, actor, env), SweepAll(w, order, actor, env);
      SweepAudited(w, front, actor, env, k);
      SweepInherits(w, front, actor, env);
      if k in w.table.leases && k !in w'.table.leases && w.audit.writer {
        if k in mid.table.leases {
          AuditedNow(mid.audit, AuditRecord(PolicyRevokeOp, actor, mid.table.leases[k].leaseId, env.now));
          AuditedEarlier(w.audit, mid.audit, w'.audit, w.table.leases[k].leaseId);
        } else {
          AuditedLater(w.audit, mid.audit, w'.audit, w.table.leases[k].leaseId);
        }
      }
    }
  }

  /** The battery check wrote a record for every lease it visited, or stopped. */
  lemma {:induction false} EachAudited(w: Sweep, order: seq<string>, env: Env, k: string)
    ensures var w' := AuditEach(w, order, env);
            && Grows(w.audit, w'.audit) && w'.table == w.table
            && (k in order && k in w.table.leases && w.audit.writer && !w'.failed ==>
                  AuditedSince(w.audit, w'.audit, w.table.leases[k].leaseId))
  {
    if order != [] {
      var front, key := order[..|order| - 1], order[|order| - 1];
      var mid, w' := AuditEach(w, front, env), AuditEach(w, order, env);
      EachAudited(w, front, env, k);
      assert order == front + [key];
      if k in order && k in w.table.leases && w.audit.writer && !w'.failed {
        if k == key {
          AuditedNow(mid.audit, AuditRecord(AutoDisableOp, "system", w.table.leases[k].leaseId, env.now));
          AuditedEarlier(w.audit, mid.audit, w'.audit, w.table.leases[k].leaseId);
        } else {
          AuditedLater(w.audit, mid.audit, w'.audit, w.table.leases[k].leaseId);
        }
      }
    }
  }

  /** The policy record or the removal record of some lease cannot be written. */
  predicate WriteFails(s: State, env: Env) {
    !AuditOk(s.audit, env, "") || exists k :: k in s.table.leases && !AuditOk(s.audit, env, s.table.leases[k].leaseId)
  }

  /** The lease has run out, or its device is away and the grace has run out or was never set. */
  predicate TimeIsUp(l: Lease, now: int) {
    now >= l.expiresAt || (l.disconnected && (l.graceDeadline.None? || now >= l.graceDeadline.value))
  }

  /** The three ways out of the table. */
  ghost predicate Accounted(m: Machine, e: Event, k: string)
    requires k in m.s.table.leases
  {
    || (Prunes(e) && TimeIsUp(m.s.table.leases[k], e.env.now))
    || ((e.PolicySet? || e.PolicyApplied?) && Closed(NextState(m, e)) && WriteFails(m.s, e.env))
    || (m.s.audit.writer ==> AuditedSince(m.s.audit, NextState(m, e).audit, m.s.table.leases[k].leaseId))
  }

  lemma TimeIsUpExactly(l: Lease, now: int)
    ensures Expired(l, now) <==> TimeIsUp(l, now)
  {
  }

  lemma ReconcileAccounted(s: State, env: Env, k: string)
    requires k in s.table.leases && k !in Reconcile(s, env).table.leases
    requires Visits(env.order2, Prune(s.table, env.order, env.now).leases)
    ensures TimeIsUp(s.table.leases[k], env.now) ||
            (s.audit.writer ==> AuditedSince(s.audit, Reconcile(s, env).audit, s.table.leases[k].leaseId))
  {
    var t := Prune(s.table, env.order, env.now);
    PruneExact(s.table, env.order, env.now);
    if k in t.leases {
      EachAudited(Sweep(t, s.audit, false), env.order2, env, k);
      hide Prune, RemoveEach, AuditEach;
      assert k in env.order2;
    }
  }

  lemma MutateAccounted(s: State, r: Request, env: Env, k: string)
    requires r.operation in {EnableOp, DisableOp, ExtendOp}
    requires k in s.table.leases && s.audit.writer
    ensures k in Mutate(s, r, env).0.table.leases ||
            AuditedSince(s.audit, Mutate(s, r, env).0.audit, s.table.leases[k].leaseId)
  {
    MutateRuns(s, r, env);
    if r.operation == EnableOp {
      EnableAuthority(s, r, env, k);
    } else {
      hide Mutate;
      MutateBodyAccounted(s, r, env, k);
    }
  }

  lemma MutateBodyAccounted(s: State, r: Request, env: Env, k: string)
    requires r.operation == DisableOp || r.operation == ExtendOp
    requires k in s.table.leases && s.audit.writer
    ensures k in MutateBody(s, r, env).0.table.leases ||
            AuditedSince(s.audit, MutateBody(s, r, env).0.audit, s.table.leases[k].leaseId)
  {
    var admission := Admit(s, r, env);
    hide Admit;
    if admission.Admitted? {
      MutatedLeases(s.table, admission.key, r, env);
      if r.operation == DisableOp {
        AuditedNow(s.audit, AuditRecord(DisableOp, r.deviceId, s.table.leases[k].leaseId, env.now));
      }
    }
  }

  /** The revocations stop only at a lease whose record cannot be written. */
  lemma {:induction false} SweepFailed(w: Sweep, order: seq<string>, actor: string, env: Env)
    requires !w.failed && SweepAll(w, order, actor, env).failed
    ensures exists k :: k in w.table.leases && !AuditOk(w.audit, env, w.table.leases[k].leaseId)
  {
    var front, key := order[..|order| - 1], order[|order| - 1];
    var mid := SweepAll(w, front, actor, env);
    if mid.failed {
      SweepFailed(w, front, actor, env);
    } else {
      SweepInherits(w, front, actor, env);
      SweepKeepsWriter(w, front, actor, env);
      assert key in mid.table.leases && !AuditOk(w.audit, env, w.table.leases[key].leaseId);
    }
  }

  lemma SetPolicyAccounted(s: State, p: Policy, env: Env, k: string)
    requires k in s.table.leases && k !in SetPolicy(s, p, env).table.leases && s.audit.writer
    ensures || (Closed(SetPolicy(s, p, env)) && WriteFails(s, env))
            || AuditedSince(s.audit, SetPolicy(s, p, env).audit, s.table.leases[k].leaseId)
  {
    hide SweepAll, AuditedSince;
    var start := Sweep(s.table, s.audit, false);
    var w := SweepAll(start, env.order, "system", env);
    SweepAudited(start, env.order, "system", env, k);
    SweepKeepsWriter(start, env.order, "system", env);
    if w.failed {
      SweepFailed(start, env.order, "system", env);
    }
    if k !in w.table.leases && Grows(w.audit, SetPolicy(s, p, env).audit) {
      AuditedLater(s.audit, w.audit, SetPolicy(s, p, env).audit, s.table.leases[k].leaseId);
    }
  }

  lemma ApplyPolicyAccounted(s: State, t: Ticket, env: Env, k: string)
    requires k in s.table.leases && k !in ApplyPolicy(s, t, env).table.leases && s.audit.writer
    ensures || (Closed(ApplyPolicy(s, t, env)) && WriteFails(s, env))
            || AuditedSince(s.audit, ApplyPolicy(s, t, env).audit, s.table.leases[k].leaseId)
  {
    hide SweepAll, AuditedSince;
    var a := Audited(s.audit, AuditRecord(PolicyChangeOp, "cli", "", env.now));
    var start := Sweep(s.table, a, false);
    var w := SweepAll(start, env.order, "cli", env);
    SweepAudited(start, env.order, "cli", env, k);
    if w.failed {
      SweepFailed(start, env.order, "cli", env);
    } else if AuditedSince(a, ApplyPolicy(s, t, env).audit, s.table.leases[k].leaseId) {
      AuditedEarlier(s.audit, a, ApplyPolicy(s, t, env).audit, s.table.leases[k].leaseId);
    }
  }

  /** Main result: a lease that leaves the table had expired (or its grace had), or the host
      went fail-closed because a record could not be written, or a removal record with its
      id was written first. */
  lemma LeavesAccounted(m: Machine, e: Event, k: string)
    requires Legal(m, e) && k in m.s.table.leases && k !in NextState(m, e).table.leases
    ensures Accounted(m, e, k)
  {
    hide AuditedSince, Prune, Reconcile, SetPolicy, ApplyPolicy, Mutate, RevokeAll, Visits, TimeIsUp, Expired;
    if Prunes(e) {
      PruningAccounted(m, e, k);
    } else {
      var s := m.s;
      match e {
        case ClientConnected(d, env) => ConnectKeeps(s.table, env.order, d, env.armAt);
        case ClientDisconnected(d, _, env) => DisconnectKeeps(s.table, env.order, d, s.config.grace, env.now, env.armAt);
        case DeviceRevoked(d, env) => RevokeAudited(Sweep(s.table, s.audit, false), env.order, d, env, k);
        case PolicySet(p, env) => if s.audit.writer { SetPolicyAccounted(s, p, env, k); }
        case PolicyApplied(key, env) => if s.audit.writer { ApplyPolicyAccounted(s, m.tickets[key], env, k); }
        case Mutation(r, env) => if s.audit.writer { MutateAccounted(s, r, env, k); }
        case _ =>
      }
    }
  }

  lemma PruningAccounted(m: Machine, e: Event, k: string)
    requires Legal(m, e) && Prunes(e) && k in m.s.table.leases && k !in NextState(m, e).table.leases
    ensures Accounted(m, e, k)
  {
    hide AuditedSince, Prune, Reconcile, SetPolicy, ApplyPolicy, Mutate, RevokeAll, Visits, TimeIsUp, Expired;
    var s := m.s;
    PruneExact(s.table, e.env.order, e.env.now);
    TimeIsUpExactly(s.table.leases[k], e.env.now);
    match e {
      case SummaryQuery(env) => ReconcileAccounted(s, env, k);
      case TimerRuns(key, env) =>
        PruneQueued(s.table, s.table.queued - multiset{key}, env.order, env.now);
        ReconcileAccounted(s.(table := s.table.(queued := s.table.queued - multiset{key})), env, k);
      case StatusQuery(_) =>
    }
  }

  lemma {:induction false} ConnectKeeps(t: Table, order: seq<string>, deviceId: string, armAt: int)
    ensures ConnectAll(t, order, deviceId, armAt).leases.Keys == t.leases.Keys
  {
    if order != [] {
      ConnectKeeps(t, order[..|order| - 1], deviceId, armAt);
    }
  }

  lemma {:induction false} DisconnectKeeps(t: Table, order: seq<string>, deviceId: string, grace: int, now: int, armAt: int)
    ensures DisconnectAll(t, order, deviceId, grace, now, armAt).leases.Keys == t.leases.Keys
  {
    if order != [] {
      DisconnectKeeps(t, order[..|order| - 1], deviceId, grace, now, armAt);
    }
  }
}
