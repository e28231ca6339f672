/** Remote control switched off, and the fail-closed state, over whole runs. */
module KeepAwakePolicy {
  import opened Text
  import opened KeepAwakeState
  import opened KeepAwakeTable
  import opened KeepAwakeLaws
  import opened KeepAwakeSafety

  // ---------------------------------------------------------------------------
  // Who may change a lease
  // ---------------------------------------------------------------------------

  /** The requester passed the policy and authentication checks. */
  predicate Authorized(c: Config, r: Request) {
    && !c.migrationFailed && c.policy.remoteEnabled
    && r.requireAuth && Trim(r.deviceId) != ""
    && (Trim(r.sessionId) == Trim(r.activeSession) || Administers(c.policy, r.deviceId))
  }

  /** The device is listed, and the policy lets listed devices act. */
  predicate Administers(p: Policy, deviceId: string) {
    p.allowAdminRevoke && exists i :: 0 <= i < |p.adminDeviceIds| && p.adminDeviceIds[i] == deviceId
  }

  lemma AdministersExactly(p: Policy, deviceId: string)
    ensures IsAdmin(p, deviceId) <==> Administers(p, deviceId)
  {
  }

  /** What the policy asks of the power reading: on mains nothing; on battery that it is
      allowed, and a known charge above the limit when there is one; while nobody knows, that
      battery is allowed and there is no limit. */
  predicate Powered(p: Policy, power: Option<PowerSnapshot>) {
    match if power.Some? then power.value.onBattery else None
    case Some(false) => true
    case Some(true) =>
      p.allowOnBattery &&
      (p.autoDisableBatteryPercent <= 0 ||
       (power.value.batteryPercent.Some? && power.value.batteryPercent.value > p.autoDisableBatteryPercent))
    case None => p.allowOnBattery && p.autoDisableBatteryPercent <= 0
  }

  lemma PowerExactly(p: Policy, power: Option<PowerSnapshot>)
    ensures PowerAllowed(p, power) <==> Powered(p, power)
  {
  }

  lemma EnableAuthority(s: State, r: Request, env: Env, k: string)
    ensures var s' := EnableBody(s, r, env).0;
            && s'.config == s.config
            && (s'.table.leases != s.table.leases ==> Authorized(s.config, r) && Powered(s.config.policy, env.power))
            && (k in s.table.leases ==> k in s'.table.leases && s'.table.leases[k] == s.table.leases[k])
            && (k in s'.table.leases && k !in s.table.leases ==> s'.table.leases[k].deviceId == r.deviceId)
  {
    var t1 := s.table.(nextLeaseSeq := s.table.nextLeaseSeq + 1);
    AddedLeases(t1, r, LeaseId(t1.nextLeaseSeq), env);
    PowerExactly(s.config.policy, env.power);
    AdministersExactly(s.config.policy, r.deviceId);
    hide PowerAllowed, Powered, IsAdmin, Administers, Trim, Added, LeaseId, LeaseKey, AuditOk, SetRuntime;
  }

  lemma AdmitAuthority(s: State, r: Request, env: Env)
    requires Admit(s, r, env).Admitted?
    ensures Authorized(s.config, r)
    ensures var owner := s.table.leases[Admit(s, r, env).key].deviceId;
            owner == r.deviceId || Administers(s.config.policy, r.deviceId)
  {
    AdministersExactly(s.config.policy, r.deviceId);
    hide FindLease, Trim, IsAdmin, Administers, PowerAllowed;
  }

  lemma MutatedLeases(t: Table, key: string, r: Request, env: Env)
    requires key in t.leases
    ensures Mutated(t, key, r, env).leases.Keys <= t.leases.Keys
    ensures forall k :: k in t.leases && k != key ==>
              k in Mutated(t, key, r, env).leases && Mutated(t, key, r, env).leases[k] == t.leases[k]
  {
  }

  lemma MutateAuthority(s: State, r: Request, env: Env, k: string)
    ensures var s' := MutateBody(s, r, env).0;
            && s'.config == s.config
            && s'.table.leases.Keys <= s.table.leases.Keys
            && (s'.table.leases != s.table.leases ==> Authorized(s.config, r))
            && (k in s.table.leases && !(k in s'.table.leases && s'.table.leases[k] == s.table.leases[k]) ==>
                  s.table.leases[k].deviceId == r.deviceId || Administers(s.config.policy, r.deviceId))
  {
    var admission := Admit(s, r, env);
    if admission.Admitted? {
      AdmitAuthority(s, r, env);
      MutatedLeases(s.table, admission.key, r, env);
      hide Admit, Mutated, Authorized, Administers;
    }
  }

  /** Main result: a lease mutation touches the table only with remote control on, audit
      storage healthy and the requester authenticated in the active session or an
      administrator; it adds leases only for the requester, and changes or removes a lease
      only for its owner or an administrator. */
  lemma MutationAuthority(s: State, r: Request, env: Env, k: string)
    ensures var s' := Mutate(s, r, env).0;
            && s'.config == s.config
            && (s'.table.leases != s.table.leases ==> Authorized(s.config, r))
            && (k in s'.table.leases && k !in s.table.leases ==> s'.table.leases[k].deviceId == r.deviceId)
            && (k in s.table.leases && !(k in s'.table.leases && s'.table.leases[k] == s.table.leases[k]) ==>
                  s.table.leases[k].deviceId == r.deviceId || Administers(s.config.policy, r.deviceId))
  {
    MutateRuns(s, r, env);
    EnableAuthority(s, r, env, k);
    MutateAuthority(s, r, env, k);
    hide Mutate, EnableBody, MutateBody, Authorized, Administers;
  }

  // ---------------------------------------------------------------------------
  // Remote control switched off
  // ---------------------------------------------------------------------------

  lemma InheritsNothing(b: map<string, Lease>)
    requires Inherits(b, map[])
    ensures b == map[]
  {
    assert b.Keys == {};
  }

  /** Leases appear only while remote control is on and the host is not fail-closed. */
  lemma EmptyStaysEmpty(m: Machine, e: Event)
    requires m.s.table.leases == map[] && (!m.s.config.policy.remoteEnabled || m.s.config.migrationFailed)
    ensures NextState(m, e).table.leases == map[]
  {
    if e.Mutation? {
      MutationAuthority(m.s, e.r, e.env, "");
    } else {
      OthersInherit(m, e);
      InheritsNothing(NextState(m, e).table.leases);
    }
  }

  predicate MovesPolicy(e: Event) {
    e.PolicySet? || e.PolicyApplied? || e.MigrationFlagSet?
  }

  lemma OthersKeepPolicy(m: Machine, e: Event)
    requires !MovesPolicy(e)
    ensures NextState(m, e).config.policy == m.s.config.policy
    ensures NextState(m, e).config.migrationFailed == m.s.config.migrationFailed
  {
    if e.Mutation? {
      MutationAuthority(m.s, e.r, e.env, "");
    }
  }

  lemma RevokeClears(s: State, was: bool, now: bool, actor: string, env: Env)
    requires Visits(env.order, s.table.leases)
    ensures var w := RevokeForPolicy(s, was, now, actor, env);
            w.state.config == s.config && (was && !now && !w.failed ==> w.state.table.leases == map[])
  {
    if was && !now && s.table.leases != map[] && !RevokeForPolicy(s, was, now, actor, env).failed {
      SweepClears(Sweep(s.table, s.audit, false), env.order, actor, env);
    }
  }

  lemma SetPolicyOff(s: State, p: Policy, env: Env)
    requires RemoteOff(s) && Visits(env.order, s.table.leases)
    ensures RemoteOff(SetPolicy(s, p, env)) <==>
            (!s.config.policySet && !p.remoteEnabled ==> s.table.leases == map[])
  {
    if s.config.policySet {
      RevokeClears(WithPolicy(s, p), s.config.policy.remoteEnabled, p.remoteEnabled, "system", env);
      SetPolicyInherits(s, p, env);
      if s.table.leases == map[] {
        InheritsNothing(SetPolicy(s, p, env).table.leases);
      }
    }
  }

  lemma ApplyPolicyOff(s: State, t: Ticket, env: Env)
    requires RemoteOff(s) && Visits(env.order, s.table.leases) && t.remoteEnabled != t.oldPolicy.remoteEnabled
    ensures RemoteOff(ApplyPolicy(s, t, env)) <==>
            (!AuditOk(s.audit, env, "") && !t.oldPolicy.remoteEnabled ==> s.table.leases == map[])
  {
    if AuditOk(s.audit, env, "") {
      var s1 := WithPolicy(s, s.config.policy.(remoteEnabled := t.remoteEnabled)).(
                  audit := Audited(s.audit, AuditRecord(PolicyChangeOp, "cli", "", env.now)));
      RevokeClears(s1, t.oldPolicy.remoteEnabled, t.remoteEnabled, "cli", env);
    }
  }

  /** The exact condition: one step keeps "remote control off implies no lease" if and only
      if it does not switch the policy off behind a lease, as the bootstrap seed and the
      rollback of a failed enable can. */
  lemma StepRemoteOff(m: Machine, e: Event)
    requires Inv(m) && Legal(m, e) && RemoteOff(m.s)
    ensures RemoteOff(Next(m, e).s) <==> OffWithoutLeases(m, e)
  {
    if e.PolicySet? {
      SetPolicyOff(m.s, e.policy, e.env);
    } else if e.PolicyApplied? {
      ApplyPolicyOff(m.s, m.tickets[e.policyKey], e.env);
    } else if e.MigrationFlagSet? {
    } else {
      OthersKeepPolicy(m, e);
      if !m.s.config.policy.remoteEnabled {
        EmptyStaysEmpty(m, e);
      }
    }
  }

  /** Policy mutations one at a time, and the seed before the first lease. */
  predicate Disciplined(m: Machine, e: Event) {
    && (e.PolicySet? || e.PolicyBegun? ==> m.tickets == map[])
    && (e.PolicySet? && !m.s.config.policySet ==> m.s.table.leases == map[])
  }

  /** No open policy mutation has been overtaken. */
  predicate Fresh(m: Machine) {
    forall k :: k in m.tickets ==> m.tickets[k].oldPolicy == m.s.config.policy
  }

  lemma StepFresh(m: Machine, e: Event)
    requires Inv(m) && Legal(m, e) && Disciplined(m, e) && Fresh(m) && |m.tickets| <= 1
    ensures Fresh(Next(m, e)) && |NextTickets(m, e)| <= 1
  {
    if e.PolicyApplied? {
      OnlyTicket(m.tickets, e.policyKey);
      hide NextState, Inv, Legal;
    } else if !e.PolicySet? && !e.MigrationFlagSet? {
      OthersKeepPolicy(m, e);
      TicketsStay(m, e);
      hide NextState, NextTickets, Inv, Legal;
    } else {
      hide Inv, Legal, RevokeForPolicy;
    }
  }

  /** A policy mutation is reserved with the policy of that moment. */
  lemma TicketsStay(m: Machine, e: Event)
    requires !MovesPolicy(e) && (e.PolicyBegun? ==> m.tickets == map[])
    ensures |NextTickets(m, e)| <= (if m.tickets == map[] then 1 else |m.tickets|)
    ensures forall k :: k in NextTickets(m, e) ==>
              (k in m.tickets && NextTickets(m, e)[k] == m.tickets[k]) || NextTickets(m, e)[k].oldPolicy == m.s.config.policy
  {
    hide PolicyFingerprint;
    if e.PolicyCancelled? {
      assert (m.tickets - {e.policyKey}).Keys <= m.tickets.Keys;
      FewerKeys(m.tickets, m.tickets - {e.policyKey});
    }
  }

  lemma FewerKeys(a: map<PolicyKey, Ticket>, b: map<PolicyKey, Ticket>)
    requires b.Keys <= a.Keys
    ensures |b| <= |a|
  {
    assert |a.Keys - b.Keys| == |a.Keys| - |b.Keys|;
  }

  lemma OnlyTicket(tickets: map<PolicyKey, Ticket>, key: PolicyKey)
    requires key in tickets && |tickets| <= 1
    ensures tickets - {key} == map[]
  {
    assert |tickets.Keys - {key}| == |tickets.Keys| - 1;
    assert (tickets - {key}).Keys == tickets.Keys - {key};
  }

  lemma DisciplineSuffices(m: Machine, e: Event)
    requires Inv(m) && Legal(m, e) && RemoteOff(m.s) && Fresh(m) && Disciplined(m, e)
    ensures OffWithoutLeases(m, e)
  {
  }

  /** Main result: with policy mutations one at a time and the seed in place before the
      first lease, remote control off means no lease, in every reachable state. */
  lemma {:induction false} RemoteOffAlways(clock: int, es: seq<Event>)
    requires LegalRun(Start(clock), es)
    requires forall i :: 0 <= i < |es| ==> Disciplined(Run(Start(clock), es[..i]), es[i])
    ensures RemoteOff(Run(Start(clock), es).s)
    ensures Fresh(Run(Start(clock), es)) && |Run(Start(clock), es).tickets| <= 1
  {
    if es != [] {
      var front, e := es[..|es| - 1], es[|es| - 1];
      RunFront(Start(clock), es);
      forall i | 0 <= i < |front|
        ensures Disciplined(Run(Start(clock), front[..i]), front[i])
      {
        assert front[..i] == es[..i] && front[i] == es[i];
      }
      RemoteOffAlways(clock, front);
      AlwaysInv(clock, front);
      var mid := Run(Start(clock), front);
      assert Disciplined(mid, e);
      hide Inv, Legal, LegalRun, NextState, NextTickets, OffWithoutLeases, Fresh, Disciplined, RemoteOff;
      StepFresh(mid, e);
      DisciplineSuffices(mid, e);
      StepRemoteOff(mid, e);
    }
  }

  // The two ways out, each reached from the initial state.

  const POLICY_OFF := Policy(false, false, [], false, 0)
  const MAINS := Some(PowerSnapshot(Some(false), None))

  function At(order: seq<string>, auditFails: set<string>): Env {
    Env(0, 0, order, order, auditFails, MAINS, RuntimeStatus(On, NoReason))
  }

  const ENABLE := Request(EnableOp, "d", "q", "s", "", MIN_DURATION_MS, "", true, "s")
  const ONLY := LeaseKey("s", "d", LeaseId(1))
  const REMOTE_ON := PolicyKey("cli", "on")

  /** A machine whose policy was just switched on grants the enable. */
  lemma FirstLease(m: Machine, env: Env)
    requires m.s.config == Config(POLICY_OFF.(remoteEnabled := true), m.s.config.policySet, m.s.config.grace, false)
    requires m.s.table == INITIAL.table && m.s.idem.cache.entries == map[] && m.s.idem.inFlight == map[]
    requires env == At([], {})
    ensures Next(m, Mutation(ENABLE, env)).s.table.leases == map[ONLY := NewLease(ENABLE, LeaseId(1), 0)]
    ensures Next(m, Mutation(ENABLE, env)).s.config == m.s.config
    ensures Next(m, Mutation(ENABLE, env)).s.audit.writer == m.s.audit.writer
  {
    TrimPlain("d");
    TrimPlain("s");
    TrimPlain("q");
    MutateRuns(m.s, ENABLE, env);
    FirstGrant(m.s, env);
    hide Trim, LeaseKey, LeaseId, EnableBody, Complete, Fingerprint;
  }

  lemma FirstGrant(s: State, env: Env)
    requires s.config == Config(POLICY_OFF.(remoteEnabled := true), s.config.policySet, s.config.grace, false)
    requires s.table == INITIAL.table && env == At([], {})
    ensures var s' := EnableBody(s, ENABLE, env).0;
            && s'.table.leases == map[ONLY := NewLease(ENABLE, LeaseId(1), 0)]
            && s'.config == s.config && s'.audit.writer == s.audit.writer
  {
    TrimPlain("d");
    AddedLeases(s.table.(nextLeaseSeq := 1), ENABLE, LeaseId(1), env);
    assert Authorize(s.config, ENABLE) == Granted(false);
    hide Trim, LeaseKey, LeaseId, Authorize, Added;
  }

  lemma TrimPlain(s: string)
    requires |s| == 1 && !IsSpace(s[0])
    ensures Trim(s) == s
  {
  }

  lemma KeptByPrune(key: string, l: Lease)
    requires !Expired(l, 0)
    ensures forall t: Table :: t.leases == map[key := l] ==> Prune(t, [key], 0).leases == map[key := l]
  {
    forall t: Table | t.leases == map[key := l]
      ensures Prune(t, [key], 0).leases == map[key := l]
    {
      assert Prune(t, [key][..0], 0) == t;
    }
  }

  lemma SwitchedOn()
    ensures var e1, e2 := PolicyBegun(REMOTE_ON, true, ""), PolicyApplied(REMOTE_ON, At([], {}));
            var m1 := Next(Start(0), e1);
            var m2 := Next(m1, e2);
            && Legal(Start(0), e1) && Legal(m1, e2)
            && m2.s.config == INITIAL.config.(policy := POLICY_OFF.(remoteEnabled := true))
            && m2.s.table == INITIAL.table && m2.clock == 0
            && m2.s.idem.cache.entries == map[] && m2.s.idem.inFlight == map[]
  {
  }

  lemma LeaseStranded(m: Machine)
    requires m.s.table.leases == map[ONLY := NewLease(ENABLE, LeaseId(1), 0)] && m.clock == 0 && !m.s.config.policySet
    ensures var e := PolicySet(POLICY_OFF, At([ONLY], {})); Legal(m, e) && !RemoteOff(Next(m, e).s)
  {
    KeptByPrune(ONLY, NewLease(ENABLE, LeaseId(1), 0));
    hide LeaseKey, LeaseId, NewLease, Expired;
  }

  /** Remote control switched on over HTTP and a lease granted, then the bootstrap seed
      switches it off: the lease stays.  The host itself seeds before it serves. */
  lemma SeedStrandsLease()
    ensures var e1, e2 := PolicyBegun(REMOTE_ON, true, ""), PolicyApplied(REMOTE_ON, At([], {}));
            var e3, e4 := Mutation(ENABLE, At([], {})), PolicySet(POLICY_OFF, At([ONLY], {}));
            var m1 := Next(Start(0), e1);
            var m2 := Next(m1, e2);
            var m3 := Next(m2, e3);
            Legal(Start(0), e1) && Legal(m1, e2) && Legal(m2, e3) && Legal(m3, e4) && !RemoteOff(Next(m3, e4).s)
  {
    SwitchedOn();
    var m2 := Next(Next(Start(0), PolicyBegun(REMOTE_ON, true, "")), PolicyApplied(REMOTE_ON, At([], {})));
    FirstLease(m2, At([], {}));
    LeaseStranded(Next(m2, Mutation(ENABLE, At([], {}))));
    hide LeaseKey, LeaseId, NextState, NextTickets;
  }

  const SECOND_ON := PolicyKey("cli", "second")

  /** Two policy mutations overlap, and the second one is applied. */
  lemma Overlapped()
    ensures var e1, e2, e3 := PolicyBegun(REMOTE_ON, true, ""), PolicyBegun(SECOND_ON, true, ""), PolicyApplied(SECOND_ON, At([], {}));
            var m1 := Next(Start(0), AuditWired);
            var m2 := Next(m1, e1);
            var m3 := Next(m2, e2);
            var m4 := Next(m3, e3);
            && Legal(Start(0), AuditWired) && Legal(m1, e1) && Legal(m2, e2) && Legal(m3, e3)
            && m4.s.config == INITIAL.config.(policy := POLICY_OFF.(remoteEnabled := true))
            && m4.s.table == INITIAL.table && m4.clock == 0 && m4.s.audit.writer
            && m4.s.idem.cache.entries == map[] && m4.s.idem.inFlight == map[]
            && REMOTE_ON in m4.tickets && m4.tickets[REMOTE_ON].oldPolicy == POLICY_OFF
  {
    hide NulJoined;
    assert SECOND_ON.requestId[0] != REMOTE_ON.requestId[0];
  }

  /** The first of them cannot be audited and is rolled back. */
  lemma RolledBack(m: Machine)
    requires m.s.table.leases == map[ONLY := NewLease(ENABLE, LeaseId(1), 0)] && m.clock == 0 && m.s.audit.writer
    requires REMOTE_ON in m.tickets && m.tickets[REMOTE_ON].oldPolicy == POLICY_OFF
    ensures var e := PolicyApplied(REMOTE_ON, At([ONLY], {""})); Legal(m, e) && !RemoteOff(Next(m, e).s)
  {
    KeptByPrune(ONLY, NewLease(ENABLE, LeaseId(1), 0));
    hide LeaseKey, LeaseId, NewLease, Expired;
  }

  lemma MutationKeepsTickets(m: Machine, r: Request, env: Env)
    ensures NextTickets(m, Mutation(r, env)) == m.tickets && Clock(m, Mutation(r, env)) == env.armAt
  {
  }

  lemma EnableIsLegal(m: Machine)
    requires m.s.table == INITIAL.table && m.clock == 0
    ensures Legal(m, Mutation(ENABLE, At([], {})))
  {
  }

  /** Two policy mutations overlap: the second enables and a lease is granted, then the
      audit of the first fails and its rollback switches remote control off: the lease
      stays. */
  lemma RollbackStrandsLease()
    ensures var e1, e2 := PolicyBegun(REMOTE_ON, true, ""), PolicyBegun(SECOND_ON, true, "");
            var e3, e4 := PolicyApplied(SECOND_ON, At([], {})), Mutation(ENABLE, At([], {}));
            var e6 := PolicyApplied(REMOTE_ON, At([ONLY], {""}));
            var m1 := Next(Start(0), AuditWired);
            var m2 := Next(m1, e1);
            var m3 := Next(m2, e2);
            var m4 := Next(m3, e3);
            var m5 := Next(m4, e4);
            && Legal(Start(0), AuditWired) && Legal(m1, e1) && Legal(m2, e2) && Legal(m3, e3) && Legal(m4, e4)
            && Legal(m5, e6) && !RemoteOff(Next(m5, e6).s)
  {
    hide Legal, NextState, NextTickets, Clock, RemoteOff, LeaseKey, LeaseId, NewLease;
    var m1 := Next(Start(0), AuditWired);
    var m2 := Next(m1, PolicyBegun(REMOTE_ON, true, ""));
    var m3 := Next(m2, PolicyBegun(SECOND_ON, true, ""));
    var m4 := Next(m3, PolicyApplied(SECOND_ON, At([], {})));
    Overlapped();
    EnableIsLegal(m4);
    FirstLease(m4, At([], {}));
    MutationKeepsTickets(m4, ENABLE, At([], {}));
    RolledBack(Next(m4, Mutation(ENABLE, At([], {}))));
  }

  // ---------------------------------------------------------------------------
  // Fail-closed
  // ---------------------------------------------------------------------------

  /** What a failed policy audit leaves behind. */
  predicate Closed(s: State) {
    s.config.migrationFailed && s.table.leases == map[]
  }

  /** A failed audit write while leases are revoked, or while a policy change is recorded,
      closes the host. */
  lemma PolicyAuditFailureCloses(s: State, p: Policy, env: Env)
    requires s.config.policySet && p != s.config.policy && s.audit.writer && "" in env.auditFails
    ensures Closed(SetPolicy(s, p, env)) && !SetPolicy(s, p, env).config.policy.remoteEnabled
  {
    SweepKeepsWriter(Sweep(s.table, s.audit, false), env.order, "system", env);
  }

  lemma {:induction false} SweepKeepsWriter(w: Sweep, order: seq<string>, actor: string, env: Env)
    ensures SweepAll(w, order, actor, env).audit.writer == w.audit.writer
  {
    if order != [] {
      SweepKeepsWriter(w, order[..|order| - 1], actor, env);
    }
  }

  lemma StepClosed(m: Machine, e: Event)
    requires Closed(m.s) && e != MigrationFlagSet(false)
    ensures Closed(NextState(m, e))
  {
    EmptyStaysEmpty(m, e);
    if e.Mutation? {
      MutationAuthority(m.s, e.r, e.env, "");
    }
  }

  /** Main result: after a fail-closed transition no later step ever adds a lease, until an
      operator clears the flag. */
  lemma {:induction false} ClosedForGood(m: Machine, es: seq<Event>)
    requires Closed(m.s) && MigrationFlagSet(false) !in es
    ensures Closed(Run(m, es).s)
  {
    if es != [] {
      assert forall e :: e in es[..|es| - 1] ==> e in es;
      ClosedForGood(m, es[..|es| - 1]);
      hide NextState;
      StepClosed(Run(m, es[..|es| - 1]), es[|es| - 1]);
    }
  }
}
