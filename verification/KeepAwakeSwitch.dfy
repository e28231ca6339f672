/** What a policy change does to policy, leases, revision and stored response, whatever the
    order of its revocations; and that remote control switched off stays off. */
module KeepAwakeSwitch {
  import opened KeepAwakeState
  import opened KeepAwakeTable
  import opened KeepAwakeLaws
  import opened KeepAwakeSafety
  import opened KeepAwakePolicy
  import opened KeepAwakeExact
  import opened KeepAwakeReplay

  // ---------------------------------------------------------------------------
  // Revocations
  // ---------------------------------------------------------------------------

  /** A record of the removal was written for every lease. */
  ghost predicate RevocationsLogged(t: Table, a: Audit, a': Audit) {
    && a'.writer == a.writer && a.log <= a'.log
    && (a.writer ==> forall k :: k in t.leases ==>
          exists i :: |a.log| <= i < |a'.log| && a'.log[i].operation == PolicyRevokeOp && a'.log[i].leaseId == t.leases[k].leaseId)
  }

  lemma {:induction false} SweepLogs(w: Sweep, order: seq<string>, actor: string, env: Env, k: string)
    requires !w.failed && k in w.table.leases
    ensures var w' := SweepAll(w, order, actor, env);
            && w.audit.log <= w'.audit.log && w'.audit.writer == w.audit.writer
            && (!w'.failed && k !in w'.table.leases && w.audit.writer ==>
                  exists i :: |w.audit.log| <= i < |w'.audit.log| && w'.audit.log[i].operation == PolicyRevokeOp
                              && w'.audit.log[i].leaseId == w.table.leases[k].leaseId)
  {
    if order != [] {
      var front, key := order[..|order| - 1], order[|order| - 1];
      var mid, w' := SweepAll(w, front, actor, env), SweepAll(w, order, actor, env);
      SweepLogs(w, front, actor, env, k);
      SweepInherits(w, front, actor, env);
      if !w'.failed && k !in w'.table.leases && w.audit.writer {
        if k in mid.table.leases {
          assert w'.audit.log[|mid.audit.log|].leaseId == w.table.leases[k].leaseId;
        } else {
          var i :| |w.audit.log| <= i < |mid.audit.log| && mid.audit.log[i].operation == PolicyRevokeOp
                   && mid.audit.log[i].leaseId == w.table.leases[k].leaseId;
          assert w'.audit.log[i] == mid.audit.log[i];
        }
      }
    }
  }

  /** The revocations of a switch-off fail exactly when some record cannot be written, and
      otherwise empty the table with a record each; any other change revokes nothing. */
  lemma RevocationsExactly(s: State, was: bool, now: bool, actor: string, env: Env)
    requires Visits(env.order, s.table.leases)
    ensures var w := RevokeForPolicy(s, was, now, actor, env);
            && (w.failed <==> was && !now && Unauditable(s.table, s.audit, env))
            && w.state.config == s.config && w.state.statusRevision == s.statusRevision && w.state.idem == s.idem
            && w.state.audit.writer == s.audit.writer
            && (!(was && !now) ==> w.state == s)
    ensures var w := RevokeForPolicy(s, was, now, actor, env);
            was && !now && !w.failed ==>
              && w.state.table.leases == map[] && RevocationsLogged(s.table, s.audit, w.state.audit)
              && (if s.table.leases != map[] then Told(s, w.state, env) else w.state.runtime == s.runtime)
    ensures RevokeForPolicy(s, was, now, actor, env).failed ==> RevokeForPolicy(s, was, now, actor, env).state.runtime == s.runtime
  {
    if was && !now && s.table.leases != map[] {
      RevocationsRun(s, actor, env);
      hide SweepAll, RevocationsLogged, Unauditable, Visits;
    } else {
      NothingToAudit(s.table, s.audit, env);
      hide SweepAll, Unauditable;
    }
  }

  lemma NothingToAudit(t: Table, a: Audit, env: Env)
    ensures t.leases == map[] ==> !Unauditable(t, a, env)
  {
  }

  lemma RevocationsRun(s: State, actor: string, env: Env)
    requires Visits(env.order, s.table.leases)
    ensures var w := SweepAll(Sweep(s.table, s.audit, false), env.order, actor, env);
            && w.audit.writer == s.audit.writer
            && (w.failed <==> Unauditable(s.table, s.audit, env))
            && (!w.failed ==> w.table.leases == map[] && RevocationsLogged(s.table, s.audit, w.audit))
  {
    var w0 := Sweep(s.table, s.audit, false);
    var w := SweepAll(w0, env.order, actor, env);
    SweepFails(w0, env.order, actor, env);
    EachWritable(s, env);
    if !w.failed {
      SweepClears(w0, env.order, actor, env);
      forall k | k in s.table.leases && s.audit.writer
        ensures exists i :: |s.audit.log| <= i < |w.audit.log| && w.audit.log[i].operation == PolicyRevokeOp
                            && w.audit.log[i].leaseId == s.table.leases[k].leaseId
      {
        SweepLogs(w0, env.order, actor, env, k);
      }
      if k :| k in s.table.leases {
        SweepLogs(w0, env.order, actor, env, k);
      }
    }
  }

  lemma EachWritable(s: State, env: Env)
    requires Visits(env.order, s.table.leases)
    ensures Unauditable(s.table, s.audit, env) <==>
            exists k :: k in env.order && k in s.table.leases && !AuditOk(s.audit, env, s.table.leases[k].leaseId)
  {
    if Unauditable(s.table, s.audit, env) {
      var k :| k in s.table.leases && Unwritable(s.audit, env, s.table.leases[k].leaseId);
      assert k in env.order && !AuditOk(s.audit, env, s.table.leases[k].leaseId);
    }
    if k :| k in env.order && k in s.table.leases && !AuditOk(s.audit, env, s.table.leases[k].leaseId) {
      assert Unwritable(s.audit, env, s.table.leases[k].leaseId);
    }
  }

  // ---------------------------------------------------------------------------
  // The three ways a change can end
  // ---------------------------------------------------------------------------

  /** Fail-closed: remote control off for good, no lease, no timer, one revision. */
  predicate ClosedBy(s: State, s': State, policy: Policy, env: Env) {
    && s'.config == s.config.(policy := policy.(remoteEnabled := false), migrationFailed := true)
    && s'.table.leases == map[] && s'.table.timers == map[]
    && s'.statusRevision == s.statusRevision + 1 && Told(s, s', env)
  }

  /** The policy is in force: with remote control switched off no lease is left and each
      removal is on record, and any other change leaves the leases alone. */
  ghost predicate InForce(s: State, s': State, policy: Policy, revisions: nat, switchedOff: bool, env: Env) {
    && s'.config == s.config.(policy := policy)
    && s'.statusRevision == s.statusRevision + revisions
    && (if switchedOff then
          && s'.table.leases == map[] && RevocationsLogged(s.table, s.audit, s'.audit)
          && (if s.table.leases != map[] then Told(s, s', env) else s'.runtime == s.runtime)
        else s'.table == s.table && s'.runtime == s.runtime)
  }

  lemma FailClosedExactly(s: State, before: State, env: Env)
    requires s.runtime == before.runtime && s.statusRevision == before.statusRevision
    requires s.config == before.config.(policy := s.config.policy)
    ensures ClosedBy(before, FailClosed(s, env.status), s.config.policy, env) && FailClosed(s, env.status).idem == s.idem
  {
  }

  lemma LoggedLater(t: Table, a: Audit, b: Audit, c: Audit)
    requires RevocationsLogged(t, b, c) && a.writer == b.writer && a.log <= b.log
    ensures RevocationsLogged(t, a, c)
  {
    if a.writer {
      forall k | k in t.leases
        ensures exists i :: |a.log| <= i < |c.log| && c.log[i].operation == PolicyRevokeOp && c.log[i].leaseId == t.leases[k].leaseId
      {
        var i :| |b.log| <= i < |c.log| && c.log[i].operation == PolicyRevokeOp && c.log[i].leaseId == t.leases[k].leaseId;
        assert |a.log| <= i;
      }
    }
  }

  lemma LoggedThen(t: Table, a: Audit, b: Audit, c: Audit)
    requires RevocationsLogged(t, a, b) && c.writer == b.writer && b.log <= c.log
    ensures RevocationsLogged(t, a, c)
  {
    if a.writer {
      forall k | k in t.leases
        ensures exists i :: |a.log| <= i < |c.log| && c.log[i].operation == PolicyRevokeOp && c.log[i].leaseId == t.leases[k].leaseId
      {
        var i :| |a.log| <= i < |b.log| && b.log[i].operation == PolicyRevokeOp && b.log[i].leaseId == t.leases[k].leaseId;
        assert c.log[i] == b.log[i];
      }
    }
  }

  // ---------------------------------------------------------------------------
  // The policy handler
  // ---------------------------------------------------------------------------

  predicate Discharged(i: Idempotency, i': Idempotency, key: PolicyKey) {
    i' == i.(policyInFlight := i.policyInFlight - {key})
  }

  /** How a mutation begins under a new key: in conflict with one that is still open; answered
      at once, with the current revision and nothing persisted, when the flag is already as
      asked; and otherwise reserved, with the flag and the policy of that moment. */
  lemma BeginExactly(s: State, key: PolicyKey, enabled: bool, reason: string)
    requires key !in s.idem.policyCache.entries
    ensures var (s', begin) := BeginPolicy(s, key, enabled, reason);
            && s' == s.(idem := s'.idem)
            && if key in s.idem.policyInFlight then begin == PolicyConflict && s' == s
               else if s.config.policy.remoteEnabled == enabled then
                 && begin == PolicyNoOp(PolicyResponse(s.statusRevision, false))
                 && key in s'.idem.policyCache.entries && s'.idem.policyInFlight == s.idem.policyInFlight
                 && s'.idem.policyCache.entries[key] == PolicyEntry(PolicyFingerprint(enabled, reason), PolicyResponse(s.statusRevision, false))
               else
                 && begin == PolicyReserved(Ticket(key, PolicyFingerprint(enabled, reason), enabled, s.config.policy))
                 && s'.idem == s.idem.(policyInFlight := s.idem.policyInFlight + {key})
  {
    hide PolicyFingerprint;
    assert s.idem.policyInFlight + {key} - {key} == s.idem.policyInFlight - {key};
  }

  /** An applied mutation, for every state and every ticket that changes the flag: without a
      policy record it is rolled back to the policy it started from and nothing else changes
      but the reservation; as a switch-off with a lease that cannot be audited it ends
      fail-closed; otherwise the current policy gets exactly the requested flag, one record,
      one revision and a stored response. */
  lemma ApplyExactly(s: State, t: Ticket, env: Env)
    requires Visits(env.order, s.table.leases) && t.remoteEnabled != t.oldPolicy.remoteEnabled
    ensures var s' := ApplyPolicy(s, t, env);
            if Unwritable(s.audit, env, "") then
              s' == s.(config := s.config.(policy := t.oldPolicy), idem := s'.idem) && Discharged(s.idem, s'.idem, t.key)
            else if !t.remoteEnabled && Unauditable(s.table, s.audit, env) then
              ClosedBy(s, s', s.config.policy, env) && Discharged(s.idem, s'.idem, t.key)
            else
              && InForce(s, s', s.config.policy.(remoteEnabled := t.remoteEnabled), 1, !t.remoteEnabled, env)
              && (s.audit.writer ==> s.audit.log + [AuditRecord(PolicyChangeOp, "cli", "", env.now)] <= s'.audit.log)
              && t.key in s'.idem.policyCache.entries && t.key !in s'.idem.policyInFlight
              && s'.idem.policyCache.entries[t.key] == PolicyEntry(t.fingerprint, PolicyResponse(s'.statusRevision, true))
  {
    hide RevokeForPolicy, Unauditable, RevocationsLogged, Visits, FailClosed;
    if !Unwritable(s.audit, env, "") {
      var a := Audited(s.audit, AuditRecord(PolicyChangeOp, "cli", "", env.now));
      var s1 := WithPolicy(s, s.config.policy.(remoteEnabled := t.remoteEnabled)).(audit := a);
      RevocationsExactly(s1, t.oldPolicy.remoteEnabled, t.remoteEnabled, "cli", env);
      SameAuditability(s.table, s.audit, a, env);
      var w := RevokeForPolicy(s1, t.oldPolicy.remoteEnabled, t.remoteEnabled, "cli", env);
      if w.failed {
        FailClosedExactly(w.state, s, env);
      } else if !t.remoteEnabled {
        LoggedLater(s.table, s.audit, a, w.state.audit);
        StartsWith(s.table, a, w.state.audit);
      }
    }
  }

  lemma SameAuditability(t: Table, a: Audit, b: Audit, env: Env)
    requires a.writer == b.writer
    ensures Unauditable(t, a, env) <==> Unauditable(t, b, env)
  {
  }

  lemma StartsWith(t: Table, a: Audit, b: Audit)
    requires RevocationsLogged(t, a, b)
    ensures a.log <= b.log
  {
  }

  // ---------------------------------------------------------------------------
  // The exported setter
  // ---------------------------------------------------------------------------

  /** The first call seeds and does nothing else.  Every later one puts the policy in force,
      with one revision and one record if it differs; or ends fail-closed, exactly when it is
      a switch-off with a lease that cannot be audited, or a change whose own record cannot be
      written. */
  lemma SetExactly(s: State, p: Policy, env: Env)
    requires Visits(env.order, s.table.leases)
    ensures var s' := SetPolicy(s, p, env);
            var switchedOff := s.config.policy.remoteEnabled && !p.remoteEnabled;
            && s'.idem == s.idem
            && if !s.config.policySet then s' == s.(config := s.config.(policy := p, policySet := true))
               else if (switchedOff && Unauditable(s.table, s.audit, env)) || (p != s.config.policy && Unwritable(s.audit, env, ""))
               then s'.config == s.config.(policy := p.(remoteEnabled := false), migrationFailed := true) &&
                    s'.table.leases == map[] && s'.table.timers == map[] && s'.statusRevision == s.statusRevision + 1
               else
                 && InForce(s, s', p, if p != s.config.policy then 1 else 0, switchedOff, env)
                 && (s.audit.writer && p != s.config.policy ==>
                       |s'.audit.log| > 0 && s'.audit.log[|s'.audit.log| - 1] == AuditRecord(PolicyChangeOp, "system", "", env.now))
  {
    hide RevokeForPolicy, Unauditable, RevocationsLogged, Visits;
    if s.config.policySet {
      RevocationsExactly(WithPolicy(s, p), s.config.policy.remoteEnabled, p.remoteEnabled, "system", env);
      var w := RevokeForPolicy(WithPolicy(s, p), s.config.policy.remoteEnabled, p.remoteEnabled, "system", env);
      WritableExactly(w.state.audit, env, "");
      if !w.failed && s.config.policy.remoteEnabled && !p.remoteEnabled && AuditOk(w.state.audit, env, "") {
        LoggedThen(s.table, s.audit, w.state.audit, SetPolicy(s, p, env).audit);
      }
    }
  }

  // ---------------------------------------------------------------------------
  // Runs
  // ---------------------------------------------------------------------------

  lemma OthersKeepOff(m: Machine, e: Event)
    requires !e.PolicySet? && !e.PolicyApplied?
    ensures NextState(m, e).config.policy == m.s.config.policy
  {
    if !e.MigrationFlagSet? {
      OthersKeepPolicy(m, e);
    }
  }

  lemma {:induction false} OffStaysOff(m: Machine, es: seq<Event>)
    requires !m.s.config.policy.remoteEnabled && m.s.table.leases == map[]
    requires forall e :: e in es ==> !e.PolicySet? && !e.PolicyApplied?
    ensures !Run(m, es).s.config.policy.remoteEnabled && Run(m, es).s.table.leases == map[]
  {
    hide NextState;
    if es != [] {
      var front, e := es[..|es| - 1], es[|es| - 1];
      assert forall x :: x in front ==> x in es;
      OffStaysOff(m, front);
      OthersKeepOff(Run(m, front), e);
      EmptyStaysEmpty(Run(m, front), e);
    }
  }

  /** Main result: once a mutation that switches remote control off was applied, no lease is
      held and every enable is refused as switched off, until another policy event. */
  lemma SwitchedOffStays(m: Machine, e: Event, es: seq<Event>, r: Request, env: Env)
    requires Inv(m) && Legal(m, e) && e.PolicyApplied? && !m.tickets[e.policyKey].remoteEnabled
    requires !Unwritable(m.s.audit, e.env, "")
    requires forall x :: x in es ==> !x.PolicySet? && !x.PolicyApplied?
    ensures var s := Run(Next(m, e), es).s;
            && !s.config.policy.remoteEnabled && s.table.leases == map[]
            && EnableBody(s, r, env).0 == s && EnableBody(s, r, env).1.code == PolicyDisabled
  {
    var t := m.tickets[e.policyKey];
    assert t.remoteEnabled != t.oldPolicy.remoteEnabled && Visits(e.env.order, m.s.table.leases);
    hide Inv, Legal, NextState, ApplyPolicy, Visits, InForce, ClosedBy;
    ApplyExactly(m.s, t, e.env);
    AppliedOff(m, e);
    OffStaysOff(Next(m, e), es);
    OffRefuses(Run(Next(m, e), es).s, r, env);
  }

  lemma AppliedOff(m: Machine, e: Event)
    requires e.PolicyApplied? && e.policyKey in m.tickets && !m.tickets[e.policyKey].remoteEnabled
    requires var s' := ApplyPolicy(m.s, m.tickets[e.policyKey], e.env);
             || ClosedBy(m.s, s', m.s.config.policy, e.env)
             || InForce(m.s, s', m.s.config.policy.(remoteEnabled := false), 1, true, e.env)
    ensures !NextState(m, e).config.policy.remoteEnabled && NextState(m, e).table.leases == map[]
  {
    hide ApplyPolicy, RevocationsLogged, Told;
  }

  lemma OffRefuses(s: State, r: Request, env: Env)
    requires !s.config.policy.remoteEnabled
    ensures EnableBody(s, r, env) == (s, Result(false, "", PolicyDisabled, s.statusRevision, |s.table.leases|))
  {
  }

  /** A mutation begun for a flag and applied while its record and those of the leases can be
      written leaves the policy with that flag, whatever happened in between. */
  lemma RequestedIsApplied(m: Machine, key: PolicyKey, enabled: bool, reason: string, waiting: seq<Event>, e: Event)
    requires Inv(m) && Unanswered(m) && Legal(m, PolicyBegun(key, enabled, reason))
    requires BeginPolicy(m.s, key, enabled, reason).1.PolicyReserved?
    requires var m1 := Next(m, PolicyBegun(key, enabled, reason));
             && LegalRun(m1, waiting)
             && (forall x :: x in waiting ==> x != PolicyCancelled(key) && !(x.PolicyApplied? && x.policyKey == key))
             && e.PolicyApplied? && e.policyKey == key && Legal(Run(m1, waiting), e)
    ensures var m2 := Run(Next(m, PolicyBegun(key, enabled, reason)), waiting);
            !Unwritable(m2.s.audit, e.env, "") && !Unauditable(m2.s.table, m2.s.audit, e.env) ==>
              NextState(m2, e).config.policy == m2.s.config.policy.(remoteEnabled := enabled)
  {
    var begun := PolicyBegun(key, enabled, reason);
    var m1 := Next(m, begun);
    hide Inv, Legal, LegalRun, NextState, NextTickets, Unanswered, BeginPolicy, ApplyPolicy, InForce, Visits;
    StepInv(m, begun);
    StepUnanswered(m, begun);
    ReservedFlag(m, key, enabled, reason);
    TicketKept(m1, waiting, key);
    var m2 := Run(m1, waiting);
    AppliesTicket(m2, e);
    ApplyExactly(m2.s, m2.tickets[key], e.env);
    InForcePolicy(m2.s, ApplyPolicy(m2.s, m2.tickets[key], e.env), enabled, e.env);
  }

  lemma ReservedFlag(m: Machine, key: PolicyKey, enabled: bool, reason: string)
    requires BeginPolicy(m.s, key, enabled, reason).1.PolicyReserved?
    ensures var m1 := Next(m, PolicyBegun(key, enabled, reason));
            key in m1.tickets && m1.tickets[key].remoteEnabled == enabled && m1.tickets[key].oldPolicy == m.s.config.policy
  {
    hide PolicyFingerprint;
  }

  lemma AppliesTicket(m: Machine, e: Event)
    requires Inv(m) && Legal(m, e) && e.PolicyApplied?
    ensures e.policyKey in m.tickets && NextState(m, e) == ApplyPolicy(m.s, m.tickets[e.policyKey], e.env)
    ensures m.tickets[e.policyKey].remoteEnabled != m.tickets[e.policyKey].oldPolicy.remoteEnabled
    ensures Visits(e.env.order, m.s.table.leases)
  {
    hide ApplyPolicy;
  }

  lemma InForcePolicy(s: State, s': State, enabled: bool, env: Env)
    ensures InForce(s, s', s.config.policy.(remoteEnabled := enabled), 1, !enabled, env) ==>
              s'.config.policy == s.config.policy.(remoteEnabled := enabled)
  {
  }
}
