/** What each operation of the control plane does to each lease, said without its loops:
    no result depends on the order in which a Go map was visited. */
module KeepAwakeExact {
  import opened Text
  import opened KeepAwakeState
  import opened FifoCache
  import opened KeepAwakeTable
  import opened KeepAwakeLaws
  import opened KeepAwakeSafety
  import opened KeepAwakePolicy

  // ---------------------------------------------------------------------------
  // Lease mutations
  // ---------------------------------------------------------------------------

  /** A record about the subject cannot be written. */
  predicate Unwritable(a: Audit, env: Env, subject: string) {
    a.writer && subject in env.auditFails
  }

  predicate Logged(a: Audit, a': Audit, records: seq<AuditRecord>) {
    a'.writer == a.writer && a'.log == a.log + (if a.writer then records else [])
  }

  /** The runtime was told whether any lease is left; without one the host reports that it
      cannot keep awake. */
  predicate Told(s: State, s': State, env: Env) {
    var held := s'.table.leases != map[];
    && s'.runtime.wired == s.runtime.wired
    && (if s.runtime.wired then
          s'.runtime.requests == s.runtime.requests + [held] && s'.runtime.status == env.status
        else
          s'.runtime.requests == s.runtime.requests &&
          s'.runtime.status == if held then RuntimeStatus(Degraded, Unsupported) else RuntimeStatus(Off, NoReason))
  }

  /** A mutation that went through reports success unless the runtime is degraded because it
      is not supported or could not acquire, and then says which. */
  predicate Reports(s: State, result: Result, leaseId: string) {
    var unsupported := s.runtime.status.state == Degraded && s.runtime.status.reason == Unsupported;
    var failed := s.runtime.status.state == Degraded && s.runtime.status.reason == AcquireFailure;
    && (result.success <==> !unsupported && !failed)
    && (unsupported ==> result.code == UnsupportedEnvironment)
    && (failed ==> result.code == AcquireFailed)
    && (result.success ==> result.code == NoError)
    && result.leaseId == leaseId && result.revision == s.statusRevision && result.activeLeases == |s.table.leases|
  }

  lemma OutcomeReports(s: State, leaseId: string)
    ensures Reports(s, Outcome(s, leaseId), leaseId)
  {
  }

  /** The lease under the key has an expiry run ahead: a timer at its expiry, or one at once
      when it is due. */
  predicate Rearmed(t: Table, t': Table, key: string, expiry: int, armAt: int) {
    if expiry > armAt then t'.timers == t.timers[key := Armed(expiry)] && t'.queued == t.queued
    else t'.timers - {key} == t.timers - {key} && t'.queued == t.queued + multiset{key}
  }

  function DenialCode(c: Config, r: Request): Code {
    if c.migrationFailed || !c.policy.remoteEnabled then PolicyDisabled else Unauthorized
  }

  /** An enable grants exactly when the requester is authorized, power allows it and the
      audit record is written; the grant adds one lease under a new id, expiring after the
      requested duration, with its timer, one record and one revision, and reports what the
      runtime says; a refusal says why and changes nothing but the id counter. */
  lemma EnableExactly(s: State, r: Request, env: Env, clock: int)
    requires Sound(s.table, clock)
    ensures var (s', result) := EnableBody(s, r, env);
            var id := LeaseId(s.table.nextLeaseSeq + 1);
            var key, expiry := LeaseKey(r.sessionId, r.deviceId, id), env.now + r.durationMs * 1_000_000;
            if Authorized(s.config, r) && Powered(s.config.policy, env.power) && !Unwritable(s.audit, env, id) then
              && s'.table.leases ==
                 s.table.leases[key := Lease(r.sessionId, r.deviceId, id, r.reason, expiry, false, None, None)]
              && Rearmed(s.table, s'.table, key, expiry, env.armAt)
              && s'.config == s.config && s'.statusRevision == s.statusRevision + 1
              && Logged(s.audit, s'.audit, [AuditRecord(EnableOp, r.deviceId, id, env.now)])
              && Told(s, s', env) && Reports(s', result, id)
            else
              && s' == s.(table := s.table.(nextLeaseSeq := s'.table.nextLeaseSeq))
              && result == Result(false, "", if !Authorized(s.config, r) then DenialCode(s.config, r)
                                             else if !Powered(s.config.policy, env.power) then PolicyDisabled
                                             else Conflict, s.statusRevision, |s.table.leases|)
  {
    hide Sound, LeaseKey, LeaseId, Added, Authorize, Authorized, PowerAllowed, Powered, AuditOk, EnableBody, Told, Reports, Logged,
      Rearmed, Unwritable;
    NoCollision(s.table, r.sessionId, r.deviceId, clock);
    GrantedExactly(s.config, r);
    PowerExactly(s.config.policy, env.power);
    WritableExactly(s.audit, env, LeaseId(s.table.nextLeaseSeq + 1));
    if Authorized(s.config, r) && Powered(s.config.policy, env.power) &&
       !Unwritable(s.audit, env, LeaseId(s.table.nextLeaseSeq + 1)) {
      EnableGranted(s, r, env);
    } else {
      EnableRefused(s, r, env);
    }
  }

  lemma WritableExactly(a: Audit, env: Env, subject: string)
    ensures AuditOk(a, env, subject) <==> !Unwritable(a, env, subject)
  {
  }

  lemma EnableGranted(s: State, r: Request, env: Env)
    requires Authorize(s.config, r).Granted? && PowerAllowed(s.config.policy, env.power)
    requires var id := LeaseId(s.table.nextLeaseSeq + 1);
             AuditOk(s.audit, env, id) && LeaseKey(r.sessionId, r.deviceId, id) !in s.table.leases
    ensures var (s', result) := EnableBody(s, r, env);
            var id := LeaseId(s.table.nextLeaseSeq + 1);
            var key, expiry := LeaseKey(r.sessionId, r.deviceId, id), env.now + r.durationMs * 1_000_000;
            && s'.table.leases ==
               s.table.leases[key := Lease(r.sessionId, r.deviceId, id, r.reason, expiry, false, None, None)]
            && Rearmed(s.table, s'.table, key, expiry, env.armAt)
            && s'.config == s.config && s'.statusRevision == s.statusRevision + 1
            && Logged(s.audit, s'.audit, [AuditRecord(EnableOp, r.deviceId, id, env.now)])
            && Told(s, s', env) && Reports(s', result, id)
  {
    hide LeaseKey, LeaseId, Authorize, PowerAllowed, AuditOk, Added, Outcome, Reports;
    var t1 := s.table.(nextLeaseSeq := s.table.nextLeaseSeq + 1);
    var id := LeaseId(t1.nextLeaseSeq);
    AddedLeases(t1, r, id, env);
    AddedTimers(t1, r, id, env);
    OutcomeReports(EnableBody(s, r, env).0, id);
  }

  lemma AddedTimers(t: Table, r: Request, leaseId: string, env: Env)
    ensures Rearmed(t, Added(t, r, leaseId, env), LeaseKey(r.sessionId, r.deviceId, leaseId),
                    env.now + r.durationMs * 1_000_000, env.armAt)
  {
    hide LeaseKey;
  }

  lemma EnableRefused(s: State, r: Request, env: Env)
    requires var id := LeaseId(s.table.nextLeaseSeq + 1);
             && LeaseKey(r.sessionId, r.deviceId, id) !in s.table.leases
             && !(Authorize(s.config, r).Granted? && PowerAllowed(s.config.policy, env.power) && AuditOk(s.audit, env, id))
    ensures var (s', result) := EnableBody(s, r, env);
            && s' == s.(table := s.table.(nextLeaseSeq := s'.table.nextLeaseSeq))
            && result == Result(false, "", if !Authorize(s.config, r).Granted? then DenialCode(s.config, r)
                                           else if !PowerAllowed(s.config.policy, env.power) then PolicyDisabled
                                           else Conflict, s.statusRevision, |s.table.leases|)
  {
    hide LeaseKey, LeaseId, PowerAllowed, AuditOk, Added, Trim, IsAdmin;
  }

  lemma GrantedExactly(c: Config, r: Request)
    ensures Authorize(c, r).Granted? <==> Authorized(c, r)
  {
    AdministersExactly(c.policy, r.deviceId);
    hide Trim, IsAdmin, Administers;
  }

  /** The lookup by session and lease id finds the same lease in any order, since ids are
      unique. */
  lemma FindAnyOrder(t: Table, r: Request, order: seq<string>, order2: seq<string>, clock: int)
    requires Sound(t, clock) && Visits(order, t.leases) && Visits(order2, t.leases)
    ensures FindLease(t, r, order) == FindLease(t, r, order2)
  {
    FirstMatchExact(t, r, order);
    FirstMatchExact(t, r, order2);
    hide LeaseKey;
    var a, b := FirstMatch(t, r, order), FirstMatch(t, r, order2);
    if a.Some? {
      assert a.value in order2;
    }
    if b.Some? {
      assert b.value in order;
    }
  }

  lemma {:induction false} FirstMatchExact(t: Table, r: Request, order: seq<string>)
    ensures FirstMatch(t, r, order).Some? ==> Names(t, r, FirstMatch(t, r, order).value) && FirstMatch(t, r, order).value in order
    ensures FirstMatch(t, r, order).None? ==> forall k :: k in order ==> !Names(t, r, k)
  {
    if order != [] {
      FirstMatchExact(t, r, order[1..]);
      assert order == [order[0]] + order[1..];
    }
  }

  /** Key k is the lease a disable or extend names: the requester's own key, or else one
      with that session and lease id. */
  predicate Named(t: Table, r: Request, k: string) {
    var own := LeaseKey(r.sessionId, r.deviceId, r.leaseId);
    k in t.leases &&
    (k == own || (own !in t.leases && t.leases[k].sessionId == r.sessionId && t.leases[k].leaseId == r.leaseId))
  }

  predicate Owned(s: State, r: Request, k: string)
    requires k in s.table.leases
  {
    s.table.leases[k].deviceId == r.deviceId || Administers(s.config.policy, r.deviceId)
  }

  /** Key k is the lease a disable or extend goes through to: the requester is authorized,
      an extend has power, the request names the lease, it is the requester's lease or the
      requester is an administrator, and the record is written. */
  predicate Targets(s: State, r: Request, env: Env, k: string) {
    && Authorized(s.config, r) && (r.operation == ExtendOp ==> Powered(s.config.policy, env.power))
    && Named(s.table, r, k) && Owned(s, r, k)
    && !Unwritable(s.audit, env, s.table.leases[k].leaseId)
  }

  /** What the mutation of lease k does: the lease goes with its timer, or it expires after
      the requested duration out of any grace, watched anew; every other lease and timer
      stays; one revision, one record, and the runtime told. */
  predicate MutatedAt(s: State, s': State, r: Request, env: Env, k: string)
    requires k in s.table.leases
  {
    var l, expiry := s.table.leases[k], env.now + r.durationMs * 1_000_000;
    && (if r.operation == ExtendOp then
          && s'.table.leases == s.table.leases[k := l.(expiresAt := expiry, disconnected := false, graceDeadline := None)]
          && Rearmed(s.table, s'.table, k, expiry, env.armAt)
        else s'.table == s.table.(leases := s.table.leases - {k}, timers := s.table.timers - {k}))
    && s'.config == s.config && s'.statusRevision == s.statusRevision + 1
    && Logged(s.audit, s'.audit, [AuditRecord(r.operation, r.deviceId, l.leaseId, env.now)])
    && Told(s, s', env)
  }

  /** Why a disable or extend without a target is refused. */
  ghost predicate Explains(s: State, r: Request, env: Env, result: Result) {
    && !result.success && result.revision == s.statusRevision && result.activeLeases == |s.table.leases|
    && (if !Authorized(s.config, r) then result.code == DenialCode(s.config, r) && result.leaseId == ""
        else
          && result.leaseId == r.leaseId
          && (if r.operation == ExtendOp && !Powered(s.config.policy, env.power) then result.code == PolicyDisabled
              else if forall k :: k in s.table.leases ==> !Named(s.table, r, k) then result.code == LeaseExpired
              else if forall k :: Named(s.table, r, k) ==> !Owned(s, r, k) then result.code == Unauthorized
              else result.code == Conflict))
  }

  /** A disable or extend changes exactly the lease it targets, and reports what the runtime
      says; when there is none it says why and changes nothing. */
  lemma MutateExactly(s: State, r: Request, env: Env, clock: int, k: string)
    requires Sound(s.table, clock) && Visits(env.order, s.table.leases)
    requires r.operation == DisableOp || r.operation == ExtendOp
    ensures var (s', result) := MutateBody(s, r, env);
            Targets(s, r, env, k) ==> MutatedAt(s, s', r, env, k) && Reports(s', result, r.leaseId)
    ensures (forall k' :: k' in s.table.leases ==> !Targets(s, r, env, k')) ==>
              MutateBody(s, r, env).0 == s && Explains(s, r, env, MutateBody(s, r, env).1)
  {
    hide Sound, LeaseKey, Authorize, Authorized, PowerAllowed, Powered, AuditOk, IsAdmin, MutatedAt, Explains, Reports, Named, Owned,
      Unwritable, Mutated, Admit, MutateBody;
    GrantedExactly(s.config, r);
    PowerExactly(s.config.policy, env.power);
    FoundExactly(s.table, r, env.order, clock, k);
    var found := FindLease(s.table, r, env.order);
    if found.Some? {
      FoundExactly(s.table, r, env.order, clock, found.value);
      WritableExactly(s.audit, env, s.table.leases[found.value].leaseId);
      OwnerExactly(s, r, found.value);
    }
    AdmittedExactly(s, r, env);
    if AdmittedAudited(s, r, env) {
      MutatedExactly(s, r, env);
    } else {
      RefusedExactly(s, r, env, clock);
    }
  }

  lemma OwnerExactly(s: State, r: Request, k: string)
    requires k in s.table.leases
    ensures Owned(s, r, k) <==> s.table.leases[k].deviceId == r.deviceId || IsAdmin(s.config.policy, r.deviceId)
  {
    AdministersExactly(s.config.policy, r.deviceId);
  }

  /** When the checks let a request through. */
  lemma AdmittedExactly(s: State, r: Request, env: Env)
    ensures var found := FindLease(s.table, r, env.order);
            Admit(s, r, env).Admitted? <==>
            && Authorize(s.config, r).Granted? && (r.operation == ExtendOp ==> PowerAllowed(s.config.policy, env.power))
            && found.Some?
            && (s.table.leases[found.value].deviceId == r.deviceId || IsAdmin(s.config.policy, r.deviceId))
    ensures Admit(s, r, env).Admitted? ==> FindLease(s.table, r, env.order) == Some(Admit(s, r, env).key)
  {
    GrantedAdmin(s.config, r);
    hide FindLease, Authorize, PowerAllowed, IsAdmin;
  }

  lemma RefusedExactly(s: State, r: Request, env: Env, clock: int)
    requires Sound(s.table, clock) && Visits(env.order, s.table.leases) && !AdmittedAudited(s, r, env)
    ensures MutateBody(s, r, env).0 == s && Explains(s, r, env, MutateBody(s, r, env).1)
  {
    hide Sound, LeaseKey, PowerAllowed, Powered, AuditOk, IsAdmin, Named, Owned, Authorized, FindLease, Trim, Visits;
    GrantedExactly(s.config, r);
    GrantedAdmin(s.config, r);
    PowerExactly(s.config.policy, env.power);
    var found := FindLease(s.table, r, env.order);
    if found.Some? {
      FoundExactly(s.table, r, env.order, clock, found.value);
      OwnerExactly(s, r, found.value);
    }
    forall k | Named(s.table, r, k)
      ensures found == Some(k)
    {
      FoundExactly(s.table, r, env.order, clock, k);
    }
    forall k | k in s.table.leases && found.None?
      ensures !Named(s.table, r, k)
    {
      FoundExactly(s.table, r, env.order, clock, k);
    }
  }

  predicate AdmittedAudited(s: State, r: Request, env: Env) {
    Admit(s, r, env).Admitted? && AuditOk(s.audit, env, s.table.leases[Admit(s, r, env).key].leaseId)
  }

  lemma GrantedAdmin(c: Config, r: Request)
    ensures Authorize(c, r).Granted? ==> Authorize(c, r).isAdmin == IsAdmin(c.policy, r.deviceId)
  {
    hide Trim, IsAdmin;
  }

  lemma FoundExactly(t: Table, r: Request, order: seq<string>, clock: int, k: string)
    requires Sound(t, clock) && Visits(order, t.leases)
    ensures Named(t, r, k) <==> FindLease(t, r, order) == Some(k)
  {
    FirstMatchExact(t, r, order);
    hide LeaseKey;
  }

  lemma MutatedExactly(s: State, r: Request, env: Env)
    requires r.operation == DisableOp || r.operation == ExtendOp
    requires AdmittedAudited(s, r, env)
    ensures MutatedAt(s, MutateBody(s, r, env).0, r, env, Admit(s, r, env).key)
    ensures Reports(MutateBody(s, r, env).0, MutateBody(s, r, env).1, r.leaseId)
  {
    hide Admit, AuditOk, Outcome, Reports;
    OutcomeReports(MutateBody(s, r, env).0, r.leaseId);
  }

  /** The request cannot be parsed or is out of bounds: a blank request, session or lease id,
      or a duration below thirty seconds or above eight hours. */
  predicate Malformed(r: Request) {
    || Trim(r.requestId) == "" || Trim(r.sessionId) == ""
    || (r.operation != EnableOp && Trim(r.leaseId) == "")
    || (r.operation != DisableOp && (r.durationMs < 30_000 || r.durationMs > 8 * 3_600_000))
  }

  /** A request under a new key: refused when malformed, and otherwise carried out, with its
      result stored and nothing left in flight. */
  lemma RequestExactly(s: State, r: Request, env: Env)
    requires CachesOk(s.idem) && KeyOf(r) !in s.idem.cache.entries
    ensures if Malformed(r) then Mutate(s, r, env) == (s, Invalid)
            else
              var (s', result) := if r.operation == EnableOp then EnableBody(s, r, env) else MutateBody(s, r, env);
              && Mutate(s, r, env).0 == s'.(idem := Mutate(s, r, env).0.idem)
              && Mutate(s, r, env).1 == Done(result)
              && KeyOf(r) in Mutate(s, r, env).0.idem.cache.entries
              && Mutate(s, r, env).0.idem.cache.entries[KeyOf(r)] == CacheEntry(Fingerprint(r), result)
              && Mutate(s, r, env).0.idem.inFlight == map[]
  {
    hide EnableBody, MutateBody, Fingerprint, Trim, Agrees;
    BodyIgnoresIdem(s, Reserve(s.idem, KeyOf(r), Fingerprint(r)), r, env);
    if !Malformed(r) {
      assert s.idem.inFlight == map[];
      assert map[KeyOf(r) := Fingerprint(r)] - {KeyOf(r)} == map[];
    }
  }

  // ---------------------------------------------------------------------------
  // Power and the battery check
  // ---------------------------------------------------------------------------

  /** A battery shutdown is due: leases are held in an epoch without one, and the host runs
      on battery with a known charge that does not exceed the limit of the policy. */
  predicate Due(c: Config, t: Table, power: Option<PowerSnapshot>) {
    && t.leases.Keys != {} && !t.thresholdDisabled && c.policy.autoDisableBatteryPercent != 0
    && match power
       case Some(PowerSnapshot(Some(true), Some(percent))) => percent <= c.policy.autoDisableBatteryPercent
       case _ => false
  }

  lemma DueExactly(c: Config, t: Table, power: Option<PowerSnapshot>)
    ensures ThresholdReached(c, t, power) <==> Due(c, t, power)
  {
    assert t.leases.Keys == {} <==> t.leases == map[];
  }

  /** Shutdowns and grants agree: where a grant is allowed none is due, and on battery with a
      known charge and a limit one is due exactly where a grant is not allowed. */
  lemma ShutdownMeetsGrants(c: Config, t: Table, power: Option<PowerSnapshot>)
    requires c.policy.autoDisableBatteryPercent >= 0
    ensures Powered(c.policy, power) ==> !Due(c, t, power)
    ensures && t.leases.Keys != {} && !t.thresholdDisabled
            && c.policy.allowOnBattery && c.policy.autoDisableBatteryPercent > 0
            && power.Some? && power.value.onBattery == Some(true) && power.value.batteryPercent.Some?
            ==> (Due(c, t, power) <==> !Powered(c.policy, power))
  {
  }

  /** A lease just granted or extended is never due for a shutdown under the same reading. */
  lemma GrantIsNotDue(s: State, r: Request, env: Env, clock: int)
    requires Sound(s.table, clock) && Visits(env.order, s.table.leases)
    requires s.config.policy.autoDisableBatteryPercent >= 0
    requires r.operation == EnableOp || r.operation == ExtendOp
    ensures var s' := if r.operation == EnableOp then EnableBody(s, r, env).0 else MutateBody(s, r, env).0;
            s'.table.leases != s.table.leases ==> !Due(s'.config, s'.table, env.power)
  {
    hide Sound, EnableBody, MutateBody, Powered, Due, LeaseKey, LeaseId, Authorized, Told, Reports, Logged, Rearmed, Unwritable,
      Explains, Named, Owned, Visits;
    var s' := if r.operation == EnableOp then EnableBody(s, r, env).0 else MutateBody(s, r, env).0;
    if r.operation == EnableOp {
      EnableExactly(s, r, env, clock);
    } else {
      MutateExactly(s, r, env, clock, "");
      forall k | k in s.table.leases
        ensures Targets(s, r, env, k) ==> MutatedAt(s, s', r, env, k)
      {
        MutateExactly(s, r, env, clock, k);
      }
    }
    if s'.table.leases != s.table.leases {
      assert s'.config == s.config && Powered(s.config.policy, env.power);
      ShutdownMeetsGrants(s'.config, s'.table, env.power);
    }
  }

  /** A disconnect grace is taken up when it is not negative and at most 300,000 whole
      milliseconds; it is 45 seconds until then. */
  lemma GraceExactly(s: State, grace: int)
    ensures SetGrace(s, grace) ==
            if 0 <= grace < 300_001 * 1_000_000 then s.(config := s.config.(grace := grace)) else s
    ensures INITIAL.config.grace == 45_000_000_000
  {
  }

  // ---------------------------------------------------------------------------
  // Devices coming and going
  // ---------------------------------------------------------------------------

  lemma {:induction false} ConnectExact(t: Table, order: seq<string>, deviceId: string, armAt: int, k: string)
    requires k in t.leases
    ensures k in ConnectAll(t, order, deviceId, armAt).leases
    ensures ConnectAll(t, order, deviceId, armAt).leases[k] ==
            if k in order && t.leases[k].deviceId == deviceId && t.leases[k].disconnected then Reconnect(t.leases[k])
            else t.leases[k]
  {
    if order != [] {
      ConnectExact(t, order[..|order| - 1], deviceId, armAt, k);
      assert order == order[..|order| - 1] + [order[|order| - 1]];
    }
  }

  lemma {:induction false} DisconnectExact(t: Table, order: seq<string>, deviceId: string, grace: int, now: int, armAt: int, k: string)
    requires k in t.leases
    ensures k in DisconnectAll(t, order, deviceId, grace, now, armAt).leases
    ensures DisconnectAll(t, order, deviceId, grace, now, armAt).leases[k] ==
            if k in order && t.leases[k].deviceId == deviceId && !t.leases[k].disconnected then Disconnect(t.leases[k], now, grace)
            else t.leases[k]
  {
    if order != [] {
      DisconnectExact(t, order[..|order| - 1], deviceId, grace, now, armAt, k);
      assert order == order[..|order| - 1] + [order[|order| - 1]];
    }
  }

  /** A device that comes back gets exactly its own disconnected leases out of their grace. */
  lemma ConnectedExactly(s: State, deviceId: string, env: Env, k: string)
    requires Trim(deviceId) != "" && Visits(env.order, s.table.leases) && k in s.table.leases
    ensures var l := s.table.leases[k];
            k in Connected(s, deviceId, env).table.leases &&
            Connected(s, deviceId, env).table.leases[k] ==
            if l.deviceId == deviceId then l.(disconnected := false, graceDeadline := if l.disconnected then None else l.graceDeadline)
            else l
  {
    ConnectExact(s.table, env.order, deviceId, env.armAt, k);
    hide ConnectAll, Trim;
  }

  /** The last client of a device to leave starts the grace of exactly its own leases, once. */
  lemma DisconnectedExactly(s: State, deviceId: string, env: Env, k: string)
    requires Trim(deviceId) != "" && Visits(env.order, s.table.leases) && k in s.table.leases
    ensures var l := s.table.leases[k];
            k in Disconnected(s, deviceId, false, env).table.leases &&
            Disconnected(s, deviceId, false, env).table.leases[k] ==
            if l.deviceId == deviceId && !l.disconnected
            then l.(disconnected := true, disconnectedAt := Some(env.now), graceDeadline := Some(env.now + s.config.grace))
            else l
  {
    DisconnectExact(s.table, env.order, deviceId, s.config.grace, env.now, env.armAt, k);
    hide DisconnectAll, Trim;
  }

  /** A client without a device id moves nothing, and neither does a client that goes while
      another one of its device stays. */
  lemma OthersMoveNothing(s: State, deviceId: string, online: bool, env: Env)
    ensures Trim(deviceId) == "" ==>
              Connected(s, deviceId, env) == s && Disconnected(s, deviceId, online, env) == s && RevokeDevice(s, deviceId, env) == s
    ensures online ==> Disconnected(s, deviceId, online, env) == s
  {
  }

  lemma {:induction false} RevokeExact(w: Sweep, order: seq<string>, deviceId: string, env: Env, k: string)
    ensures var w' := RevokeAll(w, order, deviceId, env);
            && w'.audit.writer == w.audit.writer
            && (k in w'.table.leases <==>
                  k in w.table.leases &&
                  !(k in order && w.table.leases[k].deviceId == deviceId && AuditOk(w.audit, env, w.table.leases[k].leaseId)))
            && (k in w'.table.leases ==> w'.table.leases[k] == w.table.leases[k])
  {
    if order != [] {
      RevokeExact(w, order[..|order| - 1], deviceId, env, k);
      assert order == order[..|order| - 1] + [order[|order| - 1]];
    }
  }

  /** Revoking a device removes exactly its leases whose removal could be audited. */
  lemma RevokedExactly(s: State, deviceId: string, env: Env, k: string)
    requires Trim(deviceId) != "" && Visits(env.order, s.table.leases)
    ensures k in RevokeDevice(s, deviceId, env).table.leases <==>
            k in s.table.leases &&
            !(s.table.leases[k].deviceId == deviceId && !Unwritable(s.audit, env, s.table.leases[k].leaseId))
  {
    RevokeExact(Sweep(s.table, s.audit, false), env.order, deviceId, env, k);
    if k in s.table.leases {
      WritableExactly(s.audit, env, s.table.leases[k].leaseId);
    }
    hide RevokeAll, Trim, AuditOk, Unwritable;
  }

  // ---------------------------------------------------------------------------
  // All leases at once
  // ---------------------------------------------------------------------------

  /** Some lease's removal cannot be audited. */
  ghost predicate Unauditable(t: Table, a: Audit, env: Env) {
    exists k :: k in t.leases && Unwritable(a, env, t.leases[k].leaseId)
  }

  lemma {:induction false} SweepFails(w: Sweep, order: seq<string>, actor: string, env: Env)
    requires !w.failed
    ensures var w' := SweepAll(w, order, actor, env);
            w'.audit.writer == w.audit.writer &&
            (w'.failed <==> exists k :: k in order && k in w.table.leases && !AuditOk(w.audit, env, w.table.leases[k].leaseId))
    ensures !SweepAll(w, order, actor, env).failed ==>
              forall k :: k in w.table.leases && k !in order ==>
                k in SweepAll(w, order, actor, env).table.leases &&
                SweepAll(w, order, actor, env).table.leases[k] == w.table.leases[k]
  {
    if order != [] {
      var front, key := order[..|order| - 1], order[|order| - 1];
      assert order == front + [key];
      SweepFails(w, front, actor, env);
      if !SweepAll(w, front, actor, env).failed {
        SweepExact(w, front, actor, env);
      }
    }
  }

  /** Switching remote control off revokes every lease; the host ends fail-closed exactly
      when one of the records, of a lease or of the change itself, cannot be written. */
  lemma SwitchOffExactly(s: State, p: Policy, env: Env)
    requires s.config.policySet && s.config.policy.remoteEnabled && !p.remoteEnabled && !s.config.migrationFailed
    requires Visits(env.order, s.table.leases)
    ensures var s' := SetPolicy(s, p, env);
            && s'.table.leases == map[] && !s'.config.policy.remoteEnabled
            && (s'.config.migrationFailed <==> Unauditable(s.table, s.audit, env) || Unwritable(s.audit, env, ""))
  {
    var w0 := Sweep(s.table, s.audit, false);
    SweepFails(w0, env.order, "system", env);
    if !SweepAll(w0, env.order, "system", env).failed {
      SweepClears(w0, env.order, "system", env);
    }
    hide SweepAll;
    assert Unauditable(s.table, s.audit, env) <==>
           exists k :: k in env.order && k in s.table.leases && !AuditOk(s.audit, env, s.table.leases[k].leaseId);
    assert s.table.leases == map[] ==> !Unauditable(s.table, s.audit, env);
  }

  lemma {:induction false} EachFails(w: Sweep, order: seq<string>, env: Env)
    requires !w.failed
    ensures var w' := AuditEach(w, order, env);
            w'.table == w.table && w'.audit.writer == w.audit.writer &&
            (w'.failed <==> exists k :: k in order && k in w.table.leases && !AuditOk(w.audit, env, w.table.leases[k].leaseId))
  {
    if order != [] {
      EachFails(w, order[..|order| - 1], env);
      assert order == order[..|order| - 1] + [order[|order| - 1]];
    }
  }

  /** A battery shutdown happens exactly when it is due and all the records can be written;
      it is all or nothing. */
  lemma ShutdownIsAtomic(c: Config, t: Table, a: Audit, env: Env)
    requires Visits(env.order2, t.leases)
    ensures var checked := CheckThreshold(c, t, a, env);
            && (checked.revoked <==> Due(c, t, env.power) && !Unauditable(t, a, env))
            && (if checked.revoked then checked.table.leases == map[] && checked.table.thresholdDisabled
                else checked.table == t)
  {
    DueExactly(c, t, env.power);
    EachFails(Sweep(t, a, false), env.order2, env);
    RemoveEachAll(t, env.order2);
    hide AuditEach, RemoveEach, Due, ThresholdReached;
    assert Unauditable(t, a, env) <==>
           exists k :: k in env.order2 && k in t.leases && !AuditOk(a, env, t.leases[k].leaseId);
  }
}
