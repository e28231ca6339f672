/** The keep-awake control plane object: host/internal/server/handlers_keepawake.go,
    server_setters.go and the policy handler of server.go.  Its fields are grouped in the
    records of KeepAwakeState.  One method per critical section (or per helper that runs
    inside one), each proved to compute the function of the state defined there. */
module KeepAwakeControlPlane {
  import opened Text
  import opened FifoCache
  import opened KeepAwakeState
  import opened KeepAwakeFingerprint

  class ControlPlane {
    var config: Config
    var table: Table
    var statusRevision: nat
    var idem: Idempotency
    var audit: Audit
    var runtime: Runtime

    ghost function Value(): State
      reads this
    {
      State(config, table, statusRevision, idem, audit, runtime)
    }

    constructor ()
      ensures Value() == INITIAL
    {
      config := Config(Policy(false, false, [], false, 0), false, 45_000 * MS, false);
      table := Table(map[], map[], multiset{}, 0, false);
      statusRevision := 0;
      idem := Idempotency(Cache(map[], []), map[], Cache(map[], []), {});
      audit := Audit(false, []);
      runtime := Runtime(false, [], RuntimeStatus(Off, NoReason));
    }

    // -------------------------------------------------------------------------
    // Helpers that run with the lock held
    // -------------------------------------------------------------------------

    method WriteAudit(r: AuditRecord, subject: string, env: Env) returns (ok: bool)
      modifies this`audit
      ensures ok == AuditOk(old(audit), env, subject)
      ensures audit == if ok then Audited(old(audit), r) else old(audit)
    {
      if !audit.writer {
        return true;
      }
      if subject in env.auditFails {
        return false;
      }
      audit := audit.(log := audit.log + [r]);
      ok := true;
    }

    method SetRuntimeState(desiredEnabled: bool, status: RuntimeStatus)
      modifies this`runtime
      ensures runtime == SetRuntime(old(runtime), desiredEnabled, status)
    {
      if !runtime.wired {
        if desiredEnabled {
          runtime := runtime.(status := RuntimeStatus(Degraded, Unsupported));
          return;
        }
        runtime := runtime.(status := RuntimeStatus(Off, NoReason));
        return;
      }
      runtime := runtime.(requests := runtime.requests + [desiredEnabled], status := status);
    }

    method RemoveLease(key: string)
      modifies this`table
      ensures table == Remove(old(table), key)
    {
      table := table.(timers := table.timers - {key});
      table := table.(leases := table.leases - {key});
    }

    method PruneExpired(order: seq<string>, now: int) returns (changed: bool)
      modifies this`table
      ensures table == Prune(old(table), order, now)
      ensures changed <==> table.leases != old(table.leases)
    {
      changed := false;
      for i := 0 to |order|
        invariant table == Prune(old(table), order[..i], now)
        invariant table.leases.Keys <= old(table.leases).Keys
        invariant !changed ==> table.leases == old(table.leases)
        invariant changed ==> exists k :: k in old(table.leases) && k !in table.leases
      {
        assert order[..i + 1][..i] == order[..i];
        var key := order[i];
        if key in table.leases {
          var lease := table.leases[key];
          var expired := lease.expiresAt <= now;
          var graceElapsed := lease.disconnected && (lease.graceDeadline.None? || lease.graceDeadline.value <= now);
          if expired || graceElapsed {
            RemoveLease(key);
            assert key in old(table.leases) && key !in table.leases;
            changed := true;
          }
        }
      }
      assert order[..|order|] == order;
    }

    method ScheduleTimer(key: string, lease: Lease, armAt: int)
      modifies this`table
      ensures table == Schedule(old(table), key, lease, armAt)
    {
      if key in table.timers {
        table := table.(timers := table.timers[key := Spent]);
      }
      var deadline := lease.expiresAt;
      if lease.disconnected && lease.graceDeadline.Some? && lease.graceDeadline.value < deadline {
        deadline := lease.graceDeadline.value;
      }
      if deadline - armAt <= 0 {
        table := table.(queued := table.queued + multiset{key});
        return;
      }
      table := table.(timers := table.timers[key := Armed(deadline)]);
    }

    method CheckBatteryThreshold(env: Env) returns (revoked: bool)
      modifies this`table, this`audit, this`statusRevision
      ensures Checked(table, audit, revoked) == CheckThreshold(config, old(table), old(audit), env)
      ensures statusRevision == old(statusRevision) + if revoked then 1 else 0
    {
      if config.policy.autoDisableBatteryPercent == 0 {
        return false;
      }
      if table.thresholdDisabled {
        return false;
      }
      if table.leases == map[] || env.power.None? {
        return false;
      }
      var snap := env.power.value;
      if snap.onBattery.None? || !snap.onBattery.value {
        return false;
      }
      if snap.batteryPercent.None? || snap.batteryPercent.value > config.policy.autoDisableBatteryPercent {
        return false;
      }
      var ok := AuditAutoDisable(env);
      if !ok {
        return false;
      }
      var order := env.order2;
      ghost var audited := audit;
      for i := 0 to |order|
        invariant table == RemoveEach(old(table), order[..i])
        invariant audit == audited && statusRevision == old(statusRevision)
      {
        assert order[..i + 1][..i] == order[..i];
        RemoveLease(order[i]);
      }
      assert order[..|order|] == order;
      table := table.(thresholdDisabled := true);
      statusRevision := statusRevision + 1;
      revoked := true;
    }

    /** One audit record per lease, before any lease is touched. */
    method AuditAutoDisable(env: Env) returns (ok: bool)
      modifies this`audit
      ensures Sweep(table, audit, !ok) == AuditEach(Sweep(table, old(audit), false), env.order2, env)
    {
      var order := env.order2;
      ghost var w0 := Sweep(table, audit, false);
      for i := 0 to |order|
        invariant Sweep(table, audit, false) == AuditEach(w0, order[..i], env)
      {
        assert order[..i + 1][..i] == order[..i];
        var key := order[i];
        if key in table.leases {
          var id := table.leases[key].leaseId;
          var written := WriteAudit(AuditRecord(AutoDisableOp, "system", id, env.now), id, env);
          if !written {
            AuditEachStops(w0, order, i + 1, env);
            return false;
          }
        }
      }
      assert order[..|order|] == order;
      ok := true;
    }

    method CheckOrBeginIdempotency(key: CacheKey, fingerprint: string) returns (begin: Begin)
      modifies this`idem
      ensures begin == CheckOrBegin(old(idem), key, fingerprint)
      ensures idem == if begin == Begun then Reserve(old(idem), key, fingerprint) else old(idem)
    {
      if key in idem.cache.entries {
        if idem.cache.entries[key].fingerprint != fingerprint {
          return Mismatch;
        }
        return Replay(idem.cache.entries[key].result);
      }
      if key in idem.inFlight {
        if idem.inFlight[key] != fingerprint {
          return Mismatch;
        }
        return Busy;
      }
      idem := idem.(inFlight := idem.inFlight[key := fingerprint]);
      begin := Begun;
    }

    method IdempotencyComplete(key: CacheKey, fingerprint: string, result: Result)
      modifies this`idem
      ensures idem == Complete(old(idem), key, fingerprint, result)
    {
      var entries, order := idem.cache.entries, idem.cache.order;
      if key !in entries {
        if |order| >= MAX_IDEMPOTENCY {
          var oldest := order[0];
          order := order[1..];
          entries := entries - {oldest};
        }
        order := order + [key];
      }
      entries := entries[key := CacheEntry(fingerprint, result)];
      idem := idem.(cache := Cache(entries, order), inFlight := idem.inFlight - {key});
    }

    method PolicyIdempotencyComplete(key: PolicyKey, fingerprint: string, response: PolicyResponse)
      modifies this`idem
      ensures idem == PolicyComplete(old(idem), key, fingerprint, response)
    {
      idem := idem.(policyInFlight := idem.policyInFlight - {key});
      var entries, order := idem.policyCache.entries, idem.policyCache.order;
      if key !in entries {
        if |order| >= MAX_POLICY_IDEMPOTENCY {
          var oldest := order[0];
          order := order[1..];
          entries := entries - {oldest};
        }
        order := order + [key];
      }
      entries := entries[key := PolicyEntry(fingerprint, response)];
      idem := idem.(policyCache := Cache(entries, order));
    }

    method ValidateAuthorization(r: Request) returns (auth: Authorization)
      ensures auth == Authorize(config, r)
    {
      if config.migrationFailed {
        return Denied(PolicyDisabled);
      }
      if !config.policy.remoteEnabled {
        return Denied(PolicyDisabled);
      }
      if !r.requireAuth || Trim(r.deviceId) == "" {
        return Denied(Unauthorized);
      }
      var isAdmin := false;
      if config.policy.allowAdminRevoke {
        var ids := config.policy.adminDeviceIds;
        for i := 0 to |ids|
          invariant isAdmin <==> r.deviceId in ids[..i]
        {
          if ids[i] == r.deviceId {
            isAdmin := true;
            break;
          }
        }
      }
      if Trim(r.sessionId) != Trim(r.activeSession) && !isAdmin {
        return Denied(Unauthorized);
      }
      auth := Granted(isAdmin);
    }

    // -------------------------------------------------------------------------
    // Lease mutations
    // -------------------------------------------------------------------------

    method HandleEnable(r: Request, env: Env) returns (reply: Reply)
      requires r.operation == EnableOp
      modifies this
      ensures (Value(), reply) == Mutate(old(Value()), r, env)
    {
      if !WellFormed(r) {
        return Invalid;
      }
      var key := KeyOf(r);
      var fingerprint := ComputeFingerprint(Fields(r));
      var begin := CheckOrBeginIdempotency(key, fingerprint);
      match begin {
        case Replay(result) => return Replayed(result);
        case Mismatch => return Mismatched(Result(false, "", Conflict, statusRevision, |table.leases|));
        case Busy => return Waits;
        case Begun =>
      }
      var result := Enable(r, env);
      IdempotencyComplete(key, fingerprint, result);
      reply := Done(result);
    }

    method Enable(r: Request, env: Env) returns (result: Result)
      modifies this
      ensures (Value(), result) == EnableBody(old(Value()), r, env)
    {
      hide Authorize, PowerAllowed, LeaseId, LeaseKey, Added, Audited, SetRuntime, AuditOk;
      var auth := ValidateAuthorization(r);
      if auth.Denied? {
        return Result(false, "", auth.code, statusRevision, |table.leases|);
      }
      if !PowerAllowed(config.policy, env.power) {
        return Result(false, "", PolicyDisabled, statusRevision, |table.leases|);
      }
      table := table.(nextLeaseSeq := table.nextLeaseSeq + 1);
      var leaseId := LeaseId(table.nextLeaseSeq);
      var leaseKey := LeaseKey(r.sessionId, r.deviceId, leaseId);
      if leaseKey in table.leases {
        return Result(false, "", Conflict, statusRevision, |table.leases|);
      }
      var ok := WriteAudit(AuditRecord(EnableOp, r.deviceId, leaseId, env.now), leaseId, env);
      if !ok {
        return Result(false, "", Conflict, statusRevision, |table.leases|);
      }
      AddLease(r, leaseId, env);
      statusRevision := statusRevision + 1;
      SetRuntimeState(true, env.status);
      var code := DegradedCode(runtime.status);
      result := Result(code == NoError, leaseId, code, statusRevision, |table.leases|);
    }

    method AddLease(r: Request, leaseId: string, env: Env)
      modifies this`table
      ensures table == Added(old(table), r, leaseId, env) && table.leases != map[]
    {
      if table.leases == map[] {
        table := table.(thresholdDisabled := false);
      }
      var key, lease := LeaseKey(r.sessionId, r.deviceId, leaseId), NewLease(r, leaseId, env.now);
      table := table.(leases := table.leases[key := lease]);
      ScheduleTimer(key, lease, env.armAt);
      assert key in table.leases;
    }

    method LookUp(r: Request, order: seq<string>) returns (found: Option<string>)
      ensures found == FindLease(table, r, order)
    {
      var own := LeaseKey(r.sessionId, r.deviceId, r.leaseId);
      if own in table.leases {
        return Some(own);
      }
      assert order[0..] == order;
      for i := 0 to |order|
        invariant FirstMatch(table, r, order) == FirstMatch(table, r, order[i..])
      {
        var key := order[i];
        if key in table.leases && table.leases[key].sessionId == r.sessionId && table.leases[key].leaseId == r.leaseId {
          return Some(key);
        }
        assert order[i..][1..] == order[i + 1..];
      }
      found := None;
    }

    method HandleDisableOrExtend(r: Request, env: Env) returns (reply: Reply)
      requires r.operation == DisableOp || r.operation == ExtendOp
      modifies this
      ensures (Value(), reply) == Mutate(old(Value()), r, env)
    {
      if !WellFormed(r) {
        return Invalid;
      }
      var key := KeyOf(r);
      var fingerprint := ComputeFingerprint(Fields(r));
      var begin := CheckOrBeginIdempotency(key, fingerprint);
      match begin {
        case Replay(result) => return Replayed(result);
        case Mismatch => return Mismatched(Result(false, "", Conflict, statusRevision, |table.leases|));
        case Busy => return Waits;
        case Begun =>
      }
      var result := DisableOrExtend(r, env);
      IdempotencyComplete(key, fingerprint, result);
      reply := Done(result);
    }

    method DisableOrExtend(r: Request, env: Env) returns (result: Result)
      modifies this
      ensures (Value(), result) == MutateBody(old(Value()), r, env)
    {
      var admission := CheckMutation(r, env);
      if admission.Refused? {
        return admission.result;
      }
      var leaseKey := admission.key;
      var id := table.leases[leaseKey].leaseId;
      var ok := WriteAudit(AuditRecord(r.operation, r.deviceId, id, env.now), id, env);
      if !ok {
        return Result(false, r.leaseId, Conflict, statusRevision, |table.leases|);
      }
      if r.operation == ExtendOp {
        ExtendLease(leaseKey, r.durationMs, env);
      } else {
        RemoveLease(leaseKey);
      }
      statusRevision := statusRevision + 1;
      SetRuntimeState(table.leases != map[], env.status);
      var code := DegradedCode(runtime.status);
      result := Result(code == NoError, r.leaseId, code, statusRevision, |table.leases|);
    }

    method CheckMutation(r: Request, env: Env) returns (admission: Admission)
      ensures admission == Admit(Value(), r, env)
    {
      var auth := ValidateAuthorization(r);
      if auth.Denied? {
        return Refused(Result(false, "", auth.code, statusRevision, |table.leases|));
      }
      if r.operation == ExtendOp && !PowerAllowed(config.policy, env.power) {
        return Refused(Result(false, r.leaseId, PolicyDisabled, statusRevision, |table.leases|));
      }
      var found := LookUp(r, env.order);
      if found.None? {
        return Refused(Result(false, r.leaseId, LeaseExpired, statusRevision, |table.leases|));
      }
      if table.leases[found.value].deviceId != r.deviceId && !auth.isAdmin {
        return Refused(Result(false, r.leaseId, Unauthorized, statusRevision, |table.leases|));
      }
      admission := Admitted(found.value);
    }

    method ExtendLease(key: string, durationMs: int, env: Env)
      requires key in table.leases
      modifies this`table
      ensures table == PutAndSchedule(old(table), key, Extend(old(table.leases)[key], durationMs, env.now), env.armAt)
    {
      var lease := table.leases[key].(
        expiresAt := env.now + durationMs * MS, disconnected := false, graceDeadline := None);
      table := table.(leases := table.leases[key := lease]);
      ScheduleTimer(key, lease, env.armAt);
    }

    // -------------------------------------------------------------------------
    // Reconciliation
    // -------------------------------------------------------------------------

    method Summary(env: Env)
      modifies this`table, this`audit, this`statusRevision, this`runtime
      ensures Value() == Reconcile(old(Value()), env)
    {
      var changed := PruneExpired(env.order, env.now);
      var revoked := CheckBatteryThreshold(env);
      if changed || revoked {
        if changed && !revoked {
          statusRevision := statusRevision + 1;
        }
        SetRuntimeState(table.leases != map[], env.status);
      }
    }

    /** The expiry run a timer started; it ends one queued run of its key. */
    method TimerRun(key: string, env: Env)
      modifies this`table, this`audit, this`statusRevision, this`runtime
      ensures Value() == OnTimer(old(Value()), key, env)
    {
      table := table.(queued := table.queued - multiset{key});
      Summary(env);
    }

    /** A query that names another session than the active one is refused before the lock. */
    method HandleStatus(sessionId: string, activeSession: string, env: Env) returns (answered: bool)
      modifies this`table, this`statusRevision, this`runtime
      ensures answered <==> sessionId == "" || sessionId == activeSession
      ensures Value() == if answered then Status(old(Value()), env) else old(Value())
    {
      if sessionId != "" && sessionId != activeSession {
        return false;
      }
      answered := true;
      var changed := PruneExpired(env.order, env.now);
      if changed {
        statusRevision := statusRevision + 1;
        SetRuntimeState(table.leases != map[], env.status);
      }
    }

    method OnClientConnected(deviceId: string, env: Env)
      modifies this`table, this`statusRevision, this`runtime
      ensures Value() == Connected(old(Value()), deviceId, env)
    {
      if Trim(deviceId) == "" {
        return;
      }
      var changed := ReconnectLeases(deviceId, env.order, env.armAt);
      if changed {
        statusRevision := statusRevision + 1;
        SetRuntimeState(table.leases != map[], env.status);
      }
    }

    method ReconnectLeases(deviceId: string, order: seq<string>, armAt: int) returns (changed: bool)
      modifies this`table
      ensures table == ConnectAll(old(table), order, deviceId, armAt)
      ensures changed <==> table.leases != old(table.leases)
    {
      changed := false;
      ghost var first := "";
      for i := 0 to |order|
        invariant table == ConnectAll(old(table), order[..i], deviceId, armAt)
        invariant if changed then
                    first in old(table.leases) && old(table.leases)[first].disconnected &&
                    first in table.leases && !table.leases[first].disconnected
                  else table.leases == old(table.leases)
      {
        assert order[..i + 1][..i] == order[..i];
        var key := order[i];
        if key in table.leases && table.leases[key].deviceId == deviceId && table.leases[key].disconnected {
          first := if changed then first else key;
          ReconnectLease(key, armAt);
          changed := true;
        }
      }
      assert order[..|order|] == order;
    }

    method ReconnectLease(key: string, armAt: int)
      requires key in table.leases
      modifies this`table
      ensures table == PutAndSchedule(old(table), key, Reconnect(old(table.leases)[key]), armAt)
    {
      var lease := table.leases[key].(disconnected := false, graceDeadline := None);
      table := table.(leases := table.leases[key := lease]);
      ScheduleTimer(key, lease, armAt);
    }

    method OnClientDisconnected(deviceId: string, online: bool, env: Env)
      modifies this`table, this`statusRevision, this`runtime
      ensures Value() == Disconnected(old(Value()), deviceId, online, env)
    {
      if Trim(deviceId) == "" {
        return;
      }
      if online {
        return;
      }
      var changed := DisconnectLeases(deviceId, env.order, env.now, env.armAt);
      if changed {
        statusRevision := statusRevision + 1;
        SetRuntimeState(table.leases != map[], env.status);
      }
    }

    method DisconnectLeases(deviceId: string, order: seq<string>, now: int, armAt: int) returns (changed: bool)
      modifies this`table
      ensures table == DisconnectAll(old(table), order, deviceId, config.grace, now, armAt)
      ensures changed <==> table.leases != old(table.leases)
    {
      changed := false;
      ghost var first := "";
      for i := 0 to |order|
        invariant table == DisconnectAll(old(table), order[..i], deviceId, config.grace, now, armAt)
        invariant if changed then
                    first in old(table.leases) && !old(table.leases)[first].disconnected &&
                    first in table.leases && table.leases[first].disconnected
                  else table.leases == old(table.leases)
      {
        assert order[..i + 1][..i] == order[..i];
        var key := order[i];
        if key in table.leases && table.leases[key].deviceId == deviceId && !table.leases[key].disconnected {
          first := if changed then first else key;
          DisconnectLease(key, now, armAt);
          changed := true;
        }
      }
      assert order[..|order|] == order;
    }

    method DisconnectLease(key: string, now: int, armAt: int)
      requires key in table.leases
      modifies this`table
      ensures table == PutAndSchedule(old(table), key, Disconnect(old(table.leases)[key], now, config.grace), armAt)
    {
      var lease := table.leases[key].(
        disconnected := true, disconnectedAt := Some(now), graceDeadline := Some(now + config.grace));
      table := table.(leases := table.leases[key := lease]);
      ScheduleTimer(key, lease, armAt);
    }

    method RevokeLeasesForDevice(deviceId: string, env: Env)
      modifies this`table, this`audit, this`statusRevision, this`runtime
      ensures Value() == RevokeDevice(old(Value()), deviceId, env)
    {
      if Trim(deviceId) == "" {
        return;
      }
      var removed := RevokeLeases(deviceId, env.order, env);
      if removed {
        statusRevision := statusRevision + 1;
        SetRuntimeState(table.leases != map[], env.status);
      }
    }

    method RevokeLeases(deviceId: string, order: seq<string>, env: Env) returns (removed: bool)
      modifies this`table, this`audit
      ensures Sweep(table, audit, false) == RevokeAll(Sweep(old(table), old(audit), false), order, deviceId, env)
      ensures removed <==> table.leases != old(table.leases)
    {
      removed := false;
      ghost var w0 := Sweep(table, audit, false);
      for i := 0 to |order|
        invariant Sweep(table, audit, false) == RevokeAll(w0, order[..i], deviceId, env)
        invariant table.leases.Keys <= old(table.leases).Keys
        invariant !removed ==> table.leases == old(table.leases)
        invariant removed ==> exists k :: k in old(table.leases) && k !in table.leases
      {
        assert order[..i + 1][..i] == order[..i];
        var key := order[i];
        if key in table.leases && table.leases[key].deviceId == deviceId {
          var id := table.leases[key].leaseId;
          var ok := WriteAudit(AuditRecord(RevokeOp, "host", id, env.now), id, env);
          if ok {
            RemoveLease(key);
            assert key in old(table.leases) && key !in table.leases;
            removed := true;
          }
        }
      }
      assert order[..|order|] == order;
    }

    // -------------------------------------------------------------------------
    // Policy
    // -------------------------------------------------------------------------

    method ForceFailClosed(status: RuntimeStatus)
      modifies this`config, this`table, this`runtime, this`statusRevision
      ensures Value() == FailClosed(old(Value()), status)
    {
      config := config.(migrationFailed := true, policy := config.policy.(remoteEnabled := false));
      table := table.(timers := map[], leases := map[]);
      SetRuntimeState(false, status);
      statusRevision := statusRevision + 1;
    }

    /** The revoke loop shared by both policy paths; false when an audit write failed. */
    method RevokeAllForPolicy(wasEnabled: bool, isEnabled: bool, actor: string, env: Env) returns (ok: bool)
      modifies this`table, this`audit, this`runtime
      ensures Swept(Value(), !ok) == RevokeForPolicy(old(Value()), wasEnabled, isEnabled, actor, env)
    {
      ok := true;
      if wasEnabled && !isEnabled && table.leases != map[] {
        ok := SweepLeases(actor, env.order, env);
        if ok {
          SetRuntimeState(false, env.status);
        }
      }
    }

    method SweepLeases(actor: string, order: seq<string>, env: Env) returns (ok: bool)
      modifies this`table, this`audit
      ensures Sweep(table, audit, !ok) == SweepAll(Sweep(old(table), old(audit), false), order, actor, env)
    {
      ghost var w0 := Sweep(table, audit, false);
      for i := 0 to |order|
        invariant Sweep(table, audit, false) == SweepAll(w0, order[..i], actor, env)
      {
        assert order[..i + 1][..i] == order[..i];
        var key := order[i];
        if key in table.leases {
          var id := table.leases[key].leaseId;
          var written := WriteAudit(AuditRecord(PolicyRevokeOp, actor, id, env.now), id, env);
          if !written {
            SweepAllStops(w0, order, i + 1, actor, env);
            return false;
          }
          RemoveLease(key);
        }
      }
      assert order[..|order|] == order;
      ok := true;
    }

    method SetKeepAwakePolicy(newPolicy: Policy, env: Env)
      modifies this
      ensures Value() == SetPolicy(old(Value()), newPolicy, env)
    {
      if !config.policySet {
        config := config.(policy := newPolicy, policySet := true);
        return;
      }
      var oldPolicy := config.policy;
      var policyChanged := oldPolicy != newPolicy;
      config := config.(policy := newPolicy);
      var ok := RevokeAllForPolicy(oldPolicy.remoteEnabled, newPolicy.remoteEnabled, "system", env);
      if !ok {
        ForceFailClosed(env.status);
        return;
      }
      if policyChanged {
        ok := WriteAudit(AuditRecord(PolicyChangeOp, "system", "", env.now), "", env);
        if !ok {
          ForceFailClosed(env.status);
          return;
        }
        statusRevision := statusRevision + 1;
      }
    }

    method PolicyHandlerBegin(key: PolicyKey, remoteEnabled: bool, reason: string) returns (begin: PolicyBegin)
      modifies this`idem
      ensures (Value(), begin) == BeginPolicy(old(Value()), key, remoteEnabled, reason)
    {
      var fingerprint := ComputeFingerprint(["policy_mutation", if remoteEnabled then "true" else "false", reason]);
      if key in idem.policyCache.entries {
        if idem.policyCache.entries[key].fingerprint != fingerprint {
          return PolicyConflict;
        }
        return PolicyReplay(idem.policyCache.entries[key].response);
      }
      if key in idem.policyInFlight {
        return PolicyConflict;
      }
      idem := idem.(policyInFlight := idem.policyInFlight + {key});
      if config.policy.remoteEnabled == remoteEnabled {
        var response := PolicyResponse(statusRevision, false);
        PolicyIdempotencyComplete(key, fingerprint, response);
        return PolicyNoOp(response);
      }
      begin := PolicyReserved(Ticket(key, fingerprint, remoteEnabled, config.policy));
    }

    method PolicyHandlerCancel(key: PolicyKey)
      modifies this`idem
      ensures Value() == CancelPolicy(old(Value()), key)
    {
      idem := idem.(policyInFlight := idem.policyInFlight - {key});
    }

    method PolicyHandlerApply(t: Ticket, env: Env)
      modifies this
      ensures Value() == ApplyPolicy(old(Value()), t, env)
    {
      config := config.(policy := config.policy.(remoteEnabled := t.remoteEnabled));
      var ok := WriteAudit(AuditRecord(PolicyChangeOp, "cli", "", env.now), "", env);
      if !ok {
        config := config.(policy := t.oldPolicy);
        PolicyHandlerCancel(t.key);
        return;
      }
      ok := RevokeAllForPolicy(t.oldPolicy.remoteEnabled, t.remoteEnabled, "cli", env);
      if !ok {
        ForceFailClosed(env.status);
        PolicyHandlerCancel(t.key);
        return;
      }
      statusRevision := statusRevision + 1;
      PolicyIdempotencyComplete(t.key, t.fingerprint, PolicyResponse(statusRevision, true));
    }

    // -------------------------------------------------------------------------
    // Setters and shutdown
    // -------------------------------------------------------------------------

    method SetDisconnectGrace(grace: int) returns (ok: bool)
      modifies this`config
      ensures Value() == SetGrace(old(Value()), grace)
      ensures ok <==> 0 <= grace && grace / MS <= MAX_GRACE_MS
    {
      if grace < 0 || grace / MS > MAX_GRACE_MS {
        return false;
      }
      config := config.(grace := grace);
      ok := true;
    }

    method StopKeepAwake(order: seq<string>)
      requires forall k :: k in table.timers ==> k in order
      modifies this`table
      ensures Value() == Shutdown(old(Value()))
    {
      for i := 0 to |order|
        invariant table == old(table).(timers := table.timers)
        invariant forall k :: k in table.timers ==> k in order[i..]
      {
        table := table.(timers := table.timers - {order[i]});
        assert order[i..] == [order[i]] + order[i + 1..];
      }
      assert table.timers == map[];
    }
  }

  /** Nothing happens after the first failed write. */
  lemma {:induction false} AuditEachStops(w: Sweep, order: seq<string>, n: nat, env: Env)
    requires n <= |order| && AuditEach(w, order[..n], env).failed
    ensures AuditEach(w, order, env) == AuditEach(w, order[..n], env)
    decreases |order|
  {
    if n == |order| {
      assert order[..n] == order;
    } else {
      assert order[..|order| - 1][..n] == order[..n];
      AuditEachStops(w, order[..|order| - 1], n, env);
    }
  }

  lemma {:induction false} SweepAllStops(w: Sweep, order: seq<string>, n: nat, actor: string, env: Env)
    requires n <= |order| && SweepAll(w, order[..n], actor, env).failed
    ensures SweepAll(w, order, actor, env) == SweepAll(w, order[..n], actor, env)
    decreases |order|
  {
    if n == |order| {
      assert order[..n] == order;
    } else {
      assert order[..|order| - 1][..n] == order[..n];
      SweepAllStops(w, order[..|order| - 1], n, actor, env);
    }
  }
}
