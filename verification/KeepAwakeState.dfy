/** The keep-awake control plane of host/internal/server as a value, and every critical
    section as a function of that value.  Clock readings, power readings, audit outcomes,
    map iteration orders and the runtime manager's answers are inputs. */
module KeepAwakeState {
  import opened Text
  import opened Decimal
  import opened FifoCache

  // ---------------------------------------------------------------------------
  // Constants and records
  // ---------------------------------------------------------------------------

  /** Times are in nanoseconds. */
  const MS := 1_000_000
  const MIN_DURATION_MS := 30_000
  const MAX_DURATION_MS := 28_800_000
  const MAX_GRACE_MS := 300_000
  const MAX_IDEMPOTENCY: nat := 256
  const MAX_POLICY_IDEMPOTENCY: nat := 64

  datatype Lease = Lease(
    sessionId: string, deviceId: string, leaseId: string, reason: string,
    expiresAt: int, disconnected: bool, graceDeadline: Option<int>, disconnectedAt: Option<int>)

  datatype Policy = Policy(
    remoteEnabled: bool, allowAdminRevoke: bool, adminDeviceIds: seq<string>,
    allowOnBattery: bool, autoDisableBatteryPercent: int)

  /** A timer object left in the table: still armed, or fired or stopped. */
  datatype Timer = Armed(deadline: int) | Spent

  datatype Operation = EnableOp | DisableOp | ExtendOp | RevokeOp | AutoDisableOp | PolicyRevokeOp | PolicyChangeOp

  datatype AuditRecord = AuditRecord(operation: Operation, actor: string, leaseId: string, at: int)

  datatype Code =
    | NoError | InvalidMessage | Conflict | PolicyDisabled | Unauthorized | LeaseExpired
    | UnsupportedEnvironment | AcquireFailed

  datatype Result = Result(success: bool, leaseId: string, code: Code, revision: nat, activeLeases: nat)

  datatype CacheKey = CacheKey(deviceId: string, operation: Operation, requestId: string)
  /** The fingerprint is kept as the bytes that are hashed. */
  datatype CacheEntry = CacheEntry(fingerprint: string, result: Result)

  datatype PolicyKey = PolicyKey(caller: string, requestId: string)
  datatype PolicyResponse = PolicyResponse(revision: nat, persisted: bool)
  datatype PolicyEntry = PolicyEntry(fingerprint: string, response: PolicyResponse)
  /** What the policy handler holds while it persists without the lock. */
  datatype Ticket = Ticket(key: PolicyKey, fingerprint: string, remoteEnabled: bool, oldPolicy: Policy)

  datatype RuntimeState = Off | Pending | On | Degraded
  datatype DegradedReason = NoReason | Unsupported | AcquireFailure | IntegrityLost
  datatype RuntimeStatus = RuntimeStatus(state: RuntimeState, reason: DegradedReason)

  datatype PowerSnapshot = PowerSnapshot(onBattery: Option<bool>, batteryPercent: Option<int>)

  datatype Config = Config(policy: Policy, policySet: bool, grace: int, migrationFailed: bool)

  /** The lease table, its timers, the expiry runs started but not yet executed, the id
      counter and the battery flag of the current epoch. */
  datatype Table = Table(
    leases: map<string, Lease>, timers: map<string, Timer>, queued: multiset<string>,
    nextLeaseSeq: nat, thresholdDisabled: bool)

  datatype Idempotency = Idempotency(
    cache: Cache<CacheKey, CacheEntry>, inFlight: map<CacheKey, string>,
    policyCache: Cache<PolicyKey, PolicyEntry>, policyInFlight: set<PolicyKey>)

  datatype Audit = Audit(writer: bool, log: seq<AuditRecord>)

  /** The runtime manager as the control plane sees it: every value passed to
      SetDesiredEnabled, and the last answer. */
  datatype Runtime = Runtime(wired: bool, requests: seq<bool>, status: RuntimeStatus)

  datatype State = State(
    config: Config, table: Table, statusRevision: nat, idem: Idempotency, audit: Audit, runtime: Runtime)

  /** newKeepAwakeControlPlane. */
  const INITIAL := State(
    Config(Policy(false, false, [], false, 0), false, 45_000 * MS, false),
    Table(map[], map[], multiset{}, 0, false),
    0,
    Idempotency(Cache(map[], []), map[], Cache(map[], []), {}),
    Audit(false, []),
    Runtime(false, [], RuntimeStatus(Off, NoReason)))

  /** The inputs of one critical section.  now is its clock reading and armAt the later
      reading taken when a timer is scheduled; order and order2 are the orders in which
      its loops visit the lease table; auditFails holds the lease ids (or "" for a policy
      record) whose audit write fails; status is the runtime manager's answer. */
  datatype Env = Env(
    now: int, armAt: int, order: seq<string>, order2: seq<string>, auditFails: set<string>,
    power: Option<PowerSnapshot>, status: RuntimeStatus)

  // ---------------------------------------------------------------------------
  // Small pieces
  // ---------------------------------------------------------------------------

  function LeaseKey(sessionId: string, deviceId: string, leaseId: string): string {
    sessionId + "\0" + deviceId + "\0" + leaseId
  }

  function LeaseId(n: nat): string {
    "ka-" + Itoa(n)
  }

  predicate DurationOk(ms: int) {
    MIN_DURATION_MS <= ms <= MAX_DURATION_MS
  }

  predicate GraceElapsed(l: Lease, now: int) {
    l.disconnected && (l.graceDeadline.Some? ==> l.graceDeadline.value <= now)
  }

  predicate Expired(l: Lease, now: int) {
    l.expiresAt <= now || GraceElapsed(l, now)
  }

  function Deadline(l: Lease): int {
    if l.disconnected && l.graceDeadline.Some? && l.graceDeadline.value < l.expiresAt
    then l.graceDeadline.value
    else l.expiresAt
  }

  predicate AuditOk(a: Audit, env: Env, subject: string) {
    a.writer ==> subject !in env.auditFails
  }

  function Audited(a: Audit, r: AuditRecord): Audit {
    if a.writer then a.(log := a.log + [r]) else a
  }

  function SetRuntime(rt: Runtime, desired: bool, status: RuntimeStatus): Runtime {
    if rt.wired then rt.(requests := rt.requests + [desired], status := status)
    else rt.(status := if desired then RuntimeStatus(Degraded, Unsupported) else RuntimeStatus(Off, NoReason))
  }

  /** Removing a lease stops and forgets its timer. */
  function Remove(t: Table, key: string): Table {
    t.(timers := t.timers - {key}, leases := t.leases - {key})
  }

  /** keepAwakeScheduleTimerLocked: a due lease gets an expiry run of its own, and a timer
      it had stays in the table, stopped. */
  function Schedule(t: Table, key: string, l: Lease, armAt: int): Table {
    if Deadline(l) <= armAt then
      t.(queued := t.queued + multiset{key},
         timers := if key in t.timers then t.timers[key := Spent] else t.timers)
    else t.(timers := t.timers[key := Armed(Deadline(l))])
  }

  function PutAndSchedule(t: Table, key: string, l: Lease, armAt: int): Table {
    Schedule(t.(leases := t.leases[key := l]), key, l, armAt)
  }

  // ---------------------------------------------------------------------------
  // Loops over the lease table
  // ---------------------------------------------------------------------------

  function PruneOne(t: Table, key: string, now: int): Table {
    if key in t.leases && Expired(t.leases[key], now) then Remove(t, key) else t
  }

  function Prune(t: Table, order: seq<string>, now: int): Table {
    if order == [] then t
    else PruneOne(Prune(t, order[..|order| - 1], now), order[|order| - 1], now)
  }

  function Reconnect(l: Lease): Lease {
    l.(disconnected := false, graceDeadline := None)
  }

  function ConnectOne(t: Table, key: string, deviceId: string, armAt: int): Table {
    if key in t.leases && t.leases[key].deviceId == deviceId && t.leases[key].disconnected
    then PutAndSchedule(t, key, Reconnect(t.leases[key]), armAt)
    else t
  }

  function ConnectAll(t: Table, order: seq<string>, deviceId: string, armAt: int): Table {
    if order == [] then t
    else ConnectOne(ConnectAll(t, order[..|order| - 1], deviceId, armAt), order[|order| - 1], deviceId, armAt)
  }

  function Disconnect(l: Lease, now: int, grace: int): Lease {
    l.(disconnected := true, disconnectedAt := Some(now), graceDeadline := Some(now + grace))
  }

  function DisconnectOne(t: Table, key: string, deviceId: string, grace: int, now: int, armAt: int): Table {
    if key in t.leases && t.leases[key].deviceId == deviceId && !t.leases[key].disconnected
    then PutAndSchedule(t, key, Disconnect(t.leases[key], now, grace), armAt)
    else t
  }

  function DisconnectAll(t: Table, order: seq<string>, deviceId: string, grace: int, now: int, armAt: int): Table {
    if order == [] then t
    else
      DisconnectOne(DisconnectAll(t, order[..|order| - 1], deviceId, grace, now, armAt),
                    order[|order| - 1], deviceId, grace, now, armAt)
  }

  /** A loop that audits as it goes; failed records a write that stopped it. */
  datatype Sweep = Sweep(table: Table, audit: Audit, failed: bool)

  function RevokeOne(w: Sweep, key: string, deviceId: string, env: Env): Sweep {
    if key in w.table.leases && w.table.leases[key].deviceId == deviceId &&
       AuditOk(w.audit, env, w.table.leases[key].leaseId)
    then
      Sweep(Remove(w.table, key),
            Audited(w.audit, AuditRecord(RevokeOp, "host", w.table.leases[key].leaseId, env.now)), w.failed)
    else w
  }

  /** Revoking a device skips the leases whose audit write fails. */
  function RevokeAll(w: Sweep, order: seq<string>, deviceId: string, env: Env): Sweep {
    if order == [] then w
    else RevokeOne(RevokeAll(w, order[..|order| - 1], deviceId, env), order[|order| - 1], deviceId, env)
  }

  function SweepOne(w: Sweep, key: string, actor: string, env: Env): Sweep {
    if w.failed || key !in w.table.leases then w
    else if !AuditOk(w.audit, env, w.table.leases[key].leaseId) then w.(failed := true)
    else
      Sweep(Remove(w.table, key),
            Audited(w.audit, AuditRecord(PolicyRevokeOp, actor, w.table.leases[key].leaseId, env.now)), false)
  }

  /** Switching remote control off stops at the first audit write that fails. */
  function SweepAll(w: Sweep, order: seq<string>, actor: string, env: Env): Sweep {
    if order == [] then w
    else SweepOne(SweepAll(w, order[..|order| - 1], actor, env), order[|order| - 1], actor, env)
  }

  function AuditOne(w: Sweep, key: string, env: Env): Sweep {
    if w.failed || key !in w.table.leases then w
    else if !AuditOk(w.audit, env, w.table.leases[key].leaseId) then w.(failed := true)
    else w.(audit := Audited(w.audit, AuditRecord(AutoDisableOp, "system", w.table.leases[key].leaseId, env.now)))
  }

  /** The battery check audits every lease before it removes the first one. */
  function AuditEach(w: Sweep, order: seq<string>, env: Env): Sweep {
    if order == [] then w
    else AuditOne(AuditEach(w, order[..|order| - 1], env), order[|order| - 1], env)
  }

  function RemoveEach(t: Table, order: seq<string>): Table {
    if order == [] then t else Remove(RemoveEach(t, order[..|order| - 1]), order[|order| - 1])
  }

  // ---------------------------------------------------------------------------
  // Power
  // ---------------------------------------------------------------------------

  function PowerAllowed(p: Policy, power: Option<PowerSnapshot>): bool {
    if p.allowOnBattery && p.autoDisableBatteryPercent <= 0 then true
    else if power.None? || power.value.onBattery.None? then false
    else if power.value.onBattery.value && !p.allowOnBattery then false
    else if power.value.onBattery.value && p.autoDisableBatteryPercent > 0 then
      power.value.batteryPercent.Some? && power.value.batteryPercent.value > p.autoDisableBatteryPercent
    else true
  }

  predicate ThresholdReached(c: Config, t: Table, power: Option<PowerSnapshot>) {
    && c.policy.autoDisableBatteryPercent != 0
    && !t.thresholdDisabled
    && t.leases != map[]
    && power.Some? && power.value.onBattery == Some(true)
    && power.value.batteryPercent.Some?
    && power.value.batteryPercent.value <= c.policy.autoDisableBatteryPercent
  }

  datatype Checked = Checked(table: Table, audit: Audit, revoked: bool)

  /** keepAwakeCheckBatteryThresholdLocked, but for its revision increment. */
  function CheckThreshold(c: Config, t: Table, a: Audit, env: Env): Checked {
    if !ThresholdReached(c, t, env.power) then Checked(t, a, false)
    else
      var w := AuditEach(Sweep(t, a, false), env.order2, env);
      if w.failed then Checked(t, w.audit, false)
      else Checked(RemoveEach(t, env.order2).(thresholdDisabled := true), w.audit, true)
  }

  // ---------------------------------------------------------------------------
  // Idempotency
  // ---------------------------------------------------------------------------

  datatype Begin = Replay(result: Result) | Mismatch | Busy | Begun

  function CheckOrBegin(i: Idempotency, key: CacheKey, fingerprint: string): Begin {
    if key in i.cache.entries then
      if i.cache.entries[key].fingerprint != fingerprint then Mismatch else Replay(i.cache.entries[key].result)
    else if key in i.inFlight then
      if i.inFlight[key] != fingerprint then Mismatch else Busy
    else Begun
  }

  function Reserve(i: Idempotency, key: CacheKey, fingerprint: string): Idempotency {
    i.(inFlight := i.inFlight[key := fingerprint])
  }

  function Complete(i: Idempotency, key: CacheKey, fingerprint: string, result: Result): Idempotency {
    i.(cache := Store(i.cache, MAX_IDEMPOTENCY, key, CacheEntry(fingerprint, result)),
       inFlight := i.inFlight - {key})
  }

  function PolicyComplete(i: Idempotency, key: PolicyKey, fingerprint: string, response: PolicyResponse): Idempotency {
    i.(policyInFlight := i.policyInFlight - {key},
       policyCache := Store(i.policyCache, MAX_POLICY_IDEMPOTENCY, key, PolicyEntry(fingerprint, response)))
  }

  function PolicyReserve(i: Idempotency, key: PolicyKey): Idempotency {
    i.(policyInFlight := i.policyInFlight + {key})
  }

  function PolicyCancel(i: Idempotency, key: PolicyKey): Idempotency {
    i.(policyInFlight := i.policyInFlight - {key})
  }

  // ---------------------------------------------------------------------------
  // Lease mutations
  // ---------------------------------------------------------------------------

  datatype Request = Request(
    operation: Operation, deviceId: string, requestId: string, sessionId: string, leaseId: string,
    durationMs: int, reason: string, requireAuth: bool, activeSession: string)

  datatype Reply = Invalid | Replayed(result: Result) | Mismatched(failure: Result) | Waits | Done(outcome: Result)

  datatype Authorization = Denied(code: Code) | Granted(isAdmin: bool)

  predicate IsAdmin(p: Policy, deviceId: string) {
    p.allowAdminRevoke && deviceId in p.adminDeviceIds
  }

  function Authorize(c: Config, r: Request): Authorization {
    if c.migrationFailed || !c.policy.remoteEnabled then Denied(PolicyDisabled)
    else if !r.requireAuth || Trim(r.deviceId) == "" then Denied(Unauthorized)
    else if Trim(r.sessionId) != Trim(r.activeSession) && !IsAdmin(c.policy, r.deviceId) then Denied(Unauthorized)
    else Granted(IsAdmin(c.policy, r.deviceId))
  }

  predicate WellFormed(r: Request) {
    && Trim(r.requestId) != "" && Trim(r.sessionId) != ""
    && (r.operation != EnableOp ==> Trim(r.leaseId) != "")
    && (r.operation != DisableOp ==> DurationOk(r.durationMs))
  }

  function KeyOf(r: Request): CacheKey {
    CacheKey(r.deviceId, r.operation, r.requestId)
  }

  /** The fields a request is fingerprinted by; durations are not negative here. */
  function Fields(r: Request): (fields: seq<string>)
    ensures |fields| > 1
  {
    var duration := Itoa(if r.durationMs >= 0 then r.durationMs else 0);
    match r.operation
    case EnableOp => ["enable", r.sessionId, duration, r.reason]
    case ExtendOp => ["extend", r.sessionId, r.leaseId, r.reason, duration]
    case _ => ["disable", r.sessionId, r.leaseId, r.reason]
  }

  /** computeFingerprint up to the hash: the fields with a NUL between them. */
  function NulJoined(fields: seq<string>): string {
    if fields == [] then ""
    else if |fields| == 1 then fields[0]
    else fields[0] + "\0" + NulJoined(fields[1..])
  }

  function Fingerprint(r: Request): string {
    NulJoined(Fields(r))
  }

  function Failure(s: State, leaseId: string, code: Code): Result {
    Result(false, leaseId, code, s.statusRevision, |s.table.leases|)
  }

  function DegradedCode(status: RuntimeStatus): Code {
    if status.state != Degraded then NoError
    else if status.reason == Unsupported then UnsupportedEnvironment
    else if status.reason == AcquireFailure then AcquireFailed
    else NoError
  }

  function Outcome(s: State, leaseId: string): Result {
    var code := DegradedCode(s.runtime.status);
    Result(code == NoError, leaseId, code, s.statusRevision, |s.table.leases|)
  }

  function NewLease(r: Request, leaseId: string, now: int): Lease {
    Lease(r.sessionId, r.deviceId, leaseId, r.reason, now + r.durationMs * MS, false, None, None)
  }

  /** The table after an enable that passed every check. */
  function Added(t: Table, r: Request, leaseId: string, env: Env): Table {
    var t1 := if t.leases == map[] then t.(thresholdDisabled := false) else t;
    PutAndSchedule(t1, LeaseKey(r.sessionId, r.deviceId, leaseId), NewLease(r, leaseId, env.now), env.armAt)
  }

  /** A lease change: new table and audit log, next revision, runtime told whether any
      lease is left. */
  function Changed(s: State, t: Table, a: Audit, env: Env): State {
    s.(table := t, audit := a, statusRevision := s.statusRevision + 1,
       runtime := SetRuntime(s.runtime, t.leases != map[], env.status))
  }

  /** The new state and the result the requester gets. */
  function EnableBody(s: State, r: Request, env: Env): (State, Result) {
    var auth := Authorize(s.config, r);
    if auth.Denied? then (s, Failure(s, "", auth.code))
    else if !PowerAllowed(s.config.policy, env.power) then (s, Failure(s, "", PolicyDisabled))
    else
      var t := s.table.(nextLeaseSeq := s.table.nextLeaseSeq + 1);
      var leaseId := LeaseId(t.nextLeaseSeq);
      if LeaseKey(r.sessionId, r.deviceId, leaseId) in t.leases || !AuditOk(s.audit, env, leaseId) then
        (s.(table := t), Failure(s, "", Conflict))
      else
        var s' := Changed(s, Added(t, r, leaseId, env),
                          Audited(s.audit, AuditRecord(EnableOp, r.deviceId, leaseId, env.now)), env);
        (s', Outcome(s', leaseId))
  }

  predicate Names(t: Table, r: Request, key: string) {
    key in t.leases && t.leases[key].sessionId == r.sessionId && t.leases[key].leaseId == r.leaseId
  }

  function FirstMatch(t: Table, r: Request, order: seq<string>): Option<string> {
    if order == [] then None
    else if Names(t, r, order[0]) then Some(order[0])
    else FirstMatch(t, r, order[1..])
  }

  /** The table key of the lease a request names: its own, else the first with that
      session and lease id. */
  function FindLease(t: Table, r: Request, order: seq<string>): (found: Option<string>)
    ensures found.Some? ==> found.value in t.leases
  {
    var own := LeaseKey(r.sessionId, r.deviceId, r.leaseId);
    if own in t.leases then Some(own)
    else
      var first := FirstMatch(t, r, order);
      if first.Some? && first.value in t.leases then first else None
  }

  function Extend(l: Lease, durationMs: int, now: int): Lease {
    l.(expiresAt := now + durationMs * MS, disconnected := false, graceDeadline := None)
  }

  datatype Admission = Refused(result: Result) | Admitted(key: string)

  /** The checks of a disable or extend: authorization, power, existence, ownership. */
  function Admit(s: State, r: Request, env: Env): (a: Admission)
    ensures a.Admitted? ==> a.key in s.table.leases
  {
    var auth := Authorize(s.config, r);
    if auth.Denied? then Refused(Failure(s, "", auth.code))
    else if r.operation == ExtendOp && !PowerAllowed(s.config.policy, env.power) then
      Refused(Failure(s, r.leaseId, PolicyDisabled))
    else
      var found := FindLease(s.table, r, env.order);
      if found.None? then Refused(Failure(s, r.leaseId, LeaseExpired))
      else if s.table.leases[found.value].deviceId != r.deviceId && !auth.isAdmin then
        Refused(Failure(s, r.leaseId, Unauthorized))
      else Admitted(found.value)
  }

  function Mutated(t: Table, key: string, r: Request, env: Env): Table
    requires key in t.leases
  {
    if r.operation == ExtendOp then PutAndSchedule(t, key, Extend(t.leases[key], r.durationMs, env.now), env.armAt)
    else Remove(t, key)
  }

  function MutateBody(s: State, r: Request, env: Env): (State, Result) {
    match Admit(s, r, env)
    case Refused(result) => (s, result)
    case Admitted(key) =>
      var leaseId := s.table.leases[key].leaseId;
      if !AuditOk(s.audit, env, leaseId) then (s, Failure(s, r.leaseId, Conflict))
      else
        var a := Audited(s.audit, AuditRecord(r.operation, r.deviceId, leaseId, env.now));
        var s' := Changed(s, Mutated(s.table, key, r, env), a, env);
        (s', Outcome(s', r.leaseId))
  }

  function Body(s: State, r: Request, env: Env): (State, Result) {
    if r.operation == EnableOp then EnableBody(s, r, env) else MutateBody(s, r, env)
  }

  /** handleKeepAwakeEnable, handleKeepAwakeDisable and handleKeepAwakeExtend. */
  function Mutate(s: State, r: Request, env: Env): (State, Reply) {
    if !WellFormed(r) then (s, Invalid)
    else
      var key, fingerprint := KeyOf(r), Fingerprint(r);
      match CheckOrBegin(s.idem, key, fingerprint)
      case Replay(result) => (s, Replayed(result))
      case Mismatch => (s, Mismatched(Failure(s, "", Conflict)))
      case Busy => (s, Waits)
      case Begun =>
        var (s', result) := Body(s.(idem := Reserve(s.idem, key, fingerprint)), r, env);
        (s'.(idem := Complete(s'.idem, key, fingerprint, result)), Done(result))
  }

  // ---------------------------------------------------------------------------
  // Reconciliation
  // ---------------------------------------------------------------------------

  /** Prune, then the battery check: KeepAwakeSummary and the timer callback. */
  function Reconcile(s: State, env: Env): State {
    var t := Prune(s.table, env.order, env.now);
    var c := CheckThreshold(s.config, t, s.audit, env);
    if t.leases != s.table.leases || c.revoked then Changed(s, c.table, c.audit, env)
    else s.(table := c.table, audit := c.audit)
  }

  function OnTimer(s: State, key: string, env: Env): State {
    Reconcile(s.(table := s.table.(queued := s.table.queued - multiset{key})), env)
  }

  /** New table for an existing one: a change only if a lease differs. */
  function Update(s: State, t: Table, a: Audit, env: Env): State {
    if t.leases != s.table.leases then Changed(s, t, a, env) else s.(table := t, audit := a)
  }

  function Status(s: State, env: Env): State {
    Update(s, Prune(s.table, env.order, env.now), s.audit, env)
  }

  /** An armed timer of the table fires: its expiry run is queued. */
  function Fire(s: State, key: string): State {
    s.(table := s.table.(timers := s.table.timers[key := Spent], queued := s.table.queued + multiset{key}))
  }

  function Connected(s: State, deviceId: string, env: Env): State {
    if Trim(deviceId) == "" then s
    else Update(s, ConnectAll(s.table, env.order, deviceId, env.armAt), s.audit, env)
  }

  /** online: another client of the device is still registered. */
  function Disconnected(s: State, deviceId: string, online: bool, env: Env): State {
    if Trim(deviceId) == "" || online then s
    else Update(s, DisconnectAll(s.table, env.order, deviceId, s.config.grace, env.now, env.armAt), s.audit, env)
  }

  function RevokeDevice(s: State, deviceId: string, env: Env): State {
    if Trim(deviceId) == "" then s
    else
      var w := RevokeAll(Sweep(s.table, s.audit, false), env.order, deviceId, env);
      Update(s, w.table, w.audit, env)
  }

  // ---------------------------------------------------------------------------
  // Policy
  // ---------------------------------------------------------------------------

  function FailClosed(s: State, status: RuntimeStatus): State {
    s.(config := s.config.(migrationFailed := true, policy := s.config.policy.(remoteEnabled := false)),
       table := s.table.(timers := map[], leases := map[]),
       runtime := SetRuntime(s.runtime, false, status),
       statusRevision := s.statusRevision + 1)
  }

  datatype Swept = Swept(state: State, failed: bool)

  /** Revoke every lease when remote control was switched off. */
  function RevokeForPolicy(s: State, wasEnabled: bool, isEnabled: bool, actor: string, env: Env): Swept {
    if wasEnabled && !isEnabled && s.table.leases != map[] then
      var w := SweepAll(Sweep(s.table, s.audit, false), env.order, actor, env);
      var s1 := s.(table := w.table, audit := w.audit);
      if w.failed then Swept(s1, true)
      else Swept(s1.(runtime := SetRuntime(s1.runtime, false, env.status)), false)
    else Swept(s, false)
  }

  function WithPolicy(s: State, policy: Policy): State {
    s.(config := s.config.(policy := policy))
  }

  function SetPolicy(s: State, policy: Policy, env: Env): State {
    if !s.config.policySet then s.(config := s.config.(policy := policy, policySet := true))
    else
      var before := s.config.policy;
      var w := RevokeForPolicy(WithPolicy(s, policy), before.remoteEnabled, policy.remoteEnabled, "system", env);
      if w.failed then FailClosed(w.state, env.status)
      else if before == policy then w.state
      else if !AuditOk(w.state.audit, env, "") then FailClosed(w.state, env.status)
      else
        w.state.(audit := Audited(w.state.audit, AuditRecord(PolicyChangeOp, "system", "", env.now)),
                 statusRevision := w.state.statusRevision + 1)
  }

  datatype PolicyBegin =
    | PolicyReplay(response: PolicyResponse)
    | PolicyConflict
    | PolicyNoOp(noop: PolicyResponse)
    | PolicyReserved(ticket: Ticket)

  function PolicyFingerprint(remoteEnabled: bool, reason: string): string {
    NulJoined(["policy_mutation", if remoteEnabled then "true" else "false", reason])
  }

  /** The first critical section of the policy handler. */
  function BeginPolicy(s: State, key: PolicyKey, remoteEnabled: bool, reason: string): (State, PolicyBegin) {
    var fingerprint := PolicyFingerprint(remoteEnabled, reason);
    if key in s.idem.policyCache.entries then
      if s.idem.policyCache.entries[key].fingerprint != fingerprint then (s, PolicyConflict)
      else (s, PolicyReplay(s.idem.policyCache.entries[key].response))
    else if key in s.idem.policyInFlight then (s, PolicyConflict)
    else if s.config.policy.remoteEnabled == remoteEnabled then
      var response := PolicyResponse(s.statusRevision, false);
      (s.(idem := PolicyComplete(PolicyReserve(s.idem, key), key, fingerprint, response)), PolicyNoOp(response))
    else
      (s.(idem := PolicyReserve(s.idem, key)),
       PolicyReserved(Ticket(key, fingerprint, remoteEnabled, s.config.policy)))
  }

  function CancelPolicy(s: State, key: PolicyKey): State {
    s.(idem := PolicyCancel(s.idem, key))
  }

  /** The second critical section, after the policy was persisted. */
  function ApplyPolicy(s: State, t: Ticket, env: Env): State {
    if !AuditOk(s.audit, env, "") then CancelPolicy(WithPolicy(s, t.oldPolicy), t.key)
    else
      var s1 := WithPolicy(s, s.config.policy.(remoteEnabled := t.remoteEnabled)).(
                  audit := Audited(s.audit, AuditRecord(PolicyChangeOp, "cli", "", env.now)));
      var w := RevokeForPolicy(s1, t.oldPolicy.remoteEnabled, t.remoteEnabled, "cli", env);
      if w.failed then CancelPolicy(FailClosed(w.state, env.status), t.key)
      else
        var revision := w.state.statusRevision + 1;
        w.state.(statusRevision := revision,
                 idem := PolicyComplete(w.state.idem, t.key, t.fingerprint, PolicyResponse(revision, true)))
  }

  // ---------------------------------------------------------------------------
  // Setters and shutdown
  // ---------------------------------------------------------------------------

  function SetGrace(s: State, grace: int): State {
    if 0 <= grace && grace / MS <= MAX_GRACE_MS then s.(config := s.config.(grace := grace)) else s
  }

  function Shutdown(s: State): State {
    s.(table := s.table.(timers := map[]))
  }
}
