/** Invariants of the lease table: keys and ids, timers, expiry runs, deadlines. */
module KeepAwakeTable {
  import opened Decimal
  import opened KeepAwakeState

  // ---------------------------------------------------------------------------
  // Lease ids and table keys
  // ---------------------------------------------------------------------------

  lemma LeaseIdInjective(m: nat, n: nat)
    requires LeaseId(m) == LeaseId(n)
    ensures m == n
  {
    assert LeaseId(m)[3..] == Itoa(m) && LeaseId(n)[3..] == Itoa(n);
    ValueOfItoa(m);
    ValueOfItoa(n);
  }

  lemma LeaseIdHasNoNul(n: nat)
    ensures '\0' !in LeaseId(n) && LeaseId(n) != ""
  {
    forall i | 0 <= i < |LeaseId(n)|
      ensures LeaseId(n)[i] != '\0'
    {
      if i >= 3 {
        assert LeaseId(n)[i] == Itoa(n)[i - 3];
      }
    }
  }

  lemma SameTail(a: string, x: string, b: string, y: string)
    requires '\0' !in x && '\0' !in y && a + "\0" + x == b + "\0" + y
    ensures x == y
  {
    var s := a + "\0" + x;
    assert s == b + "\0" + y;
    assert s[|s| - |x| - 1] == '\0' && s[|s| - |y| - 1] == '\0';
    assert forall i :: |s| - |x| <= i < |s| ==> s[i] == x[i - (|s| - |x|)];
    assert forall i :: |s| - |y| <= i < |s| ==> s[i] == y[i - (|s| - |y|)];
    assert |x| == |y|;
    assert forall i :: 0 <= i < |x| ==> x[i] == s[|s| - |x| + i] == y[i];
  }

  /** Keys of leases with different generated ids differ, whatever the session and device
      strings contain. */
  lemma LeaseKeysDiffer(s1: string, d1: string, m: nat, s2: string, d2: string, n: nat)
    requires LeaseKey(s1, d1, LeaseId(m)) == LeaseKey(s2, d2, LeaseId(n))
    ensures m == n
  {
    LeaseIdHasNoNul(m);
    LeaseIdHasNoNul(n);
    SameTail(s1 + "\0" + d1, LeaseId(m), s2 + "\0" + d2, LeaseId(n));
    LeaseIdInjective(m, n);
  }

  // ---------------------------------------------------------------------------
  // The invariant
  // ---------------------------------------------------------------------------

  ghost predicate Generated(id: string, seqNo: nat) {
    exists n: nat :: 1 <= n <= seqNo && id == LeaseId(n)
  }

  ghost predicate KeyedLease(key: string, l: Lease, seqNo: nat) {
    key == LeaseKey(l.sessionId, l.deviceId, l.leaseId) && Generated(l.leaseId, seqNo)
  }

  ghost predicate LeaseOk(key: string, l: Lease, seqNo: nat, clock: int) {
    && KeyedLease(key, l, seqNo)
    && (l.disconnected <==> l.graceDeadline.Some?)
    && l.expiresAt <= clock + MAX_DURATION_MS * MS
  }

  ghost predicate LeasesOk(leases: map<string, Lease>, seqNo: nat, clock: int) {
    forall k :: k in leases ==> LeaseOk(k, leases[k], seqNo, clock)
  }

  ghost predicate UniqueIds(leases: map<string, Lease>) {
    forall j, k :: j in leases && k in leases && leases[j].leaseId == leases[k].leaseId ==> j == k
  }

  ghost predicate TimersOk(leases: map<string, Lease>, timers: map<string, Timer>) {
    forall k :: k in timers ==>
      k in leases && (timers[k].Armed? ==> timers[k].deadline == Deadline(leases[k]))
  }

  /** Leases are well keyed and bounded, ids are unique, timers belong to leases and are
      armed at the right moment, and a battery shutdown leaves no lease. */
  ghost predicate Sound(t: Table, clock: int) {
    && LeasesOk(t.leases, t.nextLeaseSeq, clock)
    && UniqueIds(t.leases)
    && TimersOk(t.leases, t.timers)
    && (t.thresholdDisabled ==> t.leases == map[])
  }

  /** A lease will be looked at when it falls due: by an armed timer, or by an expiry run
      that is already on its way. */
  ghost predicate Watched(t: Table, k: string, clock: int)
    requires k in t.leases
  {
    || (k in t.timers && t.timers[k] == Armed(Deadline(t.leases[k])))
    || (k in t.queued && Deadline(t.leases[k]) <= clock)
  }

  ghost predicate AllWatched(t: Table, clock: int) {
    forall k :: k in t.leases ==> Watched(t, k, clock)
  }

  lemma GeneratedMonotone(id: string, a: nat, b: nat)
    requires Generated(id, a) && a <= b
    ensures Generated(id, b)
  {
    var n: nat :| 1 <= n <= a && id == LeaseId(n);
  }

  lemma LaterClock(t: Table, clock: int, later: int)
    requires Sound(t, clock) && clock <= later
    ensures Sound(t, later)
    ensures AllWatched(t, clock) ==> AllWatched(t, later)
  {
    forall k | k in t.leases
      ensures LeaseOk(k, t.leases[k], t.nextLeaseSeq, later)
    {
      assert LeaseOk(k, t.leases[k], t.nextLeaseSeq, clock);
    }
    if AllWatched(t, clock) {
      forall k | k in t.leases
        ensures Watched(t, k, later)
      {
        assert Watched(t, k, clock);
      }
    }
  }

  lemma RemoveSound(t: Table, key: string, clock: int)
    requires Sound(t, clock)
    ensures Sound(Remove(t, key), clock)
    ensures AllWatched(t, clock) ==> AllWatched(Remove(t, key), clock)
  {
    var t' := Remove(t, key);
    forall k | k in t'.leases
      ensures LeaseOk(k, t'.leases[k], t'.nextLeaseSeq, clock)
    {
      assert LeaseOk(k, t.leases[k], t.nextLeaseSeq, clock);
    }
    if AllWatched(t, clock) {
      forall k | k in t'.leases
        ensures Watched(t', k, clock)
      {
        assert Watched(t, k, clock);
      }
    }
  }

  lemma ScheduleWatches(t: Table, key: string, l: Lease, armAt: int)
    requires key in t.leases && t.leases[key] == l
    ensures Watched(Schedule(t, key, l, armAt), key, armAt)
    ensures forall k, clock :: k in t.leases && k != key && Watched(t, k, clock) ==>
              Watched(Schedule(t, key, l, armAt), k, clock)
  {
  }

  predicate SameIdentity(l: Lease, m: Lease) {
    l.sessionId == m.sessionId && l.deviceId == m.deviceId && l.leaseId == m.leaseId
  }

  /** Rewriting a lease in place and rescheduling it keeps everything. */
  lemma PutSound(t: Table, key: string, l: Lease, clock: int)
    requires Sound(t, clock) && key in t.leases && SameIdentity(l, t.leases[key])
    requires (l.disconnected <==> l.graceDeadline.Some?) && l.expiresAt <= clock + MAX_DURATION_MS * MS
    ensures Sound(PutAndSchedule(t, key, l, clock), clock)
    ensures AllWatched(t, clock) ==> AllWatched(PutAndSchedule(t, key, l, clock), clock)
  {
    PutLeases(t, key, l, clock);
    ScheduleTimers(t, key, l, clock);
    PutWatched(t, key, l, clock);
  }

  lemma PutLeases(t: Table, key: string, l: Lease, clock: int)
    requires Sound(t, clock) && key in t.leases && SameIdentity(l, t.leases[key])
    requires (l.disconnected <==> l.graceDeadline.Some?) && l.expiresAt <= clock + MAX_DURATION_MS * MS
    ensures LeasesOk(t.leases[key := l], t.nextLeaseSeq, clock) && UniqueIds(t.leases[key := l])
  {
    var leases := t.leases[key := l];
    forall k | k in leases
      ensures LeaseOk(k, leases[k], t.nextLeaseSeq, clock)
    {
      assert LeaseOk(k, t.leases[k], t.nextLeaseSeq, clock);
    }
  }

  /** Scheduling a lease just written keeps the timers in agreement. */
  lemma ScheduleTimers(t: Table, key: string, l: Lease, armAt: int)
    requires TimersOk(t.leases, t.timers)
    ensures TimersOk(t.leases[key := l], PutAndSchedule(t, key, l, armAt).timers)
  {
  }

  lemma PutWatched(t: Table, key: string, l: Lease, clock: int)
    ensures WatchedIf(t, PutAndSchedule(t, key, l, clock), clock)
  {
    var t1 := t.(leases := t.leases[key := l]);
    var t' := Schedule(t1, key, l, clock);
    if AllWatched(t, clock) {
      ScheduleWatches(t1, key, l, clock);
      forall k | k in t'.leases
        ensures Watched(t', k, clock)
      {
        if k != key {
          assert Watched(t, k, clock);
          assert Watched(t1, k, clock);
        }
      }
    }
  }

  /** A generated id is new, so the collision branch of enable is never taken. */
  lemma NoCollision(t: Table, sessionId: string, deviceId: string, clock: int)
    requires Sound(t, clock)
    ensures LeaseKey(sessionId, deviceId, LeaseId(t.nextLeaseSeq + 1)) !in t.leases
    ensures forall k :: k in t.leases ==> t.leases[k].leaseId != LeaseId(t.nextLeaseSeq + 1)
  {
    var n := t.nextLeaseSeq + 1;
    forall k | k in t.leases
      ensures t.leases[k].leaseId != LeaseId(n) && k != LeaseKey(sessionId, deviceId, LeaseId(n))
    {
      var l := t.leases[k];
      assert LeaseOk(k, l, t.nextLeaseSeq, clock);
      var m: nat :| 1 <= m <= t.nextLeaseSeq && l.leaseId == LeaseId(m);
      if l.leaseId == LeaseId(n) {
        LeaseIdInjective(m, n);
      } else if k == LeaseKey(sessionId, deviceId, LeaseId(n)) {
        LeaseKeysDiffer(l.sessionId, l.deviceId, m, sessionId, deviceId, n);
      }
    }
  }

  ghost predicate WatchedIf(t: Table, t': Table, clock: int) {
    AllWatched(t, clock) ==> AllWatched(t', clock)
  }

  /** The table once a new lease was granted. */
  lemma AddedSound(t: Table, r: Request, env: Env)
    requires Sound(t, env.armAt) && env.now <= env.armAt && DurationOk(r.durationMs)
    ensures var t1 := t.(nextLeaseSeq := t.nextLeaseSeq + 1);
            var t' := Added(t1, r, LeaseId(t1.nextLeaseSeq), env);
            Sound(t', env.armAt) && WatchedIf(t, t', env.armAt)
  {
    var n := t.nextLeaseSeq + 1;
    var t1 := t.(nextLeaseSeq := n);
    var id := LeaseId(n);
    var key, l := LeaseKey(r.sessionId, r.deviceId, id), NewLease(r, id, env.now);
    NoCollision(t, r.sessionId, r.deviceId, env.armAt);
    var t2 := (if t1.leases == map[] then t1.(thresholdDisabled := false) else t1).(leases := t.leases[key := l]);
    assert Generated(id, n);
    GrantLeases(t, key, l, n, env.armAt);
    ScheduleTimers(t, key, l, env.armAt);
    PutWatched(t, key, l, env.armAt);
    assert key in t2.leases;
  }

  lemma GrantLeases(t: Table, key: string, l: Lease, n: nat, clock: int)
    requires Sound(t, clock) && n == t.nextLeaseSeq + 1
    requires LeaseOk(key, l, n, clock) && forall k :: k in t.leases ==> t.leases[k].leaseId != l.leaseId
    ensures LeasesOk(t.leases[key := l], n, clock) && UniqueIds(t.leases[key := l])
  {
    var leases := t.leases[key := l];
    forall k | k in leases
      ensures LeaseOk(k, leases[k], n, clock)
    {
      if k != key {
        assert LeaseOk(k, t.leases[k], t.nextLeaseSeq, clock);
        GeneratedMonotone(t.leases[k].leaseId, t.nextLeaseSeq, n);
      }
    }
  }

  // ---------------------------------------------------------------------------
  // Loops
  // ---------------------------------------------------------------------------

  lemma {:induction false} PruneSound(t: Table, order: seq<string>, now: int, clock: int)
    requires Sound(t, clock)
    ensures Sound(Prune(t, order, now), clock) && WatchedIf(t, Prune(t, order, now), clock)
  {
    if order != [] {
      PruneSound(t, order[..|order| - 1], now, clock);
      RemoveSound(Prune(t, order[..|order| - 1], now), order[|order| - 1], clock);
    }
  }

  lemma {:induction false} ConnectSound(t: Table, order: seq<string>, deviceId: string, clock: int)
    requires Sound(t, clock)
    ensures Sound(ConnectAll(t, order, deviceId, clock), clock)
    ensures WatchedIf(t, ConnectAll(t, order, deviceId, clock), clock)
  {
    if order != [] {
      var mid, key := ConnectAll(t, order[..|order| - 1], deviceId, clock), order[|order| - 1];
      ConnectSound(t, order[..|order| - 1], deviceId, clock);
      if key in mid.leases {
        assert LeaseOk(key, mid.leases[key], mid.nextLeaseSeq, clock);
        PutSound(mid, key, Reconnect(mid.leases[key]), clock);
      }
    }
  }

  lemma {:induction false} DisconnectSound(t: Table, order: seq<string>, deviceId: string, grace: int, now: int, clock: int)
    requires Sound(t, clock)
    ensures Sound(DisconnectAll(t, order, deviceId, grace, now, clock), clock)
    ensures WatchedIf(t, DisconnectAll(t, order, deviceId, grace, now, clock), clock)
  {
    if order != [] {
      var mid, key := DisconnectAll(t, order[..|order| - 1], deviceId, grace, now, clock), order[|order| - 1];
      DisconnectSound(t, order[..|order| - 1], deviceId, grace, now, clock);
      if key in mid.leases {
        assert LeaseOk(key, mid.leases[key], mid.nextLeaseSeq, clock);
        PutSound(mid, key, Disconnect(mid.leases[key], now, grace), clock);
      }
    }
  }

  lemma {:induction false} RevokeSound(w: Sweep, order: seq<string>, deviceId: string, env: Env, clock: int)
    requires Sound(w.table, clock)
    ensures Sound(RevokeAll(w, order, deviceId, env).table, clock)
    ensures WatchedIf(w.table, RevokeAll(w, order, deviceId, env).table, clock)
  {
    if order != [] {
      RevokeSound(w, order[..|order| - 1], deviceId, env, clock);
      RemoveSound(RevokeAll(w, order[..|order| - 1], deviceId, env).table, order[|order| - 1], clock);
    }
  }

  lemma {:induction false} SweepSound(w: Sweep, order: seq<string>, actor: string, env: Env, clock: int)
    requires Sound(w.table, clock)
    ensures Sound(SweepAll(w, order, actor, env).table, clock)
    ensures WatchedIf(w.table, SweepAll(w, order, actor, env).table, clock)
  {
    if order != [] {
      SweepSound(w, order[..|order| - 1], actor, env, clock);
      RemoveSound(SweepAll(w, order[..|order| - 1], actor, env).table, order[|order| - 1], clock);
    }
  }

  lemma {:induction false} RemoveEachSound(t: Table, order: seq<string>, clock: int)
    requires Sound(t, clock)
    ensures Sound(RemoveEach(t, order), clock) && WatchedIf(t, RemoveEach(t, order), clock)
  {
    if order != [] {
      RemoveEachSound(t, order[..|order| - 1], clock);
      RemoveSound(RemoveEach(t, order[..|order| - 1]), order[|order| - 1], clock);
    }
  }

  // ---------------------------------------------------------------------------
  // What the loops do to each lease
  // ---------------------------------------------------------------------------

  /** The order of a loop visits exactly the keys of the table. */
  ghost predicate Visits(order: seq<string>, leases: map<string, Lease>) {
    forall k :: k in leases <==> k in order
  }

  lemma {:induction false} PruneExact(t: Table, order: seq<string>, now: int)
    ensures forall k :: k in Prune(t, order, now).leases <==> k in t.leases && !(k in order && Expired(t.leases[k], now))
    ensures forall k :: k in Prune(t, order, now).leases ==> Prune(t, order, now).leases[k] == t.leases[k]
  {
    if order != [] {
      PruneExact(t, order[..|order| - 1], now);
      assert order == order[..|order| - 1] + [order[|order| - 1]];
    }
  }

  /** The lease's time is over, or the grace of its disconnected device is. */
  predicate Over(l: Lease, now: int) {
    now >= l.expiresAt || (l.disconnected && l.graceDeadline.Some? && now >= l.graceDeadline.value)
  }

  /** A lease is expired, and its deadline has passed, exactly when it is over. */
  lemma DueIsOver(l: Lease, now: int)
    requires l.disconnected <==> l.graceDeadline.Some?
    ensures Expired(l, now) <==> Over(l, now)
    ensures Deadline(l) <= now <==> Over(l, now)
  {
  }

  /** A full prune takes exactly the leases that are over, and leaves the others as they are. */
  lemma PruneLeavesNoneDue(t: Table, order: seq<string>, now: int, clock: int)
    requires Sound(t, clock) && Visits(order, t.leases)
    ensures var pruned := Prune(t, order, now).leases;
            && (forall k :: k in pruned <==> k in t.leases && !Over(t.leases[k], now))
            && (forall k :: k in pruned ==> pruned[k] == t.leases[k])
  {
    PruneExact(t, order, now);
    forall k | k in t.leases
      ensures Expired(t.leases[k], now) <==> Over(t.leases[k], now)
    {
      assert LeaseOk(k, t.leases[k], t.nextLeaseSeq, clock);
      DueIsOver(t.leases[k], now);
    }
  }

  lemma {:induction false} RemoveEachExact(t: Table, order: seq<string>)
    ensures forall k :: k in RemoveEach(t, order).leases <==> k in t.leases && k !in order
  {
    if order != [] {
      RemoveEachExact(t, order[..|order| - 1]);
      assert order == order[..|order| - 1] + [order[|order| - 1]];
    }
  }

  lemma RemoveEachAll(t: Table, order: seq<string>)
    requires Visits(order, t.leases)
    ensures RemoveEach(t, order).leases == map[]
  {
    RemoveEachExact(t, order);
    assert RemoveEach(t, order).leases.Keys == {};
  }

  lemma {:induction false} SweepExact(w: Sweep, order: seq<string>, actor: string, env: Env)
    requires !SweepAll(w, order, actor, env).failed
    ensures !w.failed
    ensures forall k :: k in SweepAll(w, order, actor, env).table.leases <==> k in w.table.leases && k !in order
  {
    if order != [] {
      SweepExact(w, order[..|order| - 1], actor, env);
      assert order == order[..|order| - 1] + [order[|order| - 1]];
    }
  }

  lemma SweepClears(w: Sweep, order: seq<string>, actor: string, env: Env)
    requires !SweepAll(w, order, actor, env).failed && Visits(order, w.table.leases)
    ensures SweepAll(w, order, actor, env).table.leases == map[]
  {
    SweepExact(w, order, actor, env);
    assert SweepAll(w, order, actor, env).table.leases.Keys == {};
  }
}
