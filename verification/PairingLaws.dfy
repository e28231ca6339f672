/** The pairing rate limit over whole runs with a clock that does not go back. */
module PairingLaws {
  import opened Text
  import opened Pairing

  /** An admitted attempt: when, the guess, under which generated code (0 before the first
      one), whether the device could be stored, and what came of it. */
  datatype Attempt = Attempt(at: int, guess: string, generation: nat, stored: bool, outcome: Outcome)

  datatype Born = Born(code: string, at: int)

  /** The manager, each generated code and when, the admitted attempts, the latest clock. */
  datatype World = World(s: State, born: seq<Born>, log: seq<Attempt>, clock: int)

  function Start(clock: int): World {
    World(State(map[], None), [], [], clock)
  }

  datatype Event =
    | Generated(code: string, now: int)
    | Validated(code: string, now: int, order: seq<int>, stored: bool)

  /** The loop over the attempts visits each key of the pruned map once. */
  ghost predicate Visits(order: seq<int>, attempts: map<int, nat>) {
    (forall ts :: ts in attempts <==> ts in order) && forall i, j :: 0 <= i < j < |order| ==> order[i] != order[j]
  }

  ghost predicate Legal(w: World, e: Event) {
    w.clock <= e.now &&
    (e.Validated? ==> Visits(e.order, Pruned(w.s.attempts, Bucket(e.now - 60 * SECOND))))
  }

  function Next(w: World, c: Config, e: Event): World {
    match e
    case Generated(code, now) => World(Generate(w.s, c, code, now), w.born + [Born(code, now)], w.log, now)
    case Validated(code, now, order, stored) =>
      var (s', outcome) := Validate(w.s, c, code, now, order, stored);
      var attempt := Attempt(now, code, |w.born|, stored, outcome);
      World(s', w.born, if outcome == RateLimited then w.log else w.log + [attempt], now)
  }

  ghost predicate LegalRun(w: World, c: Config, es: seq<Event>)
    decreases |es|
  {
    es == [] || (Legal(w, es[0]) && LegalRun(Next(w, c, es[0]), c, es[1..]))
  }

  function Run(w: World, c: Config, es: seq<Event>): World
    decreases |es|
  {
    if es == [] then w else Run(Next(w, c, es[0]), c, es[1..])
  }

  // ---------------------------------------------------------------------------
  // Counting the log
  // ---------------------------------------------------------------------------

  /** Admitted attempts in the buckets lo to hi. */
  function InRange(log: seq<Attempt>, lo: int, hi: int): nat {
    if log == [] then 0
    else InRange(log[..|log| - 1], lo, hi) + if lo <= Bucket(log[|log| - 1].at) <= hi then 1 else 0
  }

  /** Admitted attempts in the 61 buckets from lo. */
  function Window(log: seq<Attempt>, lo: int): nat {
    InRange(log, lo, lo + 60)
  }

  lemma InRangeSnoc(log: seq<Attempt>, a: Attempt, lo: int, hi: int)
    ensures InRange(log + [a], lo, hi) == InRange(log, lo, hi) + if lo <= Bucket(a.at) <= hi then 1 else 0
  {
    assert (log + [a])[..|log|] == log;
  }

  lemma {:induction false} InRangeSplit(log: seq<Attempt>, lo: int, mid: int, hi: int)
    requires lo <= mid + 1 && mid <= hi
    ensures InRange(log, lo, hi) == InRange(log, lo, mid) + InRange(log, mid + 1, hi)
  {
    if log != [] {
      InRangeSplit(log[..|log| - 1], lo, mid, hi);
    }
  }

  lemma {:induction false} InRangeWider(log: seq<Attempt>, lo: int, hi: int, lo2: int, hi2: int)
    requires lo2 <= lo && hi <= hi2
    ensures InRange(log, lo, hi) <= InRange(log, lo2, hi2)
  {
    if log != [] {
      InRangeWider(log[..|log| - 1], lo, hi, lo2, hi2);
    }
  }

  /** Attempts in the listed buckets. */
  function InList(log: seq<Attempt>, keys: seq<int>): nat {
    if log == [] then 0
    else InList(log[..|log| - 1], keys) + if Bucket(log[|log| - 1].at) in keys then 1 else 0
  }

  lemma {:induction false} InListSnoc(log: seq<Attempt>, keys: seq<int>, k: int)
    requires k !in keys
    ensures InList(log, keys + [k]) == InList(log, keys) + InRange(log, k, k)
  {
    if log != [] {
      InListSnoc(log[..|log| - 1], keys, k);
    }
  }

  lemma {:induction false} InListIsRange(log: seq<Attempt>, keys: seq<int>, lo: int, hi: int)
    requires forall i :: 0 <= i < |log| ==> (Bucket(log[i].at) in keys <==> lo <= Bucket(log[i].at) <= hi)
    ensures InList(log, keys) == InRange(log, lo, hi)
  {
    if log != [] {
      InListIsRange(log[..|log| - 1], keys, lo, hi);
    }
  }

  lemma {:induction false} InNoList(log: seq<Attempt>)
    ensures InList(log, []) == 0
  {
    if log != [] {
      InNoList(log[..|log| - 1]);
    }
  }

  /** Summing the histogram counts the attempts in its buckets. */
  lemma {:induction false} TotalIsInList(attempts: map<int, nat>, order: seq<int>, log: seq<Attempt>)
    requires forall i, j :: 0 <= i < j < |order| ==> order[i] != order[j]
    requires forall k :: k in order ==> k in attempts && attempts[k] == InRange(log, k, k)
    ensures Total(attempts, order) == InList(log, order)
  {
    if order == [] {
      InNoList(log);
    } else {
      var front, last := order[..|order| - 1], order[|order| - 1];
      assert order == front + [last];
      assert last in order;
      TotalIsInList(attempts, front, log);
      InListSnoc(log, front, last);
    }
  }

  // ---------------------------------------------------------------------------
  // The invariant
  // ---------------------------------------------------------------------------

  ghost predicate Ordered(w: World) {
    && (forall i :: 0 <= i < |w.log| ==> w.log[i].at <= w.clock)
  }

  /** The map is the histogram of the admitted attempts, from some bucket at least 60 old. */
  ghost predicate Histogram(w: World) {
    && (forall k :: k in w.s.attempts ==> w.s.attempts[k] == InRange(w.log, k, k) && k <= Bucket(w.clock))
    && (forall i :: 0 <= i < |w.log| && Bucket(w.log[i].at) >= Bucket(w.clock) - 60 ==> Bucket(w.log[i].at) in w.s.attempts)
  }

  ghost predicate WindowsOk(w: World, c: Config) {
    forall lo: int :: Window(w.log, lo) <= if c.maxAttemptsPerMinute >= 0 then c.maxAttemptsPerMinute else 0
  }

  /** The guess was held against a code: it was wrong, or it used the code up. */
  predicate Compared(a: Attempt) {
    a.generation > 0 && a.outcome in {CodeInvalid, StorageFailed, Paired}
  }

  /** The attempt came in the life of its code, with that code as the guess. */
  predicate Hits(born: seq<Born>, c: Config, a: Attempt) {
    && 1 <= a.generation <= |born| && a.guess == born[a.generation - 1].code
    && a.at <= born[a.generation - 1].at + c.codeExpiry
  }

  /** An earlier attempt has used the code of attempt i up. */
  predicate Spent(w: World, c: Config, i: nat)
    requires i < |w.log|
  {
    exists j :: 0 <= j < i && w.log[j].generation == w.log[i].generation && Hits(w.born, c, w.log[j])
  }

  /** What must come of attempt i, told by the codes, the guesses and the times alone. */
  function Verdict(w: World, c: Config, i: nat): Outcome
    requires i < |w.log| && w.log[i].generation <= |w.born|
  {
    var a := w.log[i];
    if a.generation == 0 then CodeInvalid
    else if Spent(w, c, i) then CodeUsed
    else if a.at > w.born[a.generation - 1].at + c.codeExpiry then CodeExpired
    else if a.guess != w.born[a.generation - 1].code then CodeInvalid
    else if a.stored then Paired else StorageFailed
  }

  ghost predicate Judged(w: World, c: Config) {
    forall i :: 0 <= i < |w.log| ==> w.log[i].generation <= |w.born| && w.log[i].outcome == Verdict(w, c, i)
  }

  /** The active code is the one generated last, marked used once some attempt hit it. */
  ghost predicate Latest(w: World, c: Config) {
    && (w.s.active.None? <==> w.born == [])
    && (w.born != [] ==>
          var last := w.born[|w.born| - 1];
          && w.s.active.value.code == last.code && w.s.active.value.expiresAt == last.at + c.codeExpiry
          && (w.s.active.value.used <==>
                exists i :: 0 <= i < |w.log| && w.log[i].generation == |w.born| && Hits(w.born, c, w.log[i])))
  }

  ghost predicate Dated(w: World) {
    && (forall i :: 0 <= i < |w.born| ==> w.born[i].at <= w.clock)
    && (forall i :: 0 <= i < |w.log| ==> w.log[i].generation <= |w.born|)
    && (forall i :: 0 <= i < |w.log| && w.log[i].generation > 0 ==> w.born[w.log[i].generation - 1].at <= w.log[i].at)
  }

  ghost predicate Inv(w: World, c: Config) {
    Ordered(w) && Histogram(w) && WindowsOk(w, c) && Judged(w, c) && Latest(w, c) && Dated(w)
  }

  lemma BucketShift(now: int)
    ensures Bucket(now - 60 * SECOND) == Bucket(now) - 60
  {
  }

  lemma BucketMonotone(a: int, b: int)
    requires a <= b
    ensures Bucket(a) <= Bucket(b)
  {
  }

  /** The pruned histogram sums to the attempts of the last 61 buckets. */
  lemma LimitCounts(w: World, c: Config, now: int, order: seq<int>)
    requires Ordered(w) && Histogram(w) && w.clock <= now
    requires Visits(order, Pruned(w.s.attempts, Bucket(now - 60 * SECOND)))
    ensures Total(Pruned(w.s.attempts, Bucket(now - 60 * SECOND)), order) == InRange(w.log, Bucket(now) - 60, Bucket(now))
  {
    BucketShift(now);
    BucketMonotone(w.clock, now);
    var pruned := Pruned(w.s.attempts, Bucket(now - 60 * SECOND));
    TotalIsInList(pruned, order, w.log);
    forall i | 0 <= i < |w.log|
      ensures Bucket(w.log[i].at) in order <==> Bucket(now) - 60 <= Bucket(w.log[i].at) <= Bucket(now)
    {
      BucketMonotone(w.log[i].at, w.clock);
    }
    InListIsRange(w.log, order, Bucket(now) - 60, Bucket(now));
  }

  lemma StepHistogram(w: World, c: Config, e: Event)
    requires Ordered(w) && Histogram(w) && Legal(w, e)
    ensures Ordered(Next(w, c, e)) && Histogram(Next(w, c, e))
  {
    var w' := Next(w, c, e);
    BucketShift(e.now);
    BucketMonotone(w.clock, e.now);
    if |w'.log| > |w.log| {
      var a := w'.log[|w.log|];
      assert w'.log == w.log + [a];
      AdmittedHistogram(w, w', a);
    }
  }

  lemma AdmittedHistogram(w: World, w': World, a: Attempt)
    requires Ordered(w) && Histogram(w) && w'.log == w.log + [a] && a.at == w'.clock && w.clock <= w'.clock
    requires w'.s.attempts == Recorded(Pruned(w.s.attempts, Bucket(w'.clock) - 60), Bucket(w'.clock))
    ensures Histogram(w')
  {
    var key := Bucket(a.at);
    BucketMonotone(w.clock, w'.clock);
    forall k
      ensures InRange(w'.log, k, k) == InRange(w.log, k, k) + if k == key then 1 else 0
    {
      InRangeSnoc(w.log, a, k, k);
    }
    if key !in w.s.attempts {
      NotSeen(w, key);
    }
    forall i | 0 <= i < |w'.log| && Bucket(w'.log[i].at) >= key - 60
      ensures Bucket(w'.log[i].at) in w'.s.attempts
    {
      if i < |w.log| {
        assert w'.log[i] == w.log[i];
      }
    }
  }

  /** A recent bucket without an entry has no admitted attempt. */
  lemma NotSeen(w: World, key: int)
    requires Histogram(w) && key !in w.s.attempts && key >= Bucket(w.clock) - 60
    ensures InRange(w.log, key, key) == 0
  {
    NoneInRange(w.log, key);
  }

  lemma {:induction false} NoneInRange(log: seq<Attempt>, key: int)
    requires forall i :: 0 <= i < |log| ==> Bucket(log[i].at) != key
    ensures InRange(log, key, key) == 0
  {
    if log != [] {
      NoneInRange(log[..|log| - 1], key);
    }
  }

  /** One more attempt fits into any window, when the last 61 buckets had room. */
  lemma OneMoreInWindow(w: World, a: Attempt, lo: int, most: int)
    requires Ordered(w) && w.clock <= a.at && Window(w.log, lo) <= most
    requires InRange(w.log, Bucket(a.at) - 60, Bucket(a.at)) < most
    ensures Window(w.log + [a], lo) <= most
  {
    hide InRange, Bucket, Ordered;
    InRangeSnoc(w.log, a, lo, lo + 60);
    if lo <= Bucket(a.at) <= lo + 60 {
      BucketMonotone(w.clock, a.at);
      UpToNow(w, lo, lo + 60, Bucket(a.at));
      InRangeWider(w.log, lo, Bucket(a.at), Bucket(a.at) - 60, Bucket(a.at));
    }
  }

  lemma StepWindows(w: World, c: Config, e: Event)
    requires Ordered(w) && Histogram(w) && WindowsOk(w, c) && Legal(w, e)
    ensures WindowsOk(Next(w, c, e), c)
  {
    var w' := Next(w, c, e);
    if |w'.log| > |w.log| {
      var a := w'.log[|w.log|];
      assert w'.log == w.log + [a];
      LimitCounts(w, c, e.now, e.order);
      assert InRange(w.log, Bucket(e.now) - 60, Bucket(e.now)) < c.maxAttemptsPerMinute;
      hide Next, Histogram, InRange, Bucket;
      forall lo: int
        ensures Window(w'.log, lo) <= c.maxAttemptsPerMinute
      {
        assert Window(w.log, lo) <= c.maxAttemptsPerMinute;
        OneMoreInWindow(w, a, lo, c.maxAttemptsPerMinute);
      }
    }
  }

  /** No attempt lies beyond the current bucket. */
  lemma UpToNow(w: World, lo: int, hi: int, now: int)
    requires Ordered(w) && Bucket(w.clock) <= now <= hi
    ensures InRange(w.log, lo, hi) == InRange(w.log, lo, now)
  {
    forall i | 0 <= i < |w.log|
      ensures Bucket(w.log[i].at) <= now
    {
      BucketMonotone(w.log[i].at, w.clock);
    }
    Beyond(w.log, lo, hi, now);
  }

  lemma {:induction false} Beyond(log: seq<Attempt>, lo: int, hi: int, now: int)
    requires now <= hi && forall i :: 0 <= i < |log| ==> Bucket(log[i].at) <= now
    ensures InRange(log, lo, hi) == InRange(log, lo, now)
  {
    if log != [] {
      Beyond(log[..|log| - 1], lo, hi, now);
    }
  }

  lemma StepDated(w: World, c: Config, e: Event)
    requires Dated(w) && Legal(w, e)
    ensures Dated(Next(w, c, e))
  {
    hide Limited, Recorded, Pruned, Judge;
  }

  /** A new code leaves the verdicts on the attempts before it. */
  lemma GeneratedJudged(w: World, c: Config, code: string, now: int)
    requires Judged(w, c)
    ensures Judged(Next(w, c, Generated(code, now)), c)
  {
    var w' := Next(w, c, Generated(code, now));
    forall i | 0 <= i < |w'.log|
      ensures w'.log[i].generation <= |w'.born| && w'.log[i].outcome == Verdict(w', c, i)
    {
      assert w.log[i].generation <= |w.born| && w.log[i].outcome == Verdict(w, c, i);
      forall j | 0 <= j <= i
        ensures Hits(w'.born, c, w'.log[j]) <==> Hits(w.born, c, w.log[j])
      {
        assert w.log[j].generation <= |w.born|;
      }
    }
  }

  lemma GeneratedLatest(w: World, c: Config, code: string, now: int)
    requires Judged(w, c)
    ensures Latest(Next(w, c, Generated(code, now)), c)
  {
    var w' := Next(w, c, Generated(code, now));
    assert forall i :: 0 <= i < |w'.log| ==> w'.log[i].generation < |w'.born|;
  }

  /** One more attempt leaves the verdicts on those before it. */
  lemma LoggedJudged(w: World, w': World, c: Config, a: Attempt)
    requires Judged(w, c) && w'.log == w.log + [a] && w'.born == w.born
    requires a.generation <= |w.born| && a.outcome == Verdict(w', c, |w.log|)
    ensures Judged(w', c)
  {
    forall i | 0 <= i < |w'.log|
      ensures w'.log[i].generation <= |w'.born| && w'.log[i].outcome == Verdict(w', c, i)
    {
      if i < |w.log| {
        assert w.log[i].outcome == Verdict(w, c, i);
        assert forall j :: 0 <= j <= i ==> w'.log[j] == w.log[j];
        assert Spent(w', c, i) <==> Spent(w, c, i);
      }
    }
  }

  /** The manager judges as the log does. */
  lemma JudgedAlike(w: World, c: Config, a: Attempt)
    requires Latest(w, c) && a.generation == |w.born| && a.outcome == Judge(w.s, a.guess, a.at, a.stored)
    ensures var w' := w.(log := w.log + [a]); a.outcome == Verdict(w', c, |w.log|)
    ensures a.outcome in {Paired, StorageFailed} <==> w.s.active.Some? && !w.s.active.value.used && Hits(w.born, c, a)
  {
    var w' := w.(log := w.log + [a]);
    if w.born != [] {
      if w.s.active.value.used {
        var i :| 0 <= i < |w.log| && w.log[i].generation == |w.born| && Hits(w.born, c, w.log[i]);
        assert w'.log[i] == w.log[i];
        assert Spent(w', c, |w.log|);
      } else {
        assert forall i :: 0 <= i < |w.log| ==> w'.log[i] == w.log[i];
        assert !Spent(w', c, |w.log|);
      }
    }
  }

  lemma ValidatedJudged(w: World, c: Config, e: Event)
    requires Judged(w, c) && Latest(w, c) && e.Validated?
    ensures Judged(Next(w, c, e), c) && Latest(Next(w, c, e), c)
  {
    hide Limited, Recorded, Pruned, Hits;
    var w' := Next(w, c, e);
    if |w'.log| > |w.log| {
      var a := w'.log[|w.log|];
      assert w'.log == w.log + [a];
      JudgedAlike(w, c, a);
      VerdictOfLog(w.(log := w.log + [a]), w', c, |w.log|);
      LoggedJudged(w, w', c, a);
      UsedNow(w, w', c, a);
    }
  }

  lemma VerdictOfLog(w: World, w': World, c: Config, i: nat)
    requires w.log == w'.log && w.born == w'.born && i < |w.log| && w.log[i].generation <= |w.born|
    ensures Verdict(w, c, i) == Verdict(w', c, i)
  {
    assert Spent(w, c, i) <==> Spent(w', c, i);
  }

  lemma UsedNow(w: World, w': World, c: Config, a: Attempt)
    requires Latest(w, c) && w'.log == w.log + [a] && w'.born == w.born && a.generation == |w.born|
    requires a.outcome in {Paired, StorageFailed} <==> w.s.active.Some? && !w.s.active.value.used && Hits(w.born, c, a)
    requires w'.s.active == if a.outcome == Paired || a.outcome == StorageFailed then Some(w.s.active.value.(used := true)) else w.s.active
    ensures Latest(w', c)
  {
    if w.born != [] {
      if i :| 0 <= i < |w.log| && w.log[i].generation == |w.born| && Hits(w.born, c, w.log[i]) {
        assert w'.log[i] == w.log[i];
      }
      if i :| 0 <= i < |w'.log| && w'.log[i].generation == |w'.born| && Hits(w'.born, c, w'.log[i]) {
        assert i < |w.log| ==> w.log[i] == w'.log[i];
      }
      assert w'.log[|w.log|] == a;
    }
  }

  lemma StepJudged(w: World, c: Config, e: Event)
    requires Judged(w, c) && Latest(w, c)
    ensures Judged(Next(w, c, e), c) && Latest(Next(w, c, e), c)
  {
    hide Next, Judged, Latest;
    match e {
      case Generated(code, now) =>
        GeneratedJudged(w, c, code, now);
        GeneratedLatest(w, c, code, now);
      case Validated(_, _, _, _) => ValidatedJudged(w, c, e);
    }
  }

  lemma {:induction false} AlwaysInv(w: World, c: Config, es: seq<Event>)
    requires Inv(w, c) && LegalRun(w, c, es)
    ensures Inv(Run(w, c, es), c)
    decreases |es|
  {
    if es != [] {
      hide Ordered, Histogram, WindowsOk, Judged, Latest, Dated, Next, Legal;
      StepHistogram(w, c, es[0]);
      StepWindows(w, c, es[0]);
      StepJudged(w, c, es[0]);
      StepDated(w, c, es[0]);
      AlwaysInv(Next(w, c, es[0]), c, es[1..]);
    }
  }

  lemma StartInv(clock: int, c: Config)
    ensures Inv(Start(clock), c)
  {
  }

  // ---------------------------------------------------------------------------
  // Main results
  // ---------------------------------------------------------------------------

  /** In any 61 consecutive second buckets of any run, at most the configured number of
      attempts are admitted. */
  lemma SlidingWindow(clock: int, c: Config, es: seq<Event>, lo: int)
    requires c.maxAttemptsPerMinute >= 0 && LegalRun(Start(clock), c, es)
    ensures Window(Run(Start(clock), c, es).log, lo) <= c.maxAttemptsPerMinute
  {
    StartInv(clock, c);
    AlwaysInv(Start(clock), c, es);
  }

  /** Admitted attempts between two times, both included. */
  function Between(log: seq<Attempt>, from: int, to: int): nat {
    if log == [] then 0
    else Between(log[..|log| - 1], from, to) + if from <= log[|log| - 1].at <= to then 1 else 0
  }

  lemma {:induction false} BetweenInRange(log: seq<Attempt>, from: int, to: int)
    requires to <= from + 60_000_000_000
    ensures Between(log, from, to) <= Window(log, Bucket(from))
  {
    if log != [] {
      BetweenInRange(log[..|log| - 1], from, to);
      if from <= log[|log| - 1].at <= to {
        BucketSpan(from, log[|log| - 1].at, 60 * SECOND, 60);
      }
    }
  }

  /** So no minute admits more than the configured maximum, wherever it starts. */
  lemma AnyMinute(clock: int, c: Config, es: seq<Event>, from: int)
    requires c.maxAttemptsPerMinute >= 0 && LegalRun(Start(clock), c, es)
    ensures Between(Run(Start(clock), c, es).log, from, from + 60_000_000_000) <= c.maxAttemptsPerMinute
  {
    SlidingWindow(clock, c, es, Bucket(from));
    BetweenInRange(Run(Start(clock), c, es).log, from, from + 60_000_000_000);
  }

  function Comparisons(log: seq<Attempt>, generation: nat): nat {
    if log == [] then 0
    else
      var last := log[|log| - 1];
      Comparisons(log[..|log| - 1], generation) + if Compared(last) && last.generation == generation then 1 else 0
  }

  lemma {:induction false} ComparisonsInRange(log: seq<Attempt>, generation: nat, lo: int, hi: int)
    requires forall i :: 0 <= i < |log| && Compared(log[i]) && log[i].generation == generation ==> lo <= Bucket(log[i].at) <= hi
    ensures Comparisons(log, generation) <= InRange(log, lo, hi)
  {
    if log != [] {
      ComparisonsInRange(log[..|log| - 1], generation, lo, hi);
    }
  }

  lemma BucketSpan(born: int, at: int, expiry: int, n: nat)
    requires born <= at <= born + expiry && expiry <= n * SECOND
    ensures Bucket(born) <= Bucket(at) <= Bucket(born) + n
  {
  }

  /** Any 61 * k consecutive buckets admit at most k times the maximum. */
  lemma {:induction false} ManyWindows(w: World, c: Config, lo: int, k: nat)
    requires WindowsOk(w, c) && c.maxAttemptsPerMinute >= 0
    ensures InRange(w.log, lo, lo + 61 * k - 1) <= k * c.maxAttemptsPerMinute
  {
    if k == 0 {
      EmptyRange(w.log, lo);
    } else {
      var mid := lo + 61 * (k - 1);
      ManyWindows(w, c, lo, k - 1);
      InRangeSplit(w.log, lo, mid - 1, mid + 60);
      assert Window(w.log, mid) <= c.maxAttemptsPerMinute;
      assert k * c.maxAttemptsPerMinute == (k - 1) * c.maxAttemptsPerMinute + c.maxAttemptsPerMinute;
    }
  }

  lemma {:induction false} EmptyRange(log: seq<Attempt>, lo: int)
    ensures InRange(log, lo, lo - 1) == 0
  {
    if log != [] {
      EmptyRange(log[..|log| - 1], lo);
    }
  }

  lemma ComparedInLife(w: World, c: Config, i: nat)
    requires Judged(w, c) && Dated(w) && i < |w.log| && Compared(w.log[i])
    ensures 1 <= w.log[i].generation <= |w.born|
    ensures var born := w.born[w.log[i].generation - 1].at; born <= w.log[i].at <= born + c.codeExpiry
  {
    assert w.log[i].outcome == Verdict(w, c, i);
  }

  /** A generated code that lives less than 61 * k seconds is compared with at most k times
      the configured number of guesses: twice for the default life of two minutes. */
  lemma GuessesPerCode(clock: int, c: Config, es: seq<Event>, generation: nat, k: nat)
    requires c.maxAttemptsPerMinute >= 0 && k > 0 && c.codeExpiry <= (61 * k - 1) * SECOND
    requires LegalRun(Start(clock), c, es)
    ensures Comparisons(Run(Start(clock), c, es).log, generation) <= k * c.maxAttemptsPerMinute
  {
    hide InRange, Bucket, Run, LegalRun, Judged, Dated, Latest, Histogram, Ordered, WindowsOk;
    StartInv(clock, c);
    AlwaysInv(Start(clock), c, es);
    var w := Run(Start(clock), c, es);
    var born := if 1 <= generation <= |w.born| then w.born[generation - 1].at else 0;
    var lo := Bucket(born);
    forall i | 0 <= i < |w.log| && Compared(w.log[i]) && w.log[i].generation == generation
      ensures lo <= Bucket(w.log[i].at) <= lo + (61 * k - 1)
    {
      ComparedInLife(w, c, i);
      BucketSpan(born, w.log[i].at, c.codeExpiry, 61 * k - 1);
    }
    ComparisonsInRange(w.log, generation, lo, lo + 61 * k - 1);
    ManyWindows(w, c, lo, k);
  }

  /** With the defaults (two minutes, five attempts): at most ten guesses per code. */
  lemma TenGuesses(clock: int, es: seq<Event>, generation: nat)
    requires LegalRun(Start(clock), WithDefaults(Config(0, 0)), es)
    ensures Comparisons(Run(Start(clock), WithDefaults(Config(0, 0)), es).log, generation) <= 10
  {
    DefaultValues();
    GuessesPerCode(clock, WithDefaults(Config(0, 0)), es, generation, 2);
  }

  lemma DefaultValues()
    ensures WithDefaults(Config(0, 0)) == Config(120_000_000_000, 5)
    ensures forall c: Config :: c.codeExpiry != 0 && c.maxAttemptsPerMinute != 0 ==> WithDefaults(c) == c
  {
  }

  /** Main result, over every run: what comes of an admitted attempt is told by the generated
      codes, the guesses and the times.  It pairs a device if and only if it guesses the code
      generated last, not past its life, before any other attempt did, and the device can be
      stored; a wrong guess leaves the code as usable as it was. */
  lemma PairedExactly(clock: int, c: Config, es: seq<Event>, i: nat)
    requires LegalRun(Start(clock), c, es) && i < |Run(Start(clock), c, es).log|
    ensures var w := Run(Start(clock), c, es);
            var a := w.log[i];
            && a.generation <= |w.born| && a.outcome == Verdict(w, c, i)
            && (a.outcome == Paired <==>
                  && a.generation > 0 && a.guess == w.born[a.generation - 1].code
                  && a.at <= w.born[a.generation - 1].at + c.codeExpiry && a.stored
                  && forall j :: 0 <= j < i && w.log[j].generation == a.generation ==> !Hits(w.born, c, w.log[j]))
  {
    StartInv(clock, c);
    AlwaysInv(Start(clock), c, es);
  }

  /** Attempts from the second sixty seconds before now on, now in nanoseconds. */
  function Recent(log: seq<Attempt>, now: int): nat {
    if log == [] then 0
    else
      Recent(log[..|log| - 1], now) +
      if log[|log| - 1].at / 1_000_000_000 >= now / 1_000_000_000 - 60 then 1 else 0
  }

  lemma {:induction false} RecentIsRange(log: seq<Attempt>, now: int)
    requires forall i :: 0 <= i < |log| ==> log[i].at <= now
    ensures Recent(log, now) == InRange(log, Bucket(now) - 60, Bucket(now))
  {
    if log != [] {
      RecentIsRange(log[..|log| - 1], now);
      BucketMonotone(log[|log| - 1].at, now);
    }
  }

  /** An attempt is turned away if and only if the maximum was admitted since the second
      sixty seconds ago; an admitted one is logged under the code generated last. */
  lemma LimitedExactly(clock: int, c: Config, es: seq<Event>, e: Event)
    requires LegalRun(Start(clock), c, es) && Legal(Run(Start(clock), c, es), e) && e.Validated?
    ensures var w := Run(Start(clock), c, es);
            var outcome := Validate(w.s, c, e.code, e.now, e.order, e.stored).1;
            var full := Recent(w.log, e.now) >= c.maxAttemptsPerMinute;
            && (outcome == RateLimited <==> full)
            && Next(w, c, e).log == w.log + if full then [] else [Attempt(e.now, e.code, |w.born|, e.stored, outcome)]
  {
    hide InRange, Bucket, Run, LegalRun;
    StartInv(clock, c);
    AlwaysInv(Start(clock), c, es);
    OneLimited(Run(Start(clock), c, es), c, e);
    RecentIsRange(Run(Start(clock), c, es).log, e.now);
  }

  lemma OneLimited(w: World, c: Config, e: Event)
    requires Ordered(w) && Histogram(w) && Legal(w, e) && e.Validated?
    ensures var outcome := Validate(w.s, c, e.code, e.now, e.order, e.stored).1;
            var full := InRange(w.log, Bucket(e.now) - 60, Bucket(e.now)) >= c.maxAttemptsPerMinute;
            && (outcome == RateLimited <==> full)
            && Next(w, c, e).log == w.log + if full then [] else [Attempt(e.now, e.code, |w.born|, e.stored, outcome)]
  {
    LimitCounts(w, c, e.now, e.order);
    hide Recorded, Pruned, InRange, Ordered, Histogram;
    assert w.log + [] == w.log;
  }

  /** A generated code pairs at most one device. */
  lemma OneSuccessPerCode(clock: int, c: Config, es: seq<Event>, i: nat, j: nat)
    requires LegalRun(Start(clock), c, es)
    requires i < |Run(Start(clock), c, es).log| && j < |Run(Start(clock), c, es).log|
    requires Run(Start(clock), c, es).log[i].outcome == Paired && Run(Start(clock), c, es).log[j].outcome == Paired
    requires Run(Start(clock), c, es).log[i].generation == Run(Start(clock), c, es).log[j].generation
    ensures i == j
  {
    PairedExactly(clock, c, es, i);
    PairedExactly(clock, c, es, j);
    var w := Run(Start(clock), c, es);
    assert Hits(w.born, c, w.log[i]) && Hits(w.born, c, w.log[j]);
  }
}
