/** The inhibitor manager with everything that may interleave at its unlocks: one
    SetDesiredEnabled call at a time, Close, exiting inhibitor processes and their
    watchers.  Where every acquired handle is, at every moment. */
module KeepAwakeInhibitor {
  import opened Text
  import opened KeepAwakeState
  import opened KeepAwakeManager

  /** Where the SetDesiredEnabled call in progress is, between its critical sections. */
  datatype Phase =
    | Idle
    | Acquiring
    | AcquireErred(reason: DegradedReason, err: string)
    | Acquired(h: Handle)
    | Rejecting(h: Handle)
    | Rejected
    | Disabling(h: Handle)
    | DisableErred(err: string)

  datatype Closing = NotClosing | Releasing(h: Handle) | ReleaseErred(err: string)

  datatype Watcher = Watcher(h: Handle, gen: nat)

  /** The manager; the call and the Close in progress; the watchers still waiting; the
      handles ever acquired (0 to acquired - 1); the processes that exited; the Release
      calls made; the handles dropped because their process had exited; and the values
      passed to SetDesiredEnabled. */
  datatype World = World(
    manager: ManagerState, phase: Phase, closing: Closing, watchers: set<Watcher>,
    acquired: nat, exited: set<Handle>, released: multiset<Handle>, dropped: set<Handle>, requests: seq<bool>)

  const NEW_WORLD := World(NEW_MANAGER, Idle, NotClosing, {}, 0, {}, multiset{}, {}, [])

  datatype Event =
    | CallEnable(err: string)
    | AcquireReturns
    | AcquireFails(reason: DegradedReason, err: string)
    | FailureRecorded
    | Commit
    | RejectedReleased
    | RejectSettles
    | CallDisable
    | DisableReleased(err: string)
    | DisableRecorded
    | CallClose
    | CloseReleased(err: string)
    | CloseRecorded
    | Exits(h: Handle)
    | WatcherWakes(watcher: Watcher, err: string)

  /** A call only when none is in progress; each section of a call in its turn; a watcher
      only after its handle's process exited. */
  predicate Legal(w: World, e: Event) {
    match e
    case CallEnable(_) => w.phase == Idle
    case AcquireReturns => w.phase == Acquiring
    case AcquireFails(_, _) => w.phase == Acquiring
    case FailureRecorded => w.phase.AcquireErred?
    case Commit => w.phase.Acquired?
    case RejectedReleased => w.phase.Rejecting?
    case RejectSettles => w.phase == Rejected
    case CallDisable => w.phase == Idle
    case DisableReleased(_) => w.phase.Disabling?
    case DisableRecorded => w.phase.DisableErred?
    case CallClose => true
    case CloseReleased(_) => w.closing.Releasing?
    case CloseRecorded => w.closing.ReleaseErred?
    case Exits(h) => h < w.acquired
    case WatcherWakes(watcher, _) => watcher in w.watchers && watcher.h in w.exited
  }

  function Enable(w: World, err: string): World {
    var gone := w.manager.handle.Some? && w.manager.handle.value in w.exited;
    var entry := EnterEnable(w.manager, gone, err);
    w.(manager := entry.manager, requests := w.requests + [true],
       phase := if entry.acquire then Acquiring else Idle,
       dropped := if entry.acquire && Active(w.manager) then w.dropped + {w.manager.handle.value} else w.dropped)
  }

  function CommitStep(w: World): World
    requires w.phase.Acquired?
  {
    if Wanted(w.manager) then
      var m := Install(w.manager, w.phase.h);
      w.(manager := m, phase := Idle, watchers := w.watchers + {Watcher(w.phase.h, m.monitor)})
    else w.(phase := Rejecting(w.phase.h))
  }

  function Disable(w: World): World {
    var w1 := w.(requests := w.requests + [false]);
    if w.manager.closed then w1
    else
      w1.(manager := SwitchOff(w.manager, false),
          phase := if w.manager.handle.Some? then Disabling(w.manager.handle.value) else Idle)
  }

  function Close(w: World): World {
    if w.manager.closed then w
    else
      w.(manager := SwitchOff(w.manager, true),
         closing := if w.manager.handle.Some? then Releasing(w.manager.handle.value) else NotClosing)
  }

  function Wake(w: World, watcher: Watcher, err: string): World {
    var m := Watch(w.manager, watcher.h, watcher.gen, err);
    w.(manager := m, watchers := w.watchers - {watcher},
       dropped := if w.manager.handle.Some? && m.handle.None? then w.dropped + {w.manager.handle.value} else w.dropped)
  }

  function Next(w: World, e: Event): World
    requires Legal(w, e)
  {
    match e
    case CallEnable(err) => Enable(w, err)
    case AcquireReturns => w.(phase := Acquired(w.acquired), acquired := w.acquired + 1)
    case AcquireFails(reason, err) => w.(phase := AcquireErred(reason, err))
    case FailureRecorded => w.(manager := FailAcquire(w.manager, w.phase.reason, w.phase.err), phase := Idle)
    case Commit => CommitStep(w)
    case RejectedReleased => w.(phase := Rejected, released := w.released + multiset{w.phase.h})
    case RejectSettles => w.(manager := Settle(w.manager), phase := Idle)
    case CallDisable => Disable(w)
    case DisableReleased(err) =>
      w.(phase := if err == "" then Idle else DisableErred(err), released := w.released + multiset{w.phase.h})
    case DisableRecorded => w.(manager := RecordError(w.manager, w.phase.err), phase := Idle)
    case CallClose => Close(w)
    case CloseReleased(err) =>
      w.(closing := if err == "" then NotClosing else ReleaseErred(err),
         released := w.released + multiset{w.closing.h})
    case CloseRecorded => w.(manager := RecordError(w.manager, w.closing.err), closing := NotClosing)
    case Exits(h) => w.(exited := w.exited + {h})
    case WatcherWakes(watcher, err) => Wake(w, watcher, err)
  }

  ghost predicate LegalRun(w: World, es: seq<Event>)
    decreases |es|
  {
    es == [] || (Legal(w, es[0]) && LegalRun(Next(w, es[0]), es[1..]))
  }

  function Run(w: World, es: seq<Event>): World
    requires LegalRun(w, es)
    decreases |es|
  {
    if es == [] then w else Run(Next(w, es[0]), es[1..])
  }

  // ---------------------------------------------------------------------------
  // Where every handle is
  // ---------------------------------------------------------------------------

  function One(b: bool): nat {
    if b then 1 else 0
  }

  /** In how many places a handle is: in flight or being released by the call, held, being
      released by Close, released (as often as Release was called), or dropped. */
  function Places(w: World, h: Handle): nat {
    One((w.phase.Acquired? || w.phase.Rejecting? || w.phase.Disabling?) && w.phase.h == h)
    + One(w.manager.handle == Some(h))
    + One(w.closing.Releasing? && w.closing.h == h)
    + w.released[h]
    + One(h in w.dropped)
  }

  ghost predicate OnePlaceEach(w: World) {
    forall h: Handle :: Places(w, h) == One(h < w.acquired)
  }

  /** The call is between asking for a handle and settling. */
  predicate Busy(p: Phase) {
    p != Idle
  }

  ghost predicate StateOk(w: World) {
    var m := w.manager;
    && (m.status.state == On <==> m.handle.Some?)
    && (m.status.state == On ==> Wanted(m))
    && (m.closed ==> !m.status.desired)
    && (Busy(w.phase) ==> m.handle.None?)
    && (w.phase.Disabling? || w.phase.DisableErred? ==> !m.status.desired)
    && (w.closing != NotClosing ==> m.closed)
  }

  ghost predicate WatchersOk(w: World) {
    && w.dropped <= w.exited
    && (forall x :: x in w.watchers ==> x.gen <= w.manager.monitor && x.h < w.acquired)
    && (forall x, y :: x in w.watchers && y in w.watchers && x.h == y.h ==> x == y)
    && (w.manager.handle.Some? ==> Watcher(w.manager.handle.value, w.manager.monitor) in w.watchers)
    && (w.phase.Acquired? ==> forall x :: x in w.watchers ==> x.h != w.phase.h)
  }

  /** What was last asked for is what the manager wants, unless it was closed. */
  predicate RequestOk(w: World) {
    w.manager.status.desired <==> !w.manager.closed && w.requests != [] && w.requests[|w.requests| - 1]
  }

  ghost predicate Inv(w: World) {
    OnePlaceEach(w) && StateOk(w) && WatchersOk(w) && RequestOk(w)
  }

  lemma StartInv()
    ensures Inv(NEW_WORLD)
  {
  }

  lemma StepPlaces(w: World, e: Event)
    requires OnePlaceEach(w) && StateOk(w) && WatchersOk(w) && Legal(w, e)
    ensures OnePlaceEach(Next(w, e))
  {
    forall h: Handle
      ensures Places(Next(w, e), h) == One(h < Next(w, e).acquired)
    {
      assert Places(w, h) == One(h < w.acquired);
    }
  }

  lemma StepState(w: World, e: Event)
    requires StateOk(w) && Legal(w, e)
    ensures StateOk(Next(w, e))
  {
  }

  lemma StepRequest(w: World, e: Event)
    requires RequestOk(w) && StateOk(w) && Legal(w, e)
    ensures RequestOk(Next(w, e))
  {
  }

  lemma StepWatchers(w: World, e: Event)
    requires OnePlaceEach(w) && StateOk(w) && WatchersOk(w) && Legal(w, e)
    ensures WatchersOk(Next(w, e))
  {
    assert w.phase.Acquired? ==> Places(w, w.phase.h) == One(w.phase.h < w.acquired);
  }

  lemma StepInv(w: World, e: Event)
    requires Inv(w) && Legal(w, e)
    ensures Inv(Next(w, e))
  {
    hide OnePlaceEach, StateOk, WatchersOk, RequestOk, Next, Legal;
    StepPlaces(w, e);
    StepState(w, e);
    StepRequest(w, e);
    StepWatchers(w, e);
  }

  /** Main invariant, for every interleaving. */
  lemma {:induction false} AlwaysInv(w: World, es: seq<Event>)
    requires Inv(w) && LegalRun(w, es)
    ensures Inv(Run(w, es))
    decreases |es|
  {
    if es != [] {
      StepInv(w, es[0]);
      AlwaysInv(Next(w, es[0]), es[1..]);
    }
  }

  // ---------------------------------------------------------------------------
  // What follows
  // ---------------------------------------------------------------------------

  /** An enable of an open manager asks for a new inhibitor exactly when none that still runs
      is held; it drops one that has exited, reports that the change is pending, and otherwise
      leaves the manager on as it is. */
  lemma EnableExactly(w: World, err: string)
    requires Inv(w) && Legal(w, CallEnable(err)) && !w.manager.closed
    ensures var w' := Next(w, CallEnable(err));
            var held := w.manager.handle.Some? && w.manager.handle.value !in w.exited;
            && w'.manager.status.desired && !w'.manager.closed
            && (held ==> w'.phase == Idle && w'.manager == w.manager && w'.manager.status.state == On)
            && (!held ==>
                  && w'.phase == Acquiring && w'.manager.handle == None
                  && w'.manager.status.state == Pending && w'.manager.status.reason == NoReason && w'.manager.status.lastError == "")
  {
  }

  /** A disable of an open manager lets go of the handle, to be released, and is off. */
  lemma DisableExactly(w: World)
    requires Inv(w) && Legal(w, CallDisable) && !w.manager.closed
    ensures var w' := Next(w, CallDisable);
            && !w'.manager.status.desired && w'.manager.handle == None
            && w'.manager.status.state == Off && w'.manager.status.reason == NoReason
            && w'.phase == if w.manager.handle.Some? then Disabling(w.manager.handle.value) else Idle
  {
  }

  /** How an acquisition ends: a failure is reported with its reason; a handle is installed and
      the manager on exactly while it is still wanted, and given back otherwise, which leaves
      the manager off. */
  lemma AcquisitionExactly(w: World, e: Event)
    requires Inv(w) && Legal(w, e) && (e.FailureRecorded? || e.Commit? || e.RejectSettles?)
    ensures var m, m' := w.manager, Next(w, e).manager;
            && (e.FailureRecorded? ==>
                  Next(w, e).phase == Idle && m'.status.state == Degraded &&
                  m'.status.reason == w.phase.reason && m'.status.lastError == w.phase.err && m'.handle == None)
            && (e.Commit? && m.status.desired && !m.closed ==>
                  Next(w, e).phase == Idle && m'.handle == Some(w.phase.h) && m'.status.state == On && m'.status.lastError == "")
            && (e.Commit? && !(m.status.desired && !m.closed) ==> Next(w, e).phase == Rejecting(w.phase.h) && m' == m)
            && (e.RejectSettles? ==> Next(w, e).phase == Idle && m'.status.state == Off && m'.status.reason == NoReason && m'.status.lastError == "")
  {
  }

  /** When the held inhibitor exits and its watcher wakes, the manager is degraded for lost
      integrity, with the error of the process or a text that stands for it. */
  lemma LossIsReported(w: World, watcher: Watcher, err: string)
    requires Inv(w) && Legal(w, WatcherWakes(watcher, err)) && w.manager.handle == Some(watcher.h)
    ensures var m' := Next(w, WatcherWakes(watcher, err)).manager;
            && m'.handle == None && m'.status.state == Degraded && m'.status.reason == IntegrityLost
            && m'.status.lastError == (if err == "" then "inhibitor exited unexpectedly" else err)
            && m'.status.revision == w.manager.status.revision + 1
  {
    assert Watcher(w.manager.handle.value, w.manager.monitor) in w.watchers;
  }

  /** A status revision never stands for two statuses. */
  lemma RevisionsTell(w: World, e: Event)
    requires Inv(w) && Legal(w, e)
    ensures var st, st' := w.manager.status, Next(w, e).manager.status;
            st'.revision >= st.revision && (st'.revision == st.revision ==> st' == st)
  {
  }

  /** A stale watcher never changes the status, and the watcher of the held handle always
      reports its loss. */
  lemma StaleWatcherIsInert(w: World, watcher: Watcher, err: string)
    requires Inv(w) && Legal(w, WatcherWakes(watcher, err))
    ensures Next(w, WatcherWakes(watcher, err)).manager != w.manager <==> w.manager.handle == Some(watcher.h)
  {
    assert w.manager.handle.Some? ==> Watcher(w.manager.handle.value, w.manager.monitor) in w.watchers;
  }

  /** No Release is ever made twice, nor on a handle that was dropped or never acquired. */
  lemma ReleasedOnce(w: World, h: Handle)
    requires Inv(w)
    ensures w.released[h] <= 1
    ensures w.released[h] == 1 ==> h < w.acquired && h !in w.dropped && w.manager.handle != Some(h)
  {
    assert Places(w, h) == One(h < w.acquired);
  }

  /** Nothing leaks: once Close and the last call are through, every handle ever acquired
      was released exactly once, or its process had exited by itself. */
  lemma NothingLeaks(w: World, h: Handle)
    requires Inv(w) && w.manager.closed && w.phase == Idle && w.closing == NotClosing && h < w.acquired
    ensures if h in w.dropped then w.released[h] == 0 && h in w.exited else w.released[h] == 1
  {
    assert Places(w, h) == One(h < w.acquired);
  }

  /** An acquisition is in flight: it may still report a failure. */
  predicate MayFail(w: World) {
    w.phase.Acquiring? || w.phase.AcquireErred?
  }

  /** A closed manager that is off stays off exactly until an acquisition that Close
      overtook reports its failure. */
  lemma ClosedStaysOff(w: World, e: Event)
    requires Inv(w) && Legal(w, e) && w.manager.closed && w.manager.status.state == Off
    ensures Next(w, e).manager.closed
    ensures Next(w, e).manager.status.state == Off <==> !e.FailureRecorded?
    ensures !e.FailureRecorded? ==> Next(w, e).manager.status.reason == NoReason || Next(w, e).manager == w.manager
    ensures MayFail(Next(w, e)) ==> MayFail(w)
  {
  }

  /** Closed and off with no acquisition in flight: off for good, whatever is called and
      whichever processes exit. */
  lemma {:induction false} OffForGood(w: World, es: seq<Event>)
    requires Inv(w) && LegalRun(w, es) && w.manager.closed && w.manager.status.state == Off && !MayFail(w)
    ensures Run(w, es).manager.closed && Run(w, es).manager.status.state == Off && !MayFail(Run(w, es))
    decreases |es|
  {
    if es != [] {
      hide Inv, Next, MayFail, OnePlaceEach, StateOk, WatchersOk, RequestOk;
      StepInv(w, es[0]);
      NoFailureToRecord(w, es[0]);
      ClosedStaysOff(w, es[0]);
      OffForGood(Next(w, es[0]), es[1..]);
    }
  }

  lemma NoFailureToRecord(w: World, e: Event)
    requires Legal(w, e) && !MayFail(w)
    ensures !e.FailureRecorded?
  {
  }

  /** And with one in flight there is always a run in which the manager leaves off. */
  lemma InFlightMayDegrade(w: World) returns (es: seq<Event>)
    requires w.manager.closed && MayFail(w)
    ensures LegalRun(w, es) && Run(w, es).manager.status.state == Degraded
  {
    if w.phase.AcquireErred? {
      es := [FailureRecorded];
      assert Run(w, es) == Next(w, FailureRecorded);
    } else {
      var failure := AcquireFails(AcquireFailure, "busy");
      es := [failure, FailureRecorded];
      assert es[1..] == [FailureRecorded];
      assert Run(Next(w, failure), [FailureRecorded]) == Next(Next(w, failure), FailureRecorded);
    }
  }

  /** Such a run exists: enable, close, and the acquisition fails. */
  lemma ClosedYetDegraded()
    ensures var es := [CallEnable(""), CallClose, AcquireFails(AcquireFailure, "busy"), FailureRecorded];
            LegalRun(NEW_WORLD, es) &&
            Run(NEW_WORLD, es).manager.closed && Run(NEW_WORLD, es).manager.status.state == Degraded
  {
    var e1, e2, e3, e4 := CallEnable(""), CallClose, AcquireFails(AcquireFailure, "busy"), FailureRecorded;
    var w1 := Next(NEW_WORLD, e1);
    var w2 := Next(w1, e2);
    var w3 := Next(w2, e3);
    assert LegalRun(w3, [e4]) && Run(w3, [e4]) == Next(w3, e4);
    assert [e3, e4][1..] == [e4] && [e2, e3, e4][1..] == [e3, e4] && [e1, e2, e3, e4][1..] == [e2, e3, e4];
    assert LegalRun(w2, [e3, e4]) && Run(w2, [e3, e4]) == Run(w3, [e4]);
    assert LegalRun(w1, [e2, e3, e4]) && Run(w1, [e2, e3, e4]) == Run(w2, [e3, e4]);
  }
}
