/** The inhibitor manager of host/internal/keepawake/manager.go.  Its lock is released while
    the adapter works, so each method of the class below is one critical section; what may
    happen between them is the state machine of KeepAwakeInhibitor. */
module KeepAwakeManager {
  import opened Text
  import opened KeepAwakeState

  /** A handle is known by the number of the acquisition that returned it. */
  type Handle = nat

  datatype ManagerStatus = ManagerStatus(
    desired: bool, state: RuntimeState, reason: DegradedReason, lastError: string, revision: nat)

  datatype ManagerState = ManagerState(status: ManagerStatus, handle: Option<Handle>, closed: bool, monitor: nat)

  const NEW_MANAGER := ManagerState(ManagerStatus(false, Off, NoReason, "", 0), None, false, 0)

  function Transition(st: ManagerStatus, next: RuntimeState, reason: DegradedReason, lastError: string): ManagerStatus {
    st.(state := next, reason := reason, lastError := lastError, revision := st.revision + 1)
  }

  function ExitMessage(err: string): string {
    if err != "" then err else "inhibitor exited unexpectedly"
  }

  /** The fast path of enable: wanted, on, and holding a handle. */
  predicate Active(m: ManagerState) {
    m.status.desired && m.status.state == On && m.handle.Some?
  }

  datatype Entry = Entry(manager: ManagerState, acquire: bool)

  /** Enable up to its first unlock; exited is what the handle's Done channel says and err
      the error it ended with. */
  function EnterEnable(m: ManagerState, exited: bool, err: string): Entry {
    if m.closed then Entry(m, false)
    else if Active(m) && !exited then Entry(m, false)
    else
      var m1 := if Active(m) then
                  m.(handle := None, monitor := m.monitor + 1,
                     status := Transition(m.status, Degraded, IntegrityLost, ExitMessage(err)))
                else m;
      Entry(m1.(status := Transition(m1.status.(desired := true), Pending, NoReason, "")), true)
  }

  function FailAcquire(m: ManagerState, reason: DegradedReason, err: string): ManagerState {
    m.(status := Transition(m.status, Degraded, reason, err))
  }

  predicate Wanted(m: ManagerState) {
    m.status.desired && !m.closed
  }

  function Install(m: ManagerState, h: Handle): ManagerState {
    m.(handle := Some(h), monitor := m.monitor + 1, status := Transition(m.status, On, NoReason, ""))
  }

  function Settle(m: ManagerState): ManagerState {
    m.(status := Transition(m.status, Off, NoReason, ""))
  }

  function SwitchOff(m: ManagerState, closed: bool): ManagerState {
    m.(closed := closed, handle := None, monitor := m.monitor + 1,
       status := Transition(m.status.(desired := false), Off, NoReason, ""))
  }

  function RecordError(m: ManagerState, err: string): ManagerState {
    m.(status := m.status.(reason := NoReason, lastError := err, revision := m.status.revision + 1))
  }

  /** The watcher of h, started under generation gen, after h's Done channel closed. */
  function Watch(m: ManagerState, h: Handle, gen: nat, err: string): ManagerState {
    if m.handle != Some(h) || m.monitor != gen || !Wanted(m) then m
    else m.(handle := None, status := Transition(m.status, Degraded, IntegrityLost, ExitMessage(err)))
  }

  class Manager {
    var status: ManagerStatus
    var handle: Option<Handle>
    var closed: bool
    var monitor: nat

    ghost function Value(): ManagerState
      reads this
    {
      ManagerState(status, handle, closed, monitor)
    }

    constructor ()
      ensures Value() == NEW_MANAGER
    {
      status := ManagerStatus(false, Off, NoReason, "", 0);
      handle := None;
      closed := false;
      monitor := 0;
    }

    method TransitionLocked(next: RuntimeState, reason: DegradedReason, lastError: string)
      modifies this`status
      ensures status == Transition(old(status), next, reason, lastError)
    {
      status := status.(state := next);
      status := status.(reason := reason);
      status := status.(lastError := lastError);
      status := status.(revision := status.revision + 1);
    }

    method RecordLifecycleErrorLocked(lastError: string)
      modifies this`status
      ensures Value() == RecordError(old(Value()), lastError)
    {
      status := status.(reason := NoReason);
      status := status.(lastError := lastError);
      status := status.(revision := status.revision + 1);
    }

    method EnableEnter(exited: bool, err: string) returns (acquire: bool)
      modifies this
      ensures Entry(Value(), acquire) == EnterEnable(old(Value()), exited, err)
    {
      if closed {
        return false;
      }
      if status.desired && status.state == On && handle.Some? {
        if !exited {
          return false;
        }
        var msg := "inhibitor exited unexpectedly";
        if err != "" {
          msg := err;
        }
        handle := None;
        monitor := monitor + 1;
        TransitionLocked(Degraded, IntegrityLost, msg);
      }
      status := status.(desired := true);
      TransitionLocked(Pending, NoReason, "");
      acquire := true;
    }

    method EnableFailed(reason: DegradedReason, err: string)
      modifies this`status
      ensures Value() == FailAcquire(old(Value()), reason, err)
    {
      TransitionLocked(Degraded, reason, err);
    }

    /** Keeps the acquired handle, or tells the caller to release it. */
    method EnableCommit(h: Handle) returns (kept: bool)
      modifies this
      ensures kept == Wanted(old(Value()))
      ensures Value() == if kept then Install(old(Value()), h) else old(Value())
    {
      if !status.desired || closed {
        return false;
      }
      handle := Some(h);
      monitor := monitor + 1;
      TransitionLocked(On, NoReason, "");
      kept := true;
    }

    method EnableRejected()
      modifies this`status
      ensures Value() == Settle(old(Value()))
    {
      TransitionLocked(Off, NoReason, "");
    }

    method DisableEnter() returns (h: Option<Handle>)
      modifies this
      ensures Value() == if old(closed) then old(Value()) else SwitchOff(old(Value()), false)
      ensures h == if old(closed) then None else old(handle)
    {
      if closed {
        return None;
      }
      status := status.(desired := false);
      h := handle;
      handle := None;
      monitor := monitor + 1;
      TransitionLocked(Off, NoReason, "");
    }

    method CloseEnter() returns (h: Option<Handle>)
      modifies this
      ensures Value() == if old(closed) then old(Value()) else SwitchOff(old(Value()), true)
      ensures h == if old(closed) then None else old(handle)
    {
      if closed {
        return None;
      }
      closed := true;
      status := status.(desired := false);
      h := handle;
      handle := None;
      monitor := monitor + 1;
      TransitionLocked(Off, NoReason, "");
    }

    method WatchHandle(h: Handle, gen: nat, err: string)
      modifies this
      ensures Value() == Watch(old(Value()), h, gen, err)
    {
      if handle != Some(h) || monitor != gen {
        return;
      }
      if !status.desired || closed {
        return;
      }
      var msg := "inhibitor exited unexpectedly";
      if err != "" {
        msg := err;
      }
      handle := None;
      TransitionLocked(Degraded, IntegrityLost, msg);
    }
  }
}
