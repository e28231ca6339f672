/** The control plane over the inhibitor manager: an inhibitor is held only while some
    lease is in the table. */
module KeepAwakeSystem {
  import opened KeepAwakeState
  import Control = KeepAwakeLaws
  import Inhibitor = KeepAwakeInhibitor

  datatype System = System(control: Control.Machine, inhibitor: Inhibitor.World)

  /** A critical section of the control plane, with what the manager went through while its
      lock was held; or a step of the manager while the lock was free. */
  datatype Step =
    | Locked(e: Control.Event, during: seq<Inhibitor.Event>)
    | Background(we: Inhibitor.Event)

  predicate IsCall(e: Inhibitor.Event) {
    e.CallEnable? || e.CallDisable?
  }

  /** Within a critical section the manager is called exactly with the values the control
      plane passes, and each call returns before the lock is released.  What it answers is
      left open, which only allows more. */
  ghost predicate Legal(s: System, step: Step) {
    match step
    case Locked(e, during) =>
      && Control.Legal(s.control, e)
      && Inhibitor.LegalRun(s.inhibitor, during)
      && Inhibitor.Run(s.inhibitor, during).phase == Inhibitor.Idle
      && Inhibitor.Run(s.inhibitor, during).requests == Control.NextState(s.control, e).runtime.requests
    case Background(we) => Inhibitor.Legal(s.inhibitor, we) && !IsCall(we)
  }

  function Next(s: System, step: Step): System
    requires Legal(s, step)
  {
    match step
    case Locked(e, during) => System(Control.Next(s.control, e), Inhibitor.Run(s.inhibitor, during))
    case Background(we) => System(s.control, Inhibitor.Next(s.inhibitor, we))
  }

  /** The manager is wired before the first lease. */
  function Start(clock: int): System {
    System(Control.Next(Control.Start(clock), Control.RuntimeWired), Inhibitor.NEW_WORLD)
  }

  ghost predicate Inv(s: System) {
    && Control.Follows(s.control.s)
    && s.control.s.runtime.wired
    && s.inhibitor.requests == s.control.s.runtime.requests
    && s.inhibitor.phase == Inhibitor.Idle
    && Inhibitor.Inv(s.inhibitor)
  }

  lemma StaysWired(m: Control.Machine, e: Control.Event)
    requires m.s.runtime.wired
    ensures Control.NextState(m, e).runtime.wired
  {
    if e.Mutation? {
      Control.MutateRuns(m.s, e.r, e.env);
    }
  }

  lemma BackgroundKeeps(w: Inhibitor.World, e: Inhibitor.Event)
    requires w.phase == Inhibitor.Idle && Inhibitor.Legal(w, e) && !IsCall(e)
    ensures Inhibitor.Next(w, e).phase == Inhibitor.Idle && Inhibitor.Next(w, e).requests == w.requests
  {
  }

  lemma RunOne(w: Inhibitor.World, e: Inhibitor.Event)
    requires Inhibitor.Legal(w, e)
    ensures Inhibitor.LegalRun(w, [e]) && Inhibitor.Run(w, [e]) == Inhibitor.Next(w, e)
  {
    assert [e][1..] == [];
  }

  lemma StepInv(s: System, step: Step)
    requires Inv(s) && Legal(s, step)
    ensures Inv(Next(s, step))
  {
    match step {
      case Locked(e, during) =>
        hide Control.Follows, Control.Legal, Control.NextState, Inhibitor.Inv;
        Control.StepFollows(s.control, e);
        StaysWired(s.control, e);
        Inhibitor.AlwaysInv(s.inhibitor, during);
      case Background(we) =>
        hide Inhibitor.Inv;
        BackgroundKeeps(s.inhibitor, we);
        RunOne(s.inhibitor, we);
        Inhibitor.AlwaysInv(s.inhibitor, [we]);
    }
  }

  ghost predicate LegalRun(s: System, steps: seq<Step>)
    decreases |steps|
  {
    steps == [] || (Legal(s, steps[0]) && LegalRun(Next(s, steps[0]), steps[1..]))
  }

  ghost function Run(s: System, steps: seq<Step>): System
    requires LegalRun(s, steps)
    decreases |steps|
  {
    if steps == [] then s else Run(Next(s, steps[0]), steps[1..])
  }

  lemma {:induction false} AlwaysInv(s: System, steps: seq<Step>)
    requires Inv(s) && LegalRun(s, steps)
    ensures Inv(Run(s, steps))
    decreases |steps|
  {
    hide Inv, Legal;
    if steps != [] {
      StepInv(s, steps[0]);
      AlwaysInv(Next(s, steps[0]), steps[1..]);
    }
  }

  /** Main result: with the lock free, the manager wants an inhibitor exactly while some
      lease is in the table (until it is closed); one is held only then; and while it is
      held the reported state is on. */
  lemma HeldOnlyForLeases(clock: int, steps: seq<Step>)
    requires LegalRun(Start(clock), steps)
    ensures var s := Run(Start(clock), steps);
            var m := s.inhibitor.manager;
            && (!m.closed ==> (m.status.desired <==> s.control.s.table.leases != map[]))
            && (m.handle.Some? ==> s.control.s.table.leases != map[] && !m.closed)
            && (m.handle.Some? <==> m.status.state == On)
  {
    Inhibitor.StartInv();
    AlwaysInv(Start(clock), steps);
    assert Inv(Run(Start(clock), steps));
  }
}
