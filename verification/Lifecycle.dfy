/**
 * One manager and its goroutines: registrations, heartbeat loops, background recovery and unregistration,
 * interleaved at the mutex and at the atomic flags in any order.
 */
module Lifecycle {
  import opened ManagerSpec

  /** Where the heartbeat loop of a context stands. */
  datatype Phase = Beating | Reacquiring | Leaving | Gone

  datatype Caller = Startup | HeartbeatLoop(context: nat) | BackgroundRecovery

  /** The mutex: free, or held by a RegisterWorkerID call that is talking to Redis. */
  datatype Lock = Free | Registering(caller: Caller)

  datatype Life = Life(
    manager: Manager,
    lock: Lock,
    loops: seq<Phase>,      // one per heartbeat context
    background: nat,        // background recovery goroutines that are running
    unregistered: bool)     // the mutex section of UnregisterWorkerID has run

  datatype Step =
    | RegisterBegins(caller: Caller)
    | RegisterSucceeds(workerID: nat, captured: int, ttl: int)
    | RegisterFails(allOccupied: bool)
    | RegisterSpecific(workerID: nat, captured: int, ttl: int)
    | Beat(context: nat, ok: bool)
    | LoseWorkerID(context: nat)
    | LeaveToBackground(context: nat)
    | LoopReturns(context: nat)
    | LoopCleansUp(context: nat)
    | BackgroundReturns
    | CheckGate(now: int)
    | AnnounceShutdown
    | UnregisterSection

  function NewLife(configuredWorkerID: int, autoRegister: bool): Life {
    Life(NewManager(configuredWorkerID, autoRegister), Free, [], 0, false)
  }

  predicate MayRegister(l: Life, caller: Caller) {
    match caller
    case Startup => true
    case HeartbeatLoop(c) => c < |l.loops| && l.loops[c] == Reacquiring
    case BackgroundRecovery => l.background > 0
  }

  /** A registration that went through: the manager's new state, and a loop for a context it created. */
  function Registered(l: Life, workerID: int, captured: int, ttl: int): Life {
    var m := FinishRegistration(RecordRegistration(l.manager, workerID, captured, ttl));
    l.(manager := m, loops := if m.contexts > l.manager.contexts then l.loops + [Beating] else l.loops)
  }

  /** One step; a step that its goroutine cannot take now changes nothing. */
  function Perform(l: Life, step: Step): Life {
    var m := l.manager;
    match step
    case RegisterBegins(caller) =>
      if l.lock != Free || !MayRegister(l, caller) then l
      else if m.shuttingDown then l.(manager := m.(healthy := false))
      else if m.registered then
        if caller.HeartbeatLoop? then l.(loops := l.loops[caller.context := Beating]) else l
      else l.(lock := Registering(caller))
    case RegisterSucceeds(workerID, captured, ttl) =>
      if l.lock == Free then l
      else
        var done := Registered(l, workerID, captured, ttl).(lock := Free);
        (match l.lock.caller
         case HeartbeatLoop(c) => if c < |l.loops| then done.(loops := done.loops[c := Beating]) else done
         case _ => done)
    case RegisterFails(allOccupied) =>
      if l.lock == Free then l else l.(manager := m.(healthy := m.healthy && !allOccupied), lock := Free)
    case RegisterSpecific(workerID, captured, ttl) =>
      if l.lock != Free || m.registered then l else Registered(l, workerID, captured, ttl)
    case Beat(c, ok) =>
      if c < |l.loops| && l.loops[c] == Beating then l.(manager := m.(healthy := ok)) else l
    case LoseWorkerID(c) =>
      if c < |l.loops| && l.loops[c] == Beating && l.lock == Free
      then l.(manager := ResetForRecovery(m), loops := l.loops[c := Reacquiring])
      else l
    case LeaveToBackground(c) =>
      if c < |l.loops| && l.loops[c] == Reacquiring && l.lock != Registering(HeartbeatLoop(c)) then
        var back := l.(loops := l.loops[c := Beating]);
        if m.recovering then back else back.(manager := m.(recovering := true), background := l.background + 1)
      else l
    case LoopReturns(c) =>
      if c < |l.loops| && l.loops[c] == Beating && c in m.cancelled then l.(loops := l.loops[c := Leaving]) else l
    case LoopCleansUp(c) =>
      if c < |l.loops| && l.loops[c] == Leaving && l.lock == Free
      then l.(manager := DeferredCleanup(m, c), loops := l.loops[c := Gone])
      else l
    case BackgroundReturns =>
      if l.background > 0 && l.lock != Registering(BackgroundRecovery)
      then l.(manager := m.(recovering := false), background := l.background - 1)
      else l
    case CheckGate(now) => l.(manager := IsHealthy(m, now).manager)
    case AnnounceShutdown => l.(manager := m.(shuttingDown := true))
    case UnregisterSection =>
      if l.lock == Free && m.shuttingDown then l.(manager := Unregister(m), unregistered := true) else l
  }

  function PerformAll(l: Life, steps: seq<Step>): Life
    decreases |steps|
  {
    if steps == [] then l else Perform(PerformAll(l, steps[..|steps| - 1]), steps[|steps| - 1])
  }

  /** The heartbeat loops that no one has cancelled. */
  function LiveLoops(l: Life): set<nat> {
    set c: nat | 0 <= c < |l.loops| && c !in l.manager.cancelled
  }

  ghost predicate Inv(l: Life) {
    var m := l.manager;
    && |l.loops| == m.contexts
    && (m.registered <==> m.heartbeat.Active?)
    && (m.heartbeatRunning <==> m.heartbeat.Active?)
    && (m.heartbeat.Active? ==> m.heartbeat.id < |l.loops| && m.heartbeat.id !in m.cancelled)
    && (forall c :: 0 <= c < |l.loops| && c !in m.cancelled ==> m.heartbeat == Active(c))
    && (forall c :: 0 <= c < |l.loops| && (l.loops[c] == Leaving || l.loops[c] == Gone) ==> c in m.cancelled)
    && (forall c :: c in m.cancelled ==> c < |l.loops|)
    && (l.lock != Free ==> !m.registered)
    && l.background == (if m.recovering then 1 else 0)
  }

  /** Registering an unregistered manager starts exactly one loop, for a new context. */
  lemma {:induction false} InvRegistered(l: Life, workerID: int, captured: int, ttl: int)
    requires Inv(l) && !l.manager.registered
    ensures Inv(Registered(l, workerID, captured, ttl).(lock := Free))
    ensures |Registered(l, workerID, captured, ttl).loops| == |l.loops| + 1
  {
  }

  /** Moving one loop between its active phases, or to its end once cancelled. */
  lemma {:induction false} InvPhase(l: Life, c: nat, phase: Phase)
    requires Inv(l) && c < |l.loops| && (phase == Leaving || phase == Gone ==> c in l.manager.cancelled)
    ensures Inv(l.(loops := l.loops[c := phase]))
  {
  }

  lemma {:induction false} InvReset(l: Life)
    requires Inv(l) && l.lock == Free
    ensures Inv(l.(manager := ResetForRecovery(l.manager)))
  {
  }

  lemma {:induction false} InvRegistrationStep(l: Life, step: Step)
    requires Inv(l) && (step.RegisterSucceeds? || step.RegisterSpecific?)
    ensures Inv(Perform(l, step))
  {
    if !l.manager.registered {
      InvRegistered(l, step.workerID, step.captured, step.ttl);
      if step.RegisterSucceeds? && l.lock.Registering? && l.lock.caller.HeartbeatLoop?
         && l.lock.caller.context < |l.loops| {
        InvPhase(Registered(l, step.workerID, step.captured, step.ttl).(lock := Free), l.lock.caller.context, Beating);
      }
    }
  }

  lemma {:induction false} InvLoopStep(l: Life, step: Step)
    requires Inv(l)
    requires step.LoseWorkerID? || step.LeaveToBackground? || step.LoopReturns? || step.LoopCleansUp?
    requires step.context < |l.loops|
    ensures Inv(Perform(l, step))
  {
    var c := step.context;
    match step
    case LoseWorkerID(_) =>
      if l.lock == Free {
        InvReset(l);
        InvPhase(l.(manager := ResetForRecovery(l.manager)), c, Reacquiring);
      }
    case LeaveToBackground(_) =>
      InvPhase(l, c, Beating);
    case LoopReturns(_) =>
      if c in l.manager.cancelled {
        InvPhase(l, c, Leaving);
      }
    case LoopCleansUp(_) =>
      if l.loops[c] == Leaving {
        InvPhase(l, c, Gone);
      }
  }

  lemma {:induction false} InvStep(l: Life, step: Step)
    requires Inv(l)
    ensures Inv(Perform(l, step))
  {
    if step.RegisterSucceeds? || step.RegisterSpecific? {
      InvRegistrationStep(l, step);
    } else if step.LoseWorkerID? || step.LeaveToBackground? || step.LoopReturns? || step.LoopCleansUp? {
      if step.context < |l.loops| {
        InvLoopStep(l, step);
      }
    }
  }

  lemma {:induction false} InvHolds(l: Life, steps: seq<Step>)
    requires Inv(l)
    ensures Inv(PerformAll(l, steps))
    decreases |steps|
  {
    if steps != [] {
      InvHolds(l, steps[..|steps| - 1]);
      InvStep(PerformAll(l, steps[..|steps| - 1]), steps[|steps| - 1]);
    }
  }

  /**
   * In every reachable state `registered`, `heartbeatRunning` and "exactly one uncancelled heartbeat
   * loop" agree, an unregistered manager has no uncancelled loop, and at most one background recovery runs.
   */
  lemma {:induction false} OneLoopIffRegistered(configured: int, auto: bool, steps: seq<Step>)
    ensures var l := PerformAll(NewLife(configured, auto), steps);
            && (l.manager.registered <==> l.manager.heartbeatRunning)
            && (l.manager.registered <==> |LiveLoops(l)| == 1)
            && (!l.manager.registered <==> LiveLoops(l) == {})
            && l.background <= 1
  {
    var l := PerformAll(NewLife(configured, auto), steps);
    InvHolds(NewLife(configured, auto), steps);
    if l.manager.registered {
      assert LiveLoops(l) == {l.manager.heartbeat.id};
    } else {
      assert LiveLoops(l) == {};
    }
  }

  /** The deferred cleanup of a returning loop finds itself superseded: it never clears a successor. */
  lemma {:induction false} CleanupTouchesNoSuccessor(configured: int, auto: bool, steps: seq<Step>, context: nat)
    ensures var l := PerformAll(NewLife(configured, auto), steps);
            context < |l.loops| && l.loops[context] == Leaving
            ==> DeferredCleanup(l.manager, context) == l.manager
                && Perform(l, LoopCleansUp(context)).manager == l.manager
  {
    InvHolds(NewLife(configured, auto), steps);
  }

  // ----- Recovery, and managers that never register -----

  /**
   * A loop that loses its worker id and registers afresh leaves the manager to one successor: the old loop
   * is cancelled, the new one is the only live one, and the gate is open on the new lease.
   */
  lemma {:induction false} RecoveryHandsOver(l: Life, c: nat, workerID: nat, captured: int, ttl: int)
    requires Inv(l) && c < |l.loops| && l.loops[c] == Beating && l.lock == Free
    requires l.manager.heartbeat == Active(c) && !l.manager.shuttingDown
    ensures var lost := Perform(l, LoseWorkerID(c));
            var begun := Perform(lost, RegisterBegins(HeartbeatLoop(c)));
            var done := Perform(begun, RegisterSucceeds(workerID, captured, ttl));
            && !lost.manager.registered && !lost.manager.healthy && LiveLoops(lost) == {}
            && done.manager.registered && done.manager.healthy && done.manager.workerID == workerID
            && done.manager.leaseDeadline == captured + ttl
            && done.loops[c] == Beating && c in done.manager.cancelled && LiveLoops(done) == {|l.loops|}
  {
    var lost := Perform(l, LoseWorkerID(c));
    var begun := Perform(lost, RegisterBegins(HeartbeatLoop(c)));
    InvStep(l, LoseWorkerID(c));
    assert begun == lost.(lock := Registering(HeartbeatLoop(c)));
  }

  /** While a loop cannot register, one background recovery takes over, and ends the outage when it succeeds. */
  lemma {:induction false} BackgroundTakesOver(l: Life, c: nat, workerID: nat, captured: int, ttl: int)
    requires Inv(l) && c < |l.loops| && l.loops[c] == Reacquiring && l.lock == Free
    requires !l.manager.registered && !l.manager.shuttingDown
    ensures var left := Perform(l, LeaveToBackground(c));
            var begun := Perform(left, RegisterBegins(BackgroundRecovery));
            var done := Perform(begun, RegisterSucceeds(workerID, captured, ttl));
            && left.background == 1 && left.loops[c] == Beating && left.manager.healthy == l.manager.healthy
            && done.manager.registered && done.manager.healthy && LiveLoops(done) == {|l.loops|}
            && Perform(done, BackgroundReturns).background == 0
  {
    var left := Perform(l, LeaveToBackground(c));
    var begun := Perform(left, RegisterBegins(BackgroundRecovery));
    InvStep(l, LeaveToBackground(c));
    assert begun == left.(lock := Registering(BackgroundRecovery));
  }

  /** A cancelled loop leaves: it returns, cleans up, and takes nothing of the manager with it. */
  lemma {:induction false} CancelledLoopLeaves(l: Life, c: nat)
    requires Inv(l) && c < |l.loops| && l.loops[c] == Beating && c in l.manager.cancelled && l.lock == Free
    ensures var back := Perform(l, LoopReturns(c));
            var gone := Perform(back, LoopCleansUp(c));
            && back.loops[c] == Leaving && gone.loops[c] == Gone
            && gone.manager == l.manager && LiveLoops(gone) == LiveLoops(l)
  {
    assert l.manager.heartbeat != Active(c);
  }

  /** A registration that fails frees the mutex, and shuts the gate when every id was occupied or at shutdown. */
  lemma {:induction false} FailedRegistrationShutsGate(l: Life, caller: Caller)
    requires Inv(l) && l.lock == Free && MayRegister(l, caller)
    ensures var begun := Perform(l, RegisterBegins(caller));
            if l.manager.shuttingDown then begun.lock == Free && !begun.manager.healthy
            else !l.manager.registered ==>
              && begun.lock == Registering(caller)
              && Perform(begun, RegisterFails(true)) == l.(manager := l.manager.(healthy := false))
              && Perform(begun, RegisterFails(false)) == l
  {
  }

  /**
   * A manager that is not to register itself passes every call, without a lease, whatever gate checks and
   * shutdowns it sees, for as long as nothing registers.
   */
  lemma {:induction false} UnmanagedStaysOpen(configured: int, steps: seq<Step>, now: int)
    requires forall i :: 0 <= i < |steps| ==> !steps[i].RegisterBegins? && !steps[i].RegisterSpecific?
    ensures var l := PerformAll(NewLife(configured, false), steps);
            && l.loops == [] && l.lock == Free && l.background == 0
            && !l.manager.registered && l.manager.healthy && l.manager.leaseDeadline == 0
            && l.manager.workerID == configured && IsHealthy(l.manager, now).open
    decreases |steps|
  {
    if steps != [] {
      UnmanagedStaysOpen(configured, steps[..|steps| - 1], now);
    }
  }

  // ----- Shutdown -----

  /** What the mutex section of UnregisterWorkerID leaves behind. */
  predicate Closed(l: Life) {
    l.manager.shuttingDown && !l.manager.registered && l.lock == Free
  }

  predicate NothingSpecific(steps: seq<Step>) {
    forall i :: 0 <= i < |steps| ==> !steps[i].RegisterSpecific?
  }

  lemma {:induction false} ClosedStep(l: Life, step: Step)
    requires Inv(l) && Closed(l) && !step.RegisterSpecific?
    ensures Closed(Perform(l, step))
  {
  }

  lemma {:induction false} StaysClosed(l: Life, steps: seq<Step>)
    requires Inv(l) && Closed(l) && NothingSpecific(steps)
    ensures Closed(PerformAll(l, steps))
    decreases |steps|
  {
    if steps != [] {
      StaysClosed(l, steps[..|steps| - 1]);
      InvHolds(l, steps[..|steps| - 1]);
      ClosedStep(PerformAll(l, steps[..|steps| - 1]), steps[|steps| - 1]);
    }
  }

  lemma {:induction false} PerformInTwoParts(l: Life, first: seq<Step>, second: seq<Step>)
    ensures PerformAll(l, first + second) == PerformAll(PerformAll(l, first), second)
    decreases |second|
  {
    if second == [] {
      assert first + second == first;
    } else {
      var n := |second| - 1;
      assert (first + second)[..|first| + n] == first + second[..n];
      PerformInTwoParts(l, first, second[..n]);
    }
  }

  /** Whether the mutex section runs at this point. */
  predicate SectionRuns(l: Life) {
    l.lock == Free && l.manager.shuttingDown
  }

  /**
   * Shutdown is final: once the mutex section of UnregisterWorkerID has run, no interleaving of
   * registrations, loops and recovery registers the manager again or leaves a loop uncancelled.
   */
  lemma {:induction false} ShutdownIsFinal(configured: int, auto: bool, before: seq<Step>, after: seq<Step>)
    requires SectionRuns(PerformAll(NewLife(configured, auto), before)) && NothingSpecific(after)
    ensures var l := PerformAll(NewLife(configured, auto), before + [UnregisterSection] + after);
            !l.manager.registered && !l.manager.heartbeatRunning && LiveLoops(l) == {}
  {
    var start := NewLife(configured, auto);
    var l := PerformAll(start, before);
    InvHolds(start, before);
    InvStep(l, UnregisterSection);
    assert (before + [UnregisterSection])[..|before|] == before;
    PerformInTwoParts(start, before + [UnregisterSection], after);
    StaysClosed(Perform(l, UnregisterSection), after);
    OneLoopIffRegistered(configured, auto, before + [UnregisterSection] + after);
  }

  /** Nothing is registered and no loop is uncancelled, now or after any of the first steps. */
  ghost predicate StaysDown(l: Life, steps: seq<Step>) {
    forall n :: 0 <= n <= |steps| ==>
      !PerformAll(l, steps[..n]).manager.registered && LiveLoops(PerformAll(l, steps[..n])) == {}
  }

  /** The first specific registration after the section brings the manager back. */
  lemma {:induction false} SpecificRegistrationReopens(l: Life, steps: seq<Step>, n: nat)
    requires Inv(l) && Closed(l) && n < |steps| && steps[n].RegisterSpecific? && NothingSpecific(steps[..n])
    ensures PerformAll(l, steps[..n + 1]).manager.registered
  {
    StaysClosed(l, steps[..n]);
    assert steps[..n + 1][..n] == steps[..n];
  }

  /**
   * Shutdown is final if and only if no specific registration follows: after the section of
   * UnregisterWorkerID the manager stays unregistered, without an uncancelled loop, throughout exactly
   * the interleavings in which RegisterSpecificWorkerID claims nothing.
   */
  lemma {:induction false} ShutdownIsFinalIff(configured: int, auto: bool, before: seq<Step>, after: seq<Step>)
    requires SectionRuns(PerformAll(NewLife(configured, auto), before))
    ensures StaysDown(PerformAll(NewLife(configured, auto), before + [UnregisterSection]), after)
            <==> NothingSpecific(after)
  {
    var start := NewLife(configured, auto);
    var closed := PerformAll(start, before + [UnregisterSection]);
    assert (before + [UnregisterSection])[..|before|] == before;
    InvHolds(start, before + [UnregisterSection]);
    if NothingSpecific(after) {
      forall n | 0 <= n <= |after|
        ensures !PerformAll(closed, after[..n]).manager.registered && LiveLoops(PerformAll(closed, after[..n])) == {}
      {
        StaysClosed(closed, after[..n]);
        InvHolds(closed, after[..n]);
      }
    } else {
      var n := FirstSpecific(after);
      SpecificRegistrationReopens(closed, after, n);
    }
  }

  lemma {:induction false} FirstSpecific(steps: seq<Step>) returns (n: nat)
    requires !NothingSpecific(steps)
    ensures n < |steps| && steps[n].RegisterSpecific? && NothingSpecific(steps[..n])
    decreases |steps|
  {
    n := |steps| - 1;
    if !NothingSpecific(steps[..n]) {
      n := FirstSpecific(steps[..n]);
      assert steps[..|steps| - 1][..n] == steps[..n];
    }
  }

  /** RegisterSpecificWorkerID does not look at the shutdown flag: it can bring the manager back. */
  lemma {:induction false} SpecificRegistrationOutlivesShutdown(configured: int, workerID: nat, now: int, ttl: int)
    ensures var steps := [AnnounceShutdown, UnregisterSection, RegisterSpecific(workerID, now, ttl)];
            var l := PerformAll(NewLife(configured, true), steps);
            l.unregistered && l.manager.registered && LiveLoops(l) == {0}
  {
    var steps := [AnnounceShutdown, UnregisterSection, RegisterSpecific(workerID, now, ttl)];
    var start := NewLife(configured, true);
    assert steps[..2] == [AnnounceShutdown, UnregisterSection] && steps[..2][..1] == [AnnounceShutdown];
    assert [AnnounceShutdown][..0] == [];
    var announced := PerformAll(start, [AnnounceShutdown]);
    assert announced == Perform(PerformAll(start, []), AnnounceShutdown);
    var closed := PerformAll(start, steps[..2]);
    assert closed == Perform(announced, UnregisterSection);
    assert PerformAll(start, steps) == Perform(closed, steps[2]);
  }
}
