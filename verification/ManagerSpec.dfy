/** The worker-id manager's own state, and what each of its mutex sections makes of it. Times in milliseconds. */
module ManagerSpec {

  /** A heartbeat context: none, or the one that the running loop was started with. */
  datatype Context = NoContext | Active(id: nat)

  datatype Manager = Manager(
    workerID: int,
    registered: bool,
    instanceID: int,
    leaseDeadline: int,
    maxWorkerID: int,
    healthy: bool,
    shuttingDown: bool,
    recovering: bool,
    heartbeat: Context,
    heartbeatRunning: bool,
    contexts: nat,          // how many heartbeat contexts, and loops, have been created
    cancelled: set<nat>)    // which of them have been cancelled

  /** A manager as InitializeResources builds it; it starts unhealthy when it is to register itself. */
  function NewManager(configuredWorkerID: int, autoRegister: bool): Manager {
    Manager(configuredWorkerID, false, 0, 0, 0, !autoRegister, false, false, NoContext, false, 0, {})
  }

  datatype Gate = Gate(manager: Manager, open: bool)

  /** IsHealthy: the flag must be set and the lease must not have run out, which clears the flag. */
  function IsHealthy(m: Manager, now: int): Gate {
    if !m.healthy then Gate(m, false)
    else if m.leaseDeadline != 0 && now > m.leaseDeadline then Gate(m.(healthy := false), false)
    else Gate(m, true)
  }

  function CancelHeartbeat(m: Manager): Manager {
    if m.heartbeat.Active? then m.(cancelled := m.cancelled + {m.heartbeat.id}) else m
  }

  function StartHeartbeat(m: Manager): Manager {
    if m.heartbeatRunning then m
    else
      var c := CancelHeartbeat(m);
      c.(heartbeat := Active(c.contexts), heartbeatRunning := true, contexts := c.contexts + 1)
  }

  function StopHeartbeat(m: Manager): Manager {
    if m.heartbeat.Active? then CancelHeartbeat(m).(heartbeat := NoContext, heartbeatRunning := false) else m
  }

  /** A granted key becomes the manager's registration; the lease counts from the time before the request. */
  function RecordRegistration(m: Manager, workerID: int, captured: int, ttl: int): Manager {
    m.(workerID := workerID, registered := true, leaseDeadline := captured + ttl)
  }

  /** The end of a successful registration, once the generator has its worker id. */
  function FinishRegistration(m: Manager): Manager {
    StartHeartbeat(m).(healthy := true)
  }

  function BeatSucceeds(m: Manager, now: int, ttl: int): Manager {
    m.(leaseDeadline := now + ttl, healthy := true)
  }

  /** The section that gives up a lost worker id before a fresh one is sought. */
  function ResetForRecovery(m: Manager): Manager {
    StopHeartbeat(m.(healthy := false, leaseDeadline := 0, workerID := -1, registered := false))
  }

  /** The mutex section of UnregisterWorkerID. */
  function Unregister(m: Manager): Manager {
    if !m.registered then m
    else StopHeartbeat(m.(healthy := false)).(workerID := -1, registered := false)
  }

  /** What a heartbeat loop does as it returns. */
  function DeferredCleanup(m: Manager, context: nat): Manager {
    if m.heartbeat == Active(context) then m.(heartbeat := NoContext, heartbeatRunning := false) else m
  }
}
