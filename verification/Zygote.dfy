/** The disposable children and the part of the kernel they share with their manager:
    signals, one datagram channel per child, the process table and the monotonic clock.
    A child is written at the granularity of single reads and writes of its two flags, so
    that a signal handler can run between any two of them. */
module Zygote {
  import opened Basics

  type Pid = nat

  datatype Signal = Usr1 | Term | Int | Chld

  /** What waitpid reports. */
  datatype Status = Exited(code: nat) | Signaled(number: nat)

  predicate Abnormal(status: Status) {
    status != Exited(0)
  }

  /** CLOCK_MONOTONIC is a signed 64-bit count of nanoseconds inside the kernel. */
  const CLOCK_LIMIT: nat := 0x8000_0000_0000_0000
  const TWO_TO_THE_64: nat := 0x1_0000_0000_0000_0000

  function ToU64(n: nat): nat {
    n % TWO_TO_THE_64
  }

  /** One activation of drain_handler: `flagged` once it has stored drain_requested, which
      leaves only its test of connection_active. */
  datatype Frame = Frame(signal: Signal, flagged: bool)

  /** Where a child's main program stands. */
  datatype Point =
    | Boot          // forked, no handler installed, signals blocked by the inherited mask
    | Blocked       // handlers installed, signals still blocked
    | Unblocking    // inside the sigprocmask call that empties the mask
    | HookActive    // before_accept, about to read connection_active
    | HookDrain     // before_accept, about to read drain_requested
    | Accepting     // inside accept
    | SeeDrain      // accepted a connection, about to read drain_requested
    | SeeActive     // about to read connection_active
    | Raise         // about to set connection_active
    | Stamp         // about to read the clock
    | Announce(stamp: nat)  // about to send the stamp
    | Serve         // the request is the environment's business

  /** `sent`, `admitted` and `kills` are histories: stamps sent, connections let past the
      flags, SIGKILLs received from the manager. `channel` holds the datagrams not yet read. */
  datatype Child = Child(
    id: nat, status: Option<Status>, at: Point, handlers: bool, masked: bool,
    pending: set<Signal>, frames: seq<Frame>, active: bool, drain: bool,
    channel: seq<nat>, sent: seq<nat>, admitted: nat, kills: nat)

  function Newborn(id: nat): Child {
    Child(id, None, Boot, false, true, {}, [], false, false, [], [], 0, 0)
  }

  /** `capacity` is how many datagrams a channel holds before send fails. */
  datatype Kernel = Kernel(
    clock: nat, children: map<Pid, Child>, pending: set<Signal>,
    forked: nat, reaped: nat, capacity: nat)

  /** What the environment decides where the main program has no choice of its own. */
  datatype Choice = Proceed | Retry | Quit(code: nat)

  datatype Event =
    | Advance(ns: nat)                     // time passes
    | SignalManager(signal: Signal)
    | SignalChild(pid: Pid, signal: Signal)
    | Run(pid: Pid, choice: Choice)        // the main program's next instruction
    | Deliver(pid: Pid, signal: Signal)    // the kernel starts a handler
    | Handle(pid: Pid)                     // the innermost handler's next instruction
    | Crash(pid: Pid, status: Status)      // a fault, a PHP exit, the OOM killer
    | Die(pid: Pid)                        // a SIGKILL takes effect

  function Exit(c: Child, code: nat): Child {
    c.(status := Some(Exited(code)))
  }

  predicate Handling(c: Child, signal: Signal) {
    exists f :: f in c.frames && f.signal == signal
  }

  /** The main program's next instruction; it is suspended while a handler runs. */
  function Main(c: Child, choice: Choice, clock: nat, capacity: nat): Child {
    match c.at
    case Boot => c.(handlers := true, at := Blocked)
    case Blocked => c.(masked := false, at := Unblocking)
    // The call returns only once no signal is deliverable any more.
    case Unblocking => if c.pending == {} then c.(at := HookActive) else c
    case HookActive => if c.active then Exit(c, 0) else c.(at := HookDrain)
    case HookDrain => if c.drain then Exit(c, 0) else c.(at := Accepting)
    case Accepting =>
      (match choice
       case Proceed => c.(at := SeeDrain)
       case Retry => c.(at := HookActive)
       case Quit(code) => Exit(c, code))
    case SeeDrain => if c.drain then Exit(c, 0) else c.(at := SeeActive)
    case SeeActive => if c.active then Exit(c, 0) else c.(at := Raise)
    case Raise => c.(active := true, admitted := c.admitted + 1, at := Stamp)
    case Stamp => c.(at := Announce(ToU64(clock)))
    case Announce(stamp) =>
      if |c.channel| < capacity
      then c.(channel := c.channel + [stamp], sent := c.sent + [stamp], at := Serve)
      else Exit(c, 1)
    case Serve =>
      match choice
      case Proceed => c
      case Retry => c.(at := HookActive)
      case Quit(code) => Exit(c, code)
  }

  /** drain_handler, one store and one test. */
  function Handler(c: Child): Child
    requires c.frames != []
  {
    var top := |c.frames| - 1;
    if !c.frames[top].flagged then
      c.(drain := true, frames := c.frames[top := c.frames[top].(flagged := true)])
    else if !c.active then Exit(c, 0)
    else c.(frames := c.frames[..top])
  }

  /** Number of a signal, for the status of a child without a handler for it. */
  function Number(signal: Signal): nat {
    match signal
    case Int => 2
    case Usr1 => 10
    case Term => 15
    case Chld => 17
  }

  /** The kernel delivers a pending, unblocked signal whose handler is not already running.
      Without a handler the default action applies. */
  function Delivery(c: Child, signal: Signal): Child {
    if c.masked || signal !in c.pending || Handling(c, signal) then c
    else if signal == Chld then c.(pending := c.pending - {signal})
    else if !c.handlers then c.(status := Some(Signaled(Number(signal))))
    else c.(pending := c.pending - {signal}, frames := c.frames + [Frame(signal, false)])
  }

  /** One event seen by a living child. */
  function React(c: Child, e: Event, clock: nat, capacity: nat): Child {
    match e
    case SignalChild(_, signal) => c.(pending := c.pending + {signal})
    case Run(_, choice) => if c.frames == [] then Main(c, choice, clock, capacity) else c
    case Deliver(_, signal) => Delivery(c, signal)
    case Handle(_) => if c.frames != [] then Handler(c) else c
    case Crash(_, status) => c.(status := Some(status))
    case Die(_) => if c.kills > 0 then c.(status := Some(Signaled(9))) else c
    case _ => c
  }

  predicate Alive(k: Kernel, pid: Pid) {
    pid in k.children && k.children[pid].status == None
  }

  /** A child changes; the death of a child raises SIGCHLD at the manager. */
  function Update(k: Kernel, pid: Pid, c: Child): Kernel {
    k.(children := k.children[pid := c],
       pending := if c.status.Some? then k.pending + {Chld} else k.pending)
  }

  /** One event; an event that cannot happen changes nothing. */
  function Happen(k: Kernel, e: Event): Kernel {
    match e
    case Advance(ns) => if k.clock + ns < CLOCK_LIMIT then k.(clock := k.clock + ns) else k
    case SignalManager(signal) => k.(pending := k.pending + {signal})
    case _ => if Alive(k, e.pid) then Update(k, e.pid, React(k.children[e.pid], e, k.clock, k.capacity)) else k
  }

  /** kill(pid, SIGKILL): a zombie keeps its status, an unknown pid is an ignored error. */
  function Kill(k: Kernel, pid: Pid): Kernel {
    if pid in k.children then k.(children := k.children[pid := k.children[pid].(kills := k.children[pid].kills + 1)]) else k
  }

  /** kill(pid, SIGUSR1). */
  function Notify(k: Kernel, pid: Pid): Kernel {
    if Alive(k, pid) then Update(k, pid, k.children[pid].(pending := k.children[pid].pending + {Usr1})) else k
  }
}
