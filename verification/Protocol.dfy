/** The manager loop of src/manager.rs as a transition system: one action is one system call
    of the manager (with the bookkeeping up to the next call) or one event outside it.
    Every schedule of actions is a run, so nothing is assumed about who moves when. */
module Protocol {
  import opened Basics
  import opened Zygote

  const SECOND: nat := 1_000_000_000
  const MILLISECOND: nat := 1_000_000
  const GRACE: nat := 30 * SECOND
  const U32_MAX: nat := 0xFFFF_FFFF

  /** The numeric bounds src/config.rs enforces: 1..4096 workers, 1..86400 seconds. */
  datatype Config = Config(workers: nat, seconds: nat)

  predicate Sane(cfg: Config) {
    1 <= cfg.workers <= 4096 && 1 <= cfg.seconds <= 86400
  }

  /** `events` names the channel of the child this worker was created for. */
  datatype Worker = Worker(events: nat, started: Option<nat>, killed: bool, born: nat)

  /** Position in the loop body; `todo` holds the workers an inner loop has not visited. */
  datatype Phase =
    | Top
    | Spawning
    | Polling
    | Stamping(todo: set<Pid>)
    | Signaling
    | Notifying(todo: set<Pid>)
    | Timing
    | Killing(now: nat, todo: set<Pid>)
    | Reaping
    | Testing
    | Done

  datatype Manager = Manager(
    workers: map<Pid, Worker>, draining: Option<nat>, retryAt: nat, failures: nat,
    ready: bool, fatal: bool, at: Phase)

  datatype State = State(cfg: Config, k: Kernel, m: Manager)

  datatype PollResult = Woken | Interrupted | Failed

  datatype Call =
    | Begin                      // the guard at the top of the loop
    | Fork(pid: Pid)
    | ForkFails
    | Poll(result: PollResult)
    | Receive(pid: Pid)
    | ReadSignal(signal: Option<Signal>)
    | Tell(pid: Pid)             // SIGUSR1
    | ReadClock
    | Check(pid: Pid)            // the kill loop's visit of one worker
    | Wait(zombie: Option<Pid>)
    | Test                       // the exit test at the bottom

  datatype Action = Env(event: Event) | Sys(call: Call)

  // ---- Arithmetic of the loop

  function Pow2(n: nat): nat { if n == 0 then 1 else 2 * Pow2(n - 1) }

  function SaturatingInc(n: nat): nat { if n < U32_MAX then n + 1 else n }

  function SaturatingSub(a: nat, b: nat): nat { if a >= b then a - b else 0 }

  /** (100u64 << failures.min(6)).min(5000), in milliseconds. */
  function BackoffMs(failures: nat): nat { Min(100 * Pow2(Min(failures, 6)), 5000) }

  function Backoff(failures: nat): nat { BackoffMs(failures) * MILLISECOND }

  /** config.timeout.as_nanos() as u64 */
  function Timeout(cfg: Config): nat { ToU64(cfg.seconds * SECOND) }

  function GetOrInsert(o: Option<nat>, n: nat): Option<nat> { if o.Some? then o else Some(n) }

  predicate Expired(cfg: Config, now: nat, started: Option<nat>) {
    started.Some? && SaturatingSub(now, started.value) >= Timeout(cfg)
  }

  predicate Overdue(draining: Option<nat>, clock: nat) {
    draining.Some? && clock >= draining.value
  }

  /** What the reap loop counts as a startup failure. */
  predicate StartupFailure(w: Worker, status: Status, clock: nat) {
    Abnormal(status) && w.started == None && clock - w.born < SECOND
  }

  // ---- Inner loops with nothing left to visit fall through to the next phase

  function StampPhase(todo: set<Pid>): Phase { if todo == {} then Signaling else Stamping(todo) }

  function NotifyPhase(todo: set<Pid>): Phase { if todo == {} then Signaling else Notifying(todo) }

  function KillPhase(now: nat, todo: set<Pid>): Phase { if todo == {} then Reaping else Killing(now, todo) }

  /** The spawn loop's guard; leaving the loop with a full pool prints the ready line. */
  function SpawnGuard(cfg: Config, m: Manager): Manager {
    if |m.workers| < cfg.workers then m.(at := Spawning)
    else m.(at := Polling, ready := m.ready || |m.workers| == cfg.workers)
  }

  function Fail(m: Manager, clock: nat): Manager {
    var failures := SaturatingInc(m.failures);
    m.(failures := failures, retryAt := clock + Backoff(failures))
  }

  // ---- One system call

  predicate Enabled(s: State, c: Call) {
    match c
    case Begin => s.m.at == Top
    case Fork(pid) => s.m.at == Spawning && pid > 0 && pid !in s.k.children
    case ForkFails => s.m.at == Spawning
    case Poll(_) => s.m.at == Polling
    case Receive(pid) => s.m.at.Stamping? && pid in s.m.at.todo && pid in s.m.workers && pid in s.k.children
    case ReadSignal(signal) =>
      s.m.at == Signaling && if signal.Some? then signal.value in s.k.pending else s.k.pending == {}
    case Tell(pid) => s.m.at.Notifying? && pid in s.m.at.todo
    case ReadClock => s.m.at == Timing
    case Check(pid) => s.m.at.Killing? && pid in s.m.at.todo && pid in s.m.workers
    case Wait(pid) =>
      s.m.at == Reaping &&
      if pid.Some? then pid.value in s.k.children && s.k.children[pid.value].status.Some?
      else forall p :: p in s.k.children ==> s.k.children[p].status == None
    case Test => s.m.at == Testing
  }

  function DoBegin(s: State): State {
    if s.m.draining == None && s.k.clock >= s.m.retryAt then s.(m := SpawnGuard(s.cfg, s.m)) else s.(m := s.m.(at := Polling))
  }

  /** The child and the worker watching it; the parent keeps the channel's read end. */
  function DoFork(s: State, pid: Pid): State {
    var worker := Worker(s.k.forked, None, false, s.k.clock);
    s.(k := s.k.(children := s.k.children[pid := Newborn(s.k.forked)], forked := s.k.forked + 1),
       m := SpawnGuard(s.cfg, s.m.(workers := s.m.workers[pid := worker])))
  }

  function DoPoll(s: State, result: PollResult): State {
    var m := s.m.(at := StampPhase(s.m.workers.Keys));
    s.(m := if result == Failed then m.(fatal := true, draining := Some(s.k.clock)) else m)
  }

  /** One recv: a stamp is taken off the channel and kept if it is the first, an empty channel
      ends the visit. */
  function DoReceive(s: State, pid: Pid): State
    requires pid in s.k.children && pid in s.m.workers && s.m.at.Stamping?
  {
    var child, worker := s.k.children[pid], s.m.workers[pid];
    if child.channel == [] then s.(m := s.m.(at := StampPhase(s.m.at.todo - {pid})))
    else
      var started := GetOrInsert(worker.started, child.channel[0]);
      s.(k := s.k.(children := s.k.children[pid := child.(channel := child.channel[1..])]),
         m := s.m.(workers := s.m.workers[pid := worker.(started := started)]))
  }

  function DoSignal(s: State, signal: Option<Signal>): State {
    if signal == None then s.(m := s.m.(at := Timing)) else
    var k := s.k.(pending := s.k.pending - {signal.value});
    if signal.value != Term && signal.value != Int then s.(k := k)
    else if s.m.draining.Some? then s.(k := k, m := s.m.(draining := Some(k.clock)))
    else s.(k := k, m := s.m.(draining := Some(k.clock + GRACE), at := NotifyPhase(s.m.workers.Keys)))
  }

  function DoTell(s: State, pid: Pid): State
    requires s.m.at.Notifying?
  {
    s.(k := Notify(s.k, pid), m := s.m.(at := NotifyPhase(s.m.at.todo - {pid})))
  }

  predicate MustKill(s: State, pid: Pid)
    requires pid in s.m.workers && s.m.at.Killing?
  {
    var worker := s.m.workers[pid];
    !worker.killed && (Expired(s.cfg, s.m.at.now, worker.started) || Overdue(s.m.draining, s.k.clock))
  }

  function DoCheck(s: State, pid: Pid): State
    requires pid in s.m.workers && s.m.at.Killing?
  {
    var at := KillPhase(s.m.at.now, s.m.at.todo - {pid});
    if MustKill(s, pid)
    then s.(k := Kill(s.k, pid), m := s.m.(workers := s.m.workers[pid := s.m.workers[pid].(killed := true)], at := at))
    else s.(m := s.m.(at := at))
  }

  /** waitpid frees the pid; a pid that is not a worker's would be ignored. */
  function DoReap(s: State, pid: Pid): State
    requires pid in s.k.children && s.k.children[pid].status.Some?
  {
    var k := s.k.(children := s.k.children - {pid}, reaped := s.k.reaped + 1);
    if pid !in s.m.workers then s.(k := k) else
    var m := s.m.(workers := s.m.workers - {pid});
    s.(k := k,
       m := if StartupFailure(s.m.workers[pid], s.k.children[pid].status.value, k.clock)
            then Fail(m, k.clock) else m.(failures := 0))
  }

  function Perform(s: State, c: Call): State
    requires Enabled(s, c)
  {
    match c
    case Begin => DoBegin(s)
    case Fork(pid) => DoFork(s, pid)
    case ForkFails => s.(m := Fail(s.m, s.k.clock).(at := Polling))
    case Poll(result) => DoPoll(s, result)
    case Receive(pid) => DoReceive(s, pid)
    case ReadSignal(signal) => DoSignal(s, signal)
    case Tell(pid) => DoTell(s, pid)
    case ReadClock => s.(m := s.m.(at := KillPhase(ToU64(s.k.clock), s.m.workers.Keys)))
    case Check(pid) => DoCheck(s, pid)
    case Wait(zombie) => if zombie.Some? then DoReap(s, zombie.value) else s.(m := s.m.(at := Testing))
    case Test => s.(m := s.m.(at := if s.m.draining.Some? && s.m.workers == map[] then Done else Top))
  }

  function Next(s: State, a: Action): State {
    match a
    case Env(e) => s.(k := Happen(s.k, e))
    case Sys(c) => if Enabled(s, c) then Perform(s, c) else s
  }

  /** The state after a schedule; an action that is not enabled changes nothing. */
  function Exec(s: State, acts: seq<Action>): State {
    if acts == [] then s else Next(Exec(s, acts[..|acts| - 1]), acts[|acts| - 1])
  }

  /** Running one schedule after another is running them joined. */
  lemma ExecSplit(s: State, a: seq<Action>, b: seq<Action>)
    ensures Exec(s, a + b) == Exec(Exec(s, a), b)
  {
    if b == [] {
      assert a + b == a;
    } else {
      assert (a + b)[..|a + b| - 1] == a + b[..|b| - 1];
    }
  }

  /** supervise starts with no worker and no child. */
  function Start(cfg: Config, k: Kernel): State {
    State(cfg, k, Manager(map[], None, k.clock, 0, false, false, Top))
  }

  predicate Fresh(k: Kernel) {
    k.children == map[] && k.forked == 0 && k.reaped == 0 && k.clock < CLOCK_LIMIT && k.capacity >= 1
  }
}
