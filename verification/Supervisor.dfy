/** src/manager.rs as it is written: a loop that updates its pool of workers in place and talks
    to the operating system one system call at a time. Every method is proved to take exactly
    the steps of the protocol, whatever happens outside between two calls. */
module Supervisor {
  import opened Basics
  import opened Zygote
  import opened Protocol
  import opened Invariant
  import opened Drain

  // ---- The operating system

  /** What happens before the next system call acts, and how the kernel then decides: the pid a
      fork gets (0 or a pid in use: the fork fails), or the outcome of a poll. */
  datatype Slot = Slot(events: seq<Event>, choice: nat)

  function Rest(script: seq<Slot>): seq<Slot> { if script == [] then [] else script[1..] }

  function PollOutcome(choice: nat): PollResult {
    if choice == 0 then Woken else if choice == 1 then Interrupted else Failed
  }

  /** How the next poll turns out. */
  function Answer(script: seq<Slot>): PollResult { if script == [] then Woken else PollOutcome(script[0].choice) }

  function HappenAll(k: Kernel, events: seq<Event>): Kernel {
    if events == [] then k else Happen(HappenAll(k, events[..|events| - 1]), events[|events| - 1])
  }

  lemma HappenNone(k: Kernel)
    ensures HappenAll(k, []) == k
  {}

  function Envs(events: seq<Event>): seq<Action> {
    seq(|events|, i requires 0 <= i < |events| => Env(events[i]))
  }

  lemma {:induction false} ExecEnvs(s: State, events: seq<Event>)
    ensures Exec(s, Envs(events)) == s.(k := HappenAll(s.k, events))
  {
    if events == [] {
    } else {
      ExecEnvs(s, events[..|events| - 1]);
      assert Envs(events)[..|events| - 1] == Envs(events[..|events| - 1]);
    }
  }

  /** The operating system under a script of outside events. Any script is allowed; an exhausted
      script is a world in which nothing else happens. */
  class System {
    var k: Kernel
    var script: seq<Slot>

    constructor (k: Kernel, script: seq<Slot>)
      ensures this.k == k && this.script == script
    {
      this.k, this.script := k, script;
    }

    ghost function Events(): seq<Event>
      reads this
    {
      if script == [] then [] else script[0].events
    }

    /** Other processes run. */
    method Interleave() returns (choice: nat)
      modifies this
      ensures choice == if old(script) == [] then 0 else old(script)[0].choice
      ensures k == HappenAll(old(k), old(Events()))
      ensures script == Rest(old(script))
    {
      choice := 0;
      if script != [] {
        var i := 0;
        var slot := script[0];
        while i < |slot.events|
          invariant 0 <= i <= |slot.events|
          invariant k == HappenAll(old(k), slot.events[..i]) && script == old(script)
        {
          assert slot.events[..i + 1][..i] == slot.events[..i];
          k := Happen(k, slot.events[i]);
          i := i + 1;
        }
        assert slot.events[..i] == slot.events;
        choice := slot.choice;
        script := script[1..];
      }
    }

    method Clock() returns (now: nat)
      modifies this
      ensures k == HappenAll(old(k), old(Events())) && now == k.clock
      ensures script == Rest(old(script))
    {
      var _ := Interleave();
      now := k.clock;
    }

    /** socketpair and fork: the child's pid and the channel to it, or an error; and the time. */
    method Fork() returns (pid: Option<Pid>, events: nat, now: nat)
      modifies this
      ensures var m := HappenAll(old(k), old(Events()));
        && now == m.clock && events == m.forked
        && (pid == None ==> k == m)
        && (pid.Some? ==>
              && pid.value > 0 && pid.value !in m.children
              && k == m.(children := m.children[pid.value := Newborn(m.forked)], forked := m.forked + 1))
      ensures script == Rest(old(script))
    {
      var choice := Interleave();
      now, events := k.clock, k.forked;
      if choice == 0 || choice in k.children {
        pid := None;
      } else {
        pid := Some(choice);
        k := k.(children := k.children[choice := Newborn(k.forked)], forked := k.forked + 1);
      }
    }

    method PollAll() returns (result: PollResult, now: nat)
      modifies this
      ensures k == HappenAll(old(k), old(Events())) && now == k.clock
      ensures result == Answer(old(script))
      ensures script == Rest(old(script))
    {
      var choice := Interleave();
      result := PollOutcome(choice);
      now := k.clock;
    }

    /** A non-blocking recv on the channel of the child under this pid. */
    method Receive(pid: Pid) returns (stamp: Option<nat>)
      requires pid in k.children
      modifies this
      ensures var m := HappenAll(old(k), old(Events()));
        && pid in m.children
        && (m.children[pid].channel == [] ==> stamp == None && k == m)
        && (m.children[pid].channel != [] ==>
              && stamp == Some(m.children[pid].channel[0])
              && k == m.(children := m.children[pid := m.children[pid].(channel := m.children[pid].channel[1..])]))
      ensures script == Rest(old(script))
    {
      HappenAllKeys(k, Events());
      var _ := Interleave();
      var child := k.children[pid];
      if child.channel == [] {
        stamp := None;
      } else {
        stamp := Some(child.channel[0]);
        k := k.(children := k.children[pid := child.(channel := child.channel[1..])]);
      }
    }

    /** A read of the signalfd. */
    method ReadSignal() returns (signal: Option<Signal>, now: nat)
      modifies this
      ensures var m := HappenAll(old(k), old(Events()));
        && now == m.clock
        && (m.pending == {} ==> signal == None && k == m)
        && (m.pending != {} ==>
              signal.Some? && signal.value in m.pending && k == m.(pending := m.pending - {signal.value}))
      ensures script == Rest(old(script))
    {
      var _ := Interleave();
      now := k.clock;
      if k.pending == {} {
        signal := None;
      } else {
        var one: Signal :| one in k.pending;
        signal := Some(one);
        k := k.(pending := k.pending - {one});
      }
    }

    method SendUsr1(pid: Pid)
      modifies this
      ensures k == Zygote.Notify(HappenAll(old(k), old(Events())), pid)
      ensures script == Rest(old(script))
    {
      var _ := Interleave();
      k := Zygote.Notify(k, pid);
    }

    method SendKill(pid: Pid)
      modifies this
      ensures k == Kill(HappenAll(old(k), old(Events())), pid)
      ensures script == Rest(old(script))
    {
      var _ := Interleave();
      k := Kill(k, pid);
    }

    /** waitpid(-1, WNOHANG) */
    method WaitAny() returns (zombie: Option<(Pid, Status)>, now: nat)
      modifies this
      ensures var m := HappenAll(old(k), old(Events()));
        && now == m.clock
        && (zombie == None ==> k == m && forall p :: p in m.children ==> m.children[p].status == None)
        && (zombie.Some? ==>
              var (pid, status) := zombie.value;
              && pid in m.children && m.children[pid].status == Some(status)
              && k == m.(children := m.children - {pid}, reaped := m.reaped + 1))
      ensures script == Rest(old(script))
    {
      var _ := Interleave();
      now := k.clock;
      if pid: Pid :| pid in k.children && k.children[pid].status.Some? {
        zombie := Some((pid, k.children[pid].status.value));
        k := k.(children := k.children - {pid}, reaped := k.reaped + 1);
      } else {
        zombie := None;
      }
    }
  }

  lemma {:induction false} HappenAllKeys(k: Kernel, events: seq<Event>)
    ensures HappenAll(k, events).children.Keys == k.children.Keys
  {
    if events == [] {
    } else {
      HappenAllKeys(k, events[..|events| - 1]);
    }
  }

  lemma {:induction false} HappenAllClock(k: Kernel, events: seq<Event>)
    ensures HappenAll(k, events).clock >= k.clock
  {
    if events == [] {
    } else {
      HappenAllClock(k, events[..|events| - 1]);
    }
  }

  lemma {:induction false} HappenAllJoined(k: Kernel, a: seq<Event>, b: seq<Event>)
    ensures HappenAll(k, a + b) == HappenAll(HappenAll(k, a), b)
  {
    if b == [] {
      assert a + b == a;
    } else {
      HappenAllJoined(k, a, b[..|b| - 1]);
      assert (a + b)[..|a + b| - 1] == a + b[..|b| - 1];
    }
  }

  // ---- The log of a run

  /** `later` continues `log` without an exit test. */
  ghost predicate Extends(log: seq<Action>, later: seq<Action>) {
    log <= later && Sys(Test) !in later[|log|..]
  }

  lemma ExtendsMore(log: seq<Action>, later: seq<Action>, events: seq<Event>, c: Call)
    requires Extends(log, later) && c != Test
    ensures Extends(log, later + Envs(events) + [Sys(c)])
  {
    var more := Envs(events) + [Sys(c)];
    assert later + Envs(events) + [Sys(c)] == later + more;
    assert (later + more)[|log|..] == later[|log|..] + more;
  }

  lemma ExtendsTrans(a: seq<Action>, b: seq<Action>, c: seq<Action>)
    requires Extends(a, b) && Extends(b, c)
    ensures Extends(a, c)
  {
    assert c[|a|..] == b[|a|..] + c[|b|..];
  }

  /** One more call, after the events that came before it. */
  lemma Logged(start: State, log: seq<Action>, events: seq<Event>, c: Call)
    ensures var s := Exec(start, log);
      Exec(start, log + Envs(events) + [Sys(c)]) == Next(s.(k := HappenAll(s.k, events)), Sys(c))
  {
    ExecSplit(start, log, Envs(events));
    ExecEnvs(Exec(start, log), events);
    var acts := log + Envs(events) + [Sys(c)];
    assert acts[..|acts| - 1] == log + Envs(events);
  }

  lemma ExecOne(s: State, a: Action)
    ensures Exec(s, [a]) == Next(s, a)
  {
    assert [a][..0] == [];
  }

  ghost predicate Least(pid: Pid, pids: set<Pid>) {
    pid in pids && forall q :: q in pids ==> pid <= q
  }

  lemma LeastExists(pids: set<Pid>)
    requires pids != {}
    ensures exists p :: Least(p, pids)
  {
    var p :| p in pids;
    var lower := set q | q in pids && q < p;
    if lower == {} {
      forall q | q in pids ensures p <= q { assert q !in lower; }
      assert Least(p, pids);
    } else {
      assert p !in lower && lower < pids;
      LeastExists(lower);
      var l :| Least(l, lower);
      forall q | q in pids ensures l <= q { assert q < p ==> q in lower; }
      assert Least(l, pids);
    }
  }

  /** A BTreeMap is iterated in ascending order of its keys. */
  method First(todo: set<Pid>) returns (pid: Pid)
    requires todo != {}
    ensures pid in todo && forall q :: q in todo ==> pid <= q
  {
    LeastExists(todo);
    assert exists p :: p in todo && forall q :: q in todo ==> p <= q by {
      var p :| Least(p, todo);
      assert p in todo && forall q :: q in todo ==> p <= q;
    }
    pid :| pid in todo && forall q :: q in todo ==> pid <= q;
  }

  lemma NewKey<T>(m: map<Pid, T>, pid: Pid, t: T)
    requires pid !in m
    ensures |m[pid := t]| == |m| + 1
  {
    assert m[pid := t].Keys == m.Keys + {pid};
    assert |m[pid := t].Keys| == |m.Keys| + 1;
  }

  lemma LostKey<T>(m: map<Pid, T>, pid: Pid)
    requires pid in m
    ensures |m - {pid}| < |m|
  {
    assert (m - {pid}).Keys == m.Keys - {pid};
    assert |(m - {pid}).Keys| < |m.Keys|;
  }

  lemma SameSize<S, T>(a: map<Pid, S>, b: map<Pid, T>)
    requires a.Keys == b.Keys
    ensures |a| == |b|
  {
    assert |a| == |a.Keys| && |b| == |b.Keys|;
  }

  // ---- The manager

  class Loop {
    const cfg: Config
    const os: System
    var workers: map<Pid, Worker>
    var draining: Option<nat>
    var retryAt: nat
    var failures: nat
    var ready: bool
    var fatal: bool
    ghost var at: Phase
    ghost const start: State
    ghost var log: seq<Action>

    /** The state of the protocol this object and its operating system stand for. */
    ghost function Now(): State
      reads this, os
    {
      State(cfg, os.k, Manager(workers, draining, retryAt, failures, ready, fatal, at))
    }

    /** The present state is the one the protocol reaches by the actions logged so far. */
    ghost predicate Valid()
      reads this, os
    {
      Inv(start) && Now() == Exec(start, log)
    }

    lemma Sound()
      requires Valid()
      ensures Inv(Now())
    {
      ExecKeepsInv(start, log);
    }

    lemma Consequences()
      requires Inv(Now())
      ensures workers.Keys == os.k.children.Keys && |workers| <= cfg.workers && os.k.forked == |workers| + os.k.reaped
    {}

    /** What inner loops rely on. */
    lemma Keys()
      requires Valid()
      ensures workers.Keys == os.k.children.Keys && |workers| <= cfg.workers && (at == Spawning ==> |workers| < cfg.workers)
    {
      Sound();
    }

    /** The run begins with the clock read that gives retry_at its first value. */
    constructor (cfg: Config, os: System)
      requires Sane(cfg) && Fresh(os.k)
      ensures Valid() && this.cfg == cfg && this.os == os && log == []
      ensures at == Top && start == Start(cfg, os.k)
    {
      this.cfg, this.os := cfg, os;
      workers, draining, failures, ready, fatal := map[], None, 0, false, false;
      retryAt, at, log, start := os.k.clock, Top, [], Start(cfg, os.k);
      StartOk(cfg, os.k);
    }

    /** Writes down one system call and the events before it; `was` is the state it found. */
    ghost method Record(was: State, events: seq<Event>, c: Call, next: Phase)
      requires was == Exec(start, log) && Inv(start)
      requires var mid := was.(k := HappenAll(was.k, events));
        Next(mid, Sys(c)) == Now().(m := Now().m.(at := next))
      modifies this`log, this`at
      ensures log == old(log) + Envs(events) + [Sys(c)] && at == next && Valid()
    {
      Logged(start, log, events, c);
      log := log + Envs(events) + [Sys(c)];
      at := next;
    }

    /** The guard at the top: a draining manager, or one still backing off, forks nothing. */
    method Begin() returns (spawning: bool)
      requires Valid() && at == Top
      modifies this, os
      ensures Valid() && Extends(old(log), log) && |os.script| <= |old(os.script)|
      ensures workers == old(workers) && draining == old(draining)
      ensures at == (if spawning then Spawning else Polling)
      ensures spawning <==> draining == None && os.k.clock >= retryAt && |workers| < cfg.workers
    {
      hide Exec, Inv, HappenAll;
      ghost var was, events := Now(), if draining == None then os.Events() else [];
      HappenNone(os.k);
      ExtendsMore(log, log, events, Protocol.Begin);
      var open := false;
      if draining == None {
        var now := os.Clock();
        open := now >= retryAt;
      }
      spawning := open && |workers| < cfg.workers;
      if open && |workers| == cfg.workers { ready := true; }
      Record(was, events, Protocol.Begin, if spawning then Spawning else Polling);
    }

    /** One fork: the child joins the pool, or the failure is counted and backed off from. */
    method ForkOne() returns (ok: bool)
      requires Valid() && at == Spawning && |workers| < cfg.workers
      modifies this, os
      ensures Valid() && Extends(old(log), log) && |os.script| <= |old(os.script)|
      ensures draining == old(draining)
      ensures ok ==> |workers| == |old(workers)| + 1 && exists pid: Pid, channel: nat ::
        pid !in old(workers) && workers == old(workers)[pid := Worker(channel, None, false, os.k.clock)]
      ensures !ok ==>
        && workers == old(workers) && retryAt == os.k.clock + Backoff(failures)
        && failures == (if old(failures) < 0xFFFF_FFFF then old(failures) + 1 else old(failures))
      ensures at == (if ok && |workers| < cfg.workers then Spawning else Polling)
    {
      hide Exec, Inv, HappenAll;
      ghost var was, events := Now(), os.Events();
      HappenAllKeys(os.k, events);
      Keys();
      var pid, channel, now := os.Fork();
      ok := pid.Some?;
      if ok {
        ExtendsMore(log, log, events, Protocol.Fork(pid.value));
        Enlist(pid.value, channel, now, was, events);
      } else {
        failures := SaturatingInc(failures);
        retryAt := now + Backoff(failures);
        ExtendsMore(log, log, events, ForkFails);
        Record(was, events, ForkFails, Polling);
      }
    }

    /** A new child joins the pool. */
    method Enlist(pid: Pid, channel: nat, now: nat, ghost was: State, ghost events: seq<Event>)
      requires was == Exec(start, log) && Inv(start) && was.m == Now().m && was.cfg == cfg && at == Spawning
      requires pid > 0 && pid !in workers && |workers| < cfg.workers
      requires var m := HappenAll(was.k, events);
        && pid !in m.children && channel == m.forked && now == m.clock
        && os.k == m.(children := m.children[pid := Newborn(channel)], forked := m.forked + 1)
      modifies this
      ensures Valid() && log == old(log) + Envs(events) + [Sys(Protocol.Fork(pid))]
      ensures |workers| == |old(workers)| + 1 && draining == old(draining)
      ensures workers == old(workers)[pid := Worker(channel, None, false, now)] && os.k == old(os.k)
      ensures at == (if |workers| < cfg.workers then Spawning else Polling)
    {
      hide Exec, Inv, HappenAll;
      NewKey(workers, pid, Worker(channel, None, false, now));
      workers := workers[pid := Worker(channel, None, false, now)];
      if |workers| == cfg.workers { ready := true; }
      Record(was, events, Protocol.Fork(pid), if |workers| < cfg.workers then Spawning else Polling);
    }

    /** Fills the pool; a failed fork ends the round. */
    method SpawnAll()
      requires Valid() && at == Spawning && |workers| < cfg.workers
      modifies this, os
      ensures Valid() && Extends(old(log), log) && at == Polling && |os.script| <= |old(os.script)|
      ensures draining == old(draining)
    {
      hide Exec, Inv, HappenAll;
      var ok := true;
      while ok && |workers| < cfg.workers
        invariant Valid() && Extends(old(log), log) && |os.script| <= |old(os.script)|
        invariant draining == old(draining)
        invariant at == (if ok && |workers| < cfg.workers then Spawning else Polling)
        decreases ok, cfg.workers - |workers|
      {
        ghost var before := log;
        ok := ForkOne();
        ExtendsTrans(old(log), before, log);
      }
    }

    method PollOnce()
      requires Valid() && at == Polling
      modifies this, os
      ensures Valid() && Extends(old(log), log) && at == StampPhase(workers.Keys)
      ensures os.script == Rest(old(os.script)) && workers == old(workers)
      ensures if Answer(old(os.script)) == Failed then fatal && draining == Some(os.k.clock)
              else fatal == old(fatal) && draining == old(draining)
    {
      hide Exec, Inv, HappenAll;
      ghost var was, events := Now(), os.Events();
      var result, now := os.PollAll();
      if result == Failed {
        fatal := true;
        draining := Some(now);
      }
      ExtendsMore(log, log, events, Poll(result));
      Record(was, events, Poll(result), StampPhase(workers.Keys));
    }

    /** Empties one worker's channel, keeping the first stamp. */
    method ReadStamps(pid: Pid, todo: set<Pid>)
      requires Valid() && pid in todo && todo <= workers.Keys && at == Stamping(todo)
      modifies this, os
      ensures Valid() && Extends(old(log), log) && at == StampPhase(todo - {pid})
      ensures workers.Keys == old(workers).Keys && draining == old(draining) && |os.script| <= |old(os.script)|
    {
      hide Exec, Inv, HappenAll;
      Keys();
      var more := true;
      while more
        invariant Valid() && Extends(old(log), log) && |os.script| <= |old(os.script)|
        invariant workers.Keys == old(workers).Keys == os.k.children.Keys && draining == old(draining)
        invariant at == (if more then Stamping(todo) else StampPhase(todo - {pid}))
        decreases more, |os.script|, |os.k.children[pid].channel|
      {
        ghost var was, events, keys := Now(), os.Events(), workers.Keys;
        HappenAllKeys(os.k, events);
        HappenNone(os.k);
        var stamp := os.Receive(pid);
        if stamp.Some? {
          workers := workers[pid := workers[pid].(started := GetOrInsert(workers[pid].started, stamp.value))];
        } else {
          more := false;
        }
        assert workers.Keys == keys;
        ExtendsMore(old(log), log, events, Protocol.Receive(pid));
        Record(was, events, Protocol.Receive(pid), if more then Stamping(todo) else StampPhase(todo - {pid}));
        Keys();
      }
    }

    method ReadAllStamps()
      requires Valid() && at == StampPhase(workers.Keys)
      modifies this, os
      ensures Valid() && Extends(old(log), log) && at == Signaling
      ensures workers.Keys == old(workers).Keys && draining == old(draining) && |os.script| <= |old(os.script)|
    {
      hide Exec, Inv, HappenAll;
      var todo := workers.Keys;
      while todo != {}
        invariant Valid() && Extends(old(log), log) && |os.script| <= |old(os.script)|
        invariant workers.Keys == old(workers).Keys && draining == old(draining)
        invariant todo <= workers.Keys && at == StampPhase(todo)
        decreases |todo|
      {
        var pid := First(todo);
        ghost var before := log;
        ReadStamps(pid, todo);
        ExtendsTrans(old(log), before, log);
        todo := todo - {pid};
      }
    }

    /** SIGUSR1 to every child. */
    method TellAll()
      requires Valid() && at == NotifyPhase(workers.Keys) && draining.Some?
      modifies this, os
      ensures Valid() && Extends(old(log), log) && at == Signaling
      ensures workers == old(workers) && draining == old(draining) && |os.script| <= |old(os.script)|
      ensures old(os.script) == [] ==> os.k.pending == old(os.k.pending)
    {
      hide Exec, Inv, HappenAll;
      var todo := workers.Keys;
      while todo != {}
        invariant Valid() && Extends(old(log), log) && |os.script| <= |old(os.script)|
        invariant workers == old(workers) && draining == old(draining)
        invariant todo <= workers.Keys && at == NotifyPhase(todo)
        invariant old(os.script) == [] ==> os.k.pending == old(os.k.pending)
        decreases |todo|
      {
        var pid := First(todo);
        ghost var was, events := Now(), os.Events();
        HappenNone(os.k);
        os.SendUsr1(pid);
        ExtendsMore(old(log), log, events, Tell(pid));
        Record(was, events, Tell(pid), NotifyPhase(todo - {pid}));
        todo := todo - {pid};
      }
    }

    /** Takes one pending signal, if there is one: the first SIGTERM or SIGINT starts the drain,
        the next one ends its grace period. */
    method TakeSignal() returns (signal: Option<Signal>)
      requires Valid() && at == Signaling
      modifies this, os
      ensures Valid() && Extends(old(log), log) && at == (if signal.Some? then Signaling else Timing)
      ensures workers == old(workers)
      ensures var mid := HappenAll(old(os.k), old(os.Events()));
        && (if signal.Some? then signal.value in mid.pending else mid.pending == {})
        && draining == (
             if signal != Some(Term) && signal != Some(Int) then old(draining)
             else if old(draining) == None then Some(mid.clock + 30_000_000_000)
             else Some(mid.clock))
      ensures |os.script| <= |old(os.script)|
      ensures old(os.script) != [] ==> |os.script| < |old(os.script)|
      ensures signal.Some? && old(os.script) == [] ==> |os.k.pending| < |old(os.k.pending)|
    {
      hide Exec, Inv, HappenAll;
      ghost var was, events, before := Now(), os.Events(), log;
      HappenNone(os.k);
      var now;
      signal, now := os.ReadSignal();
      ExtendsMore(log, log, events, Protocol.ReadSignal(signal));
      if signal != Some(Term) && signal != Some(Int) {
        Record(was, events, Protocol.ReadSignal(signal), if signal.Some? then Signaling else Timing);
      } else if draining.Some? {
        draining := Some(now);
        Record(was, events, Protocol.ReadSignal(signal), Signaling);
      } else {
        draining := Some(now + GRACE);
        Record(was, events, Protocol.ReadSignal(signal), NotifyPhase(workers.Keys));
        ghost var told := log;
        TellAll();
        ExtendsTrans(before, told, log);
      }
    }

    /** Takes every pending signal. */
    method HandleSignals()
      requires Valid() && at == Signaling
      modifies this, os
      ensures Valid() && Extends(old(log), log) && at == Timing
      ensures workers == old(workers) && (old(draining).Some? ==> draining.Some?)
      ensures |os.script| <= |old(os.script)|
    {
      hide Exec, Inv, HappenAll;
      var more := true;
      while more
        invariant Valid() && Extends(old(log), log) && |os.script| <= |old(os.script)|
        invariant workers == old(workers) && (old(draining).Some? ==> draining.Some?)
        invariant at == (if more then Signaling else Timing)
        decreases more, |os.script|, |os.k.pending|
      {
        ghost var before := log;
        var signal := TakeSignal();
        more := signal.Some?;
        ExtendsTrans(old(log), before, log);
      }
    }

    /** One worker's visit by the kill loop. */
    method Enforce(pid: Pid, now: nat, todo: set<Pid>)
      requires Valid() && pid in todo && todo <= workers.Keys && at == Killing(now, todo)
      modifies this, os
      ensures Valid() && Extends(old(log), log) && at == KillPhase(now, todo - {pid})
      ensures workers.Keys == old(workers).Keys && draining == old(draining) && |os.script| <= |old(os.script)|
      ensures Expired(cfg, now, old(workers)[pid].started) ==> workers[pid].killed
    {
      hide Exec, Inv, HappenAll, Expired;
      Keys();
      ghost var was, first := Now(), if draining.Some? then os.Events() else [];
      HappenNone(os.k);
      var worker := workers[pid];
      var expired := Expired(cfg, now, worker.started);
      var overdue := false;
      if draining.Some? {
        var clock := os.Clock();
        overdue := clock >= draining.value;
      }
      if !worker.killed && (expired || overdue) {
        ghost var second := os.Events();
        HappenAllJoined(was.k, first, second);
        HappenAllClock(os.k, second);
        os.SendKill(pid);
        workers := workers[pid := worker.(killed := true)];
        ExtendsMore(log, log, first + second, Check(pid));
        Record(was, first + second, Check(pid), KillPhase(now, todo - {pid}));
      } else {
        ExtendsMore(log, log, first, Check(pid));
        Record(was, first, Check(pid), KillPhase(now, todo - {pid}));
      }
    }

    method EnforceAll()
      requires Valid() && at == Timing
      modifies this, os
      ensures Valid() && Extends(old(log), log) && at == Reaping
      ensures workers.Keys == old(workers).Keys && draining == old(draining) && |os.script| <= |old(os.script)|
    {
      hide Exec, Inv, HappenAll;
      ghost var was, events := Now(), os.Events();
      var clock := os.Clock();
      var now := ToU64(clock);
      ExtendsMore(log, log, events, ReadClock);
      Record(was, events, ReadClock, KillPhase(now, workers.Keys));
      var todo := workers.Keys;
      while todo != {}
        invariant Valid() && Extends(old(log), log) && |os.script| <= |old(os.script)|
        invariant workers.Keys == old(workers).Keys && draining == old(draining)
        invariant todo <= workers.Keys && at == KillPhase(now, todo)
        decreases |todo|
      {
        var pid := First(todo);
        ghost var before := log;
        Enforce(pid, now, todo);
        ExtendsTrans(old(log), before, log);
        todo := todo - {pid};
      }
    }

    /** A startup failure is counted and backed off from, any other exit clears the count. */
    method CountExit(worker: Worker, status: Status, now: nat)
      modifies this`failures, this`retryAt
      ensures if status != Exited(0) && worker.started == None && now - worker.born < 1_000_000_000
              then failures == (if old(failures) < 0xFFFF_FFFF then old(failures) + 1 else old(failures)) && retryAt == now + Backoff(failures)
              else failures == 0 && retryAt == old(retryAt)
    {
      if StartupFailure(worker, status, now) {
        failures := SaturatingInc(failures);
        retryAt := now + Backoff(failures);
      } else {
        failures := 0;
      }
    }

    /** A reaped child leaves the pool. */
    method Bury(pid: Pid, status: Status, now: nat, ghost was: State, ghost events: seq<Event>)
      requires was == Exec(start, log) && Inv(start) && was.m == Now().m && was.cfg == cfg && at == Reaping
      requires pid in workers
      requires var m := HappenAll(was.k, events);
        && pid in m.children && m.children[pid].status == Some(status) && now == m.clock
        && os.k == m.(children := m.children - {pid}, reaped := m.reaped + 1)
      modifies this
      ensures Valid() && log == old(log) + Envs(events) + [Sys(Wait(Some(pid)))]
      ensures at == Reaping && workers == old(workers) - {pid} && draining == old(draining)
    {
      hide Exec, Inv, HappenAll;
      CountExit(workers[pid], status, now);
      workers := workers - {pid};
      Record(was, events, Wait(Some(pid)), Reaping);
    }

    /** One waitpid: no zombie, or a worker less and its exit classified. */
    method ReapOne() returns (more: bool)
      requires Valid() && at == Reaping
      modifies this, os
      ensures Valid() && Extends(old(log), log) && at == (if more then Reaping else Testing)
      ensures workers.Keys <= old(workers).Keys && draining == old(draining) && os.script == Rest(old(os.script))
      ensures more ==> |os.k.children| < |old(os.k.children)|
      ensures !more ==> forall p :: p in workers ==> p in os.k.children && os.k.children[p].status == None
    {
      hide Exec, Inv, HappenAll;
      ghost var was, events := Now(), os.Events();
      ghost var mid := HappenAll(os.k, events).children;
      HappenAllKeys(os.k, events);
      Keys();
      var zombie, now := os.WaitAny();
      if zombie == None {
        more := false;
        ExtendsMore(log, log, events, Wait(None));
        Record(was, events, Wait(None), Testing);
      } else {
        more := true;
        var (pid, status) := zombie.value;
        LostKey(mid, pid);
        SameSize(mid, old(os.k.children));
        ExtendsMore(log, log, events, Wait(Some(pid)));
        Bury(pid, status, now, was, events);
      }
    }

    /** Collects every zombie. */
    method ReapAll()
      requires Valid() && at == Reaping
      modifies this, os
      ensures Valid() && Extends(old(log), log) && at == Testing
      ensures workers.Keys <= old(workers).Keys && draining == old(draining) && |os.script| <= |old(os.script)|
      ensures forall p :: p in workers ==> p in os.k.children && os.k.children[p].status == None
    {
      hide Exec, Inv, HappenAll;
      var more := true;
      while more
        invariant Valid() && Extends(old(log), log) && |os.script| <= |old(os.script)|
        invariant workers.Keys <= old(workers).Keys && draining == old(draining)
        invariant at == (if more then Reaping else Testing)
        invariant !more ==> forall p :: p in workers ==> p in os.k.children && os.k.children[p].status == None
        decreases more, |os.script|, |os.k.children|
      {
        ghost var before := log;
        more := ReapOne();
        ExtendsTrans(old(log), before, log);
      }
    }

    /** The loop body down to its exit test. */
    method Body()
      requires Valid() && at == Top
      modifies this, os
      ensures Valid() && Extends(old(log), log) && at == Testing
      ensures old(os.script) != [] ==> |os.script| < |old(os.script)|
    {
      hide Exec, Inv, HappenAll;
      var spawning := Begin();
      ghost var l1 := log;
      if spawning {
        SpawnAll();
        ExtendsTrans(old(log), l1, log);
      }
      ghost var l2 := log;
      PollOnce();
      ExtendsTrans(old(log), l2, log);
      ghost var l3 := log;
      ReadAllStamps();
      ExtendsTrans(old(log), l3, log);
      ghost var l4 := log;
      HandleSignals();
      ExtendsTrans(old(log), l4, log);
      ghost var l5 := log;
      EnforceAll();
      ExtendsTrans(old(log), l5, log);
      ghost var l6 := log;
      ReapAll();
      ExtendsTrans(old(log), l6, log);
    }

    method ExitTest() returns (done: bool)
      requires Valid() && at == Testing
      modifies this
      ensures Valid() && log == old(log) + [Sys(Test)]
      ensures at == (if done then Done else Top) && (done <==> draining.Some? && workers == map[])
    {
      hide Exec, Inv, HappenAll;
      ghost var was := Now();
      done := draining.Some? && workers == map[];
      HappenNone(os.k);
      Record(was, [], Test, if done then Done else Top);
    }

    /** One iteration of the loop in supervise: what it logs is one pass of the protocol. */
    method Tick() returns (done: bool, ghost body: seq<Action>)
      requires Valid() && at == Top
      modifies this, os
      ensures Valid() && log == old(log) + body + [Sys(Test)] && Pass(old(Now()), body)
      ensures Now() == After(old(Now()), body)
      ensures at == (if done then Done else Top) && (done <==> draining.Some? && workers == map[])
      ensures old(os.script) != [] ==> |os.script| < |old(os.script)|
      ensures workers.Keys == os.k.children.Keys && |workers| <= cfg.workers
      ensures os.k.forked == |workers| + os.k.reaped
    {
      hide Exec, Inv, HappenAll;
      Body();
      ghost var tested := Now();
      body := log[|old(log)|..];
      assert log == old(log) + body;
      ExecSplit(start, old(log), body);
      assert tested == Exec(old(Now()), body);
      done := ExitTest();
      ExecSplit(start, old(log) + body, [Sys(Test)]);
      ExecOne(tested, Sys(Test));
      Sound();
      Consequences();
    }

    /** supervise, as far as the script reaches: the loop ends by its exit test or runs out of
        world. When it returns, every child ever forked has been reaped. */
    method Supervise() returns (returned: bool)
      requires Valid() && at == Top
      modifies this, os
      ensures Valid()
      ensures !returned ==> os.script == []
      ensures returned ==> draining.Some? && workers == map[] && os.k.children == map[] && os.k.reaped == os.k.forked
    {
      returned := false;
      while !returned && os.script != []
        invariant Valid() && (if returned then at == Done else at == Top)
        invariant returned ==> draining.Some? && workers == map[] && os.k.children.Keys == {} && os.k.reaped == os.k.forked
        decreases |os.script| + (if returned then 0 else 1)
      {
        ghost var body;
        returned, body := Tick();
      }
    }
  }
}
