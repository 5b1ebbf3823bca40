/** Safety of the zygote protocol over whole runs. A child is named by its pid and its identity,
    because the kernel may hand a reaped child's pid to a later one. */
module Safety {
  import opened Basics
  import opened Zygote
  import opened Protocol
  import opened Invariant

  ghost predicate Is(k: Kernel, pid: Pid, id: nat) {
    pid in k.children && k.children[pid].id == id
  }

  /** What the invariant says of one pid. */
  ghost predicate OkAt(s: State, pid: Pid) {
    pid in s.k.children ==> pid in s.m.workers && Linked(s.m.workers[pid], s.k.children[pid], s.k.clock)
  }

  lemma Inspect(s: State, pid: Pid)
    requires Inv(s)
    ensures OkAt(s, pid)
  {}

  lemma KnownId(s: State, pid: Pid)
    requires Inv(s) && pid in s.k.children
    ensures s.k.children[pid].id < s.k.forked
  {}

  predicate Concerns(e: Event, pid: Pid) {
    !e.Advance? && !e.SignalManager? && e.pid == pid
  }

  /** An event concerns one child at most. */
  lemma EventAt(s: State, e: Event, pid: Pid)
    ensures var k := Next(s, Env(e)).k;
      && (pid in k.children <==> pid in s.k.children)
      && k.forked == s.k.forked
      && (pid in k.children ==>
            (k.children[pid] == if Concerns(e, pid) && s.k.children[pid].status == None
                                then React(s.k.children[pid], e, s.k.clock, s.k.capacity) else s.k.children[pid]))
  {}

  // ---- No drain signal is lost

  ghost predicate Noticed(c: Child, signal: Signal) {
    signal in c.pending || Handling(c, signal) || c.drain
  }

  ghost predicate Heeds(k: Kernel, pid: Pid, id: nat, signal: Signal) {
    && id < k.forked
    && (Is(k, pid, id) && Alive(k, pid) ==> Noticed(k.children[pid], signal))
  }

  lemma HandlerHeeds(c: Child, signal: Signal)
    requires c.frames != [] && Noticed(c, signal) && (Flagged(c) ==> c.drain)
    ensures Noticed(Handler(c), signal)
  {
    assert c.frames[|c.frames| - 1] in c.frames;
  }

  lemma DeliveryHeeds(c: Child, sent: Signal, signal: Signal)
    requires Noticed(c, signal) && signal != Chld
    ensures var c' := Delivery(c, sent); c'.status == None ==> Noticed(c', signal)
  {
    var c' := Delivery(c, sent);
    assert c'.frames == c.frames || Frame(sent, false) in c'.frames;
    assert forall f :: f in c.frames ==> f in c'.frames;
  }

  lemma MainHeeds(c: Child, choice: Choice, clock: nat, capacity: nat, signal: Signal)
    requires Noticed(c, signal)
    ensures Noticed(Main(c, choice, clock, capacity), signal)
  {
    hide Handling, Main;
    MainKeeps(c, choice, clock, capacity);
    SameHandling(c, Main(c, choice, clock, capacity), signal);
  }

  lemma {:induction false} MainKeeps(c: Child, choice: Choice, clock: nat, capacity: nat)
    ensures var c' := Main(c, choice, clock, capacity);
      c'.pending == c.pending && c'.drain == c.drain && c'.frames == c.frames
  {
    hide ToU64;
    match c.at
    case Boot =>
    case Accepting =>
    case Serve =>
    case Announce(_) =>
    case _ =>
  }

  lemma SameHandling(c: Child, c': Child, signal: Signal)
    requires c'.frames == c.frames
    ensures Handling(c', signal) == Handling(c, signal)
  {}

  lemma ReactHeeds(c: Child, e: Event, clock: nat, capacity: nat, signal: Signal)
    requires c.status == None && signal != Chld && Noticed(c, signal) && (Flagged(c) ==> c.drain)
    ensures var c' := React(c, e, clock, capacity); c'.status == None ==> Noticed(c', signal)
  {
    var c' := React(c, e, clock, capacity);
    match e
    case Handle(_) => if c.frames != [] { HandlerHeeds(c, signal); }
    case Deliver(_, sent) => DeliveryHeeds(c, sent, signal);
    case Run(_, choice) => MainHeeds(c, choice, clock, capacity, signal);
    case _ => assert c'.frames == c.frames;
  }

  /** A system call leaves what a living child has noticed alone. */
  lemma CallHeeds(s: State, c: Call, pid: Pid, id: nat, signal: Signal)
    requires Heeds(s.k, pid, id, signal) && Enabled(s, c)
    ensures Heeds(Perform(s, c).k, pid, id, signal)
  {}

  lemma NextHeeds(s: State, a: Action, pid: Pid, id: nat, signal: Signal)
    requires OkAt(s, pid) && signal != Chld && Heeds(s.k, pid, id, signal)
    ensures Heeds(Next(s, a).k, pid, id, signal)
  {
    match a
    case Sys(c) => if Enabled(s, c) { CallHeeds(s, c, pid, id, signal); }
    case Env(e) =>
      EventAt(s, e, pid);
      if Concerns(e, pid) && Is(s.k, pid, id) && Alive(s.k, pid) {
        ReactHeeds(s.k.children[pid], e, s.k.clock, s.k.capacity, signal);
      }
  }

  lemma {:induction false} ExecHeeds(s: State, acts: seq<Action>, pid: Pid, id: nat, signal: Signal)
    requires Inv(s) && signal != Chld && Heeds(s.k, pid, id, signal)
    ensures Heeds(Exec(s, acts).k, pid, id, signal)
  {
    if acts == [] {
    } else {
      var prefix := acts[..|acts| - 1];
      ExecHeeds(s, prefix, pid, id, signal);
      ExecKeepsInv(s, prefix);
      Inspect(Exec(s, prefix), pid);
      NextHeeds(Exec(s, prefix), acts[|acts| - 1], pid, id, signal);
    }
  }

  /** A SIGUSR1, SIGTERM or SIGINT pending at a child stays pending, is being handled, or has set
      drain_requested, for as long as that child lives; and outside the handler a living child
      with drain_requested set is serving a connection. */
  lemma {:induction false} NoDrainLost(s: State, acts: seq<Action>, pid: Pid, signal: Signal)
    requires Inv(s) && signal != Chld
    requires Alive(s.k, pid) && signal in s.k.children[pid].pending
    ensures var t := Exec(s, acts);
      Is(t.k, pid, s.k.children[pid].id) && Alive(t.k, pid) ==>
        var c := t.k.children[pid];
        && Noticed(c, signal)
        && (c.drain && c.frames == [] ==> c.active)
  {
    ExecHeeds(s, acts, pid, s.k.children[pid].id, signal);
    ExecKeepsInv(s, acts);
    Inspect(Exec(s, acts), pid);
  }

  // ---- A drained child never starts serving

  /** The signal has reached the child before its flag was raised: it is being handled, was
      handled, or waits for the sigprocmask call every child makes before its first accept. */
  ghost predicate Doomed(c: Child) {
    && !c.active
    && (|| c.drain
        || c.frames != []
        || ((c.masked || c.at.Unblocking?) && exists g :: g in c.pending && g != Chld))
  }

  lemma ReactDoomed(c: Child, e: Event, clock: nat, capacity: nat)
    requires ChildOk(c, clock) && c.status == None && Doomed(c)
    ensures var c' := React(c, e, clock, capacity); !c'.active && (c'.status == None ==> Doomed(c'))
  {
    var c' := React(c, e, clock, capacity);
    if c.frames == [] && !c.drain {
      var g :| g in c.pending && g != Chld;
      match e
      case Deliver(_, signal) => assert c'.frames != [] || g in c'.pending;
      case _ => assert g in c'.pending;
    }
  }

  ghost predicate Barren(s: State, pid: Pid, id: nat) {
    && id < s.k.forked
    && (Is(s.k, pid, id) ==>
          !s.k.children[pid].active && (s.k.children[pid].status == None ==> Doomed(s.k.children[pid])))
  }

  lemma CallBarren(s: State, c: Call, pid: Pid, id: nat)
    requires Barren(s, pid, id) && Enabled(s, c)
    ensures Barren(Perform(s, c), pid, id)
  {}

  lemma NextBarren(s: State, a: Action, pid: Pid, id: nat)
    requires OkAt(s, pid) && Barren(s, pid, id)
    ensures Barren(Next(s, a), pid, id)
  {
    match a
    case Sys(c) => if Enabled(s, c) { CallBarren(s, c, pid, id); }
    case Env(e) => EventBarren(s, e, pid, id);
  }

  lemma ReactKeepsId(c: Child, e: Event, clock: nat, capacity: nat)
    ensures React(c, e, clock, capacity).id == c.id
  {}

  lemma EventBarren(s: State, e: Event, pid: Pid, id: nat)
    requires OkAt(s, pid) && Barren(s, pid, id)
    ensures Barren(Next(s, Env(e)), pid, id)
  {
    hide React, Doomed, Next, Happen;
    EventAt(s, e, pid);
    if pid in s.k.children { ReactKeepsId(s.k.children[pid], e, s.k.clock, s.k.capacity); }
    if Concerns(e, pid) && Is(s.k, pid, id) && Alive(s.k, pid) {
      ReactDoomed(s.k.children[pid], e, s.k.clock, s.k.capacity);
    }
  }

  lemma {:induction false} ExecBarren(s: State, acts: seq<Action>, pid: Pid, id: nat)
    requires Inv(s) && Barren(s, pid, id)
    ensures Barren(Exec(s, acts), pid, id)
  {
    if acts == [] {
    } else {
      var prefix := acts[..|acts| - 1];
      ExecBarren(s, prefix, pid, id);
      ExecKeepsInv(s, prefix);
      Inspect(Exec(s, prefix), pid);
      NextBarren(Exec(s, prefix), acts[|acts| - 1], pid, id);
    }
  }

  /** A drain signal that reaches a child before its flag, in particular one sent between fork
      and handler installation, means the child lets no connection through and sends no stamp. */
  lemma {:induction false} DrainedChildNeverServes(s: State, acts: seq<Action>, pid: Pid)
    requires Inv(s) && Alive(s.k, pid) && Doomed(s.k.children[pid])
    ensures var t := Exec(s, acts);
      Is(t.k, pid, s.k.children[pid].id) ==> t.k.children[pid].admitted == 0 && t.k.children[pid].sent == []
  {
    ExecBarren(s, acts, pid, s.k.children[pid].id);
    ExecKeepsInv(s, acts);
    Inspect(Exec(s, acts), pid);
  }

  // ---- Signals never end a serving child

  /** What can end a child that is serving: its own program, which is done with the request or asked
      for another connection, a crash, or a SIGKILL the manager sent. */
  predicate Ends(k: Kernel, a: Action, pid: Pid) {
    && pid in k.children
    && match a
       case Env(Run(p, _)) => p == pid && (k.children[pid].at.Serve? || k.children[pid].at.HookActive?)
       case Env(Crash(p, _)) => p == pid
       case Env(Die(p)) => p == pid && k.children[pid].kills > 0
       case _ => false
  }

  ghost predicate Serving(k: Kernel, pid: Pid, id: nat) {
    Is(k, pid, id) && Alive(k, pid) && k.children[pid].active
  }

  lemma CallServing(s: State, c: Call, pid: Pid, id: nat)
    requires Serving(s.k, pid, id) && Enabled(s, c)
    ensures Serving(Perform(s, c).k, pid, id)
  {}

  lemma {:induction false} NextServing(s: State, a: Action, pid: Pid, id: nat)
    requires OkAt(s, pid) && Serving(s.k, pid, id) && s.k.capacity >= 1 && !Ends(s.k, a, pid)
    ensures Serving(Next(s, a).k, pid, id)
  {
    match a
    case Sys(c) => if Enabled(s, c) { CallServing(s, c, pid, id); }
    case Env(e) =>
      EventAt(s, e, pid);
      if Concerns(e, pid) { ServingGoesOn(s.k.children[pid], e, s.k.clock, s.k.capacity); }
  }

  lemma ServingGoesOn(c: Child, e: Event, clock: nat, capacity: nat)
    requires ChildOk(c, clock) && c.status == None && c.active && capacity >= 1
    requires e.Run? ==> !c.at.Serve? && !c.at.HookActive?
    requires !e.Crash? && (e.Die? ==> c.kills == 0)
    ensures var c' := React(c, e, clock, capacity); c'.id == c.id && c'.status == None && c'.active
  {}

  /** The first i actions have not ended the child, and the next one does. */
  ghost predicate EndsAt(s: State, acts: seq<Action>, i: nat, pid: Pid, id: nat) {
    && i < |acts|
    && Serving(Exec(s, acts[..i]).k, pid, id) && !Serving(Next(Exec(s, acts[..i]), acts[i]).k, pid, id)
    && Ends(Exec(s, acts[..i]).k, acts[i], pid)
  }

  /** Whatever signals and system calls a run contains, a child that has set connection_active serves
      on until its own program is done, it crashes, or a SIGKILL takes effect. */
  lemma {:induction false} SignalsSpareServingChild(s: State, acts: seq<Action>, pid: Pid, id: nat)
    requires Inv(s) && Serving(s.k, pid, id)
    ensures Serving(Exec(s, acts).k, pid, id) || exists i: nat :: EndsAt(s, acts, i, pid, id)
  {
    hide Next, Inv, Ends, Serving;
    if acts == [] {
    } else {
      var prefix := acts[..|acts| - 1];
      var t, a := Exec(s, prefix), acts[|acts| - 1];
      SignalsSpareServingChild(s, prefix, pid, id);
      if Serving(t.k, pid, id) {
        ExecKeepsInv(s, prefix);
        Inspect(t, pid);
        HasRoom(t);
        if !Ends(t.k, a, pid) { NextServing(t, a, pid, id); }
        assert acts[..|prefix|] == prefix;
        assert !Serving(Exec(s, acts).k, pid, id) ==> EndsAt(s, acts, |prefix|, pid, id);
      } else {
        var i: nat :| EndsAt(s, prefix, i, pid, id);
        assert prefix[..i] == acts[..i] && prefix[i] == acts[i];
        assert EndsAt(s, acts, i, pid, id);
      }
    }
  }

  lemma HasRoom(s: State)
    requires Inv(s)
    ensures s.k.capacity >= 1
  {}

  // ---- SIGKILL

  /** The casts to u64 and the saturating subtraction of the timeout test lose nothing. */
  lemma TimeoutIsExact(cfg: Config, now: nat, started: Option<nat>)
    requires Sane(cfg) && (started.Some? ==> started.value <= now)
    ensures Expired(cfg, now, started) <==> started.Some? && now - started.value >= cfg.seconds * 1_000_000_000
  {}

  lemma OnlyCheckKills(s: State, a: Action, pid: Pid)
    requires pid in s.k.children
    requires var t := Next(s, a); Is(t.k, pid, s.k.children[pid].id) && t.k.children[pid].kills > s.k.children[pid].kills
    requires OkAt(s, pid) && s.k.children[pid].id < s.k.forked
    ensures a == Sys(Check(pid)) && Enabled(s, Check(pid)) && MustKill(s, pid)
  {
    match a
    case Env(e) => EventAt(s, e, pid); ReactSends(s.k.children[pid], e, s.k.clock, s.k.capacity);
    case Sys(c) =>
  }

  /** Every SIGKILL goes to an unreaped child of this manager that was not killed before, whose
      own stamp is at least the timeout old or whose drain deadline has passed. */
  lemma {:induction false} KillJustified(s: State, a: Action, pid: Pid)
    requires Inv(s) && pid in s.k.children
    ensures var t := Next(s, a);
      Is(t.k, pid, s.k.children[pid].id) && t.k.children[pid].kills > s.k.children[pid].kills ==>
        && a == Sys(Check(pid)) && s.k.children[pid].kills == 0
        && (|| Overdue(s.m.draining, s.k.clock)
            || exists stamp: nat :: s.k.children[pid].sent == [stamp] && s.k.clock >= stamp + s.cfg.seconds * 1_000_000_000)
  {
    var t := Next(s, a);
    Inspect(s, pid);
    if Is(t.k, pid, s.k.children[pid].id) && t.k.children[pid].kills > s.k.children[pid].kills {
      OnlyCheckKills(s, a, pid);
      CheckJustified(s, pid);
    }
  }

  lemma CheckJustified(s: State, pid: Pid)
    requires Control(s) && OkAt(s, pid) && pid in s.k.children && Enabled(s, Check(pid)) && MustKill(s, pid)
    ensures s.k.children[pid].kills == 0
    ensures || Overdue(s.m.draining, s.k.clock)
            || exists stamp: nat :: s.k.children[pid].sent == [stamp] && s.k.clock >= stamp + s.cfg.seconds * 1_000_000_000
  {
    var c, w := s.k.children[pid], s.m.workers[pid];
    if !Overdue(s.m.draining, s.k.clock) {
      TimeoutIsExact(s.cfg, s.m.at.now, w.started);
      assert c.sent == [w.started.value];
    }
  }

  /** When the kill loop visits its last worker, no worker it spared has a stamp as old as
      the timeout at the clock the loop read. */
  lemma KillPhaseExact(s: State, pid: Pid)
    requires Control(s) && Enabled(s, Check(pid)) && s.m.at.todo == {pid}
    ensures var t := DoCheck(s, pid);
      && t.m.at == Reaping
      && forall p :: p in t.m.workers && !t.m.workers[p].killed && t.m.workers[p].started.Some? ==>
           s.m.at.now - t.m.workers[p].started.value < s.cfg.seconds * 1_000_000_000
  {
    var t := DoCheck(s, pid);
    assert s.m.at.todo - {pid} == {};
    forall p | p in t.m.workers && !t.m.workers[p].killed && t.m.workers[p].started.Some?
      ensures s.m.at.now - t.m.workers[p].started.value < s.cfg.seconds * 1_000_000_000
    {
      TimeoutIsExact(s.cfg, s.m.at.now, t.m.workers[p].started);
    }
  }

  // ---- One connection, one stamp

  /** In every reachable state: at most one connection let through and one stamp sent per child,
      the manager's record is that stamp or nothing, and a send finds room. */
  lemma {:induction false} OneConnectionOneStamp(cfg: Config, k: Kernel, acts: seq<Action>, pid: Pid)
    requires Sane(cfg) && Fresh(k)
    ensures var t := Exec(Start(cfg, k), acts);
      pid in t.k.children ==>
        var c := t.k.children[pid];
        && c.admitted <= 1 && |c.sent| <= 1 && |c.sent| <= c.admitted
        && pid in t.m.workers
        && (t.m.workers[pid].started == None || c.sent == [t.m.workers[pid].started.value])
        && (t.m.workers[pid].started == None ==> c.channel == c.sent)
        && (c.at.Announce? ==> |c.channel| < t.k.capacity)
  {
    StartOk(cfg, k);
    ExecKeepsInv(Start(cfg, k), acts);
    Inspect(Exec(Start(cfg, k), acts), pid);
  }

  // ---- Accounting

  /** The workers are exactly the forked and unreaped children, never more than configured, and
      a manager that returns has reaped every child it forked. */
  lemma {:induction false} Accounting(cfg: Config, k: Kernel, acts: seq<Action>)
    requires Sane(cfg) && Fresh(k)
    ensures var t := Exec(Start(cfg, k), acts);
      && t.m.workers.Keys == t.k.children.Keys
      && t.k.forked == |t.m.workers| + t.k.reaped
      && |t.m.workers| <= cfg.workers
      && (t.m.at == Done ==> t.k.children == map[] && t.k.reaped == t.k.forked)
  {
    StartOk(cfg, k);
    ExecKeepsInv(Start(cfg, k), acts);
    ExecConfig(Start(cfg, k), acts);
  }

  lemma {:induction false} ExecConfig(s: State, acts: seq<Action>)
    ensures Exec(s, acts).cfg == s.cfg
  {
    if acts == [] {
    } else {
      ExecConfig(s, acts[..|acts| - 1]);
    }
  }

  /** A signal is only ever sent to the unreaped child the worker was created for. */
  lemma SignalsReachOwnChild(s: State, c: Call, pid: Pid)
    requires Inv(s) && Enabled(s, c) && (c == Tell(pid) || c == Check(pid))
    ensures pid in s.m.workers && Is(s.k, pid, s.m.workers[pid].events)
  {
    assert pid in s.m.workers;
    assert Linked(s.m.workers[pid], s.k.children[pid], s.k.clock);
  }

  // ---- Failure classification

  /** The stamp is recorded, or the running stamp loop has yet to visit its channel. */
  ghost predicate Recorded(s: State, pid: Pid, id: nat) {
    && id < s.k.forked
    && (Is(s.k, pid, id) ==>
          && pid in s.m.workers
          && (|| s.m.workers[pid].started.Some?
              || (s.m.at.Stamping? && pid in s.m.at.todo && s.k.children[pid].channel != [])))
  }

  lemma CallRecorded(s: State, c: Call, pid: Pid, id: nat)
    requires Recorded(s, pid, id) && Enabled(s, c)
    ensures Recorded(Perform(s, c), pid, id)
  {
    if c.Receive? && c.pid != pid && pid in s.m.at.todo {
      assert pid in s.m.at.todo - {c.pid};
    }
  }

  lemma EventRecorded(s: State, e: Event, pid: Pid, id: nat)
    requires OkAt(s, pid) && Recorded(s, pid, id)
    ensures Recorded(Next(s, Env(e)), pid, id)
  {
    EventAt(s, e, pid);
    if Is(s.k, pid, id) { ReactSends(s.k.children[pid], e, s.k.clock, s.k.capacity); }
  }

  lemma {:induction false} ExecRecorded(s: State, acts: seq<Action>, pid: Pid, id: nat)
    requires Inv(s) && Recorded(s, pid, id)
    ensures Recorded(Exec(s, acts), pid, id)
  {
    if acts == [] {
    } else {
      var prefix := acts[..|acts| - 1];
      ExecRecorded(s, prefix, pid, id);
      ExecKeepsInv(s, prefix);
      var t := Exec(s, prefix);
      Inspect(t, pid);
      match acts[|acts| - 1]
      case Env(e) => EventRecorded(t, e, pid, id);
      case Sys(c) => if Enabled(t, c) { CallRecorded(t, c, pid, id); }
    }
  }

  lemma RecordedReap(t: State, pid: Pid, id: nat)
    requires Recorded(t, pid, id) && Is(t.k, pid, id) && Enabled(t, Wait(Some(pid)))
    ensures pid in t.m.workers && t.m.workers[pid].started.Some?
    ensures var m := Perform(t, Wait(Some(pid))).m; m.failures == 0 && m.retryAt == t.m.retryAt
  {}

  /** A child whose stamp was queued when the stamp loop had still to visit it is never counted
      as a startup failure by a later reap: that reap clears the failure count instead. */
  lemma {:induction false} StampedIsNoStartupFailure(s: State, acts: seq<Action>, pid: Pid)
    requires Inv(s) && s.m.at.Stamping? && pid in s.m.at.todo && s.k.children[pid].channel != []
    ensures var t := Exec(s, acts);
      Is(t.k, pid, s.k.children[pid].id) && Enabled(t, Wait(Some(pid))) ==>
        var m := Perform(t, Wait(Some(pid))).m; m.failures == 0 && m.retryAt == t.m.retryAt
  {
    var t, id := Exec(s, acts), s.k.children[pid].id;
    ExecRecorded(s, acts, pid, id);
    if Is(t.k, pid, id) && Enabled(t, Wait(Some(pid))) { RecordedReap(t, pid, id); }
  }
}
