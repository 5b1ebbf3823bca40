/** The inductive invariant of the protocol: what every action of the manager, of a child or
    of the kernel keeps. */
module Invariant {
  import opened Basics
  import opened Zygote
  import opened Protocol

  // ---- One child

  ghost predicate Flagged(c: Child) {
    exists f :: f in c.frames && f.flagged
  }

  ghost predicate ChildOk(c: Child, clock: nat) {
    && (c.masked <==> c.at.Boot? || c.at.Blocked?)
    && (c.handlers <==> !c.at.Boot?)
    && (c.masked ==> c.frames == [] && !c.drain)
    && (c.at.Stamp? || c.at.Announce? || c.at.Serve? ==> c.active)
    && (c.active ==> c.at.Stamp? || c.at.Announce? || c.at.Serve? || c.at.HookActive?)
    && (c.status == None && c.drain ==> c.active || Flagged(c))
    && (Flagged(c) ==> c.drain)
    && c.admitted == (if c.active then 1 else 0)
    && |c.channel| <= |c.sent| <= 1
    && (c.sent != [] ==> c.active && (c.at.HookActive? || c.at.Serve?))
    && (c.sent != [] ==> c.sent[0] <= clock)
    && (c.at.Announce? ==> c.at.stamp <= clock)
  }

  lemma HandlerKeepsChildOk(c: Child, clock: nat)
    requires ChildOk(c, clock) && c.status == None && c.frames != []
    ensures ChildOk(Handler(c), clock)
  {
    var top := |c.frames| - 1;
    var c' := Handler(c);
    if !c.frames[top].flagged {
      assert c'.frames[top] in c'.frames && c'.frames[top].flagged;
    } else {
      assert c.frames[top] in c.frames;
    }
  }

  lemma DeliveryKeepsChildOk(c: Child, signal: Signal, clock: nat)
    requires ChildOk(c, clock) && c.status == None
    ensures ChildOk(Delivery(c, signal), clock)
  {
    var c' := Delivery(c, signal);
    if c'.frames != c.frames {
      assert forall f :: f in c'.frames <==> f in c.frames || f == Frame(signal, false);
    }
  }

  lemma ReactKeepsChildOk(c: Child, e: Event, clock: nat, capacity: nat)
    requires ChildOk(c, clock) && c.status == None && clock < CLOCK_LIMIT && capacity >= 1
    ensures ChildOk(React(c, e, clock, capacity), clock)
  {
    match e
    case Deliver(_, signal) => DeliveryKeepsChildOk(c, signal, clock);
    case Handle(_) => if c.frames != [] { HandlerKeepsChildOk(c, clock); }
    case _ =>
  }

  // ---- A worker and its child

  ghost predicate Linked(w: Worker, c: Child, clock: nat) {
    && w.events == c.id
    && w.born <= clock
    && c.kills == (if w.killed then 1 else 0)
    && c.channel == (if w.started == None then c.sent else [])
    && (w.started.Some? ==> c.sent == [w.started.value])
    && ChildOk(c, clock)
  }

  /** An event other than a send leaves the channel alone; a send is the child's first. */
  lemma ReactSends(c: Child, e: Event, clock: nat, capacity: nat)
    requires ChildOk(c, clock)
    ensures var c' := React(c, e, clock, capacity);
      && c'.id == c.id && c'.kills == c.kills
      && (|| (c'.channel == c.channel && c'.sent == c.sent)
          || (c.sent == [] && c.channel == [] && |c'.sent| == 1 && c'.channel == c'.sent))
  {}

  lemma ReactKeepsLinked(w: Worker, c: Child, e: Event, clock: nat, capacity: nat)
    requires Linked(w, c, clock) && c.status == None && clock < CLOCK_LIMIT && capacity >= 1
    ensures Linked(w, React(c, e, clock, capacity), clock)
  {
    ReactKeepsChildOk(c, e, clock, capacity);
    ReactSends(c, e, clock, capacity);
  }

  // ---- The whole system

  ghost predicate AllLinked(workers: map<Pid, Worker>, children: map<Pid, Child>, clock: nat) {
    && workers.Keys == children.Keys
    && forall p :: p in workers ==> Linked(workers[p], children[p], clock)
  }

  /** Identities are handed out once, so a pid that comes back carries another identity. */
  ghost predicate Identified(children: map<Pid, Child>, forked: nat) {
    && (forall p :: p in children ==> children[p].id < forked)
    && (forall p, q :: p in children && q in children && p != q ==> children[p].id != children[q].id)
  }

  ghost predicate StampsBefore(workers: map<Pid, Worker>, now: nat) {
    forall p :: p in workers && workers[p].started.Some? ==> workers[p].started.value <= now
  }

  /** Workers the kill loop has visited are killed or within their timeout. */
  ghost predicate Enforced(cfg: Config, workers: map<Pid, Worker>, now: nat, todo: set<Pid>) {
    forall p :: p in workers && p !in todo && !workers[p].killed ==> !Expired(cfg, now, workers[p].started)
  }

  ghost predicate PhaseOk(cfg: Config, clock: nat, m: Manager) {
    && (m.at.Spawning? ==> m.draining == None && clock >= m.retryAt && |m.workers| < cfg.workers)
    && (m.at.Stamping? || m.at.Notifying? || m.at.Killing? ==> m.at.todo <= m.workers.Keys && m.at.todo != {})
    && (m.at.Notifying? ==> m.draining.Some?)
    && (m.at.Killing? ==>
          m.at.now <= clock && StampsBefore(m.workers, m.at.now) && Enforced(cfg, m.workers, m.at.now, m.at.todo))
    && (m.at.Done? ==> m.draining.Some? && m.workers == map[])
  }

  /** What concerns the manager's control flow and its counters. */
  ghost predicate Control(s: State) {
    && Sane(s.cfg)
    && s.k.clock < CLOCK_LIMIT
    && s.k.capacity >= 1
    && |s.m.workers| <= s.cfg.workers
    && s.k.forked == |s.m.workers| + s.k.reaped
    && s.m.failures <= U32_MAX
    && PhaseOk(s.cfg, s.k.clock, s.m)
  }

  /** What concerns the children and the workers watching them. */
  ghost predicate Bound(s: State) {
    && AllLinked(s.m.workers, s.k.children, s.k.clock)
    && Identified(s.k.children, s.k.forked)
  }

  ghost predicate Inv(s: State) {
    Control(s) && Bound(s)
  }

  lemma StartOk(cfg: Config, k: Kernel)
    requires Sane(cfg) && Fresh(k)
    ensures Inv(Start(cfg, k))
  {}

  // ---- Small steps on the two maps

  lemma LinkedLater(workers: map<Pid, Worker>, children: map<Pid, Child>, clock: nat, later: nat)
    requires AllLinked(workers, children, clock) && clock <= later
    ensures AllLinked(workers, children, later)
  {}

  /** One worker and its child change, or arrive, together. */
  lemma LinkedUpdate(workers: map<Pid, Worker>, children: map<Pid, Child>, clock: nat, pid: Pid, w: Worker, c: Child)
    requires AllLinked(workers, children, clock) && Linked(w, c, clock)
    ensures AllLinked(workers[pid := w], children[pid := c], clock)
  {
    assert workers[pid := w].Keys == workers.Keys + {pid};
    assert children[pid := c].Keys == children.Keys + {pid};
  }

  lemma LinkedChild(workers: map<Pid, Worker>, children: map<Pid, Child>, clock: nat, pid: Pid, c: Child)
    requires AllLinked(workers, children, clock) && pid in workers && Linked(workers[pid], c, clock)
    ensures AllLinked(workers, children[pid := c], clock)
  {
    LinkedUpdate(workers, children, clock, pid, workers[pid], c);
    assert workers[pid := workers[pid]] == workers;
  }

  /** Nothing the main program or the handlers look at changes. */
  lemma LinkedPoke(w: Worker, w': Worker, c: Child, c': Child, clock: nat)
    requires Linked(w, c, clock)
    requires c' == c.(pending := c'.pending, kills := c'.kills, channel := c'.channel)
    requires w' == w.(started := w'.started, killed := w'.killed)
    requires c'.kills == (if w'.killed then 1 else 0)
    requires |c'.channel| <= |c.sent| && c'.channel == (if w'.started == None then c.sent else [])
    requires w'.started.Some? ==> c.sent == [w'.started.value]
    ensures Linked(w', c', clock)
  {
    assert c'.frames == c.frames && (Flagged(c) <==> Flagged(c'));
  }

  lemma LinkedStamps(workers: map<Pid, Worker>, children: map<Pid, Child>, clock: nat)
    requires AllLinked(workers, children, clock)
    ensures StampsBefore(workers, clock)
  {
    forall p | p in workers && workers[p].started.Some? ensures workers[p].started.value <= clock {
      assert Linked(workers[p], children[p], clock);
    }
  }

  // ---- Events

  lemma EventKeepsBound(s: State, e: Event)
    requires Bound(s) && s.k.clock < CLOCK_LIMIT && s.k.capacity >= 1
    ensures Bound(Next(s, Env(e)))
  {
    match e
    case Advance(ns) =>
      if s.k.clock + ns < CLOCK_LIMIT { LinkedLater(s.m.workers, s.k.children, s.k.clock, s.k.clock + ns); }
    case SignalManager(_) =>
    case _ => if Alive(s.k, e.pid) { ReactKeepsBound(s, e, e.pid); }
  }

  lemma ReactKeepsBound(s: State, e: Event, pid: Pid)
    requires Bound(s) && Alive(s.k, pid) && s.k.clock < CLOCK_LIMIT && s.k.capacity >= 1
    ensures Bound(s.(k := Update(s.k, pid, React(s.k.children[pid], e, s.k.clock, s.k.capacity))))
  {
    var c' := React(s.k.children[pid], e, s.k.clock, s.k.capacity);
    ReactKeepsLinked(s.m.workers[pid], s.k.children[pid], e, s.k.clock, s.k.capacity);
    LinkedChild(s.m.workers, s.k.children, s.k.clock, pid, c');
    assert c'.id == s.k.children[pid].id;
  }

  // ---- System calls: the control part

  lemma ForkKeepsControl(s: State, pid: Pid)
    requires Control(s) && s.m.at == Spawning && pid !in s.m.workers
    ensures Control(DoFork(s, pid))
  {
    var workers := DoFork(s, pid).m.workers;
    assert workers.Keys == s.m.workers.Keys + {pid};
    assert |workers.Keys| == |s.m.workers.Keys| + 1;
  }

  lemma EnforcedMore(s: State, pid: Pid)
    requires s.m.at.Killing? && pid in s.m.workers && Enforced(s.cfg, s.m.workers, s.m.at.now, s.m.at.todo)
    ensures Enforced(s.cfg, DoCheck(s, pid).m.workers, s.m.at.now, s.m.at.todo - {pid})
  {
    hide Expired, Kill;
  }

  lemma CheckKeepsControl(s: State, pid: Pid)
    requires Control(s) && s.m.at.Killing? && pid in s.m.at.todo && pid in s.m.workers
    ensures Control(DoCheck(s, pid))
  {
    hide Expired, Enforced, Overdue;
    var s' := DoCheck(s, pid);
    assert s'.m.workers.Keys == s.m.workers.Keys;
    assert |s'.m.workers.Keys| == |s.m.workers.Keys|;
    EnforcedMore(s, pid);
  }

  lemma ReapKeepsControl(s: State, pid: Pid)
    requires Control(s) && s.m.at == Reaping
    requires pid in s.m.workers && pid in s.k.children && s.k.children[pid].status.Some?
    ensures Control(DoReap(s, pid))
  {
    var workers := s.m.workers - {pid};
    assert workers.Keys == s.m.workers.Keys - {pid};
    assert |workers.Keys| == |s.m.workers.Keys| - 1;
  }

  lemma ReceiveKeepsControl(s: State, pid: Pid)
    requires Control(s) && Enabled(s, Receive(pid))
    ensures Control(DoReceive(s, pid))
  {
    var s' := DoReceive(s, pid);
    assert s'.m.workers.Keys == s.m.workers.Keys;
    assert |s'.m.workers.Keys| == |s.m.workers.Keys|;
  }

  lemma SignalKeepsControl(s: State, signal: Option<Signal>)
    requires Control(s) && s.m.at == Signaling
    ensures Control(DoSignal(s, signal))
  {}

  lemma ReadClockKeepsControl(s: State)
    requires Control(s) && s.m.at == Timing && StampsBefore(s.m.workers, s.k.clock)
    ensures Control(s.(m := s.m.(at := KillPhase(ToU64(s.k.clock), s.m.workers.Keys))))
  {}

  lemma {:induction false} CallKeepsControl(s: State, c: Call)
    requires Control(s) && Enabled(s, c)
    requires s.m.workers.Keys == s.k.children.Keys && StampsBefore(s.m.workers, s.k.clock)
    ensures Control(Perform(s, c))
  {
    match c
    case Fork(pid) => ForkKeepsControl(s, pid);
    case Receive(pid) => ReceiveKeepsControl(s, pid);
    case Check(pid) => CheckKeepsControl(s, pid);
    case Wait(zombie) => if zombie.Some? { ReapKeepsControl(s, zombie.value); }
    case ReadSignal(signal) => SignalKeepsControl(s, signal);
    case ReadClock => ReadClockKeepsControl(s);
    case _ =>
  }

  // ---- System calls: the children

  lemma ReceiveKeepsBound(s: State, pid: Pid)
    requires Bound(s) && s.m.at.Stamping? && pid in s.m.workers
    ensures Bound(DoReceive(s, pid))
  {
    var s' := DoReceive(s, pid);
    var w, c := s.m.workers[pid], s.k.children[pid];
    if c.channel != [] {
      assert Linked(w, c, s.k.clock);
      assert c.channel == [c.sent[0]];
      LinkedPoke(w, s'.m.workers[pid], c, s'.k.children[pid], s.k.clock);
      LinkedUpdate(s.m.workers, s.k.children, s.k.clock, pid, s'.m.workers[pid], s'.k.children[pid]);
    }
  }

  lemma TellKeepsBound(s: State, pid: Pid)
    requires Bound(s) && s.m.at.Notifying?
    ensures Bound(DoTell(s, pid))
  {
    var s' := DoTell(s, pid);
    if Alive(s.k, pid) {
      LinkedPoke(s.m.workers[pid], s.m.workers[pid], s.k.children[pid], s'.k.children[pid], s.k.clock);
      LinkedChild(s.m.workers, s.k.children, s.k.clock, pid, s'.k.children[pid]);
    }
  }

  lemma CheckKeepsBound(s: State, pid: Pid)
    requires Bound(s) && s.m.at.Killing? && pid in s.m.workers
    ensures Bound(DoCheck(s, pid))
  {
    var s' := DoCheck(s, pid);
    if MustKill(s, pid) {
      LinkedPoke(s.m.workers[pid], s'.m.workers[pid], s.k.children[pid], s'.k.children[pid], s.k.clock);
      LinkedUpdate(s.m.workers, s.k.children, s.k.clock, pid, s'.m.workers[pid], s'.k.children[pid]);
    }
  }

  lemma NewIdentity(children: map<Pid, Child>, forked: nat, pid: Pid)
    requires Identified(children, forked) && pid !in children
    ensures Identified(children[pid := Newborn(forked)], forked + 1)
  {}

  lemma ForkKeepsBound(s: State, pid: Pid)
    requires Bound(s) && pid !in s.k.children
    ensures Bound(DoFork(s, pid))
  {
    var worker, child := Worker(s.k.forked, None, false, s.k.clock), Newborn(s.k.forked);
    assert Linked(worker, child, s.k.clock);
    LinkedUpdate(s.m.workers, s.k.children, s.k.clock, pid, worker, child);
    NewIdentity(s.k.children, s.k.forked, pid);
  }

  lemma ReapKeepsBound(s: State, pid: Pid)
    requires Bound(s) && pid in s.k.children && s.k.children[pid].status.Some?
    ensures Bound(DoReap(s, pid))
  {
    var workers, children := s.m.workers - {pid}, s.k.children - {pid};
    assert workers.Keys == s.m.workers.Keys - {pid} && children.Keys == s.k.children.Keys - {pid};
  }

  predicate Quiet(c: Call) {
    !c.Fork? && !c.Receive? && !c.Tell? && !c.Check? && !(c.Wait? && c.zombie.Some?)
  }

  lemma QuietCalls(s: State, c: Call)
    requires Quiet(c) && Enabled(s, c)
    ensures var s' := Perform(s, c);
      && s'.m.workers == s.m.workers && s'.k.children == s.k.children
      && s'.k.clock == s.k.clock && s'.k.forked == s.k.forked
  {}

  lemma {:induction false} CallKeepsBound(s: State, c: Call)
    requires Bound(s) && Enabled(s, c)
    ensures Bound(Perform(s, c))
  {
    if Quiet(c) {
      QuietCalls(s, c);
    } else {
      match c
      case Fork(pid) => ForkKeepsBound(s, pid);
      case Receive(pid) => ReceiveKeepsBound(s, pid);
      case Tell(pid) => TellKeepsBound(s, pid);
      case Check(pid) => CheckKeepsBound(s, pid);
      case Wait(zombie) => ReapKeepsBound(s, zombie.value);
    }
  }

  // ---- Runs

  lemma EventKeepsControl(s: State, e: Event)
    requires Control(s)
    ensures Control(Next(s, Env(e)))
  {}

  lemma CallKeepsInv(s: State, c: Call)
    requires Inv(s) && Enabled(s, c)
    ensures Inv(Perform(s, c))
  {
    LinkedStamps(s.m.workers, s.k.children, s.k.clock);
    CallKeepsControl(s, c);
    CallKeepsBound(s, c);
  }

  lemma NextKeepsInv(s: State, a: Action)
    requires Inv(s)
    ensures Inv(Next(s, a))
  {
    match a
    case Env(e) => EventKeepsControl(s, e); EventKeepsBound(s, e);
    case Sys(c) => if Enabled(s, c) { CallKeepsInv(s, c); }
  }

  /** The invariant holds after every schedule. */
  lemma {:induction false} ExecKeepsInv(s: State, acts: seq<Action>)
    requires Inv(s)
    ensures Inv(Exec(s, acts))
  {
    if acts == [] {
    } else {
      ExecKeepsInv(s, acts[..|acts| - 1]);
      NextKeepsInv(Exec(s, acts[..|acts| - 1]), acts[|acts| - 1]);
    }
  }
}
