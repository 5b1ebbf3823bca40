/** What a signal does to an idle child: from the moment its handler starts the main program never
    moves again, and the child is gone within four instructions of its handlers. */
module Idle {
  import opened Basics
  import opened Zygote
  import opened Protocol
  import opened Invariant
  import opened Safety

  // ---- How handlers nest

  /** At most one activation for each signal that has a handler. */
  ghost predicate Nested(frames: seq<Frame>) {
    && (forall i :: 0 <= i < |frames| ==> frames[i].signal != Chld)
    && (forall i, j :: 0 <= i < j < |frames| ==> frames[i].signal != frames[j].signal)
  }

  function Signals(frames: seq<Frame>): set<Signal> {
    if frames == [] then {} else {frames[0].signal} + Signals(frames[1..])
  }

  lemma {:induction false} SignalsOf(frames: seq<Frame>)
    requires Nested(frames)
    ensures |Signals(frames)| == |frames|
    ensures forall g :: g in Signals(frames) ==> exists i :: 0 <= i < |frames| && frames[i].signal == g
  {
    if frames == [] {
    } else {
      SignalsOf(frames[1..]);
      assert frames[0].signal !in Signals(frames[1..]);
      assert |{frames[0].signal} + Signals(frames[1..])| == 1 + |Signals(frames[1..])|;
      forall g | g in Signals(frames) ensures exists i :: 0 <= i < |frames| && frames[i].signal == g {
        if g != frames[0].signal {
          var i :| 0 <= i < |frames[1..]| && frames[1..][i].signal == g;
          assert frames[i + 1].signal == g;
        }
      }
    }
  }

  lemma AtMostThree(frames: seq<Frame>)
    requires Nested(frames)
    ensures |frames| <= 3
  {
    SignalsOf(frames);
    var all := {Usr1, Term, Int};
    assert Signals(frames) <= all;
    SubsetSize(Signals(frames), all);
  }

  lemma {:induction false} ReactNests(c: Child, e: Event, clock: nat, capacity: nat)
    requires Nested(c.frames)
    ensures Nested(React(c, e, clock, capacity).frames)
  {
    hide Main;
    match e
    case Run(_, choice) => MainKeeps(c, choice, clock, capacity);
    case Deliver(_, signal) => DeliveryNests(c, signal);
    case _ =>
  }

  lemma DeliveryNests(c: Child, signal: Signal)
    requires Nested(c.frames)
    ensures Nested(Delivery(c, signal).frames)
  {
    assert forall i :: 0 <= i < |c.frames| ==> c.frames[i] in c.frames;
  }

  ghost predicate AllNested(k: Kernel) {
    forall p :: p in k.children ==> Nested(k.children[p].frames)
  }

  lemma {:induction false} CallNests(s: State, c: Call)
    requires AllNested(s.k) && Enabled(s, c)
    ensures AllNested(Perform(s, c).k)
  {
    hide Nested;
    var t := Perform(s, c);
    NoFramesNest();
    forall p | p in t.k.children ensures Nested(t.k.children[p].frames) {
      assert p in s.k.children ==> t.k.children[p].frames == s.k.children[p].frames;
      assert p !in s.k.children ==> t.k.children[p].frames == [];
    }
  }

  lemma NoFramesNest()
    ensures Nested([])
  {}

  lemma {:induction false} NextNests(s: State, a: Action)
    requires AllNested(s.k)
    ensures AllNested(Next(s, a).k)
  {
    hide Nested, React;
    match a
    case Sys(c) => if Enabled(s, c) { CallNests(s, c); }
    case Env(e) =>
      var k := Next(s, a).k;
      forall p | p in k.children ensures Nested(k.children[p].frames) {
        EventAt(s, e, p);
        ReactNests(s.k.children[p], e, s.k.clock, s.k.capacity);
      }
  }

  lemma {:induction false} ExecNests(s: State, acts: seq<Action>)
    requires AllNested(s.k)
    ensures AllNested(Exec(s, acts).k)
  {
    if acts == [] {
    } else {
      ExecNests(s, acts[..|acts| - 1]);
      NextNests(Exec(s, acts[..|acts| - 1]), acts[|acts| - 1]);
    }
  }

  // ---- An idle child inside a handler

  /** How many activations have stored drain_requested. */
  function Stores(frames: seq<Frame>): nat {
    if frames == [] then 0
    else Stores(frames[..|frames| - 1]) + if frames[|frames| - 1].flagged then 1 else 0
  }

  lemma {:induction false} StoresBound(frames: seq<Frame>)
    ensures Stores(frames) <= |frames|
  {
    if frames == [] {
    } else {
      StoresBound(frames[..|frames| - 1]);
    }
  }

  /** While it lives it is idle and inside a handler, its main program stands where it stood, and this
      many of its handlers have stored drain_requested. */
  ghost predicate Trapped(k: Kernel, pid: Pid, id: nat, at: Point, stores: nat) {
    && id < k.forked
    && (Is(k, pid, id) && Alive(k, pid) ==>
          var c := k.children[pid]; !c.active && c.frames != [] && c.at == at && Stores(c.frames) == stores)
  }

  /** Every step of a handler that does not end the child stores the flag once more. */
  lemma {:induction false} ReactTraps(c: Child, e: Event, clock: nat, capacity: nat)
    requires c.status == None && !c.active && c.frames != []
    ensures var c' := React(c, e, clock, capacity);
      c'.status == None ==>
        && !c'.active && c'.frames != [] && c'.at == c.at
        && Stores(c'.frames) == Stores(c.frames) + (if e.Handle? then 1 else 0)
  {
    hide Main, Handling;
    var c', top := React(c, e, clock, capacity), |c.frames| - 1;
    match e
    case Handle(_) => assert !c.frames[top].flagged ==> c'.frames[..top] == c.frames[..top];
    case Deliver(_, signal) =>
      assert c'.frames == c.frames || (|c'.frames| == top + 2 && c'.frames[..top + 1] == c.frames);
    case _ =>
  }

  lemma {:induction false} CallTraps(s: State, c: Call, pid: Pid, id: nat, at: Point, stores: nat)
    requires Trapped(s.k, pid, id, at, stores) && Enabled(s, c)
    ensures Trapped(Perform(s, c).k, pid, id, at, stores)
  {}

  predicate IsHandle(a: Action, pid: Pid) { a == Env(Handle(pid)) }

  /** How often the run lets a handler of the child take a step. */
  function Steps(acts: seq<Action>, pid: Pid): nat {
    if acts == [] then 0
    else Steps(acts[..|acts| - 1], pid) + if IsHandle(acts[|acts| - 1], pid) then 1 else 0
  }

  lemma {:induction false} NextTraps(s: State, a: Action, pid: Pid, id: nat, at: Point, stores: nat)
    requires Trapped(s.k, pid, id, at, stores)
    ensures Trapped(Next(s, a).k, pid, id, at, stores + if IsHandle(a, pid) then 1 else 0)
  {
    hide React, Stores;
    match a
    case Sys(c) => if Enabled(s, c) { CallTraps(s, c, pid, id, at, stores); }
    case Env(e) =>
      EventAt(s, e, pid);
      if pid in s.k.children {
        ReactKeepsId(s.k.children[pid], e, s.k.clock, s.k.capacity);
        if Concerns(e, pid) && Is(s.k, pid, id) && Alive(s.k, pid) {
          ReactTraps(s.k.children[pid], e, s.k.clock, s.k.capacity);
        }
      }
  }

  lemma {:induction false} ExecTraps(s: State, acts: seq<Action>, pid: Pid, id: nat, at: Point, stores: nat)
    requires Trapped(s.k, pid, id, at, stores)
    ensures Trapped(Exec(s, acts).k, pid, id, at, stores + Steps(acts, pid))
  {
    if acts == [] {
    } else {
      var prefix := acts[..|acts| - 1];
      ExecTraps(s, prefix, pid, id, at, stores);
      NextTraps(Exec(s, prefix), acts[|acts| - 1], pid, id, at, stores + Steps(prefix, pid));
    }
  }

  /** In any reachable state and any continuation: a child whose handler started while it was idle
      never leaves the point of its program where that was, lets no connection through, and is dead
      once its handlers, however they nest, have taken four steps. */
  lemma {:induction false} IdleChildExits(cfg: Config, k: Kernel, before: seq<Action>, acts: seq<Action>, pid: Pid)
    requires Sane(cfg) && Fresh(k)
    requires var s := Exec(Start(cfg, k), before);
      Alive(s.k, pid) && !s.k.children[pid].active && s.k.children[pid].frames != []
    ensures var s := Exec(Start(cfg, k), before);
      var t := Exec(s, acts);
      Is(t.k, pid, s.k.children[pid].id) && Alive(t.k, pid) ==>
        && t.k.children[pid].at == s.k.children[pid].at && !t.k.children[pid].active
        && t.k.children[pid].frames != [] && Steps(acts, pid) <= 3
  {
    hide Exec, Inv, Stores, Next, Nested;
    var s := Exec(Start(cfg, k), before);
    var t, c := Exec(s, acts), s.k.children[pid];
    StartOk(cfg, k);
    ExecKeepsInv(Start(cfg, k), before);
    KnownId(s, pid);
    ExecTraps(s, acts, pid, c.id, c.at, Stores(c.frames));
    ExecNests(Start(cfg, k), before);
    ExecNests(s, acts);
    if Is(t.k, pid, c.id) && Alive(t.k, pid) {
      StoresBound(t.k.children[pid].frames);
      AtMostThree(t.k.children[pid].frames);
    }
  }
}
