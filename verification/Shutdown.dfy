/** The manager's half of an orderly shutdown: telling every child. */
module Shutdown {
  import opened Basics
  import opened Zygote
  import opened Protocol
  import opened Invariant
  import opened Safety
  import opened Drain

  /** The child has noticed SIGUSR1, or the manager has still to send it. */
  ghost predicate Reached(s: State, pid: Pid, id: nat) {
    && s.m.draining.Some? && id < s.k.forked
    && (Is(s.k, pid, id) && Alive(s.k, pid) ==>
          Noticed(s.k.children[pid], Usr1) || (s.m.at.Notifying? && pid in s.m.at.todo))
  }

  lemma {:induction false} CallReaches(s: State, c: Call, pid: Pid, id: nat)
    requires Reached(s, pid, id) && Enabled(s, c) && s.m.at != Spawning
    ensures Reached(Perform(s, c), pid, id)
  {
    hide Noticed;
    if Is(Perform(s, c).k, pid, id) && Alive(Perform(s, c).k, pid) {
      if c == Tell(pid) {
        NotifyNoticed(s.k, pid);
      } else if Noticed(s.k.children[pid], Usr1) {
        CallHeeds(s, c, pid, id, Usr1);
      } else {
        assert c.Tell? && pid in s.m.at.todo - {c.pid};
      }
    }
  }

  lemma NotifyNoticed(k: Kernel, pid: Pid)
    requires Alive(k, pid)
    ensures Alive(Notify(k, pid), pid) && Noticed(Notify(k, pid).children[pid], Usr1)
  {}

  lemma EventReaches(s: State, e: Event, pid: Pid, id: nat)
    requires OkAt(s, pid) && Reached(s, pid, id)
    ensures Reached(Next(s, Env(e)), pid, id)
  {
    hide Noticed, React;
    EventAt(s, e, pid);
    if pid in s.k.children {
      ReactKeepsId(s.k.children[pid], e, s.k.clock, s.k.capacity);
      if Noticed(s.k.children[pid], Usr1) { NextHeeds(s, Env(e), pid, id, Usr1); }
    }
  }

  lemma {:induction false} ExecReaches(s: State, acts: seq<Action>, pid: Pid, id: nat)
    requires Inv(s) && Reached(s, pid, id) && s.m.at != Spawning
    ensures Reached(Exec(s, acts), pid, id) && Exec(s, acts).m.at != Spawning
  {
    if acts == [] {
    } else {
      var prefix := acts[..|acts| - 1];
      ExecReaches(s, prefix, pid, id);
      ExecKeepsInv(s, prefix);
      var t := Exec(s, prefix);
      Inspect(t, pid);
      match acts[|acts| - 1]
      case Env(e) => EventReaches(t, e, pid, id);
      case Sys(c) => if Enabled(t, c) { CallReaches(t, c, pid, id); ForksOnlyWhenOpen(t, c); }
    }
  }

  lemma ForksOnlyWhenOpen(s: State, c: Call)
    requires Enabled(s, c) && s.m.draining.Some? && s.m.at != Spawning
    ensures Perform(s, c).m.at != Spawning
  {}

  lemma SignalReaches(s: State, signal: Signal, pid: Pid, id: nat)
    requires Inv(s) && s.m.draining == None && signal in {Term, Int} && s.m.at == Signaling && id < s.k.forked
    ensures Reached(DoSignal(s, Some(signal)), pid, id)
  {
    hide Noticed, Linked, Sane;
    assert pid in s.k.children ==> pid in s.m.workers.Keys;
  }

  lemma WhatReachedMeans(s: State, pid: Pid)
    requires OkAt(s, pid) && Alive(s.k, pid) && Reached(s, pid, s.k.children[pid].id) && !s.m.at.Notifying?
    ensures var c := s.k.children[pid];
      Noticed(c, Usr1) && (Usr1 !in c.pending && c.frames == [] ==> c.active)
  {}

  /** The first shutdown signal reaches every child: once the manager is through with telling them,
      each child still alive has SIGUSR1 pending, is handling it or has set drain_requested, and
      with nothing pending and no handler running it is serving. No child is left out, whenever
      it was forked. */
  lemma {:induction false} ShutdownReachesEveryChild(s: State, signal: Signal, acts: seq<Action>, pid: Pid)
    requires Inv(s) && s.m.draining == None && signal in {Term, Int} && Enabled(s, ReadSignal(Some(signal)))
    ensures var t := Exec(DoSignal(s, Some(signal)), acts);
      !t.m.at.Notifying? && Alive(t.k, pid) ==>
        var c := t.k.children[pid];
        && Noticed(c, Usr1)
        && (Usr1 !in c.pending && c.frames == [] ==> c.active)
  {
    hide Inv, Exec, Noticed, Reached;
    var start := DoSignal(s, Some(signal));
    CallKeepsInv(s, ReadSignal(Some(signal)));
    var t := Exec(start, acts);
    ExecKeepsInv(start, acts);
    Inspect(t, pid);
    if Alive(t.k, pid) && !t.m.at.Notifying? {
      var id := t.k.children[pid].id;
      DrainingIsFinal(start, acts);
      KnownId(t, pid);
      SignalReaches(s, signal, pid, id);
      ExecReaches(start, acts, pid, id);
      WhatReachedMeans(t, pid);
    }
  }
}
