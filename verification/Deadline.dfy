/** The deadline of a drain: what sets it, to what, and what comes of it. */
module Deadline {
  import opened Basics
  import opened Zygote
  import opened Protocol
  import opened Invariant
  import opened Drain

  /** A shutdown signal is read, or poll fails. */
  predicate Interrupts(s: State, a: Action) {
    Shutdown(s, a) || (a == Sys(Poll(Failed)) && Enabled(s, Poll(Failed)))
  }

  predicate Shutdown(s: State, a: Action) {
    || (a == Sys(ReadSignal(Some(Term))) && Enabled(s, ReadSignal(Some(Term))))
    || (a == Sys(ReadSignal(Some(Int))) && Enabled(s, ReadSignal(Some(Int))))
  }

  /** The first shutdown signal gives thirty seconds, any further one and a failing poll none; nothing
      else touches the deadline, and only a failing poll is remembered as fatal. */
  lemma {:induction false} DeadlineIs(s: State, a: Action)
    ensures Next(s, a).m.draining ==
      if !Interrupts(s, a) then s.m.draining
      else if Shutdown(s, a) && s.m.draining == None then Some(s.k.clock + 30_000_000_000)
      else Some(s.k.clock)
    ensures Next(s, a).m.fatal <==> s.m.fatal || (a == Sys(Poll(Failed)) && Enabled(s, Poll(Failed)))
  {
    match a
    case Env(_) =>
    case Sys(c) => if Enabled(s, c) { CallSetsDeadline(s, c); }
  }

  lemma {:induction false} CallSetsDeadline(s: State, c: Call)
    requires Enabled(s, c)
    ensures var m := Perform(s, c).m;
      && m.draining == (
           if c == Poll(Failed) then Some(s.k.clock)
           else if c != ReadSignal(Some(Term)) && c != ReadSignal(Some(Int)) then s.m.draining
           else if s.m.draining == None then Some(s.k.clock + 30_000_000_000)
           else Some(s.k.clock))
      && (m.fatal <==> s.m.fatal || c == Poll(Failed))
  {
    hide BackoffMs, Notify, Kill, MustKill;
  }

  lemma {:induction false} ExecKeepsDeadline(s: State, acts: seq<Action>)
    requires forall i :: 0 <= i < |acts| ==> !Interrupts(Exec(s, acts[..i]), acts[i])
    ensures Exec(s, acts).m.draining == s.m.draining
  {
    hide Interrupts, Next;
    if acts == [] {
    } else {
      var prefix := acts[..|acts| - 1];
      assert forall i :: 0 <= i < |prefix| ==> prefix[..i] == acts[..i];
      ExecKeepsDeadline(s, prefix);
      DeadlineIs(Exec(s, prefix), acts[|acts| - 1]);
    }
  }

  /** After one shutdown signal, and neither another nor a failing poll, a worker within its request
      timeout is killed thirty seconds later at the earliest. */
  lemma {:induction false} GracePeriod(s: State, a: Action, acts: seq<Action>, pid: Pid)
    requires s.m.draining == None && Shutdown(s, a)
    requires var u := Next(s, a); forall i :: 0 <= i < |acts| ==> !Interrupts(Exec(u, acts[..i]), acts[i])
    ensures var t := Exec(Next(s, a), acts);
      && t.m.draining == Some(s.k.clock + 30_000_000_000)
      && (Enabled(t, Check(pid)) && !Expired(t.cfg, t.m.at.now, t.m.workers[pid].started)
          && Next(t, Sys(Check(pid))).m.workers[pid].killed && !t.m.workers[pid].killed ==>
            t.k.clock >= s.k.clock + 30_000_000_000)
  {
    hide Shutdown, Expired, Kill, Exec, Next;
    DeadlineIs(s, a);
    var t := Exec(Next(s, a), acts);
    ExecKeepsDeadline(Next(s, a), acts);
    if Enabled(t, Check(pid)) && !t.m.workers[pid].killed { KilledWhy(t, pid); }
  }

  lemma KilledWhy(s: State, pid: Pid)
    requires Enabled(s, Check(pid)) && !s.m.workers[pid].killed
    ensures var t := Next(s, Sys(Check(pid)));
      pid in t.m.workers
      && (t.m.workers[pid].killed <==>
            Expired(s.cfg, s.m.at.now, s.m.workers[pid].started) || Overdue(s.m.draining, s.k.clock))
  {
    hide Expired, Kill, KillPhase;
  }

  /** A second shutdown signal, like a failing poll, ends the grace: from then on the deadline is
      behind in every continuation, and whenever a kill loop is over no worker is left unkilled. */
  lemma {:induction false} GraceEnds(s: State, a: Action, acts: seq<Action>)
    requires Inv(s) && Interrupts(s, a) && (s.m.draining.Some? || !Shutdown(s, a))
    ensures var t := Exec(Next(s, a), acts);
      && Overdue(t.m.draining, t.k.clock)
      && (t.m.at == Reaping || t.m.at == Testing ==> forall p :: p in t.m.workers ==> t.m.workers[p].killed)
  {
    hide Inv, Exec, Overdue;
    DeadlineIs(s, a);
    var u := Next(s, a);
    NextKeepsInv(s, a);
    InterruptedAt(s, a);
    NowIsOverdue(u);
    ExecSweeping(u, acts);
  }

  lemma InterruptedAt(s: State, a: Action)
    requires Interrupts(s, a)
    ensures var u := Next(s, a); u.k.clock == s.k.clock && !u.m.at.Killing? && u.m.at != Reaping && u.m.at != Testing
  {}

  lemma NowIsOverdue(s: State)
    requires Inv(s) && s.m.draining == Some(s.k.clock)
    requires !s.m.at.Killing? && s.m.at != Reaping && s.m.at != Testing
    ensures Sweeping(s)
  {}
}
