/** Draining: it is final, its deadline only moves towards the present, an orderly shutdown
    leaves requests their grace period, and the loop comes to an end. */
module Drain {
  import opened Basics
  import opened Zygote
  import opened Protocol
  import opened Invariant

  // ---- The deadline

  ghost predicate Draining(s: State) {
    s.m.draining.Some?
  }

  /** Workers only leave, and a killed worker stays killed. */
  ghost predicate Shrinks(from: map<Pid, Worker>, to: map<Pid, Worker>) {
    && to.Keys <= from.Keys
    && forall p :: p in to && from[p].killed ==> to[p].killed
  }

  lemma NextDraining(s: State, a: Action)
    requires Control(s) && Draining(s)
    ensures var t := Next(s, a);
      && Draining(t) && t.k.forked == s.k.forked && t.k.clock >= s.k.clock && t.cfg == s.cfg
      && (t.m.draining == s.m.draining || t.m.draining == Some(t.k.clock))
      && Shrinks(s.m.workers, t.m.workers)
  {}

  /** Once draining, always draining: nothing is forked any more, an expired deadline stays
      expired and an unexpired one is never extended. */
  lemma {:induction false} DrainingIsFinal(s: State, acts: seq<Action>)
    requires Inv(s) && Draining(s)
    ensures var t := Exec(s, acts);
      && Inv(t) && Draining(t) && t.k.forked == s.k.forked && t.k.clock >= s.k.clock && t.cfg == s.cfg
      && (Overdue(s.m.draining, s.k.clock) ==> Overdue(t.m.draining, t.k.clock))
      && (!Overdue(t.m.draining, t.k.clock) ==> t.m.draining.value <= s.m.draining.value)
      && Shrinks(s.m.workers, t.m.workers)
  {
    if acts == [] {
    } else {
      var prefix := acts[..|acts| - 1];
      DrainingIsFinal(s, prefix);
      NextKeepsInv(Exec(s, prefix), acts[|acts| - 1]);
      NextDraining(Exec(s, prefix), acts[|acts| - 1]);
    }
  }

  // ---- One pass through the loop

  /** A pass ends with the exit test, which occurs nowhere else in it. */
  ghost predicate Pass(s: State, body: seq<Action>) {
    && s.m.at == Top
    && Sys(Test) !in body
    && Enabled(Exec(s, body), Test)
  }

  function After(s: State, body: seq<Action>): State {
    Next(Exec(s, body), Sys(Test))
  }

  /** No child has this pid, or it is a zombie. */
  predicate Gone(k: Kernel, pid: Pid) {
    !Alive(k, pid)
  }

  /** What is assumed of the world: time advances, and of the children killed in earlier passes
      at least one dies before the reap loop is over. */
  ghost predicate Fair(s: State, body: seq<Action>) {
    && (!Overdue(s.m.draining, s.k.clock) ==> Exec(s, body).k.clock > s.k.clock)
    && (s.m.workers != map[] && (forall p :: p in s.m.workers ==> s.m.workers[p].killed) ==>
          exists i, p :: 0 <= i <= |body| && p in s.m.workers
            && Gone(Exec(s, body[..i]).k, p) && Exec(s, body[..i]).m.at != Testing)
  }

  // ---- After the deadline a pass leaves no worker unkilled

  ghost predicate Sweeping(s: State) {
    && Overdue(s.m.draining, s.k.clock)
    && s.m.workers.Keys == s.k.children.Keys
    && (s.m.at.Killing? ==> forall p :: p in s.m.workers && p !in s.m.at.todo ==> s.m.workers[p].killed)
    && (s.m.at == Reaping || s.m.at == Testing ==> forall p :: p in s.m.workers ==> s.m.workers[p].killed)
  }

  lemma CheckSweeping(s: State, pid: Pid)
    requires Sweeping(s) && Enabled(s, Check(pid))
    ensures Sweeping(DoCheck(s, pid))
  {
    var t := DoCheck(s, pid);
    assert t.m.workers[pid].killed;
    forall p | p in t.m.workers && p !in s.m.at.todo - {pid} ensures t.m.workers[p].killed {
      assert p == pid || p !in s.m.at.todo;
    }
    assert t.m.workers.Keys == s.m.workers.Keys && t.k.children.Keys == s.k.children.Keys;
  }

  lemma {:induction false} CallSweeping(s: State, c: Call)
    requires Sweeping(s) && !c.Fork? && Enabled(s, c)
    ensures Sweeping(Perform(s, c))
  {
    match c
    case Check(pid) => CheckSweeping(s, pid);
    case ReadClock => assert forall p :: p in s.m.workers ==> s.m.workers.Keys != {};
    case _ =>
  }

  lemma {:induction false} NextSweeping(s: State, a: Action)
    requires Sweeping(s) && s.m.at != Spawning
    ensures Sweeping(Next(s, a))
  {
    match a
    case Env(_) =>
    case Sys(c) => if Enabled(s, c) { CallSweeping(s, c); }
  }

  /** With the deadline behind it no kill loop leaves a worker unkilled, in this pass or a later one. */
  lemma {:induction false} ExecSweeping(s: State, acts: seq<Action>)
    requires Inv(s) && Sweeping(s)
    ensures Sweeping(Exec(s, acts))
  {
    if acts == [] {
    } else {
      var prefix := acts[..|acts| - 1];
      ExecSweeping(s, prefix);
      ExecKeepsInv(s, prefix);
      NextSweeping(Exec(s, prefix), acts[|acts| - 1]);
    }
  }

  // ---- A child that dies is reaped in the same pass

  /** The child is reaped, or it is a zombie the reap loop has still to collect. */
  ghost predicate Collecting(s: State, pid: Pid) {
    && s.m.workers.Keys == s.k.children.Keys
    && Gone(s.k, pid)
    && (s.m.at == Testing ==> pid !in s.m.workers)
    && s.m.at != Spawning
  }

  lemma {:induction false} NextCollecting(s: State, a: Action, pid: Pid)
    requires Collecting(s, pid) && Draining(s) && a != Sys(Test)
    ensures Collecting(Next(s, a), pid) && Draining(Next(s, a))
  {}

  lemma {:induction false} ExecCollecting(s: State, acts: seq<Action>, pid: Pid)
    requires Collecting(s, pid) && Draining(s) && Sys(Test) !in acts
    ensures Collecting(Exec(s, acts), pid) && Draining(Exec(s, acts))
  {
    if acts == [] {
    } else {
      var prefix := acts[..|acts| - 1];
      ExecCollecting(s, prefix, pid);
      NextCollecting(Exec(s, prefix), acts[|acts| - 1], pid);
    }
  }

  // ---- Termination

  function Unkilled(workers: map<Pid, Worker>): set<Pid> {
    set p | p in workers && !workers[p].killed
  }

  function TimeLeft(s: State): nat {
    if s.m.draining.Some? && s.m.draining.value > s.k.clock then s.m.draining.value - s.k.clock else 0
  }

  /** Nanoseconds to the deadline, workers not yet killed, workers not yet reaped. */
  function Rank(s: State): nat {
    TimeLeft(s) + |Unkilled(s.m.workers)| + |s.m.workers|
  }

  lemma ShrinkSizes(from: map<Pid, Worker>, to: map<Pid, Worker>)
    requires Shrinks(from, to)
    ensures |to| <= |from| && |Unkilled(to)| <= |Unkilled(from)|
    ensures to.Keys != from.Keys ==> |to| < |from|
    ensures Unkilled(to) != Unkilled(from) ==> |Unkilled(to)| < |Unkilled(from)|
  {
    SubsetSize(to.Keys, from.Keys);
    assert |to| == |to.Keys| && |from| == |from.Keys|;
    SubsetSize(Unkilled(to), Unkilled(from));
  }

  lemma PassEnds(s: State, body: seq<Action>)
    requires Pass(s, body)
    ensures Exec(s, body).m.at == Testing
  {}

  lemma TestShape(s: State)
    requires s.m.at == Testing
    ensures var t := Next(s, Sys(Test));
      && t.k == s.k && t.m.workers == s.m.workers && t.m.draining == s.m.draining
      && (t.m.at == Top || t.m.at == Done)
      && (t.m.at == Done <==> s.m.draining.Some? && s.m.workers == map[])
  {}

  lemma {:induction false} StillDraining(s: State, acts: seq<Action>)
    requires Inv(s) && Draining(s)
    ensures var t := Exec(s, acts); Draining(t) && t.m.workers.Keys == t.k.children.Keys && t.m.at != Spawning
  {
    DrainingIsFinal(s, acts);
  }

  /** A killed child that dies in a pass leaves the pool in that pass. */
  lemma {:induction false} DeathShrinksPool(s: State, body: seq<Action>, i: nat, pid: Pid)
    requires Inv(s) && Draining(s) && Sys(Test) !in body && Exec(s, body).m.at == Testing && i <= |body|
    requires Gone(Exec(s, body[..i]).k, pid) && Exec(s, body[..i]).m.at != Testing
    ensures pid !in Exec(s, body).m.workers
  {
    hide Inv, Exec, Control, Bound;
    StillDraining(s, body[..i]);
    var t := Exec(s, body[..i]);
    assert body == body[..i] + body[i..];
    ExecSplit(s, body[..i], body[i..]);
    ExecCollecting(t, body[i..], pid);
  }

  /** While time is left a fair pass takes some of it. */
  lemma TimePasses(s: State, u: State)
    requires Draining(s) && Draining(u) && !Overdue(s.m.draining, s.k.clock) && u.k.clock > s.k.clock
    requires !Overdue(u.m.draining, u.k.clock) ==> u.m.draining.value <= s.m.draining.value
    ensures TimeLeft(u) < TimeLeft(s)
  {}

  /** After the deadline a pass kills whom it finds alive, and then buries the killed. */
  lemma {:induction false} WorkersDwindle(s: State, body: seq<Action>)
    requires Inv(s) && Draining(s) && Pass(s, body) && Fair(s, body) && Overdue(s.m.draining, s.k.clock)
    requires s.m.workers != map[]
    ensures var u := Exec(s, body);
      Unkilled(u.m.workers) != Unkilled(s.m.workers) || u.m.workers.Keys != s.m.workers.Keys
  {
    ExecSweeping(s, body);
    var u := Exec(s, body);
    assert Unkilled(u.m.workers) == {};
    if Unkilled(s.m.workers) == {} {
      forall p | p in s.m.workers ensures s.m.workers[p].killed {
        assert p !in Unkilled(s.m.workers);
      }
      var i, p :| 0 <= i <= |body| && p in s.m.workers
        && Gone(Exec(s, body[..i]).k, p) && Exec(s, body[..i]).m.at != Testing;
      DeathShrinksPool(s, body, i, p);
    }
  }

  lemma RankDrops(s: State, u: State)
    requires Shrinks(s.m.workers, u.m.workers) && TimeLeft(u) <= TimeLeft(s)
    requires || TimeLeft(u) < TimeLeft(s)
             || Unkilled(u.m.workers) != Unkilled(s.m.workers)
             || u.m.workers.Keys != s.m.workers.Keys
    ensures Rank(u) < Rank(s)
  {
    ShrinkSizes(s.m.workers, u.m.workers);
  }

  /** A fair pass during draining ends with an empty pool or lowers the rank. */
  lemma {:induction false} BodyProgress(s: State, body: seq<Action>)
    requires Inv(s) && Draining(s) && Pass(s, body) && Fair(s, body)
    ensures var u := Exec(s, body); Inv(u) && Draining(u) && (u.m.workers == map[] || Rank(u) < Rank(s))
  {
    var u := Exec(s, body);
    DrainingIsFinal(s, body);
    if u.m.workers != map[] {
      assert s.m.workers != map[] by {
        assert u.m.workers.Keys != {} && u.m.workers.Keys <= s.m.workers.Keys;
      }
      if !Overdue(s.m.draining, s.k.clock) {
        TimePasses(s, u);
      } else {
        WorkersDwindle(s, body);
      }
      RankDrops(s, u);
    }
  }

  /** A fair pass during draining leaves the loop or lowers the rank. */
  lemma {:induction false} PassProgress(s: State, body: seq<Action>)
    requires Inv(s) && Draining(s) && Pass(s, body) && Fair(s, body)
    ensures var t := After(s, body);
      && Inv(t) && Draining(t)
      && (t.m.at == Done || (t.m.at == Top && Rank(t) < Rank(s)))
  {
    hide Exec, Inv, Fair, Pass, Next;
    PassEnds(s, body);
    BodyProgress(s, body);
    NextKeepsInv(Exec(s, body), Sys(Test));
    TestShape(Exec(s, body));
  }

  /** Any pass during draining leaves the loop or goes on, and the rank does not grow. */
  lemma {:induction false} PassKeepsRank(s: State, body: seq<Action>)
    requires Inv(s) && Draining(s) && Pass(s, body)
    ensures var t := After(s, body);
      Inv(t) && Draining(t) && (t.m.at == Top || t.m.at == Done) && Rank(t) <= Rank(s)
  {
    hide Exec, Inv, Pass, Next;
    var u := Exec(s, body);
    PassEnds(s, body);
    DrainingIsFinal(s, body);
    NextKeepsInv(u, Sys(Test));
    TestShape(u);
    ShrinkSizes(s.m.workers, u.m.workers);
  }

  /** Successive passes, none of them after the loop has exited. */
  ghost predicate Passes(s: State, bodies: seq<seq<Action>>)
    decreases |bodies|
  {
    bodies != [] ==> Pass(s, bodies[0]) && Passes(After(s, bodies[0]), bodies[1..])
  }

  /** How many of the passes are fair. */
  ghost function FairOnes(s: State, bodies: seq<seq<Action>>): nat
    decreases |bodies|
  {
    if bodies == [] then 0
    else (if Fair(s, bodies[0]) then 1 else 0) + FairOnes(After(s, bodies[0]), bodies[1..])
  }

  function AfterAll(s: State, bodies: seq<seq<Action>>): State
    decreases |bodies|
  {
    if bodies == [] then s else AfterAll(After(s, bodies[0]), bodies[1..])
  }

  lemma InvDone(s: State)
    requires Inv(s) && s.m.at == Done
    ensures s.k.children == map[] && s.k.reaped == s.k.forked
    ensures forall body :: !Pass(s, body)
  {
    assert s.k.children.Keys == {};
  }

  /** The drain ends: no run has more than Rank(s) + 1 fair passes among its passes, and a run with
      that many has left the loop with no worker, having reaped every child it ever forked.
      Between the fair passes there may be any number in which nothing moves. */
  lemma {:induction false} DrainTerminates(s: State, bodies: seq<seq<Action>>)
    requires Inv(s) && Draining(s) && Passes(s, bodies)
    ensures FairOnes(s, bodies) <= Rank(s) + 1
    ensures var t := AfterAll(s, bodies);
      FairOnes(s, bodies) == Rank(s) + 1 ==> t.m.at == Done && t.k.children == map[] && t.k.reaped == t.k.forked
    decreases |bodies|
  {
    if bodies == [] {
    } else {
      hide Exec, Inv, Fair, Pass, Next, Rank, After;
      PassKeepsRank(s, bodies[0]);
      if Fair(s, bodies[0]) { PassProgress(s, bodies[0]); }
      var t := After(s, bodies[0]);
      DrainTerminates(t, bodies[1..]);
      if t.m.at == Done {
        InvDone(t);
        assert bodies[1..] == [];
      }
    }
  }
}
