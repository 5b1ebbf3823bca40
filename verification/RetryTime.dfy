/** retry_at over runs: how far ahead it lies, and exactly when it moves back. */
module RetryTime {
  import opened Basics
  import opened Zygote
  import opened Protocol
  import opened Invariant
  import opened ForkRate

  /** The action counts a failure: a fork fails, or a startup failure is reaped. */
  predicate Counts(s: State, a: Action) {
    && a.Sys? && Enabled(s, a.call)
    && match a.call
       case ForkFails => true
       case Wait(Some(pid)) =>
         pid in s.m.workers && StartupFailure(s.m.workers[pid], s.k.children[pid].status.value, s.k.clock)
       case _ => false
  }

  /** What an action does to the numbers that matter here. */
  lemma {:induction false} NextSets(s: State, a: Action)
    ensures var t := Next(s, a);
      && t.k.clock >= s.k.clock
      && (Counts(s, a) ==>
            t.k.clock == s.k.clock && t.m.retryAt == s.k.clock + Pause(s) && t.m.failures == SaturatingInc(s.m.failures))
      && (!Counts(s, a) ==> t.m.retryAt == s.m.retryAt && (t.m.failures == s.m.failures || t.m.failures == 0))
      && (!Counts(s, a) && Crashes(s, a) && (forall p :: p in s.k.children ==> p in s.m.workers) ==>
            t.m.failures == s.m.failures)
  {
    match a
    case Env(_) =>
    case Sys(c) => if Enabled(s, c) { CallSets(s, c); }
  }

  lemma {:induction false} CallSets(s: State, c: Call)
    requires Enabled(s, c)
    ensures var t := Perform(s, c);
      && t.k.clock == s.k.clock
      && (Counts(s, Sys(c)) ==> t.m.retryAt == s.k.clock + Pause(s) && t.m.failures == SaturatingInc(s.m.failures))
      && (!Counts(s, Sys(c)) ==> t.m.retryAt == s.m.retryAt && (t.m.failures == s.m.failures || t.m.failures == 0))
      && (!Counts(s, Sys(c)) && Crashes(s, Sys(c)) && (forall p :: p in s.k.children ==> p in s.m.workers) ==>
            t.m.failures == s.m.failures)
  {
    hide BackoffMs, MustKill;
  }

  /** How a reap is classified. A startup failure raises the count, as far as 32 bits hold it, and
      forbids forking for its pause; any other exit clears the count and leaves retry_at alone. */
  lemma {:induction false} ReapClassifies(s: State, pid: Pid)
    requires Inv(s) && Enabled(s, Wait(Some(pid)))
    ensures pid in s.m.workers && s.m.workers[pid].born <= s.k.clock
    ensures var t, w := Next(s, Sys(Wait(Some(pid)))), s.m.workers[pid];
      && t.m.workers == s.m.workers - {pid} && t.k.children == s.k.children - {pid}
      && if s.k.children[pid].status != Some(Exited(0)) && w.started == None && s.k.clock - w.born < 1_000_000_000
         then t.m.failures == Min(s.m.failures + 1, 0xFFFF_FFFF)
              && t.m.retryAt == s.k.clock + BackoffMs(t.m.failures) * 1_000_000
         else t.m.failures == 0 && t.m.retryAt == s.m.retryAt
  {
    hide BackoffMs, ChildOk;
    InvBounds(s);
    BornBefore(s, pid);
  }

  lemma BornBefore(s: State, pid: Pid)
    requires Inv(s) && pid in s.k.children
    ensures pid in s.m.workers && s.m.workers[pid].born <= s.k.clock
  {
    assert pid in s.m.workers;
    assert Linked(s.m.workers[pid], s.k.children[pid], s.k.clock);
  }

  // ---- How far ahead it lies

  lemma {:induction false} ExecRetryIsNear(s: State, acts: seq<Action>)
    requires s.m.retryAt <= s.k.clock + LONG
    ensures var t := Exec(s, acts); t.m.retryAt <= t.k.clock + LONG
  {
    if acts == [] {
    } else {
      var t := Exec(s, acts[..|acts| - 1]);
      ExecRetryIsNear(s, acts[..|acts| - 1]);
      NextSets(t, acts[|acts| - 1]);
      BackoffValues(SaturatingInc(t.m.failures));
    }
  }

  /** In every reachable state retry_at lies at most five seconds ahead. */
  lemma {:induction false} RetryIsNear(cfg: Config, k: Kernel, acts: seq<Action>)
    ensures var t := Exec(Start(cfg, k), acts); t.m.retryAt <= t.k.clock + 5_000_000_000
  {
    ExecRetryIsNear(Start(cfg, k), acts);
  }

  // ---- When it moves back

  /** The guard of a setback: a failure is counted while retry_at lies beyond the pause that the
      present count of failures asks for. */
  predicate SetsBack(s: State, a: Action) {
    Counts(s, a) && s.m.retryAt > s.k.clock + Pause(s)
  }

  lemma {:induction false} MovesBackExactly(s: State, a: Action)
    ensures Next(s, a).m.retryAt < s.m.retryAt <==> SetsBack(s, a)
  {
    NextSets(s, a);
  }

  /** The state after the first i actions. */
  function At(s: State, acts: seq<Action>, i: nat): State
    requires i <= |acts|
  {
    Exec(s, acts[..i])
  }

  lemma AtNext(s: State, acts: seq<Action>, i: nat)
    requires i < |acts|
    ensures At(s, acts, i + 1) == Next(At(s, acts, i), acts[i])
  {
    assert acts[..i + 1][..i] == acts[..i];
  }

  ghost predicate Climbs(s: State, acts: seq<Action>) {
    forall i: nat, j: nat :: i <= j <= |acts| ==> At(s, acts, i).m.retryAt <= At(s, acts, j).m.retryAt
  }

  /** Over any run retry_at is monotone exactly if no action sets it back. */
  lemma {:induction false} RetryTimeClimbs(s: State, acts: seq<Action>)
    ensures Climbs(s, acts) <==> forall i: nat :: i < |acts| ==> !SetsBack(At(s, acts, i), acts[i])
  {
    hide SetsBack, Next, At;
    forall i: nat | i < |acts|
      ensures At(s, acts, i + 1).m.retryAt < At(s, acts, i).m.retryAt <==> SetsBack(At(s, acts, i), acts[i])
    {
      AtNext(s, acts, i);
      MovesBackExactly(At(s, acts, i), acts[i]);
    }
    if Climbs(s, acts) {
      forall i: nat | i < |acts| ensures !SetsBack(At(s, acts, i), acts[i]) {
        assert At(s, acts, i).m.retryAt <= At(s, acts, i + 1).m.retryAt;
      }
    }
    if forall i: nat :: i < |acts| ==> !SetsBack(At(s, acts, i), acts[i]) {
      forall i: nat, j: nat | i <= j <= |acts| ensures At(s, acts, i).m.retryAt <= At(s, acts, j).m.retryAt {
        StepsAddUp(s, acts, i, j);
      }
    }
  }

  lemma {:induction false} StepsAddUp(s: State, acts: seq<Action>, i: nat, j: nat)
    requires i <= j <= |acts|
    requires forall n: nat :: n < |acts| ==> !SetsBack(At(s, acts, n), acts[n])
    ensures At(s, acts, i).m.retryAt <= At(s, acts, j).m.retryAt
    decreases j
  {
    hide At, SetsBack, Next;
    if i == j {
    } else {
      StepsAddUp(s, acts, i, j - 1);
      AtNext(s, acts, j - 1);
      MovesBackExactly(At(s, acts, j - 1), acts[j - 1]);
    }
  }

  /** retry_at lies no further ahead than the next failure would put it. */
  predicate Ordered(s: State) { s.m.retryAt <= s.k.clock + Pause(s) }

  lemma NextOrdered(s: State, a: Action)
    requires Inv(s) && Ordered(s) && Crashes(s, a)
    ensures Ordered(Next(s, a)) && !SetsBack(s, a)
  {
    hide Pause, Next, Crashes, Counts, Inv;
    InvBounds(s);
    NextSets(s, a);
    PauseGrows(s, Next(s, a));
  }

  lemma {:induction false} ExecOrdered(s: State, acts: seq<Action>, i: nat)
    requires Inv(s) && Ordered(s) && CrashLoop(s, acts) && i <= |acts|
    ensures Ordered(Exec(s, acts))
    ensures var t := At(s, acts, i); Ordered(t) && Inv(t) && (i < |acts| ==> Crashes(t, acts[i]))
  {
    hide Ordered, Crashes, Next, Inv;
    if acts == [] {
      assert acts[..i] == [];
    } else {
      var prefix := acts[..|acts| - 1];
      if i < |acts| {
        ExecOrdered(s, prefix, i);
        assert prefix[..i] == acts[..i];
      } else {
        ExecOrdered(s, prefix, i - 1);
        assert acts[..i] == acts;
      }
      ExecKeepsInv(s, prefix);
      ExecKeepsInv(s, acts);
      NextOrdered(Exec(s, prefix), acts[|acts| - 1]);
    }
  }

  /** As long as no exit clears the count of failures, retry_at never moves back. */
  lemma {:induction false} CrashLoopClimbs(s: State, acts: seq<Action>)
    requires Inv(s) && Ordered(s) && CrashLoop(s, acts)
    ensures Climbs(s, acts) && Ordered(Exec(s, acts))
  {
    hide Ordered, SetsBack, At, Exec, Inv, Crashes, CrashLoop, Climbs;
    forall i: nat | i < |acts| ensures !SetsBack(At(s, acts, i), acts[i]) {
      ExecOrdered(s, acts, i);
      NextOrdered(At(s, acts, i), acts[i]);
    }
    ExecOrdered(s, acts, 0);
    RetryTimeClimbs(s, acts);
  }

  /** A reap that clears the count, and the next failure right after it: retry_at moves back
      exactly if more than 200 ms of the pause were left. */
  lemma {:induction false} FailureAfterReset(s: State, pid: Pid, a: Action)
    requires Inv(s) && Enabled(s, Wait(Some(pid))) && !Crashes(s, Sys(Wait(Some(pid))))
    requires Counts(Perform(s, Wait(Some(pid))), a)
    ensures Next(Perform(s, Wait(Some(pid))), a).m.retryAt < s.m.retryAt <==> s.k.clock + 200_000_000 < s.m.retryAt
  {
    var t := Perform(s, Wait(Some(pid)));
    ResetClears(s, pid);
    MovesBackExactly(t, a);
    assert Pause(t) == 200 * MILLISECOND by { assert Pow2(1) == 2; }
  }

  lemma ResetClears(s: State, pid: Pid)
    requires Inv(s) && Enabled(s, Wait(Some(pid))) && !Crashes(s, Sys(Wait(Some(pid))))
    ensures var t := Perform(s, Wait(Some(pid)));
      t.m.failures == 0 && t.m.retryAt == s.m.retryAt && t.k.clock == s.k.clock
  {
    InvBounds(s);
  }

  // ---- A run in which it does

  const FOUR := Config(4, 1)
  const FAULT := Signaled(11)
  const CREW: set<Pid> := {1, 2, 3}

  /** Three forks and a failed one, two faults with a healthy exit between them, and the loop down to
      the reaping of the first two. */
  const SETBACK: seq<Action> :=
    [Sys(Begin), Sys(Fork(1)), Sys(Fork(2)), Sys(Fork(3)), Sys(ForkFails),
     Env(Crash(1, FAULT)), Env(Crash(2, Exited(0))), Env(Crash(3, FAULT)),
     Sys(Poll(Woken)), Sys(Receive(1)), Sys(Receive(2)), Sys(Receive(3)),
     Sys(ReadSignal(Some(Chld))), Sys(ReadSignal(None)), Sys(ReadClock),
     Sys(Check(1)), Sys(Check(2)), Sys(Check(3)), Sys(Wait(Some(1))), Sys(Wait(Some(2)))]

  function Bare(clock: nat): Kernel { Kernel(clock, map[], {}, 0, 0, 1) }

  /** The workers and children with pids beyond lo and up to hi. */
  function Crew(lo: nat, hi: nat): set<Pid> { set p | p in CREW && lo < p <= hi }

  function Hired(clock: nat, lo: nat, hi: nat): map<Pid, Worker> {
    map p | p in Crew(lo, hi) :: Worker(p - 1, None, false, clock)
  }

  function Born(n: nat): map<Pid, Child> {
    map p | p in Crew(0, n) :: Newborn(p - 1)
  }

  lemma CrewSize(n: nat)
    requires n <= 3
    ensures |Crew(0, n)| == n && (n > 0 ==> Crew(0, n) == Crew(0, n - 1) + {n})
  {
    if n == 0 {
      assert Crew(0, 0) == {};
    } else {
      CrewSize(n - 1);
      assert Crew(0, n) == Crew(0, n - 1) + {n};
    }
  }

  lemma HiredSize(clock: nat, n: nat)
    requires n <= 3
    ensures |Hired(clock, 0, n)| == n
  {
    CrewSize(n);
    assert Hired(clock, 0, n).Keys == Crew(0, n);
    assert |Hired(clock, 0, n)| == |Hired(clock, 0, n).Keys|;
  }

  function Hiring(clock: nat, n: nat): State {
    State(FOUR, Kernel(clock, Born(n), {}, n, 0, 1), Manager(Hired(clock, 0, n), None, clock, 0, false, false, Spawning))
  }

  lemma OneMore(clock: nat, n: nat)
    requires n < 3
    ensures Next(Hiring(clock, n), Sys(Fork(n + 1))) == Hiring(clock, n + 1)
  {
    HiredSize(clock, n);
    HiredSize(clock, n + 1);
    CrewSize(n + 1);
    assert Hired(clock, 0, n)[n + 1 := Worker(n, None, false, clock)] == Hired(clock, 0, n + 1);
    assert Born(n)[n + 1 := Newborn(n)] == Born(n + 1);
  }

  /** One fork has failed since; these children have died. */
  function Standing(clock: nat, children: map<Pid, Child>, pending: set<Signal>, at: Phase): State {
    State(FOUR, Kernel(clock, children, pending, 3, 0, 1),
      Manager(Hired(clock, 0, 3), None, clock + 200 * MILLISECOND, 1, false, false, at))
  }

  function Fate(n: nat): Status { if n == 2 then Exited(0) else FAULT }

  function Corpse(n: nat): Child
    requires n > 0
  {
    Newborn(n - 1).(status := Some(Fate(n)))
  }

  function Fallen(n: nat): map<Pid, Child> {
    map p | p in CREW :: if p <= n then Corpse(p) else Newborn(p - 1)
  }

  lemma Falls(clock: nat, n: nat, pending: set<Signal>)
    requires 1 <= n <= 3
    ensures Next(Standing(clock, Fallen(n - 1), pending, Polling), Env(Crash(n, Fate(n))))
      == Standing(clock, Fallen(n), pending + {Chld}, Polling)
  {
    assert Fallen(n - 1)[n := Corpse(n)] == Fallen(n);
  }

  lemma Polls(clock: nat)
    ensures Next(Standing(clock, Fallen(3), {Chld}, Polling), Sys(Poll(Woken)))
      == Standing(clock, Fallen(3), {Chld}, Stamping(CREW))
  {
    assert Hired(clock, 0, 3).Keys == CREW;
  }

  lemma Receives(clock: nat, pid: Pid, todo: set<Pid>)
    requires pid in todo && 1 <= pid <= 3
    ensures Next(Standing(clock, Fallen(3), {Chld}, Stamping(todo)), Sys(Receive(pid)))
      == Standing(clock, Fallen(3), {Chld}, StampPhase(todo - {pid}))
  {
  }

  lemma TakesSignals(clock: nat)
    ensures Next(Standing(clock, Fallen(3), {Chld}, Signaling), Sys(ReadSignal(Some(Chld))))
      == Standing(clock, Fallen(3), {}, Signaling)
    ensures Next(Standing(clock, Fallen(3), {}, Signaling), Sys(ReadSignal(None)))
      == Standing(clock, Fallen(3), {}, Timing)
  {
    hide Fallen, Hired;
  }

  lemma Times(clock: nat)
    ensures Next(Standing(clock, Fallen(3), {}, Timing), Sys(ReadClock))
      == Standing(clock, Fallen(3), {}, Killing(ToU64(clock), CREW))
  {
    hide ToU64;
    assert Hired(clock, 0, 3).Keys == CREW;
  }

  lemma Spares(clock: nat, now: nat, pid: Pid, todo: set<Pid>)
    requires pid in todo && 1 <= pid <= 3
    ensures Next(Standing(clock, Fallen(3), {}, Killing(now, todo)), Sys(Check(pid)))
      == Standing(clock, Fallen(3), {}, KillPhase(now, todo - {pid}))
  {
  }

  /** The reaping goes on: these are left. */
  function Reaped(clock: nat, n: nat, retryAt: nat, failures: nat): State
    requires n <= 3
  {
    State(FOUR, Kernel(clock, map p | p in Crew(n, 3) :: Corpse(p), {}, 3, n, 1),
      Manager(Hired(clock, n, 3), None, retryAt, failures, false, false, Reaping))
  }

  lemma ReapsNext(clock: nat, n: nat, retryAt: nat, failures: nat)
    requires 1 <= n <= 3
    ensures var s := Reaped(clock, n - 1, retryAt, failures);
      && Enabled(s, Wait(Some(n)))
      && Next(s, Sys(Wait(Some(n)))) ==
           if Fate(n) == Exited(0) then Reaped(clock, n, retryAt, 0)
           else Reaped(clock, n, clock + Backoff(SaturatingInc(failures)), SaturatingInc(failures))
  {
    hide Backoff, Hired, Crew, Corpse;
    ReapedShrinks(clock, n);
    LastWords(clock, n);
  }

  lemma LastWords(clock: nat, n: nat)
    requires 1 <= n <= 3
    ensures n in Hired(clock, n - 1, 3) && Hired(clock, n - 1, 3)[n] == Worker(n - 1, None, false, clock)
    ensures n in Crew(n - 1, 3) && Corpse(n).status == Some(Fate(n))
  {}

  lemma ReapedShrinks(clock: nat, n: nat)
    requires 1 <= n <= 3
    ensures Hired(clock, n - 1, 3) - {n} == Hired(clock, n, 3)
    ensures (map p | p in Crew(n - 1, 3) :: Corpse(p)) - {n} == map p | p in Crew(n, 3) :: Corpse(p)
  {
    hide Corpse;
    assert Crew(n - 1, 3) - {n} == Crew(n, 3);
  }

  lemma Reaps(clock: nat)
    ensures var s := Standing(clock, Fallen(3), {}, Reaping);
      var t := Next(Next(s, Sys(Wait(Some(1)))), Sys(Wait(Some(2))));
      && t.m.retryAt == clock + 400 * MILLISECOND && Enabled(t, Wait(Some(3)))
      && Next(t, Sys(Wait(Some(3)))).m.retryAt == clock + 200 * MILLISECOND
  {
    hide Next, Enabled;
    assert Pow2(1) == 2 && Pow2(2) == 4;
    var early := clock + 200 * MILLISECOND;
    assert Reaped(clock, 0, early, 1).k.children == Fallen(3);
    assert Reaped(clock, 0, early, 1) == Standing(clock, Fallen(3), {}, Reaping);
    ReapsNext(clock, 1, early, 1);
    ReapsNext(clock, 2, clock + Backoff(2), 2);
    ReapsNext(clock, 3, clock + Backoff(2), 0);
  }

  lemma ForkingEnds(clock: nat)
    ensures Exec(Start(FOUR, Bare(clock)), SETBACK[..5]) == Standing(clock, Fallen(0), {}, Polling)
  {
    hide Next, Exec;
    var s := Start(FOUR, Bare(clock));
    Begins(clock);
    AtNext(s, SETBACK, 0);
    OneMore(clock, 0);
    AtNext(s, SETBACK, 1);
    OneMore(clock, 1);
    AtNext(s, SETBACK, 2);
    OneMore(clock, 2);
    AtNext(s, SETBACK, 3);
    AtNext(s, SETBACK, 4);
  }

  lemma Begins(clock: nat)
    ensures At(Start(FOUR, Bare(clock)), SETBACK, 0) == Start(FOUR, Bare(clock))
    ensures Next(Start(FOUR, Bare(clock)), Sys(Begin)) == Hiring(clock, 0)
    ensures Next(Hiring(clock, 3), Sys(ForkFails)) == Standing(clock, Fallen(0), {}, Polling)
  {
    assert SETBACK[..0] == [];
    assert Pow2(1) == 2;
  }

  lemma LoopReaches(clock: nat)
    ensures At(Start(FOUR, Bare(clock)), SETBACK, 18) == Standing(clock, Fallen(3), {}, Reaping)
  {
    hide Next, Exec, Fallen, Standing;
    var s, now := Start(FOUR, Bare(clock)), ToU64(clock);
    ForkingEnds(clock);
    Falls(clock, 1, {});
    AtNext(s, SETBACK, 5);
    Falls(clock, 2, {} + {Chld});
    AtNext(s, SETBACK, 6);
    Falls(clock, 3, {} + {Chld} + {Chld});
    AtNext(s, SETBACK, 7);
    assert {} + {Chld} + {Chld} + {Chld} == {Chld};
    Polls(clock);
    AtNext(s, SETBACK, 8);
    Receives(clock, 1, CREW);
    AtNext(s, SETBACK, 9);
    Receives(clock, 2, CREW - {1});
    AtNext(s, SETBACK, 10);
    Receives(clock, 3, CREW - {1} - {2});
    AtNext(s, SETBACK, 11);
    assert CREW - {1} - {2} - {3} == {};
    TakesSignals(clock);
    AtNext(s, SETBACK, 12);
    AtNext(s, SETBACK, 13);
    Times(clock);
    AtNext(s, SETBACK, 14);
    Spares(clock, now, 1, CREW);
    AtNext(s, SETBACK, 15);
    Spares(clock, now, 2, CREW - {1});
    AtNext(s, SETBACK, 16);
    Spares(clock, now, 3, CREW - {1} - {2});
    AtNext(s, SETBACK, 17);
  }

  /** From the very start a run reaches a state in which reaping one more child, a startup failure,
      moves retry_at back by 200 ms: two failures, a healthy exit, and a failure. */
  lemma {:induction false} RetryTimeCanMoveBack(clock: nat)
    ensures var s := Exec(Start(FOUR, Bare(clock)), SETBACK);
      var a := Sys(Wait(Some(3)));
      && s.m.retryAt == clock + 400_000_000 && Next(s, a).m.retryAt == clock + 200_000_000
      && SetsBack(s, a)
  {
    hide Next, Exec, Fallen, Standing, SetsBack;
    var s := Start(FOUR, Bare(clock));
    LoopReaches(clock);
    AtNext(s, SETBACK, 18);
    AtNext(s, SETBACK, 19);
    assert SETBACK[..20] == SETBACK;
    Reaps(clock);
    MovesBackExactly(Exec(s, SETBACK), Sys(Wait(Some(3))));
  }
}
