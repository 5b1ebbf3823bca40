/** The backoff after failures, and how often a crash loop can fork. */
module ForkRate {
  import opened Basics
  import opened Zygote
  import opened Protocol
  import opened Invariant

  // ---- The backoff

  lemma {:induction false} Pow2Monotone(a: nat, b: nat)
    requires a <= b
    ensures 1 <= Pow2(a) <= Pow2(b)
    decreases b
  {
    if a < b { Pow2Monotone(a, b - 1); } else if a > 0 { Pow2Monotone(a - 1, b - 1); }
  }

  /** Clamping the shift count changes nothing: the delay doubles with each failure up to 5 s. */
  lemma {:induction false} BackoffIsCappedDoubling(failures: nat)
    ensures BackoffMs(failures) == Min(100 * Pow2(failures), 5000)
  {
    assert Pow2(6) == 64;
    if failures > 6 { Pow2Monotone(6, failures); }
  }

  lemma BackoffGrows(f: nat, g: nat)
    requires f <= g
    ensures BackoffMs(f) <= BackoffMs(g)
  {
    BackoffIsCappedDoubling(f);
    BackoffIsCappedDoubling(g);
    Pow2Monotone(f, g);
  }

  lemma BackoffValues(failures: nat)
    ensures failures >= 1 ==> BackoffMs(failures) >= 200
    ensures failures >= 6 ==> BackoffMs(failures) == 5000
    ensures BackoffMs(failures) <= 5000
  {
    if failures >= 1 { BackoffGrows(1, failures); }
    assert Pow2(6) == 64;
    if failures >= 6 { BackoffGrows(6, failures); }
  }

  // ---- Counting forks in a run

  predicate IsFork(s: State, a: Action) {
    a.Sys? && a.call.Fork? && Enabled(s, a.call)
  }

  function Forks(s: State, acts: seq<Action>): nat {
    if acts == [] then 0
    else Forks(s, acts[..|acts| - 1]) + if IsFork(Exec(s, acts[..|acts| - 1]), acts[|acts| - 1]) then 1 else 0
  }

  /** A reap, if any, is a startup failure: an exit other than with 0, of a child that sent no stamp
      and is not yet a second old. */
  predicate Crashes(s: State, a: Action) {
    a.Sys? && a.call.Wait? && a.call.zombie.Some? && Enabled(s, a.call) ==>
      var pid := a.call.zombie.value;
      && pid in s.m.workers && s.m.workers[pid].started == None
      && s.k.children[pid].status != Some(Exited(0))
      && s.k.clock - s.m.workers[pid].born < 1_000_000_000
  }

  /** Every exit reaped in the run is a startup failure. */
  predicate CrashLoop(s: State, acts: seq<Action>) {
    acts == [] ||
    (CrashLoop(s, acts[..|acts| - 1]) && Crashes(Exec(s, acts[..|acts| - 1]), acts[|acts| - 1]))
  }

  // ---- The allowance

  /** One round of `workers` forks, and one more for every full `pause` elapsed. */
  function Allowance(workers: nat, elapsed: nat, pause: nat): nat
    requires pause > 0
    decreases elapsed
  {
    if elapsed < pause then workers else workers + Allowance(workers, elapsed - pause, pause)
  }

  lemma {:induction false} AllowanceGrows(workers: nat, a: nat, b: nat, pause: nat)
    requires a <= b && pause > 0
    ensures workers <= Allowance(workers, a, pause) <= Allowance(workers, b, pause)
    decreases b
  {
    if a >= pause {
      AllowanceGrows(workers, a - pause, b - pause, pause);
    } else if b >= pause {
      AllowanceGrows(workers, 0, b - pause, pause);
    }
  }

  const SHORT: nat := 200 * MILLISECOND
  const LONG: nat := 5 * SECOND

  lemma OneRoundMore(workers: nat, rounds: nat)
    ensures workers * (1 + rounds) == workers + workers * rounds
  {}

  lemma {:induction false} ShortAllowance(workers: nat, elapsed: nat)
    ensures Allowance(workers, elapsed, SHORT) == workers * (1 + elapsed / 200_000_000)
    decreases elapsed
  {
    if elapsed < SHORT {
    } else {
      ShortAllowance(workers, elapsed - SHORT);
      OneRoundMore(workers, elapsed / 200_000_000);
      assert elapsed / 200_000_000 == (elapsed - 200_000_000) / 200_000_000 + 1;
    }
  }

  lemma {:induction false} LongAllowance(workers: nat, elapsed: nat)
    ensures Allowance(workers, elapsed, LONG) == workers * (1 + elapsed / 5_000_000_000)
    decreases elapsed
  {
    if elapsed < LONG {
    } else {
      LongAllowance(workers, elapsed - LONG);
      OneRoundMore(workers, elapsed / 5_000_000_000);
      assert elapsed / 5_000_000_000 == (elapsed - 5_000_000_000) / 5_000_000_000 + 1;
    }
  }

  // ---- The rate

  function Later(a: nat, b: nat): nat { if a >= b then a else b }

  /** Forks made, and forks the free places still permit, stay within the allowance. */
  ghost predicate Paced(s: State, t: State, forks: nat, pause: nat)
    requires pause > 0
  {
    && t.cfg == s.cfg && t.k.clock >= s.k.clock && t.m.failures >= s.m.failures
    && forks <= Allowance(s.cfg.workers, t.k.clock - s.k.clock, pause)
    && forks + (s.cfg.workers - |t.m.workers|)
         <= Allowance(s.cfg.workers, Later(t.k.clock, t.m.retryAt) - s.k.clock, pause)
  }

  /** The delay the next failure brings. */
  function Pause(s: State): nat { Backoff(SaturatingInc(s.m.failures)) }

  lemma PauseGrows(s: State, t: State)
    requires s.m.failures <= t.m.failures
    ensures Pause(s) <= Pause(t)
  {
    BackoffGrows(SaturatingInc(s.m.failures), SaturatingInc(t.m.failures));
  }

  lemma PauseValues(s: State)
    ensures Pause(s) >= SHORT && (5 <= s.m.failures ==> Pause(s) == LONG)
  {
    BackoffValues(SaturatingInc(s.m.failures));
  }

  /** What one action does to the numbers that matter here. */
  ghost predicate Moves(t: State, u: State, fork: bool) {
    && u.cfg == t.cfg && u.k.clock >= t.k.clock && |u.m.workers| <= u.cfg.workers
    && if fork then
         u.k.clock == t.k.clock >= t.m.retryAt == u.m.retryAt && u.m.failures == t.m.failures
         && |u.m.workers| == |t.m.workers| + 1
       else
         || (u.m.retryAt == t.m.retryAt && u.m.failures == t.m.failures && |u.m.workers| == |t.m.workers|)
         || (u.m.retryAt == u.k.clock + Pause(t) && u.m.failures == SaturatingInc(t.m.failures))
  }

  predicate Calm(c: Call) {
    !c.Fork? && !c.ForkFails? && !(c.Wait? && c.zombie.Some?)
  }

  lemma CalmCallMoves(t: State, c: Call)
    requires Control(t) && Calm(c) && Enabled(t, c)
    ensures Moves(t, Perform(t, c), false)
  {
    var u := Perform(t, c);
    assert u.m.workers.Keys == t.m.workers.Keys;
    assert |u.m.workers| == |u.m.workers.Keys| && |t.m.workers| == |t.m.workers.Keys|;
  }

  lemma ForkMoves(t: State, pid: Pid)
    requires Control(t) && Enabled(t, Fork(pid)) && pid !in t.m.workers
    ensures Moves(t, DoFork(t, pid), true)
  {
    var u := DoFork(t, pid);
    assert u.m.workers.Keys == t.m.workers.Keys + {pid};
    assert |u.m.workers.Keys| == |t.m.workers.Keys| + 1;
  }

  lemma ReapMoves(t: State, pid: Pid)
    requires Control(t) && Enabled(t, Wait(Some(pid))) && Crashes(t, Sys(Wait(Some(pid))))
    ensures Moves(t, DoReap(t, pid), false)
  {
    var u := DoReap(t, pid);
    assert u.m.workers.Keys == t.m.workers.Keys - {pid};
    assert |u.m.workers.Keys| <= |t.m.workers.Keys|;
  }

  lemma {:induction false} NextMoves(t: State, a: Action)
    requires Control(t) && t.m.workers.Keys == t.k.children.Keys && Crashes(t, a)
    ensures Moves(t, Next(t, a), IsFork(t, a))
  {
    match a
    case Env(e) => EventMoves(t, e);
    case Sys(c) => if Enabled(t, c) { CallMoves(t, c); }
  }

  lemma EventMoves(t: State, e: Event)
    requires Control(t)
    ensures Moves(t, Next(t, Env(e)), false)
  {}

  lemma CallMoves(t: State, c: Call)
    requires Control(t) && t.m.workers.Keys == t.k.children.Keys && Enabled(t, c) && Crashes(t, Sys(c))
    ensures Moves(t, Perform(t, c), c.Fork?)
  {
    if Calm(c) { CalmCallMoves(t, c); }
    else if c.Fork? { ForkMoves(t, c.pid); }
    else if c.Wait? { ReapMoves(t, c.zombie.value); }
  }

  /** A failure frees places and postpones the next round by a full pause. */
  lemma FailurePaced(s: State, t: State, u: State, forks: nat, pause: nat)
    requires pause > 0 && Paced(s, t, forks, pause)
    requires u.cfg == t.cfg && u.k.clock >= t.k.clock && u.m.failures >= t.m.failures
    requires u.m.retryAt >= u.k.clock + pause
    ensures Paced(s, u, forks, pause)
  {
    var n, elapsed := s.cfg.workers, u.k.clock - s.k.clock;
    AllowanceGrows(n, t.k.clock - s.k.clock, elapsed, pause);
    assert Allowance(n, elapsed + pause, pause) == n + Allowance(n, elapsed, pause);
    AllowanceGrows(n, elapsed + pause, u.m.retryAt - s.k.clock, pause);
  }

  lemma NextPaced(s: State, t: State, u: State, forks: nat, fork: bool, pause: nat)
    requires 0 < pause <= Pause(s) && Paced(s, t, forks, pause) && Moves(t, u, fork)
    requires t.m.failures <= U32_MAX
    ensures Paced(s, u, forks + if fork then 1 else 0, pause)
  {
    var n := s.cfg.workers;
    if fork || (u.m.retryAt == t.m.retryAt && u.m.failures == t.m.failures && |u.m.workers| == |t.m.workers|) {
      AllowanceGrows(n, t.k.clock - s.k.clock, u.k.clock - s.k.clock, pause);
      AllowanceGrows(n, Later(t.k.clock, t.m.retryAt) - s.k.clock, Later(u.k.clock, u.m.retryAt) - s.k.clock, pause);
    } else {
      PauseGrows(s, t);
      FailurePaced(s, t, u, forks, pause);
    }
  }

  lemma InvBounds(s: State)
    requires Inv(s)
    ensures Control(s) && s.m.workers.Keys == s.k.children.Keys
    ensures s.m.failures <= U32_MAX && |s.m.workers| <= s.cfg.workers
  {}

  lemma {:induction false} ExecPaced(s: State, acts: seq<Action>, pause: nat)
    requires Inv(s) && CrashLoop(s, acts) && 0 < pause <= Pause(s)
    ensures Paced(s, Exec(s, acts), Forks(s, acts), pause)
  {
    if acts == [] {
      AllowanceGrows(s.cfg.workers, 0, Later(s.k.clock, s.m.retryAt) - s.k.clock, pause);
    } else {
      var prefix, a := acts[..|acts| - 1], acts[|acts| - 1];
      var t := Exec(s, prefix);
      ExecPaced(s, prefix, pause);
      ExecKeepsInv(s, prefix);
      InvBounds(t);
      NextMoves(t, a);
      NextPaced(s, t, Next(t, a), Forks(s, prefix), IsFork(t, a), pause);
    }
  }

  /** A crash loop forks at most `workers` children at once and as many again for every 200 ms of
      the window; once five failures have gone before, for every 5 s of it. */
  lemma {:induction false} CrashLoopForkRate(s: State, acts: seq<Action>)
    requires Inv(s) && CrashLoop(s, acts)
    ensures var window := Exec(s, acts).k.clock - s.k.clock;
      && window >= 0
      && Forks(s, acts) <= s.cfg.workers * (1 + window / 200_000_000)
      && (s.m.failures >= 5 ==> Forks(s, acts) <= s.cfg.workers * (1 + window / 5_000_000_000))
  {
    hide Exec, CrashLoop, Forks, Inv, Pause;
    PauseValues(s);
    ExecPaced(s, acts, SHORT);
    ShortAllowance(s.cfg.workers, Exec(s, acts).k.clock - s.k.clock);
    if s.m.failures >= 5 {
      ExecPaced(s, acts, LONG);
      LongAllowance(s.cfg.workers, Exec(s, acts).k.clock - s.k.clock);
    }
  }

  // ---- The distance between rounds

  ghost predicate Waiting(t: State, floor: nat, pause: nat) {
    && Inv(t) && t.m.retryAt >= floor && t.k.clock + pause >= floor
    && Pause(t) >= pause
  }

  lemma {:induction false} NextWaiting(t: State, a: Action, floor: nat, pause: nat)
    requires Waiting(t, floor, pause) && Crashes(t, a)
    ensures Waiting(Next(t, a), floor, pause)
    ensures IsFork(t, a) ==> t.k.clock >= floor
  {
    NextKeepsInv(t, a);
    NextMoves(t, a);
    PauseGrows(t, Next(t, a));
  }

  /** After a startup failure or a failed fork nothing is forked until its pause is over, and the
      later failures of a crash loop only postpone that: two rounds are a pause apart. */
  lemma {:induction false} RoundsAreApart(s: State, acts: seq<Action>, i: nat, floor: nat, pause: nat)
    requires Waiting(s, floor, pause) && CrashLoop(s, acts)
    ensures Waiting(Exec(s, acts), floor, pause)
    ensures i < |acts| && IsFork(Exec(s, acts[..i]), acts[i]) ==> Exec(s, acts[..i]).k.clock >= floor
  {
    hide Waiting, Next, IsFork, Crashes;
    if acts == [] {
    } else {
      var prefix := acts[..|acts| - 1];
      RoundsAreApart(s, prefix, i, floor, pause);
      NextWaiting(Exec(s, prefix), acts[|acts| - 1], floor, pause);
      if i < |prefix| { assert prefix[..i] == acts[..i]; }
    }
  }

  /** What a failure counted at `s` establishes. */
  lemma {:induction false} FailureStartsWaiting(s: State, c: Call)
    requires Inv(s) && Enabled(s, c) && Crashes(s, Sys(c)) && (c == ForkFails || (c.Wait? && c.zombie.Some?))
    ensures Waiting(Perform(s, c), s.k.clock + Pause(s), Pause(s))
    ensures Pause(s) >= SHORT && (s.m.failures >= 5 ==> Pause(s) == LONG)
  {
    CallKeepsInv(s, c);
    PauseGrows(s, Perform(s, c));
    PauseValues(s);
  }
}
