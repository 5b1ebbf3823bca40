/** When the manager forks: how a round begins and how it ends. */
module Pool {
  import opened Basics
  import opened Zygote
  import opened Protocol
  import opened Invariant

  /** A round begins exactly if the manager is not draining, the backoff is over and a place is free;
      and nothing else happens at the top of the loop. */
  lemma {:induction false} RoundBeginsExactly(s: State)
    requires Control(s) && s.m.at == Top
    ensures var t := Next(s, Sys(Begin));
      && (t.m.at == Spawning <==> s.m.draining == None && s.k.clock >= s.m.retryAt && |s.m.workers| < s.cfg.workers)
      && (t.m.at != Spawning ==> t.m.at == Polling)
      && t == s.(m := s.m.(at := t.m.at, ready := t.m.ready))
  {}

  /** A round ends exactly with a failing fork or a full pool; a fork adds one worker. */
  lemma {:induction false} RoundEndsExactly(s: State, a: Action)
    requires Control(s) && s.m.at == Spawning && s.m.workers.Keys == s.k.children.Keys
    ensures var t := Next(s, a);
      && (t.m.at == Spawning || t.m.at == Polling)
      && (t.m.at == Polling <==> a == Sys(ForkFails) || |t.m.workers| == s.cfg.workers)
      && |t.m.workers| == |s.m.workers| + if a.Sys? && a.call.Fork? && Enabled(s, a.call) then 1 else 0
  {
    match a
    case Env(_) =>
    case Sys(c) => if Enabled(s, c) { CallEndsRound(s, c); }
  }

  lemma {:induction false} CallEndsRound(s: State, c: Call)
    requires Control(s) && s.m.at == Spawning && s.m.workers.Keys == s.k.children.Keys && Enabled(s, c)
    ensures var t := Perform(s, c);
      && (t.m.at == Spawning || t.m.at == Polling)
      && (t.m.at == Polling <==> c == ForkFails || |t.m.workers| == s.cfg.workers)
      && |t.m.workers| == |s.m.workers| + if c.Fork? then 1 else 0
  {
    hide BackoffMs;
    if c.Fork? {
      var workers := Perform(s, c).m.workers;
      assert workers.Keys == s.m.workers.Keys + {c.pid};
      assert |workers| == |workers.Keys| && |s.m.workers| == |s.m.workers.Keys|;
    }
  }

  /** The ready line is due when the pool is full, and not before. */
  lemma {:induction false} ReadyOnlyIfFull(s: State, a: Action)
    requires !s.m.ready && Next(s, a).m.ready
    ensures |Next(s, a).m.workers| == s.cfg.workers && s.m.draining == Next(s, a).m.draining
  {
    match a
    case Env(_) =>
    case Sys(c) => if Enabled(s, c) { CallMakesReady(s, c); }
  }

  lemma {:induction false} CallMakesReady(s: State, c: Call)
    requires Enabled(s, c) && !s.m.ready
    ensures var t := Perform(s, c); t.m.ready ==> |t.m.workers| == s.cfg.workers && s.m.draining == t.m.draining
  {
    hide BackoffMs, Kill, Notify, MustKill, StartupFailure;
    match c
    case Begin =>
    case Fork(_) =>
    case _ =>
  }

  lemma {:induction false} FullIsReady(s: State, a: Action)
    requires Control(s) && s.m.workers.Keys == s.k.children.Keys && s.m.at == Spawning
    ensures Next(s, a).m.at == Polling && a != Sys(ForkFails) ==> Next(s, a).m.ready
  {
    RoundEndsExactly(s, a);
  }

  /** The first round begins at once. */
  lemma StartsSpawning(cfg: Config, k: Kernel)
    requires Sane(cfg)
    ensures Next(Start(cfg, k), Sys(Begin)).m.at == Spawning
  {}
}
