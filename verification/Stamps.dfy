/** When things happened to a child: its stamp is the time of its accept, and the worker watching it
    was born when it was forked. */
module Stamps {
  import opened Basics
  import opened Zygote
  import opened Protocol
  import opened Invariant
  import opened Safety

  /** Whatever this child has stamped, and whenever its worker was born, it was not before `since`. */
  ghost predicate Since(s: State, pid: Pid, id: nat, since: nat) {
    && since <= s.k.clock < CLOCK_LIMIT
    && (Is(s.k, pid, id) ==> StampedSince(s.k.children[pid], since))
  }

  ghost predicate StampedSince(c: Child, since: nat) {
    && (forall i :: 0 <= i < |c.sent| ==> since <= c.sent[i])
    && (c.at.Announce? ==> since <= c.at.stamp)
  }

  lemma {:induction false} ReactSince(c: Child, e: Event, clock: nat, capacity: nat, since: nat)
    requires StampedSince(c, since) && since <= clock < CLOCK_LIMIT
    ensures StampedSince(React(c, e, clock, capacity), since)
  {
    match e
    case Run(_, choice) => if c.frames == [] { MainSince(c, choice, clock, capacity, since); }
    case _ =>
  }

  lemma {:induction false} MainSince(c: Child, choice: Choice, clock: nat, capacity: nat, since: nat)
    requires StampedSince(c, since) && since <= clock < CLOCK_LIMIT
    ensures StampedSince(Main(c, choice, clock, capacity), since)
  {
    match c.at
    case Boot =>
    case Blocked =>
    case Unblocking =>
    case HookActive =>
    case HookDrain =>
    case Accepting =>
    case SeeDrain =>
    case SeeActive =>
    case Raise =>
    case Stamp => assert ToU64(clock) == clock;
    case Announce(_) => SentSince(c, clock, capacity, choice, since);
    case Serve =>
  }

  lemma SentSince(c: Child, clock: nat, capacity: nat, choice: Choice, since: nat)
    requires StampedSince(c, since) && c.at.Announce?
    ensures StampedSince(Main(c, choice, clock, capacity), since)
  {}

  lemma {:induction false} EventSince(s: State, e: Event, pid: Pid, id: nat, since: nat)
    requires Since(s, pid, id, since)
    ensures Since(Next(s, Env(e)), pid, id, since)
  {
    hide React, StampedSince;
    EventAt(s, e, pid);
    if pid in s.k.children {
      ReactKeepsId(s.k.children[pid], e, s.k.clock, s.k.capacity);
      if Concerns(e, pid) && Is(s.k, pid, id) {
        ReactSince(s.k.children[pid], e, s.k.clock, s.k.capacity, since);
      }
    }
  }

  lemma {:induction false} CallSince(s: State, c: Call, pid: Pid, id: nat, since: nat)
    requires Since(s, pid, id, since) && Enabled(s, c)
    ensures Since(Perform(s, c), pid, id, since)
  {
    var t := Perform(s, c);
    assert pid in t.k.children && pid in s.k.children ==>
      t.k.children[pid].sent == s.k.children[pid].sent && t.k.children[pid].at == s.k.children[pid].at;
  }

  lemma {:induction false} ExecSince(s: State, acts: seq<Action>, pid: Pid, id: nat, since: nat)
    requires Since(s, pid, id, since)
    ensures Since(Exec(s, acts), pid, id, since)
  {
    hide Since, Next;
    if acts == [] {
    } else {
      var t := Exec(s, acts[..|acts| - 1]);
      ExecSince(s, acts[..|acts| - 1], pid, id, since);
      NextSince(t, acts[|acts| - 1], pid, id, since);
    }
  }

  lemma {:induction false} NextSince(s: State, a: Action, pid: Pid, id: nat, since: nat)
    requires Since(s, pid, id, since)
    ensures Since(Next(s, a), pid, id, since)
  {
    hide Since;
    match a
    case Env(e) => EventSince(s, e, pid, id, since);
    case Sys(c) => if Enabled(s, c) { CallSince(s, c, pid, id, since); }
  }

  /** The child with this identity has admitted nothing yet; it need not even be forked. */
  ghost predicate Untouched(s: State, pid: Pid, id: nat) {
    Is(s.k, pid, id) ==> s.k.children[pid].admitted == 0
  }

  lemma UntouchedSince(s: State, pid: Pid, id: nat)
    requires Inv(s) && Untouched(s, pid, id)
    ensures Since(s, pid, id, s.k.clock)
  {
    Inspect(s, pid);
  }

  /** A stamp is the time of the accept: it is no earlier than any moment at which the child had
      admitted nothing, and no later than any at which it has been sent. */
  lemma {:induction false} StampIsAcceptTime(s: State, acts: seq<Action>, pid: Pid, id: nat, stamp: nat)
    requires Inv(s) && Untouched(s, pid, id)
    ensures var t := Exec(s, acts);
      Is(t.k, pid, id) && stamp in t.k.children[pid].sent ==> s.k.clock <= stamp <= t.k.clock
  {
    hide Exec, Inv;
    UntouchedSince(s, pid, id);
    ExecSince(s, acts, pid, id, s.k.clock);
    ExecKeepsInv(s, acts);
    Inspect(Exec(s, acts), pid);
  }

  /** So before drain expiry a child is killed no sooner than the timeout after every moment at which
      it had admitted nothing. */
  lemma {:induction false} KilledNoSooner(s: State, acts: seq<Action>, a: Action, pid: Pid, id: nat)
    requires Inv(s) && Untouched(s, pid, id)
    ensures var t := Exec(s, acts);
      var u := Next(t, a);
      Is(t.k, pid, id) && Is(u.k, pid, id) && u.k.children[pid].kills > t.k.children[pid].kills
      && !Overdue(t.m.draining, t.k.clock) ==>
        t.k.clock >= s.k.clock + s.cfg.seconds * 1_000_000_000
  {
    hide Exec, Inv, Next, Overdue;
    var t := Exec(s, acts);
    var u := Next(t, a);
    ExecKeepsInv(s, acts);
    ExecConfig(s, acts);
    if Is(t.k, pid, id) && Is(u.k, pid, id) && u.k.children[pid].kills > t.k.children[pid].kills
       && !Overdue(t.m.draining, t.k.clock)
    {
      KillJustified(t, a, pid);
      var stamp: nat :| t.k.children[pid].sent == [stamp] && t.k.clock >= stamp + t.cfg.seconds * 1_000_000_000;
      StampIsAcceptTime(s, acts, pid, id, stamp);
    }
  }

  // ---- Birth

  /** The worker watching this child was born when the child was forked, not before `since`. */
  ghost predicate BornSince(s: State, pid: Pid, id: nat, since: nat) {
    && since <= s.k.clock
    && (pid in s.m.workers && s.m.workers[pid].events == id ==> since <= s.m.workers[pid].born)
  }

  lemma {:induction false} NextBorn(s: State, a: Action, pid: Pid, id: nat, since: nat)
    requires BornSince(s, pid, id, since)
    ensures BornSince(Next(s, a), pid, id, since)
  {
    match a
    case Env(_) =>
    case Sys(c) => if Enabled(s, c) { CallBorn(s, c, pid, id, since); }
  }

  lemma {:induction false} CallBorn(s: State, c: Call, pid: Pid, id: nat, since: nat)
    requires BornSince(s, pid, id, since) && Enabled(s, c)
    ensures BornSince(Perform(s, c), pid, id, since)
  {
    match c
    case Fork(_) =>
    case Receive(_) =>
    case Check(_) =>
    case Wait(_) =>
    case _ =>
  }

  lemma {:induction false} ExecBorn(s: State, acts: seq<Action>, pid: Pid, id: nat, since: nat)
    requires BornSince(s, pid, id, since)
    ensures BornSince(Exec(s, acts), pid, id, since)
  {
    hide BornSince, Next;
    if acts == [] {
    } else {
      var t := Exec(s, acts[..|acts| - 1]);
      ExecBorn(s, acts[..|acts| - 1], pid, id, since);
      NextBorn(t, acts[|acts| - 1], pid, id, since);
    }
  }

  /** The age of a worker counts from the fork of its child: it was born no earlier than any moment at
      which the child had not been forked, and no later than any at which it has been. */
  lemma {:induction false} BornIsForkTime(s: State, acts: seq<Action>, pid: Pid, id: nat)
    requires Inv(s) && id >= s.k.forked
    ensures var t := Exec(s, acts);
      Is(t.k, pid, id) ==> pid in t.m.workers && s.k.clock <= t.m.workers[pid].born <= t.k.clock
  {
    hide Exec, Inv;
    UnknownYet(s, pid, id);
    ExecBorn(s, acts, pid, id, s.k.clock);
    ExecKeepsInv(s, acts);
    Inspect(Exec(s, acts), pid);
  }

  lemma UnknownYet(s: State, pid: Pid, id: nat)
    requires Inv(s) && id >= s.k.forked
    ensures BornSince(s, pid, id, s.k.clock)
  {
    if pid in s.m.workers {
      assert Linked(s.m.workers[pid], s.k.children[pid], s.k.clock);
    }
  }
}
