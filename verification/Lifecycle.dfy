/** What a child does when it is left alone, and what a signal does to it. */
module Lifecycle {
  import opened Basics
  import opened Zygote

  /** The main program runs undisturbed; each instruction finds the clock at the time given for it. */
  function Undisturbed(c: Child, pid: Pid, times: seq<nat>, capacity: nat): Child
    decreases |times|
  {
    if times == [] then c
    else Undisturbed(React(c, Run(pid, Proceed), times[0], capacity), pid, times[1..], capacity)
  }

  lemma Step(c: Child, pid: Pid, times: seq<nat>, i: nat, capacity: nat)
    requires i < |times|
    ensures Undisturbed(c, pid, times[i..], capacity) ==
      Undisturbed(React(c, Run(pid, Proceed), times[i], capacity), pid, times[i + 1..], capacity)
  {
    assert times[i..][1..] == times[i + 1..];
  }

  lemma {:induction false} ToTheAccept(id: nat, pid: Pid, times: seq<nat>, capacity: nat)
    requires |times| == 5
    ensures Undisturbed(Newborn(id), pid, times, capacity) ==
      Newborn(id).(handlers := true, masked := false, at := Accepting)
  {
    hide Undisturbed;
    var c := Newborn(id);
    Step(c, pid, times, 0, capacity);
    Step(c.(handlers := true, at := Blocked), pid, times, 1, capacity);
    Step(c.(handlers := true, masked := false, at := Unblocking), pid, times, 2, capacity);
    Step(c.(handlers := true, masked := false, at := HookActive), pid, times, 3, capacity);
    Step(c.(handlers := true, masked := false, at := HookDrain), pid, times, 4, capacity);
    assert times[5..] == [] && times[0..] == times;
    Rest(c.(handlers := true, masked := false, at := Accepting), pid, capacity);
  }

  lemma Rest(c: Child, pid: Pid, capacity: nat)
    ensures Undisturbed(c, pid, [], capacity) == c
  {}

  lemma Announces(c: Child, pid: Pid, clock: nat, later: nat, capacity: nat)
    requires c.status == None && c.frames == [] && c.at == Stamp && c.channel == [] && c.sent == []
    requires clock < CLOCK_LIMIT && capacity >= 1
    ensures var d := React(c, Run(pid, Proceed), clock, capacity);
      d == c.(at := Announce(clock))
      && React(d, Run(pid, Proceed), later, capacity) == c.(at := Serve, channel := [clock], sent := [clock])
  {
    assert ToU64(clock) == clock;
    assert c.channel + [clock] == [clock] && c.sent + [clock] == [clock];
  }

  /** A child that is not disturbed gets as far as accept; given a connection it lets it through, sends
      one stamp, which is the time after it has raised its flag, and serves. */
  lemma {:induction false} QuietChildServes(id: nat, pid: Pid, waiting: seq<nat>, times: seq<nat>, capacity: nat)
    requires |waiting| == 5 && |times| == 6 && times[4] < CLOCK_LIMIT && capacity >= 1
    ensures var ready := Undisturbed(Newborn(id), pid, waiting, capacity);
      ready.at == Accepting && ready.status == None && !ready.active
    ensures var c := Undisturbed(Undisturbed(Newborn(id), pid, waiting, capacity), pid, times, capacity);
      && c.at == Serve && c.status == None && c.active && c.admitted == 1
      && c.sent == [times[4]] && c.channel == [times[4]]
  {
    hide Undisturbed, ToU64;
    ToTheAccept(id, pid, waiting, capacity);
    var c := Newborn(id).(handlers := true, masked := false, at := Accepting);
    Step(c, pid, times, 0, capacity);
    Step(c.(at := SeeDrain), pid, times, 1, capacity);
    Step(c.(at := SeeActive), pid, times, 2, capacity);
    Step(c.(at := Raise), pid, times, 3, capacity);
    var d := c.(active := true, admitted := 1, at := Stamp);
    Announces(d, pid, times[4], times[5], capacity);
    Step(d, pid, times, 4, capacity);
    Step(d.(at := Announce(times[4])), pid, times, 5, capacity);
    assert times[6..] == [] && times[0..] == times;
    Rest(d.(at := Serve, channel := [times[4]], sent := [times[4]]), pid, capacity);
  }

  /** before_accept, and the check behind accept: a child goes on exactly if neither flag is set, and
      otherwise exits normally. */
  lemma {:induction false} FlagsStopTheChild(c: Child, pid: Pid, clock: nat, capacity: nat)
    requires c.status == None && c.frames == [] && (c.at == HookActive || c.at == SeeDrain)
    ensures var d := React(c, Run(pid, Proceed), clock, capacity);
      var e := if d.status == None then React(d, Run(pid, Proceed), clock, capacity) else d;
      if c.active || c.drain then e.status == Some(Exited(0))
      else e == c.(at := if c.at == HookActive then Accepting else Raise)
  {}

  /** A served child takes no second connection: asked for one, it exits normally; and its own exit
      code is what the manager sees. */
  lemma {:induction false} ServedChildExits(c: Child, pid: Pid, code: nat, clock: nat, capacity: nat)
    requires c.status == None && c.at == Serve && c.active && c.frames == []
    ensures React(React(c, Run(pid, Retry), clock, capacity), Run(pid, Proceed), clock, capacity).status == Some(Exited(0))
    ensures React(c, Run(pid, Quit(code)), clock, capacity).status == Some(Exited(code))
  {}

  /** A signal that is delivered runs its handler to the end in two instructions: an idle child has
      then exited normally, and a serving one goes on where it was, with drain_requested set. */
  lemma {:induction false} SignalRuns(c: Child, pid: Pid, signal: Signal, clock: nat, capacity: nat)
    requires c.status == None && c.handlers && !c.masked
    requires signal in c.pending && signal != Chld && !Handling(c, signal)
    ensures var d := React(c, Deliver(pid, signal), clock, capacity);
      var e := React(React(d, Handle(pid), clock, capacity), Handle(pid), clock, capacity);
      && d.status == None && d.frames == c.frames + [Frame(signal, false)] && signal !in d.pending
      && if c.active then e == c.(pending := c.pending - {signal}, drain := true)
         else e.status == Some(Exited(0)) && e.drain
  {
    hide Main, Handling;
    var frames := c.frames + [Frame(signal, false)];
    var d := React(c, Deliver(pid, signal), clock, capacity);
    assert d == c.(pending := c.pending - {signal}, frames := frames);
    var f := React(d, Handle(pid), clock, capacity);
    assert f.frames == c.frames + [Frame(signal, true)] && f.drain;
    assert f.frames[..|c.frames|] == c.frames;
  }

  /** A masked child, and one already handling the signal, keeps it pending. */
  lemma {:induction false} SignalWaits(c: Child, pid: Pid, signal: Signal, clock: nat, capacity: nat)
    requires c.status == None && (c.masked || Handling(c, signal))
    ensures React(c, Deliver(pid, signal), clock, capacity) == c
  {}

  /** A child that was sent SIGKILL dies of it. */
  lemma {:induction false} KilledChildDies(k: Kernel, pid: Pid)
    requires Alive(k, pid)
    ensures var d := Happen(Kill(k, pid), Die(pid)); pid in d.children && d.children[pid].status == Some(Signaled(9))
  {}

  /** Whatever ends a child leaves a zombie and raises SIGCHLD at the manager; the event that ends one
      child leaves the others alone. */
  lemma {:induction false} DeathIsReported(k: Kernel, e: Event, pid: Pid)
    requires Alive(k, pid) && !Alive(Happen(k, e), pid)
    ensures pid in Happen(k, e).children && Chld in Happen(k, e).pending
    ensures forall p :: p in k.children && p != pid ==>
      p in Happen(k, e).children && Happen(k, e).children[p] == k.children[p]
  {}

  /** The events that are not a child's own take effect: time passes up to the limit of the clock, and a
      signal that is sent is pending. */
  lemma {:induction false} EventsTakeEffect(k: Kernel, ns: nat, pid: Pid, signal: Signal, status: Status)
    requires Alive(k, pid)
    ensures k.clock + ns < CLOCK_LIMIT ==> Happen(k, Advance(ns)) == k.(clock := k.clock + ns)
    ensures Happen(k, SignalManager(signal)) == k.(pending := k.pending + {signal})
    ensures var d := Happen(k, SignalChild(pid, signal));
      pid in d.children && d.children[pid] == k.children[pid].(pending := k.children[pid].pending + {signal})
    ensures var d := Happen(k, Crash(pid, status)); pid in d.children && d.children[pid].status == Some(status)
  {}
}
