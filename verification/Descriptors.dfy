/** The descriptors spawn creates, inherits and closes: who can write to a worker's channel, and
    what a disposable child is left holding. */
module Descriptors {
  import opened Basics
  import opened Zygote

  type Fd = nat

  /** `Inherited` stands for whatever PHP opened before the manager began to fork. */
  datatype Resource = Listener | Signals | Inherited(name: nat) | ReadEnd(channel: nat) | WriteEnd(channel: nat)

  type Table = map<Fd, Resource>

  /** How the two system calls of spawn turn out. */
  datatype Outcome = NoSocketPair | NoFork | Forked(pid: Pid)

  /** The read end a worker keeps and the channel it belongs to. */
  datatype Watch = Watch(fd: Fd, channel: nat)

  type Pool = map<Pid, Watch>

  predicate Harmless(r: Resource) {
    r.Listener? || r.Inherited?
  }

  ghost predicate BaseOk(base: Table, signals: Fd) {
    && signals in base && base[signals] == Signals
    && forall fd :: fd in base && fd != signals ==> Harmless(base[fd])
  }

  function ReadEnds(pool: Pool): set<Fd> {
    set p | p in pool :: pool[p].fd
  }

  /** No two workers share a descriptor or a channel. */
  ghost predicate Separate(pool: Pool) {
    forall p, q :: p in pool && q in pool && p != q ==> pool[p].fd != pool[q].fd && pool[p].channel != pool[q].channel
  }

  /** The manager: what it started with, and one read end for each worker. */
  ghost predicate ManagerOk(base: Table, open: Table, pool: Pool, channels: nat) {
    && open.Keys == base.Keys + ReadEnds(pool)
    && (forall fd :: fd in base ==> open[fd] == base[fd])
    && (forall p :: p in pool ==>
          && pool[p].fd !in base
          && pool[p].fd in open && open[pool[p].fd] == ReadEnd(pool[p].channel)
          && pool[p].channel < channels)
    && Separate(pool)
  }

  /** A child: plain descriptors of the base, and the write end of its own channel. */
  ghost predicate HoldsOwn(base: Table, held: Table, channel: nat) {
    forall fd :: fd in held ==>
      || (fd in base && held[fd] == base[fd] && Harmless(base[fd]))
      || held[fd] == WriteEnd(channel)
  }

  /** A new child is left with all of the base but the signalfd, and with its write end. */
  ghost predicate Inherits(base: Table, signals: Fd, channel: nat, held: Table) {
    exists fd :: fd in held && fd !in base && held == (base - {signals})[fd := WriteEnd(channel)]
  }

  ghost predicate ChildrenHoldOwn(base: Table, children: map<Pid, Table>, pool: Pool) {
    && children.Keys == pool.Keys
    && forall p :: p in pool ==> HoldsOwn(base, children[p], pool[p].channel)
  }

  lemma AddReadEnd(pool: Pool, pid: Pid, e: Watch)
    requires pid !in pool
    ensures ReadEnds(pool[pid := e]) == ReadEnds(pool) + {e.fd}
  {
    var pool' := pool[pid := e];
    forall fd | fd in ReadEnds(pool) ensures fd in ReadEnds(pool') {
      var p :| p in pool && pool[p].fd == fd;
      assert p in pool' && pool'[p].fd == fd;
    }
    assert pid in pool' && pool'[pid].fd == e.fd;
  }

  lemma DropReadEnd(pool: Pool, pid: Pid)
    requires pid in pool && Separate(pool)
    ensures ReadEnds(pool - {pid}) == ReadEnds(pool) - {pool[pid].fd}
  {
    var pool' := pool - {pid};
    forall fd | fd in ReadEnds(pool) && fd != pool[pid].fd ensures fd in ReadEnds(pool') {
      var p :| p in pool && pool[p].fd == fd;
      assert p in pool' && pool'[p].fd == fd;
    }
  }

  lemma ManagerGains(base: Table, open: Table, pool: Pool, channels: nat, pid: Pid, fd: Fd)
    requires ManagerOk(base, open, pool, channels) && pid !in pool && fd !in open
    ensures ManagerOk(base, open[fd := ReadEnd(channels)], pool[pid := Watch(fd, channels)], channels + 1)
  {
    hide ReadEnds, Separate;
    AddReadEnd(pool, pid, Watch(fd, channels));
    SeparateGains(pool, channels, pid, fd);
  }

  lemma SeparateGains(pool: Pool, channels: nat, pid: Pid, fd: Fd)
    requires Separate(pool) && pid !in pool
    requires forall p :: p in pool ==> pool[p].fd != fd && pool[p].channel < channels
    ensures Separate(pool[pid := Watch(fd, channels)])
  {}

  lemma ManagerLoses(base: Table, open: Table, pool: Pool, channels: nat, pid: Pid)
    requires ManagerOk(base, open, pool, channels) && pid in pool
    ensures ManagerOk(base, open - {pool[pid].fd}, pool - {pid}, channels)
  {
    DropReadEnd(pool, pid);
  }

  lemma {:induction false} CountReadEnds(pool: Pool)
    requires Separate(pool)
    ensures |ReadEnds(pool)| == |pool|
    decreases |pool|
  {
    if pool == map[] {
      assert ReadEnds(pool) == {};
    } else {
      var p :| p in pool;
      var rest := pool - {p};
      assert rest.Keys == pool.Keys - {p};
      assert |pool| == |pool.Keys| && |rest| == |rest.Keys|;
      CountReadEnds(rest);
      DropReadEnd(pool, p);
      assert pool[p].fd in ReadEnds(pool);
    }
  }

  lemma ChildrenGain(base: Table, children: map<Pid, Table>, pool: Pool, pid: Pid, held: Table, e: Watch)
    requires ChildrenHoldOwn(base, children, pool) && pid !in children && HoldsOwn(base, held, e.channel)
    ensures ChildrenHoldOwn(base, children[pid := held], pool[pid := e]) && pid !in pool
  {
    assert children[pid := held].Keys == children.Keys + {pid};
    assert pool[pid := e].Keys == pool.Keys + {pid};
  }

  lemma ChildrenLose(base: Table, children: map<Pid, Table>, pool: Pool, pid: Pid)
    requires ChildrenHoldOwn(base, children, pool)
    ensures ChildrenHoldOwn(base, children - {pid}, pool - {pid})
  {
    assert (children - {pid}).Keys == children.Keys - {pid};
    assert (pool - {pid}).Keys == pool.Keys - {pid};
  }

  lemma CloseOneMore(inherited: Table, closed: set<Fd>, fd: Fd)
    ensures inherited - closed - {fd} == inherited - (closed + {fd})
  {}

  lemma ForgetOne(pool: Pool, p: Pid)
    requires p in pool
    ensures (pool - {p}).Keys < pool.Keys && ReadEnds(pool) == ReadEnds(pool - {p}) + {pool[p].fd}
  {
    assert pool == (pool - {p})[p := pool[p]];
    AddReadEnd(pool - {p}, p, pool[p]);
    assert p in pool.Keys && p !in (pool - {p}).Keys;
  }

  class Processes {
    const signals: Fd
    const base: Table                    // open before the first fork
    var open: Table                      // the manager's descriptors
    var workers: Pool
    var children: map<Pid, Table>        // the descriptors of each unreaped child
    var channels: nat                    // socket pairs created so far

    ghost predicate Valid()
      reads this
    {
      BaseOk(base, signals) && ManagerOk(base, open, workers, channels) && ChildrenHoldOwn(base, children, workers)
    }

    constructor (signals: Fd, base: Table)
      requires BaseOk(base, signals)
      ensures Valid() && workers == map[] && open == base && this.base == base && this.signals == signals
    {
      this.signals, this.base, open := signals, base, base;
      workers, children, channels := map[], map[], 0;
    }

    /** The child closes the read end of its own channel, the signalfd and the read end of every
        other worker, all of which it was born with. */
    method CloseInherited(own: Fd, inherited: Table) returns (kept: Table)
      ensures kept == inherited - ({own, signals} + ReadEnds(workers))
    {
      kept := inherited - {own};
      CloseOneMore(inherited, {own}, signals);
      kept := kept - {signals};
      var todo := workers;
      ghost var closed := {own} + {signals};
      while todo != map[]
        invariant closed + ReadEnds(todo) == {own, signals} + ReadEnds(workers)
        invariant kept == inherited - closed
        decreases todo.Keys
      {
        var p :| p in todo;
        ForgetOne(todo, p);
        CloseOneMore(inherited, closed, todo[p].fd);
        kept := kept - {todo[p].fd};
        closed := closed + {todo[p].fd};
        todo := todo - {p};
      }
      assert ReadEnds(todo) == {};
    }

    /** spawn. A failure at either call leaves the manager's descriptors as they were. */
    method Spawn(outcome: Outcome) returns (ok: bool)
      requires Valid() && (outcome.Forked? ==> outcome.pid !in children)
      modifies this
      ensures Valid()
      ensures ok <==> outcome.Forked?
      ensures !ok ==> open == old(open) && workers == old(workers) && children == old(children)
      ensures ok ==>
        && outcome.pid in workers && outcome.pid in children
        && var e := workers[outcome.pid];
           && workers == old(workers)[outcome.pid := e]
           && children == old(children)[outcome.pid := children[outcome.pid]]
           && open == old(open)[e.fd := ReadEnd(e.channel)] && e.fd !in old(open) && e.channel == old(channels)
           && Inherits(base, signals, e.channel, children[outcome.pid])
    {
      hide ManagerOk, ChildrenHoldOwn, HoldsOwn, BaseOk;
      ok := false;
      if outcome == NoSocketPair { return; }
      var parent := Free(open.Keys);
      var child := Free(open.Keys + {parent});
      var channel := channels;
      ManagerOkLater(base, open, workers, channels);
      channels := channels + 1;
      open := open[parent := ReadEnd(channel)][child := WriteEnd(channel)];
      if outcome == NoFork {
        open := open - {child, parent};
        assert open == old(open);
        return;
      }
      var held := CloseInherited(parent, open);
      KeepsOwn(base, old(open), workers, signals, channel, parent, child, held);
      ChildrenGain(base, children, workers, outcome.pid, held, Watch(parent, channel));
      ManagerGains(base, old(open), workers, channel, outcome.pid, parent);
      open := open - {child};
      assert open == old(open)[parent := ReadEnd(channel)];
      workers := workers[outcome.pid := Watch(parent, channel)];
      children := children[outcome.pid := held];
      ok := true;
    }

    /** The manager removes a reaped child's worker, which closes the read end. */
    method Reap(pid: Pid)
      requires Valid() && pid in workers
      modifies this
      ensures Valid() && workers == old(workers) - {pid} && children == old(children) - {pid}
      ensures open == old(open) - {old(workers)[pid].fd}
    {
      hide ManagerOk, ChildrenHoldOwn, BaseOk;
      ManagerLoses(base, open, workers, channels, pid);
      ChildrenLose(base, children, workers, pid);
      open := open - {workers[pid].fd};
      workers := workers - {pid};
      children := children - {pid};
    }

    /** A child closes one of its own descriptors, as it does with the listener once it has a
        connection. */
    method ChildCloses(pid: Pid, fd: Fd)
      requires Valid() && pid in children
      modifies this`children
      ensures Valid() && children == old(children)[pid := old(children)[pid] - {fd}]
    {
      children := children[pid := children[pid] - {fd}];
    }

    /** Whoever can write to a worker's channel is that worker's child, so every stamp read under
        a pid was sent by the child with that pid. */
    lemma OnlyOwnChildWrites(p: Pid, q: Pid, fd: Fd)
      requires Valid() && p in workers && q in children && fd in children[q]
      requires children[q][fd] == WriteEnd(workers[p].channel)
      ensures q == p
    {
      assert HoldsOwn(base, children[q], workers[q].channel);
    }

    /** No child keeps a read end or the signalfd, and the manager keeps no write end. */
    lemma OthersKeepNothing(q: Pid, fd: Fd)
      requires Valid()
      ensures q in children && fd in children[q] ==> !children[q][fd].ReadEnd? && children[q][fd] != Signals
      ensures fd in open ==> !open[fd].WriteEnd?
      ensures fd in open && open[fd].ReadEnd? ==> exists p :: p in workers && workers[p] == Watch(fd, open[fd].channel)
    {
      if q in children { assert HoldsOwn(base, children[q], workers[q].channel); }
      if fd in open && fd !in base {
        var p :| p in workers && workers[p].fd == fd;
        assert workers[p] == Watch(fd, open[fd].channel);
      }
    }

    /** The manager's descriptors are those it started with and one for each worker. */
    lemma {:induction false} NoLeak()
      requires Valid()
      ensures |open| == |base| + |workers|
    {
      CountReadEnds(workers);
      assert base.Keys !! ReadEnds(workers);
      assert |open| == |open.Keys| && |base| == |base.Keys|;
    }
  }

  lemma ManagerOkLater(base: Table, open: Table, pool: Pool, channels: nat)
    requires ManagerOk(base, open, pool, channels)
    ensures ManagerOk(base, open, pool, channels + 1)
  {}

  /** What is left to a child of the table it was born with. */
  lemma KeepsOwn(base: Table, open: Table, pool: Pool, signals: Fd, channel: nat, parent: Fd, child: Fd, held: Table)
    requires BaseOk(base, signals) && ManagerOk(base, open, pool, channel)
    requires parent !in open && child !in open && parent != child
    requires held == open[parent := ReadEnd(channel)][child := WriteEnd(channel)] - ({parent, signals} + ReadEnds(pool))
    ensures HoldsOwn(base, held, channel) && Inherits(base, signals, channel, held)
  {
    assert child !in ReadEnds(pool);
    assert forall fd :: fd in ReadEnds(pool) ==> fd !in base;
    assert held.Keys == base.Keys - {signals} + {child};
    assert child in held && child !in base && held == (base - {signals})[child := WriteEnd(channel)];
  }

  /** The lowest free descriptor, as POSIX hands them out. */
  method Free(used: set<Fd>) returns (fd: Fd)
    ensures fd !in used && forall lower :: 0 <= lower < fd ==> lower in used
  {
    fd := 0;
    ghost var above := used;
    while fd in used
      invariant forall lower :: 0 <= lower < fd ==> lower in used
      invariant above == set u | u in used && u >= fd
      decreases above
    {
      assert fd in above;
      fd := fd + 1;
      above := set u | u in used && u >= fd;
    }
  }
}
