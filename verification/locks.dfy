// The process lock and the install lock of the maintenance helper, as a step system over any
// number of processes: cleanups, upgrades from the command line, and upgrade requests whose
// thread hands both locks to a worker.

module Locks {
  import opened Base

  datatype Kind = Cleanup | CommandLine | Request | Worker

  /** Where a task is. `Leaked`: closing the lock file raised, so the release after it was skipped. `Dead`: its
      process is gone. */
  datatype Pc = Start | Opening | Locking | Dispatching | Working | Closing | Releasing | Done | Leaked | Dead

  /** `handle` is the open lock file, `ticket` the acquisition of the process lock that the task answers for. */
  datatype Task = Task(process: nat, kind: Kind, pc: Pc, handle: Option<nat>, ticket: Option<nat>)

  /** How often an acquisition was given back, and whether its process died holding it. */
  datatype Ticket = Ticket(releases: nat, lost: bool)

  /** `locks`: the processes whose `LOCK` is held. `flock`: the open file that holds the install lock. `broken`: a
      lock that was not held has been released. */
  datatype State = State(locks: set<nat>, flock: Option<nat>, handles: nat, tickets: seq<Ticket>, tasks: seq<Task>,
    broken: bool)

  /** One step: a task begins, or goes on with a success or a failure, or a process dies. */
  datatype Label = Begin(process: nat, kind: Kind) | Act(task: nat, ok: bool) | Die(process: nat)

  const INITIAL := State({}, None, 0, [], [], false)

  // ----- Steps -----

  function At(s: State, i: nat, t: Task): State
    requires i < |s.tasks|
  {
    s.(tasks := s.tasks[i := t])
  }

  /** `LOCK.acquire(blocking=False)`. */
  function Acquire(s: State, i: nat): State
    requires i < |s.tasks|
  {
    var t := s.tasks[i];
    if t.process in s.locks then At(s, i, t.(pc := Done))
    else At(s, i, t.(pc := Opening, ticket := Some(|s.tickets|))).(locks := s.locks + {t.process},
      tickets := s.tickets + [Ticket(0, false)])
  }

  /** `INSTALL_LOCK.open('a')`; when it fails there is nothing to close. */
  function Open(s: State, i: nat, ok: bool): State
    requires i < |s.tasks|
  {
    var t := s.tasks[i];
    if ok then At(s, i, t.(pc := Locking, handle := Some(s.handles))).(handles := s.handles + 1)
    else At(s, i, t.(pc := Releasing))
  }

  /** `flock` without waiting: it also fails while another open file holds the lock. */
  function Lock(s: State, i: nat, ok: bool): State
    requires i < |s.tasks|
  {
    var t := s.tasks[i];
    if ok && s.flock == None
      then At(s, i, t.(pc := if t.kind == Request then Dispatching else Working)).(flock := t.handle)
    else At(s, i, t.(pc := Closing))
  }

  /** The request thread saves the status and starts the worker, which takes over the file and the lock. */
  function Dispatch(s: State, i: nat, ok: bool): State
    requires i < |s.tasks|
  {
    var t := s.tasks[i];
    if ok then
      s.(tasks := s.tasks[i := t.(pc := Done, handle := None, ticket := None)] +
        [Task(t.process, Worker, Working, t.handle, t.ticket)])
    else At(s, i, t.(pc := Closing))
  }

  /** `install_lock.close()`: the install lock is gone in either case. */
  function Close(s: State, i: nat, ok: bool): State
    requires i < |s.tasks|
  {
    var t := s.tasks[i];
    At(s, i, t.(pc := if ok then Releasing else Leaked, handle := None)).(flock := if s.flock == t.handle then None
      else s.flock)
  }

  /** `LOCK.release()`. */
  function Release(s: State, i: nat): State
    requires i < |s.tasks|
  {
    var t := s.tasks[i];
    var free :=
      At(s, i, t.(pc := Done, ticket := None)).(locks := s.locks - {t.process}, broken := s.broken
        || t.process !in s.locks);
    if t.ticket.Some? && t.ticket.value < |s.tickets| then
      var k := t.ticket.value;
      free.(tickets := s.tickets[k := s.tickets[k].(releases := s.tickets[k].releases + 1)])
    else free
  }

  function Go(s: State, i: nat, ok: bool): State
    requires i < |s.tasks|
  {
    match s.tasks[i].pc
    case Start => Acquire(s, i)
    case Opening => Open(s, i, ok)
    case Locking => Lock(s, i, ok)
    case Dispatching => Dispatch(s, i, ok)
    case Working => At(s, i, s.tasks[i].(pc := Closing))
    case Closing => Close(s, i, ok)
    case Releasing => Release(s, i)
    case _ => s
  }

  function Killed(t: Task, process: nat): Task {
    if t.process == process then t.(pc := Dead, handle := None, ticket := None) else t
  }

  /** Does a task of this process hold this file? */
  predicate HoldsFile(s: State, process: nat, handle: Option<nat>) {
    handle.Some? && exists i :: 0 <= i < |s.tasks| && s.tasks[i].process == process && s.tasks[i].handle == handle
  }

  predicate HoldsTicket(s: State, process: nat, ticket: nat) {
    exists i :: 0 <= i < |s.tasks| && s.tasks[i].process == process && s.tasks[i].ticket == Some(ticket)
  }

  /** A process dies: its lock goes with it, and the kernel closes its files. */
  function Kill(s: State, process: nat): State {
    s.(locks := s.locks - {process},
       flock := if HoldsFile(s, process, s.flock) then None else s.flock,
       tickets := seq(|s.tickets|, k requires 0 <= k < |s.tickets| =>
                        if HoldsTicket(s, process, k) then s.tickets[k].(lost := true) else s.tickets[k]),
       tasks := seq(|s.tasks|, i requires 0 <= i < |s.tasks| => Killed(s.tasks[i], process)))
  }

  function Step(s: State, l: Label): State {
    match l
    case Begin(p, k) => if k == Worker then s else s.(tasks := s.tasks + [Task(p, k, Start, None, None)])
    case Act(i, ok) => if i < |s.tasks| then Go(s, i, ok) else s
    case Die(p) => Kill(s, p)
  }

  function Run(labels: seq<Label>): State {
    if labels == [] then INITIAL else Step(Run(labels[..|labels| - 1]), labels[|labels| - 1])
  }

  // ----- The invariant -----

  /** Between the acquisition of the process lock and its release. */
  predicate Owning(t: Task) {
    t.pc in {Opening, Locking, Dispatching, Working, Closing, Releasing, Leaked}
  }

  /** Holding the install lock on purpose. */
  predicate Exclusive(t: Task) {
    t.pc in {Dispatching, Working}
  }

  /** Who answers for what: the task behind each held process lock, each acquisition not yet given back, and each open
      lock file. */
  datatype Books = Books(owner: map<nat, nat>, bearer: map<nat, nat>, holder: map<nat, nat>)

  const EMPTY := Books(map[], map[], map[])

  predicate HandleKept(t: Task) {
    t.pc in {Locking, Dispatching, Working, Closing}
  }

  /** The books know task `i`, and what it holds is really held. */
  predicate TaskOk(s: State, b: Books, i: nat)
    requires i < |s.tasks|
  {
    var t := s.tasks[i];
    && (Owning(t) <==> t.ticket.Some?) && (HandleKept(t) <==> t.handle.Some?)
    && (Owning(t) ==>
      t.process in b.owner && b.owner[t.process] == i && t.ticket.value in b.bearer && b.bearer[t.ticket.value] == i)
    && (t.handle.Some? ==> t.handle.value in b.holder && b.holder[t.handle.value] == i)
    && (Exclusive(t) ==> s.flock == t.handle)
  }

  predicate LockOk(s: State, b: Books, p: nat)
    requires p in b.owner
  {
    b.owner[p] < |s.tasks| && Owning(s.tasks[b.owner[p]]) && s.tasks[b.owner[p]].process == p
  }

  predicate TicketOk(s: State, b: Books, k: nat)
    requires k < |s.tickets|
  {
    if k in b.bearer then
      s.tickets[k] == Ticket(0, false) && b.bearer[k] < |s.tasks| && s.tasks[b.bearer[k]].ticket == Some(k)
    else s.tickets[k] in {Ticket(1, false), Ticket(0, true)}
  }

  predicate HandleOk(s: State, b: Books, h: nat)
    requires h in b.holder
  {
    h < s.handles && b.holder[h] < |s.tasks| && s.tasks[b.holder[h]].handle == Some(h)
  }

  /** Every held lock has its task, every task's lock is held, and every acquisition is either answered for by one
      task, or was given back once, or went down with its process. */
  ghost predicate Balanced(s: State, b: Books) {
    && !s.broken && s.locks == b.owner.Keys
    && (s.flock.Some? ==> s.flock.value in b.holder)
    && (forall i: nat :: i < |s.tasks| ==> TaskOk(s, b, i))
    && (forall p :: p in b.owner ==> LockOk(s, b, p))
    && (forall k: nat :: k < |s.tickets| ==> TicketOk(s, b, k))
    && (forall k :: k in b.bearer ==> k < |s.tickets|)
    && (forall h :: h in b.holder ==> HandleOk(s, b, h))
  }

  // ----- Every step keeps the balance -----

  /** It is enough to look at each task, lock, acquisition and file by itself. */
  lemma Carries(s: State, b: Books, r: State, c: Books)
    requires Balanced(s, b)
    requires !r.broken && r.locks == c.owner.Keys && (r.flock.Some? ==> r.flock.value in c.holder)
             && forall k :: k in c.bearer ==> k < |r.tickets|
    requires forall i: nat :: i < |r.tasks| && (i < |s.tasks| ==> TaskOk(s, b, i)) ==> TaskOk(r, c, i)
    requires forall p :: p in c.owner && (p in b.owner ==> LockOk(s, b, p)) ==> LockOk(r, c, p)
    requires forall k: nat :: k < |r.tickets| && (k < |s.tickets| ==> TicketOk(s, b, k)) ==> TicketOk(r, c, k)
    requires forall h :: h in c.holder && (h in b.holder ==> HandleOk(s, b, h)) ==> HandleOk(r, c, h)
    ensures Balanced(r, c)
  {
  }

  lemma AcquireKeeps(s: State, b: Books, i: nat)
    requires Balanced(s, b) && i < |s.tasks| && s.tasks[i].pc == Start && s.tasks[i].process !in s.locks
    ensures Balanced(Acquire(s, i), b.(owner := b.owner[s.tasks[i].process := i], bearer := b.bearer[|s.tickets| := i]))
  {
    assert TaskOk(s, b, i);
    var r, c := Acquire(s, i), b.(owner := b.owner[s.tasks[i].process := i], bearer := b.bearer[|s.tickets| := i]);
    Carries(s, b, r, c);
  }

  lemma OpenKeeps(s: State, b: Books, i: nat)
    requires Balanced(s, b) && i < |s.tasks| && s.tasks[i].pc == Opening
    ensures Balanced(Open(s, i, true), b.(holder := b.holder[s.handles := i]))
  {
    assert TaskOk(s, b, i);
    var r, c := Open(s, i, true), b.(holder := b.holder[s.handles := i]);
    Carries(s, b, r, c);
  }

  /** Steps of one task that keep what it holds: also a failed acquisition, and a failed open. */
  lemma MoveKeeps(s: State, b: Books, i: nat, pc: Pc)
    requires Balanced(s, b) && i < |s.tasks|
    requires var t, u := s.tasks[i], s.tasks[i].(pc := pc);
             Owning(t) == Owning(u) && HandleKept(t) == HandleKept(u) && (Exclusive(u) ==> Exclusive(t))
    ensures Balanced(At(s, i, s.tasks[i].(pc := pc)), b)
  {
    assert TaskOk(s, b, i);
    var r, c := At(s, i, s.tasks[i].(pc := pc)), b;
    Carries(s, b, r, c);
  }

  lemma LockKeeps(s: State, b: Books, i: nat)
    requires Balanced(s, b) && i < |s.tasks| && s.tasks[i].pc == Locking && s.flock == None
    ensures Balanced(Lock(s, i, true), b)
  {
    assert TaskOk(s, b, i);
    var r, c := Lock(s, i, true), b;
    Carries(s, b, r, c);
  }

  lemma DispatchKeeps(s: State, b: Books, i: nat)
    requires Balanced(s, b) && i < |s.tasks| && s.tasks[i].pc == Dispatching
    ensures var t, n := s.tasks[i], |s.tasks|;
            && t.ticket.Some? && t.handle.Some?
            && Balanced(Dispatch(s, i, true),
              Books(b.owner[t.process := n], b.bearer[t.ticket.value := n], b.holder[t.handle.value := n]))
  {
    var t, n := s.tasks[i], |s.tasks|;
    assert TaskOk(s, b, i);
    var r, c := Dispatch(s, i, true),
      Books(b.owner[t.process := n], b.bearer[t.ticket.value := n], b.holder[t.handle.value := n]);
    Carries(s, b, r, c);
  }

  lemma CloseKeeps(s: State, b: Books, i: nat, ok: bool)
    requires Balanced(s, b) && i < |s.tasks| && s.tasks[i].pc == Closing
    ensures s.tasks[i].handle.Some? && Balanced(Close(s, i, ok), b.(holder := b.holder - {s.tasks[i].handle.value}))
  {
    assert TaskOk(s, b, i);
    var r, c := Close(s, i, ok), b.(holder := b.holder - {s.tasks[i].handle.value});
    Carries(s, b, r, c);
  }

  lemma ReleaseKeeps(s: State, b: Books, i: nat)
    requires Balanced(s, b) && i < |s.tasks| && s.tasks[i].pc == Releasing
    ensures s.tasks[i].ticket.Some?
            && Balanced(Release(s, i),
              b.(owner := b.owner - {s.tasks[i].process}, bearer := b.bearer - {s.tasks[i].ticket.value}))
  {
    assert TaskOk(s, b, i);
    var r, c := Release(s, i),
      b.(owner := b.owner - {s.tasks[i].process}, bearer := b.bearer - {s.tasks[i].ticket.value});
    Carries(s, b, r, c);
  }

  lemma BeginKeeps(s: State, b: Books, process: nat, kind: Kind)
    requires Balanced(s, b)
    ensures Balanced(s.(tasks := s.tasks + [Task(process, kind, Start, None, None)]), b)
  {
    var r, c := s.(tasks := s.tasks + [Task(process, kind, Start, None, None)]), b;
    Carries(s, b, r, c);
  }

  function Surviving(s: State, m: map<nat, nat>, process: nat): map<nat, nat> {
    map x | x in m && !(m[x] < |s.tasks| && s.tasks[m[x]].process == process) :: m[x]
  }

  lemma KillKeeps(s: State, b: Books, process: nat)
    requires Balanced(s, b)
    ensures Balanced(Kill(s, process),
            Books(b.owner - {process}, Surviving(s, b.bearer, process), Surviving(s, b.holder, process)))
  {
    var r, c := Kill(s, process),
      Books(b.owner - {process}, Surviving(s, b.bearer, process), Surviving(s, b.holder, process));
    forall k: nat | k < |s.tickets| ensures HoldsTicket(s, process, k) <==> k in b.bearer && k !in c.bearer {
      assert TicketOk(s, b, k);
      if i: nat :| i < |s.tasks| && s.tasks[i].process == process && s.tasks[i].ticket == Some(k) {
        assert TaskOk(s, b, i);
      }
    }
    if s.flock.Some? {
      assert HandleOk(s, b, s.flock.value);
      if i: nat :| i < |s.tasks| && s.tasks[i].process == process && s.tasks[i].handle == s.flock {
        assert TaskOk(s, b, i);
      }
    }
    forall i: nat | i < |r.tasks| && TaskOk(s, b, i) ensures TaskOk(r, c, i) {
      KillTask(s, b, process, i);
    }
    Carries(s, b, r, c);
  }

  /** A task of another process keeps what it has. */
  lemma KillTask(s: State, b: Books, process: nat, i: nat)
    requires Balanced(s, b) && i < |s.tasks|
    ensures TaskOk(Kill(s, process),
            Books(b.owner - {process}, Surviving(s, b.bearer, process), Surviving(s, b.holder, process)), i)
  {
    assert TaskOk(s, b, i);
    var t := s.tasks[i];
    if t.process != process && Exclusive(t) {
      forall j: nat | j < |s.tasks| && s.tasks[j].process == process ensures s.tasks[j].handle != s.flock {
        assert TaskOk(s, b, j);
      }
    }
  }

  lemma StepKeeps(s: State, b: Books, l: Label) returns (c: Books)
    requires Balanced(s, b)
    ensures Balanced(Step(s, l), c)
  {
    hide Balanced;
    c := b;
    match l
    case Begin(p, k) =>
      BeginKeeps(s, b, p, k);
    case Die(p) =>
      KillKeeps(s, b, p);
      c := Books(b.owner - {p}, Surviving(s, b.bearer, p), Surviving(s, b.holder, p));
    case Act(i, ok) =>
      if i < |s.tasks| {
        c := GoKeeps(s, b, i, ok);
      }
  }

  lemma GoKeeps(s: State, b: Books, i: nat, ok: bool) returns (c: Books)
    requires Balanced(s, b) && i < |s.tasks|
    ensures Balanced(Go(s, i, ok), c)
  {
    hide Balanced;
    c := b;
    var t := s.tasks[i];
    match t.pc
    case Start =>
      if t.process in s.locks {
        MoveKeeps(s, b, i, Done);
      } else {
        AcquireKeeps(s, b, i);
        c := b.(owner := b.owner[t.process := i], bearer := b.bearer[|s.tickets| := i]);
      }
    case Opening =>
      if ok {
        OpenKeeps(s, b, i);
        c := b.(holder := b.holder[s.handles := i]);
      } else {
        MoveKeeps(s, b, i, Releasing);
      }
    case Locking =>
      if ok && s.flock == None {
        LockKeeps(s, b, i);
      } else {
        MoveKeeps(s, b, i, Closing);
      }
    case Dispatching =>
      if ok {
        DispatchKeeps(s, b, i);
        var n := |s.tasks|;
        c := Books(b.owner[t.process := n], b.bearer[t.ticket.value := n], b.holder[t.handle.value := n]);
      } else {
        MoveKeeps(s, b, i, Closing);
      }
    case Working =>
      MoveKeeps(s, b, i, Closing);
    case Closing =>
      CloseKeeps(s, b, i, ok);
      c := b.(holder := b.holder - {t.handle.value});
    case Releasing =>
      ReleaseKeeps(s, b, i);
      c := b.(owner := b.owner - {t.process}, bearer := b.bearer - {t.ticket.value});
    case _ =>
  }

  lemma {:induction false} RunBalanced(labels: seq<Label>) returns (b: Books)
    ensures Balanced(Run(labels), b)
  {
    if labels == [] {
      b := EMPTY;
    } else {
      var before := RunBalanced(labels[..|labels| - 1]);
      b := StepKeeps(Run(labels[..|labels| - 1]), before, labels[|labels| - 1]);
    }
  }

  // ----- What holds in every run -----

  /** The process lock answers to at most one task of its process, and at most one task of all processes is at work
      under the install lock. */
  lemma OneOwner(labels: seq<Label>, i: nat, j: nat)
    requires i < |Run(labels).tasks| && j < |Run(labels).tasks|
    ensures var t, u := Run(labels).tasks[i], Run(labels).tasks[j];
            && (Owning(t) && Owning(u) && t.process == u.process ==> i == j)
            && (Exclusive(t) && Exclusive(u) ==> i == j)
  {
    hide Run;
    var b := RunBalanced(labels);
    assert TaskOk(Run(labels), b, i) && TaskOk(Run(labels), b, j);
  }

  /** No release hits a free lock, and an acquisition is given back at most once: exactly once as soon as no task
      answers for it, unless its process died with it. */
  lemma ReleasedOnce(labels: seq<Label>, k: nat)
    requires k < |Run(labels).tickets|
    ensures var s := Run(labels);
            && !s.broken && s.tickets[k].releases <= 1
            && (s.tickets[k].releases == 1 <==>
              !s.tickets[k].lost && forall i :: 0 <= i < |s.tasks| ==> s.tasks[i].ticket != Some(k))
  {
    hide Run;
    var b := RunBalanced(labels);
    var s := Run(labels);
    assert TicketOk(s, b, k);
    forall i: nat | i < |s.tasks| && s.tasks[i].ticket == Some(k) ensures k in b.bearer {
      assert TaskOk(s, b, i);
    }
  }

  predicate Final(t: Task) {
    t.pc in {Done, Leaked, Dead}
  }

  lemma FlockHeld(s: State, b: Books)
    requires Balanced(s, b) && s.flock.Some?
    ensures exists i :: 0 <= i < |s.tasks| && !Final(s.tasks[i])
  {
    assert HandleOk(s, b, s.flock.value);
    assert TaskOk(s, b, b.holder[s.flock.value]);
  }

  /** The mark that no run sets: it stands for a release of a lock that its process does not hold. */
  lemma BrokenMeaning(s: State, i: nat, ok: bool)
    requires i < |s.tasks|
    ensures Step(s, Act(i, ok)).broken <==>
            s.broken || (s.tasks[i].pc == Releasing && s.tasks[i].process !in s.locks)
  {
  }

  /** Once every task has come to its end, the install lock is free, and a process lock is still held exactly where
      closing the lock file raised. */
  lemma AllGivenBack(labels: seq<Label>, process: nat)
    requires forall i :: 0 <= i < |Run(labels).tasks| ==> Final(Run(labels).tasks[i])
    ensures Run(labels).flock == None
    ensures process in Run(labels).locks <==>
            exists i :: 0 <= i < |Run(labels).tasks| && Run(labels).tasks[i].process == process
              && Run(labels).tasks[i].pc == Leaked
  {
    hide Run;
    var b := RunBalanced(labels);
    var s := Run(labels);
    if s.flock.Some? {
      FlockHeld(s, b);
    }
    if process in s.locks {
      assert LockOk(s, b, process);
    }
    if i: nat :| i < |s.tasks| && s.tasks[i].process == process && s.tasks[i].pc == Leaked {
      assert TaskOk(s, b, i);
    }
  }

  /** The step at `k` closes the lock file of task `i`, and closing raises. */
  ghost predicate CloseRaises(labels: seq<Label>, i: nat, k: nat)
    requires k < |labels|
  {
    var s := Run(labels[..k]);
    labels[k] == Act(i, false) && i < |s.tasks| && s.tasks[i].pc == Closing
  }

  ghost predicate DiesAfter(labels: seq<Label>, process: nat, k: nat) {
    exists d :: k < d < |labels| && labels[d] == Die(process)
  }

  /** Closing the lock file of task `i` raised, and `process` has not died since. */
  ghost predicate Leaks(labels: seq<Label>, i: nat, process: nat) {
    exists k :: 0 <= k < |labels| && CloseRaises(labels, i, k) && !DiesAfter(labels, process, k)
  }

  lemma LeaksNext(labels: seq<Label>, l: Label, i: nat, process: nat)
    ensures Leaks(labels + [l], i, process) <==>
            CloseRaises(labels + [l], i, |labels|) || (Leaks(labels, i, process) && l != Die(process))
  {
    hide Run;
    var all, n := labels + [l], |labels|;
    forall k | 0 <= k < n
      ensures CloseRaises(all, i, k) <==> CloseRaises(labels, i, k)
      ensures DiesAfter(all, process, k) <==> DiesAfter(labels, process, k) || l == Die(process)
    {
      assert all[..k] == labels[..k] && all[k] == labels[k] && all[n] == l;
      if d :| k < d < n && labels[d] == Die(process) {
        assert all[d] == Die(process);
      }
    }
    hide CloseRaises;
    assert !DiesAfter(all, process, n);
    if Leaks(labels, i, process) && l != Die(process) {
      var k :| 0 <= k < n && CloseRaises(labels, i, k) && !DiesAfter(labels, process, k);
      assert CloseRaises(all, i, k) && !DiesAfter(all, process, k);
    }
  }

  /** A task leaks its process lock exactly when closing its lock file raised, and its process has not died since. */
  lemma {:induction false} LeakedMeaning(labels: seq<Label>, i: nat)
    requires i < |Run(labels).tasks|
    ensures Run(labels).tasks[i].pc == Leaked <==> Leaks(labels, i, Run(labels).tasks[i].process)
  {
    var n := |labels| - 1;
    var front, s := labels[..n], Run(labels[..n]);
    assert labels == front + [labels[n]];
    LeakedStep(s, labels[n], i);
    hide Step, Leaks;
    LeaksNext(front, labels[n], i, Run(labels).tasks[i].process);
    assert (front + [labels[n]])[..n] == front;
    if i < |s.tasks| {
      LeakedMeaning(front, i);
    } else {
      NoLeakYet(front, i, Run(labels).tasks[i].process);
    }
  }

  lemma NoLeakYet(labels: seq<Label>, i: nat, process: nat)
    requires i >= |Run(labels).tasks|
    ensures !Leaks(labels, i, process)
  {
    hide Run;
    forall k | 0 <= k < |labels| ensures !CloseRaises(labels, i, k) {
      TasksStay(labels, k);
    }
  }

  /** One step: only a raising close leaks, and only a death changes a task that leaked. */
  lemma LeakedStep(s: State, l: Label, i: nat)
    requires i < |Step(s, l).tasks|
    ensures i < |s.tasks| ==> Step(s, l).tasks[i].process == s.tasks[i].process
    ensures Step(s, l).tasks[i].pc == Leaked <==>
            && i < |s.tasks|
            && ((s.tasks[i].pc == Closing && l == Act(i, false))
                || (s.tasks[i].pc == Leaked && l != Die(s.tasks[i].process)))
  {
  }

  lemma {:induction false} TasksStay(labels: seq<Label>, k: nat)
    requires k <= |labels|
    ensures |Run(labels[..k]).tasks| <= |Run(labels).tasks|
  {
    if k < |labels| {
      TasksStay(labels[..|labels| - 1], k);
      assert labels[..|labels| - 1][..k] == labels[..k];
    } else {
      assert labels[..k] == labels;
    }
  }

  /** A task whose lock file does not open gives its process lock back at its next step. */
  lemma FailedOpenGivesBack(s: State, i: nat, ok: bool)
    requires i < |s.tasks| && s.tasks[i].pc == Opening
    ensures var r := Step(Step(s, Act(i, false)), Act(i, ok));
            && |r.tasks| == |s.tasks| && r.tasks[i].pc == Done && s.tasks[i].process !in r.locks
            && r.flock == s.flock && r.handles == s.handles
  {
  }

  /** A task that finds the install lock taken, or cannot take it, closes its file and gives the process lock back. */
  lemma FailedLockGivesBack(s: State, i: nat, took: bool, ok: bool)
    requires i < |s.tasks| && s.tasks[i].pc == Locking && s.tasks[i].handle.Some? && s.flock != s.tasks[i].handle
    requires !took || s.flock.Some?
    ensures var r := Step(Step(Step(s, Act(i, took)), Act(i, true)), Act(i, ok));
            && |r.tasks| == |s.tasks| && r.tasks[i].pc == Done && s.tasks[i].process !in r.locks && r.flock == s.flock
  {
  }

  /** A task that has finished its work frees the install lock and gives the process lock back. */
  lemma FinishedGivesBack(s: State, i: nat, ok: bool, ok': bool)
    requires i < |s.tasks| && s.tasks[i].pc == Working && s.tasks[i].handle.Some? && s.flock == s.tasks[i].handle
    ensures var r := Step(Step(Step(s, Act(i, ok)), Act(i, true)), Act(i, ok'));
            && |r.tasks| == |s.tasks| && r.tasks[i].pc == Done && s.tasks[i].process !in r.locks && r.flock == None
  {
  }

  /** A cleanup whose work is done and whose lock file then fails to close: with nothing left to run, its process lock
      is still held. */
  lemma LeakHappens()
    ensures var labels := [Begin(0, Cleanup), Act(0, true), Act(0, true), Act(0, true), Act(0, true), Act(0, false)];
            var s := Run(labels);
            |s.tasks| == 1 && s.tasks[0].pc == Leaked && Final(s.tasks[0]) && 0 in s.locks
  {
    var labels := [Begin(0, Cleanup), Act(0, true), Act(0, true), Act(0, true), Act(0, true), Act(0, false)];
    assert labels[..0] == [] && labels[..1][..0] == [] && labels[..2][..1] == labels[..1];
    assert labels[..3][..2] == labels[..2] && labels[..4][..3] == labels[..3];
    assert labels[..5][..4] == labels[..4] && labels[..6] == labels && labels[..6][..5] == labels[..5];
    assert Run(labels[..1]) == Step(INITIAL, labels[0]);
    assert Run(labels[..2]) == Step(Run(labels[..1]), labels[1]);
    assert Run(labels[..3]) == Step(Run(labels[..2]), labels[2]);
    assert Run(labels[..4]) == Step(Run(labels[..3]), labels[3]);
    assert Run(labels[..5]) == Step(Run(labels[..4]), labels[4]);
  }

  /** A task alone with both locks free gets to work: nothing but a failure or another holder stands in its way. */
  lemma Proceeds(s: State, process: nat, kind: Kind)
    requires kind != Worker && process !in s.locks && s.flock == None
    ensures var i := |s.tasks|;
            var ready := Step(Step(Step(Step(s, Begin(process, kind)), Act(i, true)), Act(i, true)), Act(i, true));
            var r := if kind == Request then Step(ready, Act(i, true)) else ready;
            && |r.tasks| > i && r.tasks[|r.tasks| - 1].pc == Working && r.tasks[|r.tasks| - 1].process == process
            && process in r.locks && r.flock == r.tasks[|r.tasks| - 1].handle == Some(s.handles)
  {
    var i := |s.tasks|;
    var begun := Step(s, Begin(process, kind));
    assert begun.tasks[i].pc == Start;
    var opening := Step(begun, Act(i, true));
    assert opening.tasks[i].pc == Opening;
    var locking := Step(opening, Act(i, true));
    assert locking.tasks[i].pc == Locking;
    var ready := Step(locking, Act(i, true));
    assert ready.tasks[i].pc == if kind == Request then Dispatching else Working;
  }

  // ----- Nothing waits, and everything ends -----

  function Rank(t: Task): nat {
    match t.pc
    case Start => 7
    case Opening => 6
    case Locking => 5
    case Dispatching => 4
    case Working => 3
    case Closing => 2
    case Releasing => 1
    case _ => 0
  }

  function Total(ts: seq<Task>): nat {
    if ts == [] then 0 else Total(ts[..|ts| - 1]) + Rank(ts[|ts| - 1])
  }

  lemma {:induction false} TotalUpdate(ts: seq<Task>, i: nat, t: Task)
    requires i < |ts|
    ensures Total(ts[i := t]) == Total(ts) - Rank(ts[i]) + Rank(t)
  {
    var n := |ts| - 1;
    if i < n {
      TotalUpdate(ts[..n], i, t);
      assert ts[i := t][..n] == ts[..n][i := t];
    } else {
      assert ts[i := t][..n] == ts[..n];
    }
  }

  lemma TotalAppend(ts: seq<Task>, t: Task)
    ensures Total(ts + [t]) == Total(ts) + Rank(t)
  {
    assert (ts + [t])[..|ts|] == ts;
  }

  /** The hand-over: the request thread is done, and the worker has less left than the thread had. */
  lemma DispatchProgress(s: State, i: nat)
    requires i < |s.tasks| && s.tasks[i].pc == Dispatching
    ensures Total(Dispatch(s, i, true).tasks) < Total(s.tasks)
  {
    hide Total;
    var t := s.tasks[i];
    TotalUpdate(s.tasks, i, t.(pc := Done, handle := None, ticket := None));
    TotalAppend(s.tasks[i := t.(pc := Done, handle := None, ticket := None)],
      Task(t.process, Worker, Working, t.handle, t.ticket));
  }

  /** Every step of an unfinished task uses up some of the work that is left. */
  lemma Progress(s: State, i: nat, ok: bool)
    requires i < |s.tasks| && !Final(s.tasks[i])
    ensures Total(Step(s, Act(i, ok)).tasks) < Total(s.tasks)
  {
    hide Total;
    if s.tasks[i].pc == Dispatching && ok {
      DispatchProgress(s, i);
    } else {
      var r := Go(s, i, ok);
      assert r.tasks == s.tasks[i := r.tasks[i]];
      TotalUpdate(s.tasks, i, r.tasks[i]);
    }
  }

  ghost predicate Busy(s: State, labels: seq<Label>)
    decreases |labels|
  {
    labels == [] ||
    (labels[0].Act? && labels[0].task < |s.tasks| && !Final(s.tasks[labels[0].task])
      && Busy(Step(s, labels[0]), labels[1..]))
  }

  /** So the tasks under way come to their end after a bounded number of steps, whatever fails and in any order. */
  lemma {:induction false} BusyEnds(s: State, labels: seq<Label>)
    requires Busy(s, labels)
    ensures |labels| <= Total(s.tasks)
    decreases |labels|
  {
    if labels != [] {
      Progress(s, labels[0].task, labels[0].ok);
      BusyEnds(Step(s, labels[0]), labels[1..]);
    }
  }
}
