/** Process life cycle at the level of lock operations: fork, exit, wait, the scheduler and sleeping in
    wait, as a machine whose steps may interleave in every way the locks allow, on any number of CPUs. */
module ExitWait {
  import opened Counting
  import opened Options

  datatype Status = UNUSED | USED | SLEEPING | RUNNABLE | RUNNING | ZOMBIE

  /** What a process sleeps on: nothing, a process slot (as wait does), or anything else. */
  datatype Chan = NoChan | Slot(p: nat) | Elsewhere

  /** Who holds a process's lock. A scheduler that got the CPU back still holds the lock. */
  datatype Lock = Free | Thread(p: nat) | Scheduler | Returned

  /** Where a switched-out thread goes on when it runs again. */
  datatype Resume = ToRun | ToWait

  /** Where a process's kernel thread is. */
  datatype Pc =
    | Off                                  // no thread
    | Gone                                 // switched out for the last time
    | Parked(to: Resume)                   // switched out
    | Resumed(to: Resume)                  // back from swtch, still holding its own lock
    | Run                                  // anywhere else
    | Yield1
    | Nap1
    | Fork1(c: nat) | Fork2(c: nat) | Fork3(c: nat) | Fork4(c: nat)
    | Exit1(k: nat)                        // reparent: slots below k are done
    | ExitInit(k: nat, j: nat)             // reparent: waking init for slot k, at slot j
    | ExitWake(j: nat)                     // waking the parent, at slot j
    | Exit2 | Exit3 | Exit4
    | WantWait
    | Wait1(k: nat, kids: bool)            // scanning the table, at slot k
    | Wait2(k: nat)                        // holding the lock of child k
    | Sleep1 | Sleep2

  datatype Proc = Proc(state: Status, pid: nat, parent: Option<nat>, chan: Chan, killed: bool, lock: Lock, pc: Pc)

  /** reaped: the pids wait has returned, in order; exited: the pids that have become zombies. */
  datatype State = State(procs: seq<Proc>, init: nat, waitLock: Option<nat>, nextPid: nat, exited: set<nat>,
          reaped: seq<nat>)

  datatype Action =
    | SchedAcquire(p: nat) | SchedRun(p: nat) | SchedRelease(p: nat)
    | ReleaseSelf(p: nat) | YieldLock(p: nat) | YieldSwitch(p: nat)
    | NapLock(p: nat) | NapSwitch(p: nat) | WakeOther(p: nat) | Kill(p: nat)
    | ForkAlloc(p: nat, c: nat) | ForkFail(p: nat) | ForkUnlock(p: nat) | ForkLink(p: nat) | ForkUnwait(p: nat)
    | ForkReady(p: nat)
    | ExitBegin(p: nat) | ExitReparent(p: nat) | ExitInitStep(p: nat) | ExitWakeStep(p: nat)
    | ExitLock(p: nat) | ExitZombie(p: nat) | ExitSwitch(p: nat)
    | WaitCall(p: nat) | WaitBegin(p: nat) | WaitScan(p: nat) | WaitLook(p: nat) | WaitReap(p: nat) | WaitFault(p: nat)
    | WaitLeave(p: nat) | SleepLock(p: nat) | SleepUnwait(p: nat) | SleepSwitch(p: nat)

  /** What wakeup(chan) does to one slot. */
  function Woken(q: Proc, chan: Chan): Proc {
    if q.state == SLEEPING && q.chan == chan then q.(state := RUNNABLE) else q
  }

  /** A step that changes the slot of p and wait_lock. */
  ghost predicate Solo(s: State, p: nat, me: Proc, wait: Option<nat>, s': State) {
    && p < |s.procs| && s'.procs == s.procs[p := me] && s'.waitLock == wait
    && s'.init == s.init && s'.nextPid == s.nextPid && s'.reaped == s.reaped
  }

  /** A step of p that changes also slot t. */
  ghost predicate Duo(s: State, p: nat, me: Proc, t: nat, other: Proc, wait: Option<nat>, s': State) {
    && p < |s.procs| && t < |s.procs| && t != p && s'.procs == s.procs[t := other][p := me] && s'.waitLock == wait
    && s'.init == s.init && s'.exited == s.exited
  }

  ghost predicate SameCounts(s: State, s': State) {
    s'.nextPid == s.nextPid && s'.reaped == s.reaped
  }

  // The scheduler.

  ghost predicate SchedAcquires(s: State, p: nat, s': State) {
    p < |s.procs| && var me := s.procs[p];
    me.lock == Free && Solo(s, p, me.(lock := Scheduler), s.waitLock, s') && s'.exited == s.exited
  }

  ghost predicate SchedRuns(s: State, p: nat, s': State) {
    p < |s.procs| && var me := s.procs[p];
    && me.lock == Scheduler && me.state == RUNNABLE && me.pc.Parked?
    && Solo(s, p, me.(state := RUNNING, lock := Thread(p), pc := Resumed(me.pc.to)), s.waitLock, s')
      && s'.exited == s.exited
  }

  ghost predicate SchedReleases(s: State, p: nat, s': State) {
    p < |s.procs| && var me := s.procs[p];
    (me.lock == Scheduler || me.lock == Returned) && Solo(s, p, me.(lock := Free), s.waitLock, s')
      && s'.exited == s.exited
  }

  /** Back from swtch: in forkret, yield or sleep. */
  ghost predicate ReleasesSelf(s: State, p: nat, s': State) {
    p < |s.procs| && var me := s.procs[p];
    && me.pc.Resumed?
    && Solo(s, p, me.(chan := NoChan, lock := Free, pc := if me.pc.to == ToRun then Run else WantWait), s.waitLock,
      s') && s'.exited == s.exited
  }

  // yield, sleeping elsewhere, kill.

  ghost predicate LocksSelf(s: State, p: nat, from: Pc, to: Pc, s': State) {
    p < |s.procs| && var me := s.procs[p];
    me.pc == from && me.lock == Free && Solo(s, p, me.(lock := Thread(p), pc := to), s.waitLock, s')
      && s'.exited == s.exited
  }

  ghost predicate YieldSwitches(s: State, p: nat, s': State) {
    p < |s.procs| && var me := s.procs[p];
    me.pc == Yield1 && Solo(s, p, me.(state := RUNNABLE, lock := Returned, pc := Parked(ToRun)), s.waitLock, s')
      && s'.exited == s.exited
  }

  ghost predicate NapSwitches(s: State, p: nat, s': State) {
    p < |s.procs| && var me := s.procs[p];
    && me.pc == Nap1
    && Solo(s, p, me.(state := SLEEPING, chan := Elsewhere, lock := Returned, pc := Parked(ToRun)), s.waitLock, s')
      && s'.exited == s.exited
  }

  ghost predicate WakesOther(s: State, p: nat, s': State) {
    p < |s.procs| && s.procs[p].lock == Free && Solo(s, p, Woken(s.procs[p], Elsewhere), s.waitLock, s')
      && s'.exited == s.exited
  }

  ghost predicate Kills(s: State, p: nat, s': State) {
    p < |s.procs| && var me := s.procs[p];
    && me.lock == Free
    && Solo(s, p, me.(killed := true, state := if me.state == SLEEPING then RUNNABLE else me.state), s.waitLock, s')
      && s'.exited == s.exited
  }

  // fork: allocproc leaves the child's lock held; the parent is set later, under wait_lock.

  ghost predicate ForkAllocates(s: State, p: nat, c: nat, s': State) {
    p < |s.procs| && c < |s.procs| && var me, child := s.procs[p], s.procs[c];
    && me.pc == Run && child.state == UNUSED && child.lock == Free
    && Duo(s, p, me.(pc := Fork1(c)), c,
      child.(state := USED, pid := s.nextPid, lock := Thread(p), pc := Parked(ToRun)), s.waitLock, s')
    && s'.nextPid == s.nextPid + 1 && s'.reaped == s.reaped
  }

  function Freed(): Proc {
    Proc(UNUSED, 0, None, NoChan, false, Free, Off)
  }

  ghost predicate ForkFails(s: State, p: nat, s': State) {
    && p < |s.procs| && s.procs[p].pc.Fork1?
    && Duo(s, p, s.procs[p].(pc := Run), s.procs[p].pc.c, Freed(), s.waitLock, s') && SameCounts(s, s')
  }

  ghost predicate ForkUnlocks(s: State, p: nat, s': State) {
    p < |s.procs| && s.procs[p].pc.Fork1? && var c := s.procs[p].pc.c;
    && c < |s.procs|
    && Duo(s, p, s.procs[p].(pc := Fork2(c)), c, s.procs[c].(lock := Free), s.waitLock, s') && SameCounts(s, s')
  }

  ghost predicate ForkLinks(s: State, p: nat, s': State) {
    p < |s.procs| && s.procs[p].pc.Fork2? && var c := s.procs[p].pc.c;
    && c < |s.procs| && s.waitLock == None
    && Duo(s, p, s.procs[p].(pc := Fork3(c)), c, s.procs[c].(parent := Some(p)), Some(p), s') && SameCounts(s, s')
  }

  ghost predicate ForkUnwaits(s: State, p: nat, s': State) {
    && p < |s.procs| && s.procs[p].pc.Fork3?
    && Solo(s, p, s.procs[p].(pc := Fork4(s.procs[p].pc.c)), None, s') && s'.exited == s.exited
  }

  ghost predicate ForkReadies(s: State, p: nat, s': State) {
    p < |s.procs| && s.procs[p].pc.Fork4? && var c := s.procs[p].pc.c;
    && c < |s.procs| && s.procs[c].lock == Free
    && Duo(s, p, s.procs[p].(pc := Run), c, s.procs[c].(state := RUNNABLE), s.waitLock, s') && SameCounts(s, s')
  }

  // exit: reparent, wakeup(parent), then the zombie state under both locks.

  ghost predicate ExitBegins(s: State, p: nat, s': State) {
    && p < |s.procs| && s.procs[p].pc == Run && p != s.init && s.waitLock == None
    && Solo(s, p, s.procs[p].(pc := Exit1(0)), Some(p), s') && s'.exited == s.exited
  }

  ghost predicate ExitReparents(s: State, p: nat, s': State) {
    p < |s.procs| && s.procs[p].pc.Exit1? && var me, k := s.procs[p], s.procs[p].pc.k;
    if k >= |s.procs| then Solo(s, p, me.(pc := ExitWake(0)), s.waitLock, s') && s'.exited == s.exited
    else if s.procs[k].parent != Some(p)
    then Solo(s, p, me.(pc := Exit1(k + 1)), s.waitLock, s') && s'.exited == s.exited
    else
      && Duo(s, p, me.(pc := ExitInit(k, 0)), k, s.procs[k].(parent := Some(s.init)), s.waitLock, s')
      && SameCounts(s, s')
  }

  /** One round of wakeup(chan) by p at slot j: its own slot is passed over. */
  ghost predicate WakeRound(s: State, p: nat, j: nat, chan: Chan, next: Pc, s': State) {
    p < |s.procs| && j < |s.procs| && var me := s.procs[p];
    if j == p then Solo(s, p, me.(pc := next), s.waitLock, s') && s'.exited == s.exited
    else
      && s.procs[j].lock == Free && Duo(s, p, me.(pc := next), j, Woken(s.procs[j], chan), s.waitLock, s')
      && SameCounts(s, s')
  }

  ghost predicate ExitWakesInit(s: State, p: nat, s': State) {
    p < |s.procs| && s.procs[p].pc.ExitInit? && var k, j := s.procs[p].pc.k, s.procs[p].pc.j;
    if j >= |s.procs| then Solo(s, p, s.procs[p].(pc := Exit1(k + 1)), s.waitLock, s') && s'.exited == s.exited
    else WakeRound(s, p, j, Slot(s.init), ExitInit(k, j + 1), s')
  }

  ghost predicate ExitWakesParent(s: State, p: nat, s': State) {
    p < |s.procs| && s.procs[p].pc.ExitWake? && var j := s.procs[p].pc.j;
    if j >= |s.procs| then Solo(s, p, s.procs[p].(pc := Exit2), s.waitLock, s') && s'.exited == s.exited
    else
      var parent := if s.procs[p].parent.Some? then Slot(s.procs[p].parent.value) else NoChan;
      WakeRound(s, p, j, parent, ExitWake(j + 1), s')
  }

  ghost predicate ExitDies(s: State, p: nat, s': State) {
    p < |s.procs| && var me := s.procs[p];
    me.pc == Exit3 && Solo(s, p, me.(state := ZOMBIE, pc := Exit4), None, s') && s'.exited == s.exited + {me.pid}
  }

  ghost predicate ExitSwitches(s: State, p: nat, s': State) {
    && p < |s.procs| && s.procs[p].pc == Exit4
    && Solo(s, p, s.procs[p].(lock := Returned, pc := Gone), s.waitLock, s') && s'.exited == s.exited
  }

  // wait: scan the table under wait_lock, sleep on the own slot if there are only live children.

  ghost predicate WaitCalls(s: State, p: nat, s': State) {
    p < |s.procs| && s.procs[p].pc == Run && Solo(s, p, s.procs[p].(pc := WantWait), s.waitLock, s')
      && s'.exited == s.exited
  }

  ghost predicate WaitBegins(s: State, p: nat, s': State) {
    && p < |s.procs| && s.procs[p].pc == WantWait && s.waitLock == None
    && Solo(s, p, s.procs[p].(pc := Wait1(0, false)), Some(p), s') && s'.exited == s.exited
  }

  ghost predicate WaitScans(s: State, p: nat, s': State) {
    p < |s.procs| && s.procs[p].pc.Wait1? && s.procs[p].pc.k < |s.procs| && var me, k := s.procs[p], s.procs[p].pc.k;
    if s.procs[k].parent != Some(p)
    then Solo(s, p, me.(pc := Wait1(k + 1, me.pc.kids)), s.waitLock, s') && s'.exited == s.exited
    else
      && s.procs[k].lock == Free && Duo(s, p, me.(pc := Wait2(k)), k, s.procs[k].(lock := Thread(p)), s.waitLock, s')
      && SameCounts(s, s')
  }

  ghost predicate WaitLooks(s: State, p: nat, s': State) {
    p < |s.procs| && s.procs[p].pc.Wait2? && s.procs[p].pc.k < |s.procs| && var k := s.procs[p].pc.k;
    && s.procs[k].state != ZOMBIE
    && Duo(s, p, s.procs[p].(pc := Wait1(k + 1, true)), k, s.procs[k].(lock := Free), s.waitLock, s')
      && SameCounts(s, s')
  }

  ghost predicate WaitReaps(s: State, p: nat, s': State) {
    p < |s.procs| && s.procs[p].pc.Wait2? && s.procs[p].pc.k < |s.procs| && var k := s.procs[p].pc.k;
    && s.procs[k].state == ZOMBIE
    && Duo(s, p, s.procs[p].(pc := Run), k, Freed(), None, s') && s'.nextPid == s.nextPid
      && s'.reaped == s.reaped + [s.procs[k].pid]
  }

  /** copyout of the status failed. */
  ghost predicate WaitFaults(s: State, p: nat, s': State) {
    p < |s.procs| && s.procs[p].pc.Wait2? && s.procs[p].pc.k < |s.procs| && var k := s.procs[p].pc.k;
    && s.procs[k].state == ZOMBIE
    && Duo(s, p, s.procs[p].(pc := Run), k, s.procs[k].(lock := Free), None, s') && SameCounts(s, s')
  }

  ghost predicate WaitLeaves(s: State, p: nat, s': State) {
    p < |s.procs| && var me := s.procs[p];
    && me.pc.Wait1? && me.pc.k >= |s.procs| && (!me.pc.kids || (me.lock == Free && me.killed))
    && Solo(s, p, me.(pc := Run), None, s') && s'.exited == s.exited
  }

  ghost predicate SleepLocks(s: State, p: nat, s': State) {
    p < |s.procs| && s.procs[p].pc.Wait1? && s.procs[p].pc.k >= |s.procs| && s.procs[p].pc.kids
      && LocksSelf(s, p, s.procs[p].pc, Sleep1, s')
  }

  ghost predicate SleepUnwaits(s: State, p: nat, s': State) {
    p < |s.procs| && s.procs[p].pc == Sleep1 && Solo(s, p, s.procs[p].(pc := Sleep2), None, s') && s'.exited == s.exited
  }

  ghost predicate SleepSwitches(s: State, p: nat, s': State) {
    p < |s.procs| && var me := s.procs[p];
    && me.pc == Sleep2
    && Solo(s, p, me.(state := SLEEPING, chan := Slot(p), lock := Returned, pc := Parked(ToWait)), s.waitLock, s')
      && s'.exited == s.exited
  }

  ghost predicate Next(s: State, a: Action, s': State) {
    match a
    case SchedAcquire(p) => SchedAcquires(s, p, s')
    case SchedRun(p) => SchedRuns(s, p, s')
    case SchedRelease(p) => SchedReleases(s, p, s')
    case ReleaseSelf(p) => ReleasesSelf(s, p, s')
    case YieldLock(p) => LocksSelf(s, p, Run, Yield1, s')
    case YieldSwitch(p) => YieldSwitches(s, p, s')
    case NapLock(p) => LocksSelf(s, p, Run, Nap1, s')
    case NapSwitch(p) => NapSwitches(s, p, s')
    case WakeOther(p) => WakesOther(s, p, s')
    case Kill(p) => Kills(s, p, s')
    case ForkAlloc(p, c) => ForkAllocates(s, p, c, s')
    case ForkFail(p) => ForkFails(s, p, s')
    case ForkUnlock(p) => ForkUnlocks(s, p, s')
    case ForkLink(p) => ForkLinks(s, p, s')
    case ForkUnwait(p) => ForkUnwaits(s, p, s')
    case ForkReady(p) => ForkReadies(s, p, s')
    case ExitBegin(p) => ExitBegins(s, p, s')
    case ExitReparent(p) => ExitReparents(s, p, s')
    case ExitInitStep(p) => ExitWakesInit(s, p, s')
    case ExitWakeStep(p) => ExitWakesParent(s, p, s')
    case ExitLock(p) => LocksSelf(s, p, Exit2, Exit3, s')
    case ExitZombie(p) => ExitDies(s, p, s')
    case ExitSwitch(p) => ExitSwitches(s, p, s')
    case WaitCall(p) => WaitCalls(s, p, s')
    case WaitBegin(p) => WaitBegins(s, p, s')
    case WaitScan(p) => WaitScans(s, p, s')
    case WaitLook(p) => WaitLooks(s, p, s')
    case WaitReap(p) => WaitReaps(s, p, s')
    case WaitFault(p) => WaitFaults(s, p, s')
    case WaitLeave(p) => WaitLeaves(s, p, s')
    case SleepLock(p) => SleepLocks(s, p, s')
    case SleepUnwait(p) => SleepUnwaits(s, p, s')
    case SleepSwitch(p) => SleepSwitches(s, p, s')
  }

  // ---------- what every step keeps ----------

  /** The thread at pc holds wait_lock. */
  predicate HoldsWait(pc: Pc) {
    pc.Fork3? || pc.Exit1? || pc.ExitInit? || pc.ExitWake? || pc == Exit2 || pc == Exit3 || pc.Wait1? || pc.Wait2?
      || pc == Sleep1
  }

  /** The slot whose lock the thread of p holds at pc. */
  function LockOf(pc: Pc, p: nat): Option<nat> {
    match pc
    case Resumed(_) => Some(p)
    case Yield1 => Some(p)
    case Nap1 => Some(p)
    case Fork1(c) => Some(c)
    case Exit3 => Some(p)
    case Exit4 => Some(p)
    case Wait2(k) => Some(k)
    case Sleep1 => Some(p)
    case Sleep2 => Some(p)
    case _ => None
  }

  ghost predicate WaitLockOk(s: State) {
    && (forall p :: 0 <= p < |s.procs| ==> (HoldsWait(s.procs[p].pc) <==> s.waitLock == Some(p)))
    && (s.waitLock.Some? ==> s.waitLock.value < |s.procs|)
  }

  /** What a thread holds is marked as held by it. */
  ghost predicate HeldMarked(s: State) {
    forall p :: 0 <= p < |s.procs| && LockOf(s.procs[p].pc, p).Some? ==>
      var q := LockOf(s.procs[p].pc, p).value; q < |s.procs| && s.procs[q].lock == Thread(p)
  }

  /** What is marked as held by a thread is held by it. */
  ghost predicate MarkedHeld(s: State) {
    forall q :: 0 <= q < |s.procs| && s.procs[q].lock.Thread? ==>
      var p := s.procs[q].lock.p; p < |s.procs| && LockOf(s.procs[p].pc, p) == Some(q)
  }

  ghost predicate LocksOk(s: State) {
    HeldMarked(s) && MarkedHeld(s)
  }

  /** The slot named by a thread's position is in the table and is not the thread's own. */
  predicate PcOk(pc: Pc, p: nat, n: nat) {
    match pc
    case Fork1(c) => c < n && c != p
    case Fork2(c) => c < n && c != p
    case Fork3(c) => c < n && c != p
    case Fork4(c) => c < n && c != p
    case Wait2(k) => k < n && k != p
    case ExitInit(k, _) => k < n && k != p
    case _ => true
  }

  /** Free, still being set up, or a zombie. */
  predicate Dead(q: Proc) {
    q.state == UNUSED || q.state == USED || q.state == ZOMBIE
  }

  /** Status and position of one slot agree. */
  predicate SlotOk(q: Proc, p: nat) {
    match q.pc
    case Off => q.state == UNUSED && q.parent == None
    case Gone => q.state == ZOMBIE
    case Exit4 => q.state == ZOMBIE
    case Parked(to) =>
      && (q.state == USED || q.state == RUNNABLE || q.state == SLEEPING)
      && (q.state == SLEEPING ==> q.chan == if to == ToWait then Slot(p) else Elsewhere)
    case _ => q.state == RUNNING
  }

  ghost predicate SlotsOk(s: State) {
    forall p :: 0 <= p < |s.procs| ==> PcOk(s.procs[p].pc, p, |s.procs|) && SlotOk(s.procs[p], p)
  }

  /** The slot a thread is filling in for a new child. */
  function Forking(pc: Pc): Option<nat> {
    match pc
    case Fork1(c) => Some(c)
    case Fork2(c) => Some(c)
    case Fork3(c) => Some(c)
    case Fork4(c) => Some(c)
    case _ => None
  }

  ghost predicate ForksOk(s: State) {
    && (forall p :: 0 <= p < |s.procs| && Forking(s.procs[p].pc).Some? ==>
         var c := Forking(s.procs[p].pc).value;
         c < |s.procs| && s.procs[c].state == USED && (s.procs[p].pc.Fork1? || s.procs[p].pc.Fork2? ==>
           s.procs[c].parent == None))
    && (forall p, q :: 0 <= p < |s.procs| && 0 <= q < |s.procs| && p != q && Forking(s.procs[p].pc).Some? ==>
         Forking(s.procs[p].pc) != Forking(s.procs[q].pc))
  }

  /** A process at pc may still have slot c as a child. */
  predicate Keeps(pc: Pc, c: nat) {
    match pc
    case Exit1(k) => c >= k
    case ExitInit(k, _) => c > k
    case ExitWake(_) => false
    case Exit2 => false
    case Exit3 => false
    case Exit4 => false
    case Gone => false
    case Off => false
    case _ => true
  }

  /** Every parent is a live process that has not yet given this child away. */
  ghost predicate ParentsOk(s: State) {
    forall c :: 0 <= c < |s.procs| && s.procs[c].parent.Some? ==>
      var q := s.procs[c].parent.value;
      q < |s.procs| && q != c && s.procs[c].state != UNUSED && !Dead(s.procs[q]) && Keeps(s.procs[q].pc, c)
  }

  predicate Exiting(pc: Pc) {
    pc.Exit1? || pc.ExitInit? || pc.ExitWake? || pc == Exit2 || pc == Exit3 || pc == Exit4 || pc == Gone || pc == Off
  }

  ghost predicate InitOk(s: State) {
    s.init < |s.procs| && !Dead(s.procs[s.init]) && !Exiting(s.procs[s.init].pc) && s.procs[s.init].parent == None
  }

  /** What holds of locks, slots, forks, parents and init in every reachable state. */
  ghost predicate Structure(s: State) {
    WaitLockOk(s) && LocksOk(s) && SlotsOk(s) && ForksOk(s) && ParentsOk(s) && InitOk(s)
  }

  // ---------- one lemma for steps that change one slot, one for steps that change two ----------

  /** p's new lock and position fit together, and only p's own claims on locks have changed. */
  predicate LockStep(p: nat, me: Proc, me': Proc) {
    && (LockOf(me'.pc, p) == Some(p) <==> me'.lock == Thread(p))
    && (me'.lock == me.lock || (!(me.lock.Thread? && me.lock.p != p) && !(me'.lock.Thread? && me'.lock.p != p)))
  }

  predicate WaitStep(p: nat, me': Proc, wait: Option<nat>, wait': Option<nat>) {
    (HoldsWait(me'.pc) <==> wait' == Some(p))
      && (wait' == wait || ((wait == None || wait == Some(p)) && (wait' == None || wait' == Some(p))))
  }

  lemma SoloWait(s: State, p: nat, me': Proc, wait': Option<nat>, s': State)
    requires WaitLockOk(s) && Solo(s, p, me', wait', s') && WaitStep(p, me', s.waitLock, wait')
    ensures WaitLockOk(s')
  {
    hide HoldsWait;
  }

  lemma SoloLocks(s: State, p: nat, me': Proc, wait': Option<nat>, s': State)
    requires LocksOk(s) && Solo(s, p, me', wait', s') && LockStep(p, s.procs[p], me')
    requires LockOf(me'.pc, p) == LockOf(s.procs[p].pc, p)
        || (LockOf(me'.pc, p) in {None, Some(p)} && LockOf(s.procs[p].pc, p) in {None, Some(p)})
    ensures LocksOk(s')
  {
    hide LockOf;
  }

  lemma SoloSlots(s: State, p: nat, me': Proc, wait': Option<nat>, s': State)
    requires SlotsOk(s) && Solo(s, p, me', wait', s') && PcOk(me'.pc, p, |s.procs|) && SlotOk(me', p)
    ensures SlotsOk(s')
  {
    hide PcOk, SlotOk;
  }

  /** Slot p changes and p is filling in the slot it was, or none. */
  ghost predicate ForkFits(me: Proc, me': Proc) {
    && (me.state == USED ==> me'.state == USED) && (me.parent == None ==> me'.parent == None)
    && (Forking(me'.pc) == Forking(me.pc) || Forking(me'.pc) == None)
    && (me'.pc.Fork1? || me'.pc.Fork2? ==> me.pc.Fork1? || me.pc.Fork2?)
  }

  lemma ForksStep(s: State, p: nat, me': Proc, s': State)
    requires ForksOk(s) && p < |s.procs| && s'.procs == s.procs[p := me'] && ForkFits(s.procs[p], me')
    ensures ForksOk(s')
  {
    hide Forking;
  }

  lemma SoloParents(s: State, p: nat, me': Proc, wait': Option<nat>, s': State)
    requires ParentsOk(s) && Solo(s, p, me', wait', s')
    requires me'.parent == s.procs[p].parent && (s.procs[p].state != UNUSED ==> me'.state != UNUSED)
    requires forall c :: 0 <= c < |s.procs| && s.procs[c].parent == Some(p) ==> !Dead(me') && Keeps(me'.pc, c)
    ensures ParentsOk(s')
  {
    hide Keeps, Dead;
  }

  lemma SoloInit(s: State, p: nat, me': Proc, wait': Option<nat>, s': State)
    requires InitOk(s) && Solo(s, p, me', wait', s') && me'.parent == s.procs[p].parent
        && (p == s.init ==> !Dead(me') && !Exiting(me'.pc))
    ensures InitOk(s')
  {
  }

  /** What a one-slot step must satisfy. */
  ghost predicate SoloFits(p: nat, n: nat, me: Proc, me': Proc, wait: Option<nat>, wait': Option<nat>) {
    && LockStep(p, me, me') && WaitStep(p, me', wait, wait') && PcOk(me'.pc, p, n) && SlotOk(me', p)
    && (LockOf(me'.pc, p) == LockOf(me.pc, p)
      || (LockOf(me'.pc, p) in {None, Some(p)} && LockOf(me.pc, p) in {None, Some(p)}))
    && ForkFits(me, me') && me'.parent == me.parent && (me.state != UNUSED ==> me'.state != UNUSED)
  }

  lemma SoloKeeps(s: State, p: nat, me': Proc, wait': Option<nat>, s': State)
    requires Structure(s) && Solo(s, p, me', wait', s') && SoloFits(p, |s.procs|, s.procs[p], me', s.waitLock, wait')
    requires p == s.init ==> !Dead(me') && !Exiting(me'.pc)
    requires forall c :: 0 <= c < |s.procs| && s.procs[c].parent == Some(p) ==> !Dead(me') && Keeps(me'.pc, c)
    ensures Structure(s')
  {
    hide WaitLockOk, LocksOk, SlotsOk, ForksOk, ParentsOk, InitOk, LockStep, WaitStep, LockOf, Forking;
    SoloWait(s, p, me', wait', s');
    SoloLocks(s, p, me', wait', s');
    SoloSlots(s, p, me', wait', s');
    ForksStep(s, p, me', s');
    SoloParents(s, p, me', wait', s');
    SoloInit(s, p, me', wait', s');
  }

  // ---------- two slots ----------

  lemma DuoWait(s: State, p: nat, me': Proc, t: nat, other': Proc, wait': Option<nat>, s': State)
    requires WaitLockOk(s) && Duo(s, p, me', t, other', wait', s') && WaitStep(p, me', s.waitLock, wait')
    requires HoldsWait(other'.pc) <==> HoldsWait(s.procs[t].pc)
    requires HoldsWait(other'.pc) ==> wait' == s.waitLock
    ensures WaitLockOk(s')
  {
    hide HoldsWait;
  }

  /** Slot t's lock goes to or from p, or stays. */
  predicate LockPass(p: nat, t: nat, me': Proc, other: Proc, other': Proc) {
    && (LockOf(me'.pc, p) == Some(t) <==> other'.lock == Thread(p))
    && (other'.lock == other.lock
      || (!(other.lock.Thread? && other.lock.p != p) && !(other'.lock.Thread? && other'.lock.p != p)))
    && LockOf(other'.pc, t) == LockOf(other.pc, t)
  }

  lemma DuoHeld(s: State, p: nat, me': Proc, t: nat, other': Proc, wait': Option<nat>, s': State)
    requires LocksOk(s) && Duo(s, p, me', t, other', wait', s') && LockPass(p, t, me', s.procs[t], other')
    requires me'.lock == s.procs[p].lock && LockOf(me'.pc, p) in {None, Some(t)}
        && LockOf(s.procs[p].pc, p) in {None, Some(t)}
    ensures HeldMarked(s')
  {
    hide LockOf;
  }

  lemma DuoMarked(s: State, p: nat, me': Proc, t: nat, other': Proc, wait': Option<nat>, s': State)
    requires LocksOk(s) && Duo(s, p, me', t, other', wait', s') && LockPass(p, t, me', s.procs[t], other')
    requires me'.lock == s.procs[p].lock && LockOf(me'.pc, p) in {None, Some(t)}
        && LockOf(s.procs[p].pc, p) in {None, Some(t)}
    ensures MarkedHeld(s')
  {
    hide LockOf;
  }

  lemma DuoSlots(s: State, p: nat, me': Proc, t: nat, other': Proc, wait': Option<nat>, s': State)
    requires SlotsOk(s) && Duo(s, p, me', t, other', wait', s')
    requires PcOk(me'.pc, p, |s.procs|) && SlotOk(me', p) && PcOk(other'.pc, t, |s.procs|) && SlotOk(other', t)
    ensures SlotsOk(s')
  {
    hide PcOk, SlotOk;
  }

  lemma DuoForks(s: State, p: nat, me': Proc, t: nat, other': Proc, wait': Option<nat>, s': State)
    requires ForksOk(s) && Duo(s, p, me', t, other', wait', s') && ForkFits(s.procs[p], me')
        && ForkFits(s.procs[t], other')
    ensures ForksOk(s')
  {
    hide ForksOk, ForkFits;
    var mid := s.(procs := s.procs[t := other']);
    ForksStep(s, t, other', mid);
    ForksStep(mid, p, me', s');
  }

  lemma DuoParents(s: State, p: nat, me': Proc, t: nat, other': Proc, wait': Option<nat>, s': State)
    requires ParentsOk(s) && Duo(s, p, me', t, other', wait', s')
    requires me'.parent == s.procs[p].parent && (s.procs[p].state != UNUSED ==> me'.state != UNUSED)
    requires forall c :: 0 <= c < |s.procs| && s.procs[c].parent == Some(p) && c != t ==> !Dead(me') && Keeps(me'.pc, c)
    requires forall c :: 0 <= c < |s.procs| && s.procs[c].parent == Some(t) ==> !Dead(other') && Keeps(other'.pc, c)
    requires other'.parent.Some? ==>
      var q := other'.parent.value;
      q < |s.procs| && q != t && other'.state != UNUSED && !Dead(s'.procs[q]) && Keeps(s'.procs[q].pc, t)
    ensures ParentsOk(s')
  {
    hide Keeps, Dead;
  }

  lemma DuoInit(s: State, p: nat, me': Proc, t: nat, other': Proc, wait': Option<nat>, s': State)
    requires InitOk(s) && Duo(s, p, me', t, other', wait', s')
    requires p == s.init ==> !Dead(me') && !Exiting(me'.pc) && me'.parent == None
    requires t == s.init ==> !Dead(other') && !Exiting(other'.pc) && other'.parent == None
    ensures InitOk(s')
  {
  }

  /** What a two-slot step must satisfy, forks and parents aside. */
  ghost predicate DuoFits(p: nat, t: nat, n: nat, me: Proc, me': Proc, other: Proc, other': Proc, wait: Option<nat>,
          wait': Option<nat>) {
    && WaitStep(p, me', wait, wait') && (HoldsWait(other'.pc) <==> HoldsWait(other.pc))
      && (HoldsWait(other'.pc) ==> wait' == wait)
    && LockPass(p, t, me', other, other') && me'.lock == me.lock && LockOf(me'.pc, p) in {None, Some(t)}
      && LockOf(me.pc, p) in {None, Some(t)}
    && PcOk(me'.pc, p, n) && SlotOk(me', p) && PcOk(other'.pc, t, n) && SlotOk(other', t)
    && me'.parent == me.parent && me'.state == me.state
  }

  lemma DuoKeeps(s: State, p: nat, me': Proc, t: nat, other': Proc, wait': Option<nat>, s': State)
    requires Structure(s) && Duo(s, p, me', t, other', wait', s') && ForksOk(s') && ParentsOk(s')
    requires DuoFits(p, t, |s.procs|, s.procs[p], me', s.procs[t], other', s.waitLock, wait')
    requires p == s.init ==> !Exiting(me'.pc)
    requires t == s.init ==> !Dead(other') && !Exiting(other'.pc) && other'.parent == None
    ensures Structure(s')
  {
    hide WaitLockOk, HeldMarked, MarkedHeld, SlotsOk, ForksOk, ParentsOk, LockPass, WaitStep, LockOf;
    DuoWait(s, p, me', t, other', wait', s');
    DuoHeld(s, p, me', t, other', wait', s');
    DuoMarked(s, p, me', t, other', wait', s');
    DuoSlots(s, p, me', t, other', wait', s');
    DuoInit(s, p, me', t, other', wait', s');
  }

  // ---------- the steps, one by one ----------

  lemma SchedulerKeeps(s: State, p: nat, s': State)
    requires Structure(s) && (SchedAcquires(s, p, s') || SchedRuns(s, p, s') || SchedReleases(s, p, s')
        || ReleasesSelf(s, p, s'))
    ensures Structure(s')
  {
    hide WaitLockOk, LocksOk, ForksOk, ParentsOk, InitOk;
    At(s, p);
    SoloKeeps(s, p, s'.procs[p], s'.waitLock, s');
  }

  /** What the invariants say of one slot. */
  lemma At(s: State, p: nat)
    requires Structure(s) && p < |s.procs|
    ensures PcOk(s.procs[p].pc, p, |s.procs|) && SlotOk(s.procs[p], p) && s.init < |s.procs|
    ensures HoldsWait(s.procs[p].pc) <==> s.waitLock == Some(p)
    ensures LockOf(s.procs[p].pc, p) == Some(p) <==> s.procs[p].lock == Thread(p)
    ensures p == s.init ==> !Dead(s.procs[p]) && !Exiting(s.procs[p].pc) && s.procs[p].parent == None
    ensures forall c :: 0 <= c < |s.procs| && s.procs[c].parent == Some(p) ==>
        !Dead(s.procs[p]) && Keeps(s.procs[p].pc, c)
  {
    hide PcOk, SlotOk, Keeps, Exiting;
  }

  lemma NapLockKeeps(s: State, p: nat, s': State)
    requires Structure(s) && (LocksSelf(s, p, Run, Yield1, s') || LocksSelf(s, p, Run, Nap1, s'))
    ensures Structure(s')
  {
    hide WaitLockOk, LocksOk, ForksOk, ParentsOk, InitOk;
    At(s, p);
    SoloKeeps(s, p, s'.procs[p], s'.waitLock, s');
  }

  lemma ExitLockKeeps(s: State, p: nat, s': State)
    requires Structure(s) && (LocksSelf(s, p, Exit2, Exit3, s') || SleepLocks(s, p, s'))
    ensures Structure(s')
  {
    hide WaitLockOk, LocksOk, ForksOk, ParentsOk, InitOk;
    At(s, p);
    SoloKeeps(s, p, s'.procs[p], s'.waitLock, s');
  }

  lemma YieldSwitchKeeps(s: State, p: nat, s': State)
    requires Structure(s) && (YieldSwitches(s, p, s') || NapSwitches(s, p, s'))
    ensures Structure(s')
  {
    hide WaitLockOk, LocksOk, ForksOk, ParentsOk, InitOk;
    At(s, p);
    SoloKeeps(s, p, s'.procs[p], s'.waitLock, s');
  }

  lemma ExitSwitchKeeps(s: State, p: nat, s': State)
    requires Structure(s) && ExitSwitches(s, p, s')
    ensures Structure(s')
  {
    hide WaitLockOk, LocksOk, ForksOk, ParentsOk, InitOk;
    At(s, p);
    SoloKeeps(s, p, s'.procs[p], s'.waitLock, s');
  }

  lemma SleepSwitchKeeps(s: State, p: nat, s': State)
    requires Structure(s) && SleepSwitches(s, p, s')
    ensures Structure(s')
  {
    hide WaitLockOk, LocksOk, ForksOk, ParentsOk, InitOk;
    At(s, p);
    SoloKeeps(s, p, s'.procs[p], s'.waitLock, s');
  }

  lemma SignalKeeps(s: State, p: nat, s': State)
    requires Structure(s) && (WakesOther(s, p, s') || Kills(s, p, s'))
    ensures Structure(s')
  {
    hide WaitLockOk, LocksOk, ForksOk, ParentsOk, InitOk;
    At(s, p);
    SoloKeeps(s, p, s'.procs[p], s'.waitLock, s');
  }

  lemma WaitEndsKeep(s: State, p: nat, s': State)
    requires Structure(s) && (WaitCalls(s, p, s') || WaitBegins(s, p, s') || WaitLeaves(s, p, s'))
    ensures Structure(s')
  {
    hide WaitLockOk, LocksOk, ForksOk, ParentsOk, InitOk;
    At(s, p);
    SoloKeeps(s, p, s'.procs[p], s'.waitLock, s');
  }

  lemma UnwaitKeeps(s: State, p: nat, s': State)
    requires Structure(s) && (SleepUnwaits(s, p, s') || ForkUnwaits(s, p, s'))
    ensures Structure(s')
  {
    hide WaitLockOk, LocksOk, ForksOk, ParentsOk, InitOk;
    At(s, p);
    SoloKeeps(s, p, s'.procs[p], s'.waitLock, s');
  }

  lemma ExitKeeps(s: State, p: nat, s': State)
    requires Structure(s) && (ExitBegins(s, p, s') || ExitDies(s, p, s'))
    ensures Structure(s')
  {
    hide WaitLockOk, LocksOk, ForksOk, ParentsOk, InitOk;
    At(s, p);
    SoloKeeps(s, p, s'.procs[p], s'.waitLock, s');
  }

  /** A wake-up round changes at most the state of one sleeper. */
  lemma RoundKeeps(s: State, p: nat, j: nat, chan: Chan, next: Pc, s': State)
    requires Structure(s) && WakeRound(s, p, j, chan, next, s') && (s.procs[p].pc.ExitInit? || s.procs[p].pc.ExitWake?)
    requires if s.procs[p].pc.ExitInit? then next == ExitInit(s.procs[p].pc.k, j + 1) else next == ExitWake(j + 1)
    ensures Structure(s')
  {
    hide WaitLockOk, LocksOk, ForksOk, ParentsOk, InitOk;
    At(s, p);
    At(s, j);
    if j == p {
      SoloKeeps(s, p, s'.procs[p], s'.waitLock, s');
    } else {
      DuoForks(s, p, s'.procs[p], j, s'.procs[j], s'.waitLock, s');
      if s.procs[j].parent.Some? { ParentAt(s, j); }
      DuoParents(s, p, s'.procs[p], j, s'.procs[j], s'.waitLock, s');
      DuoKeeps(s, p, s'.procs[p], j, s'.procs[j], s'.waitLock, s');
    }
  }

  lemma ParentAt(s: State, c: nat)
    requires Structure(s) && c < |s.procs| && s.procs[c].parent.Some?
    ensures
      var q := s.procs[c].parent.value;
      q < |s.procs| && q != c && s.procs[c].state != UNUSED && !Dead(s.procs[q]) && Keeps(s.procs[q].pc, c)
  {
    hide Keeps, Dead;
  }

  lemma WakingKeeps(s: State, p: nat, s': State)
    requires Structure(s) && (ExitWakesInit(s, p, s') || ExitWakesParent(s, p, s'))
    ensures Structure(s')
  {
    hide WaitLockOk, LocksOk, ForksOk, ParentsOk, InitOk, WakeRound;
    At(s, p);
    var j := s.procs[p].pc.j;
    if j >= |s.procs| {
      SoloKeeps(s, p, s'.procs[p], s'.waitLock, s');
    } else if s.procs[p].pc.ExitInit? {
      RoundKeeps(s, p, j, Slot(s.init), ExitInit(s.procs[p].pc.k, j + 1), s');
    } else {
      RoundKeeps(s, p, j, if s.procs[p].parent.Some? then Slot(s.procs[p].parent.value)
        else NoChan, ExitWake(j + 1), s');
    }
  }

  // ---------- fork ----------

  /** Nobody but p is filling in slot c. */
  ghost predicate OnlyForker(s: State, p: nat, c: nat) {
    forall r :: 0 <= r < |s.procs| && r != p ==> Forking(s.procs[r].pc) != Some(c)
  }

  lemma Forker(s: State, p: nat, c: nat)
    requires ForksOk(s) && p < |s.procs| && c < |s.procs|
    requires Forking(s.procs[p].pc) == Some(c) || s.procs[c].state != USED
    ensures OnlyForker(s, p, c)
    ensures Forking(s.procs[p].pc) == Some(c) ==>
      && s.procs[c].state == USED
      && (s.procs[p].pc.Fork1? || s.procs[p].pc.Fork2? ==> s.procs[c].parent == None)
  {
    hide Forking;
  }

  /** p starts filling in slot c, which it has just taken. */
  lemma ForkStarts(s: State, p: nat, c: nat, me': Proc, child': Proc, s': State)
    requires ForksOk(s) && p < |s.procs| && c < |s.procs| && c != p && s'.procs == s.procs[c := child'][p := me']
        && OnlyForker(s, p, c)
    requires child'.state == USED && child'.parent == None && Forking(child'.pc) == None
    requires Forking(me'.pc) == Some(c) && s.procs[p].state != USED && me'.parent == s.procs[p].parent
    ensures ForksOk(s')
  {
    hide Forking;
  }

  /** p, the only one, is done with slot c, or links it to itself. */
  lemma ForkMoves(s: State, p: nat, c: nat, me': Proc, child': Proc, s': State)
    requires ForksOk(s) && p < |s.procs| && c < |s.procs| && c != p && s'.procs == s.procs[c := child'][p := me']
        && OnlyForker(s, p, c)
    requires Forking(child'.pc) == Forking(s.procs[c].pc) == None && s.procs[p].state != USED
        && me'.parent == s.procs[p].parent
    requires Forking(me'.pc) == None
        || (Forking(me'.pc) == Some(c) && child'.state == USED
        && (me'.pc.Fork3? || me'.pc.Fork4? || child'.parent == None))
    ensures ForksOk(s')
  {
    hide Forking;
  }

  lemma ForkAllocKeeps(s: State, p: nat, c: nat, s': State)
    requires Structure(s) && ForkAllocates(s, p, c, s')
    ensures Structure(s')
  {
    hide WaitLockOk, LocksOk, ForksOk, ParentsOk, InitOk, OnlyForker;
    At(s, p);
    At(s, c);
    Forker(s, p, c);
    ForkStarts(s, p, c, s'.procs[p], s'.procs[c], s');
    DuoParents(s, p, s'.procs[p], c, s'.procs[c], s'.waitLock, s');
    DuoKeeps(s, p, s'.procs[p], c, s'.procs[c], s'.waitLock, s');
  }

  lemma ForkFailKeeps(s: State, p: nat, s': State)
    requires Structure(s) && ForkFails(s, p, s')
    ensures Structure(s')
  {
    hide WaitLockOk, LocksOk, ForksOk, ParentsOk, InitOk, OnlyForker;
    var c := s.procs[p].pc.c;
    At(s, p);
    At(s, c);
    Forker(s, p, c);
    LockedBy(s, p, c);
    ForkMoves(s, p, c, s'.procs[p], s'.procs[c], s');
    DuoParents(s, p, s'.procs[p], c, s'.procs[c], s'.waitLock, s');
    DuoKeeps(s, p, s'.procs[p], c, s'.procs[c], s'.waitLock, s');
  }

  lemma LockedBy(s: State, p: nat, q: nat)
    requires Structure(s) && p < |s.procs| && q < |s.procs|
    ensures LockOf(s.procs[p].pc, p) == Some(q) <==> s.procs[q].lock == Thread(p)
  {
    hide LockOf;
  }


  lemma ForkUnlockKeeps(s: State, p: nat, s': State)
    requires Structure(s) && ForkUnlocks(s, p, s')
    ensures Structure(s')
  {
    hide WaitLockOk, LocksOk, ForksOk, ParentsOk, InitOk, OnlyForker;
    var c := s.procs[p].pc.c;
    At(s, p);
    At(s, c);
    Forker(s, p, c);
    LockedBy(s, p, c);
    ForkMoves(s, p, c, s'.procs[p], s'.procs[c], s');
    DuoParents(s, p, s'.procs[p], c, s'.procs[c], s'.waitLock, s');
    DuoKeeps(s, p, s'.procs[p], c, s'.procs[c], s'.waitLock, s');
  }

  lemma ForkLinkKeeps(s: State, p: nat, s': State)
    requires Structure(s) && ForkLinks(s, p, s')
    ensures Structure(s')
  {
    hide WaitLockOk, LocksOk, ForksOk, ParentsOk, InitOk, OnlyForker;
    var c := s.procs[p].pc.c;
    At(s, p);
    At(s, c);
    Forker(s, p, c);
    LockedBy(s, p, c);
    ForkMoves(s, p, c, s'.procs[p], s'.procs[c], s');
    DuoParents(s, p, s'.procs[p], c, s'.procs[c], s'.waitLock, s');
    DuoKeeps(s, p, s'.procs[p], c, s'.procs[c], s'.waitLock, s');
  }

  lemma ForkReadyKeeps(s: State, p: nat, s': State)
    requires Structure(s) && ForkReadies(s, p, s')
    ensures Structure(s')
  {
    hide WaitLockOk, LocksOk, ForksOk, ParentsOk, InitOk, OnlyForker;
    var c := s.procs[p].pc.c;
    At(s, p);
    At(s, c);
    Forker(s, p, c);
    LockedBy(s, p, c);
    if s.procs[c].parent.Some? { ParentAt(s, c); }
    ForkMoves(s, p, c, s'.procs[p], s'.procs[c], s');
    DuoParents(s, p, s'.procs[p], c, s'.procs[c], s'.waitLock, s');
    DuoKeeps(s, p, s'.procs[p], c, s'.procs[c], s'.waitLock, s');
  }

  // ---------- reparent and wait ----------

  /** A child is handed to init. */
  lemma HandOver(s: State, p: nat, k: nat, s': State)
    requires Structure(s) && p < |s.procs| && s.procs[p].pc == Exit1(k) && k < |s.procs| && s.procs[k].parent == Some(p)
    requires Duo(s, p, s.procs[p].(pc := ExitInit(k, 0)), k, s.procs[k].(parent := Some(s.init)), s.waitLock, s')
        && SameCounts(s, s')
    ensures Structure(s')
  {
    hide WaitLockOk, LocksOk, ForksOk, ParentsOk, InitOk;
    At(s, p);
    At(s, k);
    At(s, s.init);
    ParentAt(s, k);
    LockedBy(s, p, k);
    DuoForks(s, p, s'.procs[p], k, s'.procs[k], s'.waitLock, s');
    DuoParents(s, p, s'.procs[p], k, s'.procs[k], s'.waitLock, s');
    DuoKeeps(s, p, s'.procs[p], k, s'.procs[k], s'.waitLock, s');
  }

  lemma ReparentKeeps(s: State, p: nat, s': State)
    requires Structure(s) && ExitReparents(s, p, s')
    ensures Structure(s')
  {
    hide WaitLockOk, LocksOk, ForksOk, ParentsOk, InitOk;
    At(s, p);
    var k := s.procs[p].pc.k;
    if k >= |s.procs| || s.procs[k].parent != Some(p) {
      SoloKeeps(s, p, s'.procs[p], s'.waitLock, s');
    } else {
      HandOver(s, p, k, s');
    }
  }

  lemma ScanKeeps(s: State, p: nat, s': State)
    requires Structure(s) && WaitScans(s, p, s')
    ensures Structure(s')
  {
    hide WaitLockOk, LocksOk, ForksOk, ParentsOk, InitOk;
    At(s, p);
    var k := s.procs[p].pc.k;
    if s.procs[k].parent != Some(p) {
      SoloKeeps(s, p, s'.procs[p], s'.waitLock, s');
    } else {
      At(s, k);
      ParentAt(s, k);
      DuoForks(s, p, s'.procs[p], k, s'.procs[k], s'.waitLock, s');
      DuoParents(s, p, s'.procs[p], k, s'.procs[k], s'.waitLock, s');
      DuoKeeps(s, p, s'.procs[p], k, s'.procs[k], s'.waitLock, s');
    }
  }

  lemma LookKeeps(s: State, p: nat, s': State)
    requires Structure(s) && WaitLooks(s, p, s')
    ensures Structure(s')
  {
    hide WaitLockOk, LocksOk, ForksOk, ParentsOk, InitOk;
    var k := s.procs[p].pc.k;
    At(s, p);
    At(s, k);
    LockedBy(s, p, k);
    if s.procs[k].parent.Some? { ParentAt(s, k); }
    DuoForks(s, p, s'.procs[p], k, s'.procs[k], s'.waitLock, s');
    DuoParents(s, p, s'.procs[p], k, s'.procs[k], s'.waitLock, s');
    DuoKeeps(s, p, s'.procs[p], k, s'.procs[k], s'.waitLock, s');
  }

  lemma FaultKeeps(s: State, p: nat, s': State)
    requires Structure(s) && WaitFaults(s, p, s')
    ensures Structure(s')
  {
    hide WaitLockOk, LocksOk, ForksOk, ParentsOk, InitOk;
    var k := s.procs[p].pc.k;
    At(s, p);
    At(s, k);
    LockedBy(s, p, k);
    if s.procs[k].parent.Some? { ParentAt(s, k); }
    DuoForks(s, p, s'.procs[p], k, s'.procs[k], s'.waitLock, s');
    DuoParents(s, p, s'.procs[p], k, s'.procs[k], s'.waitLock, s');
    DuoKeeps(s, p, s'.procs[p], k, s'.procs[k], s'.waitLock, s');
  }

  /** wait frees a slot only once its thread has switched to the scheduler for the last time and the
      scheduler has let go of it. */
  lemma ReapedIsGone(s: State, p: nat, s': State)
    requires Structure(s) && WaitReaps(s, p, s')
    ensures s.procs[s.procs[p].pc.k].pc == Gone && s.procs[s.procs[p].pc.k].lock == Thread(p)
  {
    hide WaitLockOk, LocksOk, ForksOk, ParentsOk, InitOk;
    var k := s.procs[p].pc.k;
    At(s, p);
    At(s, k);
    LockedBy(s, p, k);
    LockedBy(s, k, k);
  }

  lemma ReapKeeps(s: State, p: nat, s': State)
    requires Structure(s) && WaitReaps(s, p, s')
    ensures Structure(s')
  {
    hide WaitLockOk, LocksOk, ForksOk, ParentsOk, InitOk;
    var k := s.procs[p].pc.k;
    At(s, p);
    At(s, k);
    LockedBy(s, p, k);
    ReapedIsGone(s, p, s');
    DuoForks(s, p, s'.procs[p], k, s'.procs[k], s'.waitLock, s');
    DuoParents(s, p, s'.procs[p], k, s'.procs[k], s'.waitLock, s');
    DuoKeeps(s, p, s'.procs[p], k, s'.procs[k], s'.waitLock, s');
  }

  lemma ForkingKept(s: State, a: Action, s': State)
    requires Structure(s) && Next(s, a, s')
    requires a.ForkAlloc? || a.ForkFail? || a.ForkUnlock? || a.ForkLink? || a.ForkUnwait? || a.ForkReady?
    ensures Structure(s')
  {
    hide Structure, ForkAllocates, ForkFails, ForkUnlocks, ForkLinks, ForkUnwaits, ForkReadies;
    match a {
      case ForkAlloc(p, c) => ForkAllocKeeps(s, p, c, s');
      case ForkFail(p) => ForkFailKeeps(s, p, s');
      case ForkUnlock(p) => ForkUnlockKeeps(s, p, s');
      case ForkLink(p) => ForkLinkKeeps(s, p, s');
      case ForkUnwait(p) => UnwaitKeeps(s, p, s');
      case ForkReady(p) => ForkReadyKeeps(s, p, s');
    }
  }

  lemma StructureKept(s: State, a: Action, s': State)
    requires Structure(s) && Next(s, a, s')
    ensures Structure(s')
  {
    hide Structure, ForkAllocates, ForkFails, ForkUnlocks, ForkLinks, ForkUnwaits, ForkReadies;
    hide SchedAcquires, SchedRuns, SchedReleases, ReleasesSelf, LocksSelf, YieldSwitches, NapSwitches, WakesOther,
      Kills;
    hide ExitBegins, ExitReparents, ExitWakesInit, ExitWakesParent, ExitDies, ExitSwitches;
    hide WaitCalls, WaitBegins, WaitScans, WaitLooks, WaitReaps, WaitFaults, WaitLeaves, SleepLocks, SleepUnwaits,
      SleepSwitches;
    match a {
      case SchedAcquire(p) => SchedulerKeeps(s, p, s');
      case SchedRun(p) => SchedulerKeeps(s, p, s');
      case SchedRelease(p) => SchedulerKeeps(s, p, s');
      case ReleaseSelf(p) => SchedulerKeeps(s, p, s');
      case YieldLock(p) => NapLockKeeps(s, p, s');
      case YieldSwitch(p) => YieldSwitchKeeps(s, p, s');
      case NapLock(p) => NapLockKeeps(s, p, s');
      case NapSwitch(p) => YieldSwitchKeeps(s, p, s');
      case WakeOther(p) => SignalKeeps(s, p, s');
      case Kill(p) => SignalKeeps(s, p, s');
      case ExitBegin(p) => ExitKeeps(s, p, s');
      case ExitReparent(p) => ReparentKeeps(s, p, s');
      case ExitInitStep(p) => WakingKeeps(s, p, s');
      case ExitWakeStep(p) => WakingKeeps(s, p, s');
      case ExitLock(p) => ExitLockKeeps(s, p, s');
      case ExitZombie(p) => ExitKeeps(s, p, s');
      case ExitSwitch(p) => ExitSwitchKeeps(s, p, s');
      case WaitCall(p) => WaitEndsKeep(s, p, s');
      case WaitBegin(p) => WaitEndsKeep(s, p, s');
      case WaitScan(p) => ScanKeeps(s, p, s');
      case WaitLook(p) => LookKeeps(s, p, s');
      case WaitReap(p) => ReapKeeps(s, p, s');
      case WaitFault(p) => FaultKeeps(s, p, s');
      case WaitLeave(p) => WaitEndsKeep(s, p, s');
      case SleepLock(p) => ExitLockKeeps(s, p, s');
      case SleepUnwait(p) => UnwaitKeeps(s, p, s');
      case SleepSwitch(p) => SleepSwitchKeeps(s, p, s');
      case _ => ForkingKept(s, a, s');
    }
  }

  // ---------- pids ----------

  /** Pids are never used twice; the pid of a slot has exited exactly when the slot is a zombie; a pid
      that wait has returned had exited, was returned once, and is no slot's pid any more. */
  ghost predicate PidsOk(s: State) {
    && (forall c :: 0 <= c < |s.procs| && s.procs[c].state != UNUSED ==>
          s.procs[c].pid < s.nextPid && s.procs[c].pid !in s.reaped)
    && (forall c :: 0 <= c < |s.procs| && s.procs[c].state != UNUSED ==>
      (s.procs[c].pid in s.exited <==> s.procs[c].state == ZOMBIE))
    && (forall c, d :: 0 <= c < d < |s.procs| && s.procs[c].state != UNUSED && s.procs[d].state != UNUSED ==>
      s.procs[c].pid != s.procs[d].pid)
    && (forall x :: x in s.exited ==> x < s.nextPid)
    && (forall x :: x in s.reaped ==> x in s.exited) && Once(s.reaped)
  }

  predicate SameLife(q: Proc, q': Proc) {
    q'.pid == q.pid && (q'.state == UNUSED <==> q.state == UNUSED) && (q'.state == ZOMBIE <==> q.state == ZOMBIE)
  }

  /** No slot is taken, freed or made a zombie. */
  ghost predicate Quiet(s: State, s': State) {
    && |s'.procs| == |s.procs| && (forall c :: 0 <= c < |s.procs| ==> SameLife(s.procs[c], s'.procs[c]))
    && s'.nextPid == s.nextPid && s'.exited == s.exited && s'.reaped == s.reaped
  }

  lemma QuietPids(s: State, s': State)
    requires PidsOk(s) && Quiet(s, s')
    ensures PidsOk(s')
  {
    forall c | 0 <= c < |s'.procs| ensures SameLife(s.procs[c], s'.procs[c]) {
    }
  }

  lemma SoloQuiet(s: State, p: nat, me': Proc, wait': Option<nat>, s': State)
    requires Solo(s, p, me', wait', s') && s'.exited == s.exited && SameLife(s.procs[p], me')
    ensures Quiet(s, s')
  {
  }

  lemma DuoQuiet(s: State, p: nat, me': Proc, t: nat, other': Proc, wait': Option<nat>, s': State)
    requires Duo(s, p, me', t, other', wait', s') && SameCounts(s, s') && SameLife(s.procs[p], me')
        && SameLife(s.procs[t], other')
    ensures Quiet(s, s')
  {
  }

  lemma QuietSolo(s: State, p: nat, s': State)
    requires Structure(s) && PidsOk(s) && (SchedAcquires(s, p, s') || SchedRuns(s, p, s') || SchedReleases(s, p, s')
        || ReleasesSelf(s, p, s') || LocksSelf(s, p, Run, Yield1, s') || YieldSwitches(s, p, s')
        || LocksSelf(s, p, Run, Nap1, s') || NapSwitches(s, p, s') || WakesOther(s, p, s') || Kills(s, p, s'))
    ensures PidsOk(s')
  {
    hide Structure, PidsOk, PcOk, LockOf, HoldsWait, Keeps, Exiting, Quiet;
    At(s, p);
    SoloQuiet(s, p, s'.procs[p], s'.waitLock, s');
    QuietPids(s, s');
  }

  lemma QuietWaits(s: State, p: nat, s': State)
    requires Structure(s) && PidsOk(s)
        && (ForkUnwaits(s, p, s') || ExitBegins(s, p, s') || LocksSelf(s, p, Exit2, Exit3, s')
        || ExitSwitches(s, p, s') || WaitCalls(s, p, s') || WaitBegins(s, p, s') || WaitLeaves(s, p, s')
        || SleepLocks(s, p, s') || SleepUnwaits(s, p, s') || SleepSwitches(s, p, s'))
    ensures PidsOk(s')
  {
    hide Structure, PidsOk, PcOk, LockOf, HoldsWait, Keeps, Exiting, Quiet;
    At(s, p);
    SoloQuiet(s, p, s'.procs[p], s'.waitLock, s');
    QuietPids(s, s');
  }

  lemma QuietDuo(s: State, p: nat, s': State)
    requires Structure(s) && PidsOk(s) && (ForkUnlocks(s, p, s') || ForkLinks(s, p, s') || ForkReadies(s, p, s')
        || ExitReparents(s, p, s') || WaitScans(s, p, s') || WaitLooks(s, p, s') || WaitFaults(s, p, s'))
    ensures PidsOk(s')
  {
    hide Structure, PidsOk, LockOf, HoldsWait, Keeps, Exiting, Quiet;
    At(s, p);
    if Forking(s.procs[p].pc).Some? { UsedChild(s, p); }
    if s'.procs == s.procs[p := s'.procs[p]] && s'.reaped == s.reaped && s'.nextPid == s.nextPid {
      SoloQuiet(s, p, s'.procs[p], s'.waitLock, s');
    } else {
      var t :=
        match s.procs[p].pc
        case Fork1(c) => c
        case Fork2(c) => c
        case Fork4(c) => c
        case Exit1(k) => k
        case Wait1(k, _) => k
        case Wait2(k) => k
        case _ => p;
      DuoQuiet(s, p, s'.procs[p], t, s'.procs[t], s'.waitLock, s');
    }
    QuietPids(s, s');
  }

  lemma UsedChild(s: State, p: nat)
    requires Structure(s) && p < |s.procs| && Forking(s.procs[p].pc).Some?
    ensures Forking(s.procs[p].pc).value < |s.procs| && s.procs[Forking(s.procs[p].pc).value].state == USED
  {
    hide Forking;
  }

  lemma QuietWakes(s: State, p: nat, s': State)
    requires Structure(s) && PidsOk(s) && (ExitWakesInit(s, p, s') || ExitWakesParent(s, p, s'))
    ensures PidsOk(s')
  {
    hide Structure, PidsOk, LockOf, HoldsWait, Keeps, Exiting, Quiet;
    At(s, p);
    var j := s.procs[p].pc.j;
    if j >= |s.procs| || j == p {
      SoloQuiet(s, p, s'.procs[p], s'.waitLock, s');
    } else {
      DuoQuiet(s, p, s'.procs[p], j, s'.procs[j], s'.waitLock, s');
    }
    QuietPids(s, s');
  }

  lemma AllocPids(s: State, p: nat, c: nat, s': State)
    requires Structure(s) && PidsOk(s) && ForkAllocates(s, p, c, s')
    ensures PidsOk(s')
  {
    hide Structure, Once;
    At(s, p);
  }

  lemma FailPids(s: State, p: nat, s': State)
    requires Structure(s) && PidsOk(s) && ForkFails(s, p, s')
    ensures PidsOk(s')
  {
    hide Structure, Once;
    At(s, p);
    UsedChild(s, p);
  }

  lemma ZombiePids(s: State, p: nat, s': State)
    requires Structure(s) && PidsOk(s) && ExitDies(s, p, s')
    ensures PidsOk(s')
  {
    hide Structure, Once;
    At(s, p);
  }

  lemma ReapPids(s: State, p: nat, s': State)
    requires Structure(s) && PidsOk(s) && WaitReaps(s, p, s')
    ensures PidsOk(s')
  {
    hide Structure;
    At(s, p);
  }

  lemma PidsKept(s: State, a: Action, s': State)
    requires Structure(s) && PidsOk(s) && Next(s, a, s')
    ensures PidsOk(s')
  {
    hide Structure, PidsOk;
    hide ForkAllocates, ForkFails, ForkUnlocks, ForkLinks, ForkUnwaits, ForkReadies, Solo, Duo;
    hide SchedAcquires, SchedRuns, SchedReleases, ReleasesSelf, LocksSelf, YieldSwitches, NapSwitches, WakesOther,
      Kills;
    hide ExitBegins, ExitReparents, ExitWakesInit, ExitWakesParent, ExitDies, ExitSwitches;
    hide WaitCalls, WaitBegins, WaitScans, WaitLooks, WaitReaps, WaitFaults, WaitLeaves, SleepLocks, SleepUnwaits,
      SleepSwitches;
    match a {
      case ForkAlloc(p, c) => AllocPids(s, p, c, s');
      case ForkFail(p) => FailPids(s, p, s');
      case ExitZombie(p) => ZombiePids(s, p, s');
      case WaitReap(p) => ReapPids(s, p, s');
      case SchedAcquire(p) => QuietSolo(s, p, s');
      case SchedRun(p) => QuietSolo(s, p, s');
      case SchedRelease(p) => QuietSolo(s, p, s');
      case ReleaseSelf(p) => QuietSolo(s, p, s');
      case YieldLock(p) => QuietSolo(s, p, s');
      case YieldSwitch(p) => QuietSolo(s, p, s');
      case NapLock(p) => QuietSolo(s, p, s');
      case NapSwitch(p) => QuietSolo(s, p, s');
      case WakeOther(p) => QuietSolo(s, p, s');
      case Kill(p) => QuietSolo(s, p, s');
      case ForkUnwait(p) => QuietWaits(s, p, s');
      case ExitBegin(p) => QuietWaits(s, p, s');
      case ExitLock(p) => QuietWaits(s, p, s');
      case ExitSwitch(p) => QuietWaits(s, p, s');
      case WaitCall(p) => QuietWaits(s, p, s');
      case WaitBegin(p) => QuietWaits(s, p, s');
      case WaitLeave(p) => QuietWaits(s, p, s');
      case SleepLock(p) => QuietWaits(s, p, s');
      case SleepUnwait(p) => QuietWaits(s, p, s');
      case SleepSwitch(p) => QuietWaits(s, p, s');
      case ForkUnlock(p) => QuietDuo(s, p, s');
      case ForkLink(p) => QuietDuo(s, p, s');
      case ForkReady(p) => QuietDuo(s, p, s');
      case ExitReparent(p) => QuietDuo(s, p, s');
      case WaitScan(p) => QuietDuo(s, p, s');
      case WaitLook(p) => QuietDuo(s, p, s');
      case WaitFault(p) => QuietDuo(s, p, s');
      case ExitInitStep(p) => QuietWakes(s, p, s');
      case ExitWakeStep(p) => QuietWakes(s, p, s');
    }
  }

  // ---------- nobody sleeps in wait while it has a zombie child ----------

  predicate Asleep(q: Proc, slot: nat) {
    q.state == SLEEPING && q.chan == Slot(slot)
  }

  /** Asleep in wait, or past the point where it can still see a child exit. */
  predicate Drowsy(q: Proc, slot: nat) {
    Asleep(q, slot) || q.pc == Sleep1 || q.pc == Sleep2
  }

  /** The slot up to which a scan in wait has found no zombie child. */
  function ScanAt(pc: Pc): nat {
    match pc
    case Wait1(k, _) => k
    case Wait2(k) => k
    case _ => 0
  }

  /** Zombie c has just been given to init, which is still to be woken. */
  ghost predicate Pending(s: State, c: nat, q: nat) {
    && q == s.init && s.waitLock.Some? && s.waitLock.value < |s.procs|
    && var pc := s.procs[s.waitLock.value].pc; pc.ExitInit? && pc.k == c && pc.j <= q
  }

  ghost predicate ZombieSeen(s: State, c: nat) {
    c < |s.procs| && s.procs[c].state == ZOMBIE && s.procs[c].parent.Some? ==>
      var q := s.procs[c].parent.value;
      q < |s.procs| && (Pending(s, c, q) || (!Drowsy(s.procs[q], q) && ScanAt(s.procs[q].pc) <= c))
  }

  /** An exiting process has already woken parent q. */
  predicate PastWake(pc: Pc, q: nat) {
    (pc.ExitWake? && pc.j > q) || pc == Exit2 || pc == Exit3
  }

  ghost predicate ParentAwake(s: State, c: nat) {
    c < |s.procs| && s.procs[c].parent.Some? && PastWake(s.procs[c].pc, s.procs[c].parent.value) ==>
      s.procs[c].parent.value < |s.procs| && !Drowsy(s.procs[s.procs[c].parent.value], s.procs[c].parent.value)
  }

  ghost predicate WakesOk(s: State) {
    (forall c: nat :: c < |s.procs| ==> ZombieSeen(s, c)) && (forall c: nat :: c < |s.procs| ==> ParentAwake(s, c))
  }

  /** The slot has come no closer to missing a zombie, as a parent or as a child. */
  predicate Calmer(x: Proc, x': Proc, slot: nat) {
    && (Drowsy(x', slot) ==> Drowsy(x, slot)) && ScanAt(x'.pc) <= ScanAt(x.pc) && ChildCalm(x, x')
  }

  predicate ChildCalm(x: Proc, x': Proc) {
    && (x'.state == ZOMBIE ==> x.state == ZOMBIE && x'.parent == x.parent)
    && (x'.parent.Some? && PastWake(x'.pc, x'.parent.value) ==>
      x'.parent == x.parent && PastWake(x.pc, x'.parent.value))
  }

  /** Whoever is waking init for an orphan goes on undisturbed. */
  ghost predicate PendingSame(s: State, s': State) {
    s.waitLock.Some? && s.waitLock.value < |s.procs| && s.procs[s.waitLock.value].pc.ExitInit? ==>
      s'.waitLock == s.waitLock && s.waitLock.value < |s'.procs|
        && s'.procs[s.waitLock.value].pc == s.procs[s.waitLock.value].pc
  }

  lemma CalmKeeps(s: State, s': State)
    requires WakesOk(s) && |s'.procs| == |s.procs| && s'.init == s.init && PendingSame(s, s')
    requires forall c: nat :: c < |s.procs| ==> Calmer(s.procs[c], s'.procs[c], c)
    ensures WakesOk(s')
  {
    hide Drowsy, ScanAt, PastWake;
    forall c: nat | c < |s'.procs| ensures ZombieSeen(s', c) && ParentAwake(s', c) {
      assert ZombieSeen(s, c) && ParentAwake(s, c) && Calmer(s.procs[c], s'.procs[c], c);
      if s'.procs[c].parent.Some? && s'.procs[c].parent == s.procs[c].parent && s'.procs[c].parent.value < |s.procs| {
        var q := s'.procs[c].parent.value;
        assert Calmer(s.procs[q], s'.procs[q], q);
      }
    }
  }

  lemma SoloCalm(s: State, p: nat, me': Proc, wait': Option<nat>, s': State)
    requires WakesOk(s) && Solo(s, p, me', wait', s') && Calmer(s.procs[p], me', p) && PendingSame(s, s')
    ensures WakesOk(s')
  {
    hide Drowsy, ScanAt, PastWake, WakesOk;
    forall c: nat | c < |s.procs| ensures Calmer(s.procs[c], s'.procs[c], c) {
    }
    CalmKeeps(s, s');
  }

  lemma DuoCalm(s: State, p: nat, me': Proc, t: nat, other': Proc, wait': Option<nat>, s': State)
    requires WakesOk(s) && Duo(s, p, me', t, other', wait', s') && Calmer(s.procs[p], me', p)
        && Calmer(s.procs[t], other', t) && PendingSame(s, s')
    ensures WakesOk(s')
  {
    hide Drowsy, ScanAt, PastWake, WakesOk;
    forall c: nat | c < |s.procs| ensures Calmer(s.procs[c], s'.procs[c], c) {
    }
    CalmKeeps(s, s');
  }

  /** Only the holder of wait_lock can be waking init. */
  lemma PendingKept(s: State, p: nat, s': State)
    requires Structure(s) && p < |s.procs| && |s'.procs| == |s.procs| && !s.procs[p].pc.ExitInit?
    requires s'.waitLock == s.waitLock || s.waitLock in {None, Some(p)}
    requires forall r :: 0 <= r < |s.procs| && r != p && s.procs[r].pc.ExitInit? ==> s'.procs[r].pc == s.procs[r].pc
    ensures PendingSame(s, s')
  {
    hide LocksOk, SlotsOk, ForksOk, ParentsOk, InitOk;
  }

  lemma CalmSched(s: State, p: nat, s': State)
    requires Structure(s) && WakesOk(s)
        && (SchedRuns(s, p, s') || ReleasesSelf(s, p, s') || LocksSelf(s, p, Run, Yield1, s')
        || YieldSwitches(s, p, s') || LocksSelf(s, p, Run, Nap1, s') || NapSwitches(s, p, s'))
    ensures WakesOk(s')
  {
    hide Structure, WakesOk, PendingSame, PcOk, LockOf, HoldsWait, Keeps, Exiting;
    At(s, p);
    PendingKept(s, p, s');
    SoloCalm(s, p, s'.procs[p], s'.waitLock, s');
  }

  lemma CalmSignal(s: State, p: nat, s': State)
    requires WakesOk(s) && (SchedAcquires(s, p, s') || SchedReleases(s, p, s') || WakesOther(s, p, s')
        || Kills(s, p, s'))
    ensures WakesOk(s')
  {
    hide WakesOk, PastWake, ScanAt;
    SoloCalm(s, p, s'.procs[p], s'.waitLock, s');
  }

  lemma CalmExits(s: State, p: nat, s': State)
    requires Structure(s) && WakesOk(s)
        && (ForkUnwaits(s, p, s') || ExitBegins(s, p, s') || LocksSelf(s, p, Exit2, Exit3, s')
        || ExitSwitches(s, p, s'))
    ensures WakesOk(s')
  {
    hide Structure, WakesOk, PendingSame, PcOk, LockOf, Keeps, Exiting;
    At(s, p);
    PendingKept(s, p, s');
    SoloCalm(s, p, s'.procs[p], s'.waitLock, s');
  }

  lemma CalmWaits(s: State, p: nat, s': State)
    requires Structure(s) && WakesOk(s) && (WaitCalls(s, p, s') || WaitBegins(s, p, s') || WaitLeaves(s, p, s')
        || SleepUnwaits(s, p, s') || SleepSwitches(s, p, s'))
    ensures WakesOk(s')
  {
    hide Structure, WakesOk, PendingSame, PcOk, LockOf, Keeps, Exiting;
    At(s, p);
    PendingKept(s, p, s');
    SoloCalm(s, p, s'.procs[p], s'.waitLock, s');
  }

  lemma CalmAlloc(s: State, p: nat, c: nat, s': State)
    requires Structure(s) && WakesOk(s) && ForkAllocates(s, p, c, s')
    ensures WakesOk(s')
  {
    hide Structure, WakesOk, PendingSame, LockOf, HoldsWait, Keeps, Exiting;
    At(s, p);
    At(s, c);
    PendingKept(s, p, s');
    DuoCalm(s, p, s'.procs[p], c, s'.procs[c], s'.waitLock, s');
  }

  lemma CalmFork(s: State, p: nat, s': State)
    requires Structure(s) && WakesOk(s) && (ForkFails(s, p, s') || ForkUnlocks(s, p, s') || ForkLinks(s, p, s')
        || ForkReadies(s, p, s'))
    ensures WakesOk(s')
  {
    hide Structure, WakesOk, PendingSame, LockOf, HoldsWait, Keeps, Exiting;
    At(s, p);
    UsedChild(s, p);
    var c := s.procs[p].pc.c;
    At(s, c);
    PendingKept(s, p, s');
    DuoCalm(s, p, s'.procs[p], c, s'.procs[c], s'.waitLock, s');
  }

  lemma CalmFault(s: State, p: nat, s': State)
    requires Structure(s) && WakesOk(s) && (WaitFaults(s, p, s') || WaitReaps(s, p, s'))
    ensures WakesOk(s')
  {
    hide Structure, WakesOk, PendingSame, LockOf, Keeps, Exiting;
    At(s, p);
    var k := s.procs[p].pc.k;
    At(s, k);
    PendingKept(s, p, s');
    DuoCalm(s, p, s'.procs[p], k, s'.procs[k], s'.waitLock, s');
  }

  /** While p holds wait_lock nobody else is scanning, going to sleep, exiting or waking init. */
  lemma AloneAt(s: State, p: nat, q: nat)
    requires Structure(s) && p < |s.procs| && q < |s.procs| && q != p && HoldsWait(s.procs[p].pc)
    ensures ScanAt(s.procs[q].pc) == 0 && s.procs[q].pc != Sleep1 && !s.procs[q].pc.ExitInit?
        && !s.procs[q].pc.ExitWake?
    ensures s.procs[q].pc != Exit2 && s.procs[q].pc != Exit3
    ensures s.procs[q].lock == Free ==> s.procs[q].pc != Sleep2
  {
    hide SlotsOk, ForksOk, ParentsOk, InitOk;
    At(s, p);
    At(s, q);
  }

  /** p passes slot k in its scan, which is no zombie child of p, or goes to sleep after the last. */
  lemma ScanOn(s: State, p: nat, me': Proc, s': State)
    requires Structure(s) && WakesOk(s) && p < |s.procs| && s'.procs == s.procs[p := me']
        && s'.waitLock == s.waitLock && s'.init == s.init
    requires HoldsWait(s.procs[p].pc) && !s.procs[p].pc.ExitInit? && me'.parent == s.procs[p].parent
        && me'.state == RUNNING && !me'.pc.ExitWake? && me'.pc != Exit2 && me'.pc != Exit3
    requires forall c ::
      0 <= c < |s.procs| && s.procs[c].parent == Some(p) && s.procs[c].state == ZOMBIE && ScanAt(s.procs[p].pc) <= c ==>
      !Drowsy(me', p) && ScanAt(me'.pc) <= c
    ensures WakesOk(s')
  {
    hide Structure, Drowsy, ScanAt, HoldsWait;
    At(s, p);
    forall c: nat | c < |s'.procs| ensures ZombieSeen(s', c) && ParentAwake(s', c) {
      assert ZombieSeen(s, c) && ParentAwake(s, c);
      if c != p { AloneAt(s, p, c); }
    }
  }

  lemma SleepLockWakes(s: State, p: nat, s': State)
    requires Structure(s) && WakesOk(s) && SleepLocks(s, p, s')
    ensures WakesOk(s')
  {
    hide Structure, WakesOk;
    At(s, p);
    ScanOn(s, p, s'.procs[p], s');
  }

  lemma ScanWakes(s: State, p: nat, s': State)
    requires Structure(s) && WakesOk(s) && WaitScans(s, p, s')
    ensures WakesOk(s')
  {
    hide Structure, WakesOk, PendingSame;
    At(s, p);
    var k := s.procs[p].pc.k;
    if s.procs[k].parent != Some(p) {
      ScanOn(s, p, s'.procs[p], s');
    } else {
      PendingKept(s, p, s');
      DuoCalm(s, p, s'.procs[p], k, s'.procs[k], s'.waitLock, s');
    }
  }

  /** Child k was looked at and is no zombie. */
  lemma LookWakes(s: State, p: nat, s': State)
    requires Structure(s) && WakesOk(s) && WaitLooks(s, p, s')
    ensures WakesOk(s')
  {
    hide Structure, WakesOk, PendingSame;
    At(s, p);
    var k := s.procs[p].pc.k;
    var mid := s.(procs := s.procs[p := s'.procs[p]]);
    ScanOn(s, p, s'.procs[p], mid);
    assert s'.procs == mid.procs[k := s'.procs[k]];
    UnlockCalm(mid, k, s');
  }

  lemma UnlockCalm(s: State, k: nat, s': State)
    requires WakesOk(s) && k < |s.procs| && s'.procs == s.procs[k := s.procs[k].(lock := Free)]
        && s'.waitLock == s.waitLock && s'.init == s.init
    ensures WakesOk(s')
  {
    hide WakesOk, PastWake, ScanAt;
    forall c: nat | c < |s.procs| ensures Calmer(s.procs[c], s'.procs[c], c) {
    }
    CalmKeeps(s, s');
  }

  /** The parent was woken before the child became a zombie, and cannot have gone back to sleep. */
  lemma ZombieWakes(s: State, p: nat, s': State)
    requires Structure(s) && WakesOk(s) && ExitDies(s, p, s')
    ensures WakesOk(s')
  {
    hide Structure, Drowsy, ScanAt, HoldsWait;
    At(s, p);
    assert HoldsWait(Exit3) by { HoldsExit3(); }
    forall c: nat | c < |s'.procs| ensures ZombieSeen(s', c) && ParentAwake(s', c) {
      assert ZombieSeen(s, c) && ParentAwake(s, c);
      if c != p { AloneAt(s, p, c); }
      if s.procs[c].parent.Some? {
        ParentAt(s, c);
        var q := s.procs[c].parent.value;
        if q != p { AloneAt(s, p, q); }
      }
    }
  }

  lemma HoldsExit3()
    ensures HoldsWait(Exit3)
  {
  }

  /** An orphan is given to init, which is woken next. */
  lemma HandOverWakes(s: State, p: nat, k: nat, s': State)
    requires Structure(s) && WakesOk(s) && p < |s.procs| && s.procs[p].pc == Exit1(k) && k < |s.procs|
        && s.procs[k].parent == Some(p)
    requires Duo(s, p, s.procs[p].(pc := ExitInit(k, 0)), k, s.procs[k].(parent := Some(s.init)), s.waitLock, s')
    ensures WakesOk(s')
  {
    hide Structure, Drowsy;
    At(s, p);
    At(s, s.init);
    forall c: nat | c < |s'.procs| ensures ZombieSeen(s', c) && ParentAwake(s', c) {
      assert ZombieSeen(s, c) && ParentAwake(s, c);
      if c != p { AloneAt(s, p, c); }
      if s.procs[c].parent.Some? { ParentAt(s, c); }
      assert Drowsy(s'.procs[p], p) == Drowsy(s.procs[p], p) by { DrowsyPc(s.procs[p], s'.procs[p], p); }
      assert Drowsy(s'.procs[k], k) == Drowsy(s.procs[k], k) by { DrowsyPc(s.procs[k], s'.procs[k], k); }
    }
  }

  lemma DrowsyPc(x: Proc, x': Proc, slot: nat)
    requires x'.state == x.state && x'.chan == x.chan && (x'.pc == x.pc || (x.pc.Exit1? && x'.pc.ExitInit?))
    ensures Drowsy(x', slot) == Drowsy(x, slot)
  {
  }

  lemma ReparentWakes(s: State, p: nat, s': State)
    requires Structure(s) && WakesOk(s) && ExitReparents(s, p, s')
    ensures WakesOk(s')
  {
    hide Structure, WakesOk, PendingSame;
    At(s, p);
    var k := s.procs[p].pc.k;
    if k >= |s.procs| || s.procs[k].parent != Some(p) {
      PendingKept(s, p, s');
      SoloCalm(s, p, s'.procs[p], s'.waitLock, s');
    } else {
      HandOverWakes(s, p, k, s');
    }
  }

  /** While p wakes init, slot by slot, only p's position and one sleeper change. */
  lemma InitWakes(s: State, p: nat, s': State)
    requires Structure(s) && WakesOk(s) && ExitWakesInit(s, p, s')
    ensures WakesOk(s')
  {
    hide Structure, Drowsy, ScanAt;
    At(s, p);
    At(s, s.init);
    var j := s.procs[p].pc.j;
    assert Drowsy(s'.procs[p], p) == Drowsy(s.procs[p], p)
        && ScanAt(s'.procs[p].pc) == ScanAt(s.procs[p].pc) by { StillExiting(s.procs[p], s'.procs[p], p); }
    if j < |s.procs| && j != p { RoundAt(s, p, j, Slot(s.init)); }
    forall c: nat | c < |s'.procs| ensures ZombieSeen(s', c) && ParentAwake(s', c) {
      assert ZombieSeen(s, c) && ParentAwake(s, c);
      if s.procs[c].parent.Some? { ParentAt(s, c); }
    }
  }

  lemma StillExiting(x: Proc, x': Proc, slot: nat)
    requires x'.state == x.state && x'.chan == x.chan && Exiting(x.pc) && Exiting(x'.pc)
    ensures Drowsy(x', slot) == Drowsy(x, slot) && ScanAt(x'.pc) == ScanAt(x.pc)
  {
  }

  /** One slot's round of wakeup(chan). */
  lemma RoundAt(s: State, p: nat, j: nat, chan: Chan)
    requires Structure(s) && p < |s.procs| && j < |s.procs| && j != p && HoldsWait(s.procs[p].pc)
        && s.procs[j].lock == Free
    ensures var w := Woken(s.procs[j], chan);
      && (Drowsy(w, j) ==> Drowsy(s.procs[j], j) && chan != Slot(j)) && w.pc == s.procs[j].pc && ScanAt(w.pc) == 0
      && w.parent == s.procs[j].parent && (w.state == ZOMBIE <==> s.procs[j].state == ZOMBIE)
  {
    hide Structure, HoldsWait;
    AloneAt(s, p, j);
  }

  /** After its own round the parent of p is awake. */
  lemma ParentWakes(s: State, p: nat, s': State)
    requires Structure(s) && WakesOk(s) && ExitWakesParent(s, p, s')
    ensures WakesOk(s')
  {
    hide Structure, Drowsy, ScanAt;
    At(s, p);
    var j := s.procs[p].pc.j;
    assert Drowsy(s'.procs[p], p) == Drowsy(s.procs[p], p)
        && ScanAt(s'.procs[p].pc) == ScanAt(s.procs[p].pc) by { StillExiting(s.procs[p], s'.procs[p], p); }
    if j < |s.procs| && j != p {
      RoundAt(s, p, j, if s.procs[p].parent.Some? then Slot(s.procs[p].parent.value) else NoChan);
    }
    if s.procs[p].parent.Some? { ParentAt(s, p); }
    forall c: nat | c < |s'.procs| ensures ZombieSeen(s', c) && ParentAwake(s', c) {
      assert ZombieSeen(s, c) && ParentAwake(s, c);
      if s.procs[c].parent.Some? { ParentAt(s, c); }
    }
  }

  lemma WakesKept(s: State, a: Action, s': State)
    requires Structure(s) && WakesOk(s) && Next(s, a, s')
    ensures WakesOk(s')
  {
    hide Structure, WakesOk;
    hide ForkAllocates, ForkFails, ForkUnlocks, ForkLinks, ForkUnwaits, ForkReadies, Solo, Duo;
    hide SchedAcquires, SchedRuns, SchedReleases, ReleasesSelf, LocksSelf, YieldSwitches, NapSwitches, WakesOther,
      Kills;
    hide ExitBegins, ExitReparents, ExitWakesInit, ExitWakesParent, ExitDies, ExitSwitches;
    hide WaitCalls, WaitBegins, WaitScans, WaitLooks, WaitReaps, WaitFaults, WaitLeaves, SleepLocks, SleepUnwaits,
      SleepSwitches;
    match a {
      case ForkAlloc(p, c) => CalmAlloc(s, p, c, s');
      case SchedAcquire(p) => CalmSignal(s, p, s');
      case SchedRelease(p) => CalmSignal(s, p, s');
      case WakeOther(p) => CalmSignal(s, p, s');
      case Kill(p) => CalmSignal(s, p, s');
      case SchedRun(p) => CalmSched(s, p, s');
      case ReleaseSelf(p) => CalmSched(s, p, s');
      case YieldLock(p) => CalmSched(s, p, s');
      case YieldSwitch(p) => CalmSched(s, p, s');
      case NapLock(p) => CalmSched(s, p, s');
      case NapSwitch(p) => CalmSched(s, p, s');
      case ForkUnwait(p) => CalmExits(s, p, s');
      case ExitBegin(p) => CalmExits(s, p, s');
      case ExitLock(p) => CalmExits(s, p, s');
      case ExitSwitch(p) => CalmExits(s, p, s');
      case WaitCall(p) => CalmWaits(s, p, s');
      case WaitBegin(p) => CalmWaits(s, p, s');
      case WaitLeave(p) => CalmWaits(s, p, s');
      case SleepUnwait(p) => CalmWaits(s, p, s');
      case SleepSwitch(p) => CalmWaits(s, p, s');
      case ForkFail(p) => CalmFork(s, p, s');
      case ForkUnlock(p) => CalmFork(s, p, s');
      case ForkLink(p) => CalmFork(s, p, s');
      case ForkReady(p) => CalmFork(s, p, s');
      case WaitFault(p) => CalmFault(s, p, s');
      case WaitReap(p) => CalmFault(s, p, s');
      case SleepLock(p) => SleepLockWakes(s, p, s');
      case WaitScan(p) => ScanWakes(s, p, s');
      case WaitLook(p) => LookWakes(s, p, s');
      case ExitZombie(p) => ZombieWakes(s, p, s');
      case ExitReparent(p) => ReparentWakes(s, p, s');
      case ExitInitStep(p) => InitWakes(s, p, s');
      case ExitWakeStep(p) => ParentWakes(s, p, s');
    }
  }

  // ---------- every run ----------

  /** The state userinit leaves: one process, which can run, and a table of free slots. */
  ghost predicate Init(s: State) {
    && s.init < |s.procs| && s.waitLock == None && s.exited == {} && s.reaped == [] && s.nextPid == 2
    && s.procs[s.init] == Proc(RUNNABLE, 1, None, NoChan, false, Free, Parked(ToRun))
    && forall p :: 0 <= p < |s.procs| && p != s.init ==> s.procs[p] == Freed()
  }

  /** Such a state exists for a table of any size. */
  lemma InitExists(n: nat) returns (s: State)
    requires n > 0
    ensures Init(s) && |s.procs| == n
  {
    var first := Proc(RUNNABLE, 1, None, NoChan, false, Free, Parked(ToRun));
    s := State(seq(n, i => if i == 0 then first else Freed()), 0, None, 2, {}, []);
  }

  ghost predicate Inv(s: State) {
    Structure(s) && PidsOk(s) && WakesOk(s)
  }

  lemma InitStructure(s: State)
    requires Init(s)
    ensures Structure(s)
  {
  }

  lemma InitHolds(s: State)
    requires Init(s)
    ensures Inv(s)
  {
    hide Structure;
    InitStructure(s);
  }

  lemma NextKeeps(s: State, a: Action, s': State)
    requires Inv(s) && Next(s, a, s')
    ensures Inv(s')
  {
    hide Structure, PidsOk, WakesOk, Next;
    StructureKept(s, a, s');
    PidsKept(s, a, s');
    WakesKept(s, a, s');
  }

  ghost predicate Execution(run: seq<State>, steps: seq<Action>) {
    && |run| == |steps| + 1 && Init(run[0])
    && forall i :: 0 <= i < |steps| ==> Next(run[i], steps[i], run[i + 1])
  }

  lemma {:induction false} RunKeeps(run: seq<State>, steps: seq<Action>, k: nat)
    requires Execution(run, steps) && k < |run|
    ensures Inv(run[k])
  {
    hide Inv, Next, Init;
    if k == 0 {
      InitHolds(run[0]);
    } else {
      RunKeeps(run, steps, k - 1);
      NextKeeps(run[k - 1], steps[k - 1], run[k]);
    }
  }

  /** In every state of every run in which wait_lock is free, no process has a parent that has exited
      or is gone, and no process sleeps in wait while one of its children is a zombie. */
  lemma NoOrphans(run: seq<State>, steps: seq<Action>, k: nat, c: nat)
    requires Execution(run, steps) && k < |run| && run[k].waitLock == None
    requires c < |run[k].procs| && run[k].procs[c].parent.Some?
    ensures
      var s, q := run[k], run[k].procs[c].parent.value;
      && q < |s.procs| && s.procs[q].state != ZOMBIE && s.procs[q].state != UNUSED && s.procs[c].state != UNUSED
      && (s.procs[c].state == ZOMBIE ==> !(s.procs[q].state == SLEEPING && s.procs[q].chan == Slot(q)))
  {
    hide Execution, Next;
    RunKeeps(run, steps, k);
    hide WaitLockOk, LocksOk, SlotsOk, ForksOk, InitOk, PidsOk, Keeps;
    assert ZombieSeen(run[k], c);
  }

  /** In every run, wait returns only pids of processes that have exited, each at most once; and when
      it frees the slot, the thread that ran there has been switched out for good. */
  lemma ReapedOnce(run: seq<State>, steps: seq<Action>, k: nat)
    requires Execution(run, steps) && k < |run|
    ensures Once(run[k].reaped) && forall x :: x in run[k].reaped ==> x in run[k].exited
    ensures k < |steps| && steps[k].WaitReap? ==>
      && steps[k].p < |run[k].procs| && run[k].procs[steps[k].p].pc.Wait2?
        && run[k].procs[steps[k].p].pc.k < |run[k].procs|
      && run[k].procs[run[k].procs[steps[k].p].pc.k].pc == Gone
      && run[k + 1].reaped == run[k].reaped + [run[k].procs[run[k].procs[steps[k].p].pc.k].pid]
  {
    hide Structure, WakesOk;
    RunKeeps(run, steps, k);
    if k < |steps| && steps[k].WaitReap? {
      ReapedIsGone(run[k], steps[k].p, run[k + 1]);
    }
  }
}
