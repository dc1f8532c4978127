/** wait_lock and the locks of the processes never deadlock: in every run of ExitWait whoever waits for a lock waits for
    somebody who can go on, or who in turn waits for the lock of a process, whose holder can. */
module NoDeadlock {
  import opened Counting
  import opened Options
  import opened ExitWait

  /** The lock that the next step of a running process has to wait for. */
  datatype Need = Nothing | WaitLock | LockOf(j: nat)

  function Needs(s: State, p: nat): Need
    requires p < |s.procs|
  {
    match s.procs[p].pc
    case Fork2(_) => WaitLock
    case WantWait => WaitLock
    case Fork4(c) => LockOf(c)
    case ExitInit(_, j) => if j < |s.procs| && j != p then LockOf(j) else Nothing
    case ExitWake(j) => if j < |s.procs| && j != p then LockOf(j) else Nothing
    case Exit2 => LockOf(p)
    case Wait1(k, kids) =>
      if k < |s.procs| then (if s.procs[k].parent == Some(p) then LockOf(k) else Nothing)
      else if kids then LockOf(p) else Nothing
    case _ => Nothing
  }

  /** Somebody can take step a. */
  ghost predicate Enabled(s: State, a: Action) {
    exists s' :: Next(s, a, s')
  }

  ghost predicate CanStep(s: State, p: nat) {
    exists a: Action :: a.p == p && Enabled(s, a)
  }

  // ---------- a step is enabled ----------

  /** A one-slot step of p. */
  function One(s: State, p: nat, me: Proc, wait: Option<nat>): State
    requires p < |s.procs|
  {
    s.(procs := s.procs[p := me], waitLock := wait)
  }

  /** A two-slot step of p. */
  function Two(s: State, p: nat, me: Proc, t: nat, other: Proc, wait: Option<nat>): State
    requires p < |s.procs| && t < |s.procs|
  {
    s.(procs := s.procs[t := other][p := me], waitLock := wait)
  }

  lemma Step(s: State, a: Action, s': State)
    requires Next(s, a, s')
    ensures Enabled(s, a) && CanStep(s, a.p)
  {
    hide Next;
  }

  ghost predicate IsKid(s: State, k: nat, t: nat) {
    k < |s.procs| && s.procs[k].parent == Some(t)
  }

  lemma LetsSelfGo(s: State, t: nat)
    requires t < |s.procs| && s.procs[t].pc.Resumed?
    ensures CanStep(s, t)
  {
    var me, w := s.procs[t], s.waitLock;
    var next := if me.pc.to == ToRun then Run else WantWait;
    Step(s, ReleaseSelf(t), One(s, t, me.(chan := NoChan, lock := Free, pc := next), w));
  }

  lemma Yields(s: State, t: nat)
    requires t < |s.procs| && s.procs[t].pc == Yield1
    ensures CanStep(s, t)
  {
    var me, w := s.procs[t], s.waitLock;
    Step(s, YieldSwitch(t), One(s, t, me.(state := RUNNABLE, lock := Returned, pc := Parked(ToRun)), w));
  }

  lemma Naps(s: State, t: nat)
    requires t < |s.procs| && s.procs[t].pc == Nap1
    ensures CanStep(s, t)
  {
    var me, w := s.procs[t], s.waitLock;
    var asleep := me.(state := SLEEPING, chan := Elsewhere, lock := Returned, pc := Parked(ToRun));
    Step(s, NapSwitch(t), One(s, t, asleep, w));
  }

  lemma Unlocks(s: State, t: nat)
    requires t < |s.procs| && s.procs[t].pc.Fork1? && PcOk(s.procs[t].pc, t, |s.procs|)
    ensures CanStep(s, t)
  {
    var me, w := s.procs[t], s.waitLock;
    var c := me.pc.c;
    Step(s, ForkUnlock(t), Two(s, t, me.(pc := Fork2(c)), c, s.procs[c].(lock := Free), w));
  }

  lemma Dies(s: State, t: nat)
    requires t < |s.procs| && s.procs[t].pc == Exit3
    ensures CanStep(s, t)
  {
    var me, w := s.procs[t], s.waitLock;
    Step(s, ExitZombie(t), One(s, t, me.(state := ZOMBIE, pc := Exit4), None).(exited := s.exited + {me.pid}));
  }

  lemma Goes(s: State, t: nat)
    requires t < |s.procs| && s.procs[t].pc == Exit4
    ensures CanStep(s, t)
  {
    var me, w := s.procs[t], s.waitLock;
    Step(s, ExitSwitch(t), One(s, t, me.(lock := Returned, pc := Gone), w));
  }

  lemma Looks(s: State, t: nat)
    requires t < |s.procs| && s.procs[t].pc.Wait2? && PcOk(s.procs[t].pc, t, |s.procs|)
    ensures CanStep(s, t)
  {
    var me, w := s.procs[t], s.waitLock;
    var k := me.pc.k;
    if s.procs[k].state == ZOMBIE {
      Step(s, WaitReap(t), Two(s, t, me.(pc := Run), k, Freed(), None).(reaped := s.reaped + [s.procs[k].pid]));
    } else {
      Step(s, WaitLook(t), Two(s, t, me.(pc := Wait1(k + 1, true)), k, s.procs[k].(lock := Free), w));
    }
  }

  lemma Unwaits(s: State, t: nat)
    requires t < |s.procs| && s.procs[t].pc == Sleep1
    ensures CanStep(s, t)
  {
    var me, w := s.procs[t], s.waitLock;
    Step(s, SleepUnwait(t), One(s, t, me.(pc := Sleep2), None));
  }

  lemma FallsAsleep(s: State, t: nat)
    requires t < |s.procs| && s.procs[t].pc == Sleep2
    ensures CanStep(s, t)
  {
    var me, w := s.procs[t], s.waitLock;
    var asleep := me.(state := SLEEPING, chan := Slot(t), lock := Returned, pc := Parked(ToWait));
    Step(s, SleepSwitch(t), One(s, t, asleep, w));
  }

  lemma CallsWait(s: State, t: nat)
    requires t < |s.procs| && s.procs[t].pc == Run
    ensures CanStep(s, t)
  {
    var me, w := s.procs[t], s.waitLock;
    Step(s, WaitCall(t), One(s, t, me.(pc := WantWait), w));
  }

  lemma Links(s: State, t: nat)
    requires t < |s.procs| && s.procs[t].pc.Fork2? && PcOk(s.procs[t].pc, t, |s.procs|) && s.waitLock == None
    ensures CanStep(s, t)
  {
    var me, w := s.procs[t], s.waitLock;
    var c := me.pc.c;
    Step(s, ForkLink(t), Two(s, t, me.(pc := Fork3(c)), c, s.procs[c].(parent := Some(t)), Some(t)));
  }

  lemma Readies(s: State, t: nat)
    requires t < |s.procs| && s.procs[t].pc.Fork4? && PcOk(s.procs[t].pc, t, |s.procs|)
    requires s.procs[s.procs[t].pc.c].lock == Free
    ensures CanStep(s, t)
  {
    var me, w := s.procs[t], s.waitLock;
    var c := me.pc.c;
    Step(s, ForkReady(t), Two(s, t, me.(pc := Run), c, s.procs[c].(state := RUNNABLE), w));
  }

  lemma BeginsWait(s: State, t: nat)
    requires t < |s.procs| && s.procs[t].pc == WantWait && s.waitLock == None
    ensures CanStep(s, t)
  {
    var me, w := s.procs[t], s.waitLock;
    Step(s, WaitBegin(t), One(s, t, me.(pc := Wait1(0, false)), Some(t)));
  }

  lemma LetsWaitGo(s: State, t: nat)
    requires t < |s.procs| && s.procs[t].pc.Fork3?
    ensures CanStep(s, t)
  {
    var me, w := s.procs[t], s.waitLock;
    Step(s, ForkUnwait(t), One(s, t, me.(pc := Fork4(me.pc.c)), None));
  }

  lemma Reparents(s: State, t: nat)
    requires t < |s.procs| && s.procs[t].pc.Exit1? && (IsKid(s, s.procs[t].pc.k, t) ==> s.procs[t].pc.k != t)
    ensures CanStep(s, t)
  {
    var me, w := s.procs[t], s.waitLock;
    var k := me.pc.k;
    if k >= |s.procs| {
      Step(s, ExitReparent(t), One(s, t, me.(pc := ExitWake(0)), w));
    } else if s.procs[k].parent != Some(t) {
      Step(s, ExitReparent(t), One(s, t, me.(pc := Exit1(k + 1)), w));
    } else {
      Step(s, ExitReparent(t), Two(s, t, me.(pc := ExitInit(k, 0)), k, s.procs[k].(parent := Some(s.init)), w));
    }
  }

  lemma LocksToExit(s: State, t: nat)
    requires t < |s.procs| && s.procs[t].pc == Exit2 && s.procs[t].lock == Free
    ensures CanStep(s, t)
  {
    var me, w := s.procs[t], s.waitLock;
    Step(s, ExitLock(t), One(s, t, me.(lock := Thread(t), pc := Exit3), w));
  }

  lemma Scans(s: State, t: nat)
    requires t < |s.procs| && s.procs[t].pc.Wait1? && s.procs[t].pc.k < |s.procs|
      && (IsKid(s, s.procs[t].pc.k, t) ==> s.procs[t].pc.k != t && s.procs[s.procs[t].pc.k].lock == Free)
    ensures CanStep(s, t)
  {
    var me, w := s.procs[t], s.waitLock;
    var k := me.pc.k;
    if s.procs[k].parent == Some(t) {
      Step(s, WaitScan(t), Two(s, t, me.(pc := Wait2(k)), k, s.procs[k].(lock := Thread(t)), w));
    } else {
      Step(s, WaitScan(t), One(s, t, me.(pc := Wait1(k + 1, me.pc.kids)), w));
    }
  }

  lemma EndsScan(s: State, t: nat)
    requires t < |s.procs| && s.procs[t].pc.Wait1? && s.procs[t].pc.k >= |s.procs|
    requires s.procs[t].pc.kids ==> s.procs[t].lock == Free
    ensures CanStep(s, t)
  {
    var me, w := s.procs[t], s.waitLock;
    if me.pc.kids {
      Step(s, SleepLock(t), One(s, t, me.(lock := Thread(t), pc := Sleep1), w));
    } else {
      Step(s, WaitLeave(t), One(s, t, me.(pc := Run), None));
    }
  }

  /** A thread that holds the lock of a process needs no other. */
  lemma HolderSteps(s: State, t: nat)
    requires Structure(s) && t < |s.procs| && ExitWait.LockOf(s.procs[t].pc, t).Some?
    ensures CanStep(s, t)
  {
    hide Structure, CanStep;
    At(s, t);
    match s.procs[t].pc {
      case Resumed(_) => LetsSelfGo(s, t);
      case Yield1 => Yields(s, t);
      case Nap1 => Naps(s, t);
      case Fork1(_) => Unlocks(s, t);
      case Exit3 => Dies(s, t);
      case Exit4 => Goes(s, t);
      case Wait2(_) => Looks(s, t);
      case Sleep1 => Unwaits(s, t);
      case Sleep2 => FallsAsleep(s, t);
    }
  }

  /** One that needs nothing, or only locks that are free, can go on. */
  lemma FreeSteps(s: State, p: nat)
    requires Structure(s) && p < |s.procs| && s.procs[p].state == RUNNING
    requires match Needs(s, p)
             case Nothing => true
             case WaitLock => s.waitLock == None
             case LockOf(j) => j < |s.procs| && s.procs[j].lock == Free
    ensures CanStep(s, p)
  {
    hide Structure, CanStep;
    At(s, p);
    if ExitWait.LockOf(s.procs[p].pc, p).Some? {
      HolderSteps(s, p);
    } else if HoldsWait(s.procs[p].pc) {
      WaitingSteps(s, p);
    } else {
      match s.procs[p].pc {
        case Run => CallsWait(s, p);
        case Fork2(_) => Links(s, p);
        case Fork4(_) => Readies(s, p);
        case WantWait => BeginsWait(s, p);
      }
    }
  }

  lemma RoundSteps(s: State, p: nat, j: nat, chan: Chan, next: Pc)
    requires p < |s.procs| && j < |s.procs| && (j != p ==> s.procs[j].lock == Free)
    ensures exists s' :: WakeRound(s, p, j, chan, next, s')
  {
    var me := s.procs[p];
    if j == p {
      assert WakeRound(s, p, j, chan, next, One(s, p, me.(pc := next), s.waitLock));
    } else {
      assert WakeRound(s, p, j, chan, next, Two(s, p, me.(pc := next), j, Woken(s.procs[j], chan), s.waitLock));
    }
  }

  lemma WakingSteps(s: State, p: nat)
    requires p < |s.procs| && (s.procs[p].pc.ExitInit? || s.procs[p].pc.ExitWake?)
    requires s.procs[p].pc.j < |s.procs| ==> s.procs[p].pc.j == p || s.procs[s.procs[p].pc.j].lock == Free
    ensures CanStep(s, p)
  {
    var me, w := s.procs[p], s.waitLock;
    var j := me.pc.j;
    if me.pc.ExitInit? {
      if j < |s.procs| {
        RoundSteps(s, p, j, Slot(s.init), ExitInit(me.pc.k, j + 1));
        var s' :| WakeRound(s, p, j, Slot(s.init), ExitInit(me.pc.k, j + 1), s');
        Step(s, ExitInitStep(p), s');
      } else {
        Step(s, ExitInitStep(p), One(s, p, me.(pc := Exit1(me.pc.k + 1)), w));
      }
    } else {
      if j < |s.procs| {
        var parent := if me.parent.Some? then Slot(me.parent.value) else NoChan;
        RoundSteps(s, p, j, parent, ExitWake(j + 1));
        var s' :| WakeRound(s, p, j, parent, ExitWake(j + 1), s');
        Step(s, ExitWakeStep(p), s');
      } else {
        Step(s, ExitWakeStep(p), One(s, p, me.(pc := Exit2), w));
      }
    }
  }

  /** The holder of wait_lock, when the lock it needs besides is free. */
  lemma WaitingSteps(s: State, p: nat)
    requires Structure(s) && p < |s.procs| && HoldsWait(s.procs[p].pc)
    requires ExitWait.LockOf(s.procs[p].pc, p).None?
    requires Needs(s, p).LockOf? ==> Needs(s, p).j < |s.procs| && s.procs[Needs(s, p).j].lock == Free
    ensures CanStep(s, p)
  {
    hide Structure, CanStep;
    At(s, p);
    match s.procs[p].pc {
      case Fork3(_) => LetsWaitGo(s, p);
      case Exit1(k) =>
        if IsKid(s, k, p) { ParentAt(s, k); }
        Reparents(s, p);
      case ExitInit(_, _) => WakingSteps(s, p);
      case ExitWake(_) => WakingSteps(s, p);
      case Exit2 => LocksToExit(s, p);
      case Wait1(k, _) =>
        if k < |s.procs| {
          if IsKid(s, k, p) { ParentAt(s, k); }
          Scans(s, p);
        } else {
          EndsScan(s, p);
        }
    }
  }

  // ---------- who is waited for ----------

  /** The lock of process j can be let go of: by the scheduler, or by a thread that can go on. */
  ghost predicate Movable(s: State, j: nat) {
    j < |s.procs| && match s.procs[j].lock
    case Free => true
    case Thread(t) => CanStep(s, t)
    case _ => Enabled(s, SchedRelease(j))
  }

  lemma LockMoves(s: State, j: nat)
    requires Structure(s) && j < |s.procs|
    ensures Movable(s, j)
  {
    match s.procs[j].lock {
      case Free =>
      case Thread(t) => HolderSteps(s, t);
      case Scheduler => Step(s, SchedRelease(j), One(s, j, s.procs[j].(lock := Free), s.waitLock));
      case Returned => Step(s, SchedRelease(j), One(s, j, s.procs[j].(lock := Free), s.waitLock));
    }
  }

  lemma NeedsSlot(s: State, p: nat)
    requires Structure(s) && p < |s.procs|
    ensures Needs(s, p).LockOf? ==> Needs(s, p).j < |s.procs|
    ensures HoldsWait(s.procs[p].pc) ==> Needs(s, p) != WaitLock
  {
    At(s, p);
    hide Structure;
  }

  /** In every state of every run: the lock of every process can be let go of; who holds wait_lock runs, does not need
      it, and can go on once the lock it needs is free; and so can every other running process. */
  lemma NobodyIsStuck(run: seq<State>, steps: seq<Action>, k: nat, p: nat)
    requires Execution(run, steps) && k < |run| && p < |run[k].procs|
    ensures Movable(run[k], p)
    ensures run[k].waitLock == Some(p) ==> run[k].procs[p].state == RUNNING && Needs(run[k], p) != WaitLock
    ensures run[k].waitLock.Some? ==> run[k].waitLock.value < |run[k].procs|
    ensures Needs(run[k], p).LockOf? ==> Needs(run[k], p).j < |run[k].procs|
    ensures run[k].procs[p].state == RUNNING ==>
      match Needs(run[k], p)
      case Nothing => CanStep(run[k], p)
      case WaitLock => run[k].waitLock == None ==> CanStep(run[k], p)
      case LockOf(j) => run[k].procs[j].lock == Free ==> CanStep(run[k], p)
  {
    hide Structure, Needs, CanStep, PidsOk, WakesOk, HoldsWait, SlotOk;
    RunKeeps(run, steps, k);
    var s := run[k];
    At(s, p);
    LockMoves(s, p);
    NeedsSlot(s, p);
    WaitHolder(s);
    if s.procs[p].state == RUNNING {
      match Needs(s, p) {
        case Nothing => FreeSteps(s, p);
        case WaitLock => if s.waitLock == None { FreeSteps(s, p); }
        case LockOf(j) => if s.procs[j].lock == Free { FreeSteps(s, p); }
      }
    }
  }

  lemma WaitHolder(s: State)
    requires Structure(s)
    ensures s.waitLock.Some? ==>
      && s.waitLock.value < |s.procs| && HoldsWait(s.procs[s.waitLock.value].pc)
      && s.procs[s.waitLock.value].state == RUNNING
  {
    if s.waitLock.Some? { At(s, s.waitLock.value); }
  }
}
