/** The life of a process over every run of ExitWait: which step takes it from which state to which, who its parents
    are, what kill does, and that no pid is used twice. */
module LifeCycle {
  import opened Counting
  import opened Options
  import opened ExitWait
  import opened WaitAnswers

  /** The step makes slot p go from one status to another. */
  predicate Moves(a: Action, p: nat, from: Status, to: Status) {
    match from
    case UNUSED => to == USED && a.ForkAlloc? && a.c == p
    case USED => (to == RUNNABLE && a.ForkReady?) || (to == UNUSED && a.ForkFail?)
    case RUNNABLE => to == RUNNING && a == SchedRun(p)
    case RUNNING =>
      || (to == RUNNABLE && a == YieldSwitch(p))
      || (to == SLEEPING && (a == NapSwitch(p) || a == SleepSwitch(p)))
      || (to == ZOMBIE && a == ExitZombie(p))
    case SLEEPING => to == RUNNABLE && (a == WakeOther(p) || a == Kill(p) || a.ExitInitStep? || a.ExitWakeStep?)
    case ZOMBIE => to == UNUSED && a.WaitReap?
  }

  /** The step makes slot p, a child of some process or of none, a child of another or of none. */
  predicate Adopts(a: Action, init: nat, from: Option<nat>, to: Option<nat>) {
    match a
    case ForkLink(q) => from == None && to == Some(q)
    case ExitReparent(q) => from == Some(q) && to == Some(init)
    case WaitReap(q) => from == Some(q) && to == None
    case _ => false
  }

  ghost predicate Lives(s: State, a: Action, s': State, p: nat)
    requires p < |s.procs| == |s'.procs|
  {
    var me, me' := s.procs[p], s'.procs[p];
    && (me'.state != me.state ==> Moves(a, p, me.state, me'.state))
    && (me'.parent != me.parent ==> Adopts(a, s.init, me.parent, me'.parent))
    && (me'.killed != me.killed ==> if me'.killed then a == Kill(p) else me'.state == UNUSED)
  }

  /** What a step does to the process that takes it, or that it is for. */
  ghost predicate Does(s: State, a: Action, s': State)
    requires |s'.procs| == |s.procs|
  {
    match a
    case SchedRun(p) => p < |s.procs| && s'.procs[p].state == RUNNING
    case YieldSwitch(p) => p < |s.procs| && s'.procs[p].state == RUNNABLE
    case NapSwitch(p) => p < |s.procs| && s'.procs[p].state == SLEEPING
    case SleepSwitch(p) => p < |s.procs| && s'.procs[p].state == SLEEPING && s'.procs[p].chan == Slot(p)
    case Kill(p) => p < |s.procs| && s'.procs[p].killed && s'.procs[p].state != SLEEPING
    case ExitZombie(p) => p < |s.procs| && s'.procs[p].state == ZOMBIE
    case _ => true
  }

  lemma Unchanged(s: State, a: Action, s': State, p: nat)
    requires p < |s.procs| == |s'.procs|
    requires s'.procs[p].state == s.procs[p].state && s'.procs[p].parent == s.procs[p].parent
    requires s'.procs[p].killed == s.procs[p].killed
    ensures Lives(s, a, s', p)
  {
  }

  predicate Plain(a: Action) {
    || a.SchedAcquire? || a.SchedRelease? || a.ReleaseSelf? || a.YieldLock? || a.NapLock? || a.ForkUnwait?
    || a.ExitBegin? || a.ExitLock? || a.ExitSwitch? || a.WaitCall? || a.WaitBegin? || a.WaitLeave? || a.SleepLock?
    || a.SleepUnwait?
  }

  lemma PlainLives(s: State, a: Action, s': State, p: nat)
    requires Next(s, a, s') && p < |s.procs| && Plain(a)
    ensures |s'.procs| == |s.procs| && Lives(s, a, s', p) && Does(s, a, s')
  {
    hide Lives;
    Unchanged(s, a, s', p);
  }

  lemma SoloLives(s: State, a: Action, s': State, p: nat)
    requires p < |s.procs| && a.p < |s.procs| && SlotOk(s.procs[a.p], a.p) && Next(s, a, s')
    requires a.SchedRun? || a.YieldSwitch? || a.NapSwitch? || a.WakeOther? || a.Kill? || a.ExitZombie? || a.SleepSwitch?
    ensures |s'.procs| == |s.procs| && Lives(s, a, s', p) && Does(s, a, s')
  {
    if p != a.p { Unchanged(s, a, s', p); }
  }

  lemma RoundLives(s: State, a: Action, q: nat, j: nat, chan: Chan, next: Pc, s': State, p: nat)
    requires WakeRound(s, q, j, chan, next, s') && p < |s.procs| && (a.ExitInitStep? || a.ExitWakeStep?)
    ensures |s'.procs| == |s.procs| && Lives(s, a, s', p)
  {
  }

  lemma ExitLives(s: State, a: Action, s': State, p: nat)
    requires Structure(s) && Next(s, a, s') && p < |s.procs| && (a.ExitReparent? || a.ExitInitStep? || a.ExitWakeStep?)
    ensures |s'.procs| == |s.procs| && Lives(s, a, s', p) && Does(s, a, s')
  {
    hide Structure, WakeRound;
    var q := a.p;
    if a.ExitInitStep? && s.procs[q].pc.j < |s.procs| {
      RoundLives(s, a, q, s.procs[q].pc.j, Slot(s.init), ExitInit(s.procs[q].pc.k, s.procs[q].pc.j + 1), s', p);
    } else if a.ExitWakeStep? && s.procs[q].pc.j < |s.procs| {
      var parent := if s.procs[q].parent.Some? then Slot(s.procs[q].parent.value) else NoChan;
      RoundLives(s, a, q, s.procs[q].pc.j, parent, ExitWake(s.procs[q].pc.j + 1), s', p);
    }
  }

  lemma ForkLives(s: State, a: Action, s': State, p: nat)
    requires ForksOk(s) && Next(s, a, s') && p < |s.procs|
    requires a.ForkAlloc? || a.ForkUnlock? || a.ForkLink?
    ensures |s'.procs| == |s.procs| && Lives(s, a, s', p) && Does(s, a, s')
  {
  }

  lemma ForkEndsLives(s: State, a: Action, s': State, p: nat)
    requires ForksOk(s) && Next(s, a, s') && p < |s.procs| && (a.ForkFail? || a.ForkReady?)
    ensures |s'.procs| == |s.procs| && Lives(s, a, s', p) && Does(s, a, s')
  {
    var c := s.procs[a.p].pc.c;
    assert s.procs[c].state == USED;
    if p != c { Unchanged(s, a, s', p); }
  }

  lemma Parts(s: State)
    requires Structure(s)
    ensures ForksOk(s) && forall p: nat :: p < |s.procs| ==> SlotOk(s.procs[p], p)
  {
    hide WaitLockOk, LocksOk, ForksOk, ParentsOk, InitOk, SlotOk;
  }

  lemma WaitLives(s: State, a: Action, s': State, p: nat)
    requires Structure(s) && KidsOk(s) && Next(s, a, s') && p < |s.procs|
    requires a.WaitScan? || a.WaitLook? || a.WaitReap? || a.WaitFault?
    ensures |s'.procs| == |s.procs| && Lives(s, a, s', p) && Does(s, a, s')
  {
    hide Structure;
    assert KidsAt(s, a.p, s.procs[a.p].pc);
  }

  lemma ActorAt(s: State, a: Action, s': State)
    requires Next(s, a, s') && !a.ForkAlloc?
    ensures a.p < |s.procs|
  {
  }

  lemma SoloAt(s: State, a: Action, s': State, p: nat)
    requires Structure(s) && Next(s, a, s') && p < |s.procs|
    requires a.SchedRun? || a.YieldSwitch? || a.NapSwitch? || a.WakeOther? || a.Kill? || a.ExitZombie? || a.SleepSwitch?
    ensures |s'.procs| == |s.procs| && Lives(s, a, s', p) && Does(s, a, s')
  {
    hide Structure, Next, Lives, Does, SlotOk, ForksOk;
    Parts(s);
    ActorAt(s, a, s');
    SoloLives(s, a, s', p);
  }

  lemma ForkAt(s: State, a: Action, s': State, p: nat)
    requires Structure(s) && Next(s, a, s') && p < |s.procs|
    requires a.ForkAlloc? || a.ForkUnlock? || a.ForkLink? || a.ForkFail? || a.ForkReady?
    ensures |s'.procs| == |s.procs| && Lives(s, a, s', p) && Does(s, a, s')
  {
    hide Structure, Next, Lives, Does, SlotOk, ForksOk;
    Parts(s);
    if a.ForkFail? || a.ForkReady? { ForkEndsLives(s, a, s', p); } else { ForkLives(s, a, s', p); }
  }

  lemma NextLives(s: State, a: Action, s': State, p: nat)
    requires Structure(s) && KidsOk(s) && Next(s, a, s') && p < |s.procs|
    ensures |s'.procs| == |s.procs| && Lives(s, a, s', p) && Does(s, a, s')
  {
    hide Structure, KidsOk, Next, Lives, Does;
    if Plain(a) {
      PlainLives(s, a, s', p);
    } else if a.ExitReparent? || a.ExitInitStep? || a.ExitWakeStep? {
      ExitLives(s, a, s', p);
    } else if a.WaitScan? || a.WaitLook? || a.WaitReap? || a.WaitFault? {
      WaitLives(s, a, s', p);
    } else if a.ForkAlloc? || a.ForkUnlock? || a.ForkLink? || a.ForkFail? || a.ForkReady? {
      ForkAt(s, a, s', p);
    } else {
      SoloAt(s, a, s', p);
    }
  }

  /** In every run a process changes status, parent and its killed mark only by the steps that may, and the steps that
      should change them do. */
  lemma LivesRightly(run: seq<State>, steps: seq<Action>, k: nat, p: nat)
    requires Execution(run, steps) && k < |steps| && p < |run[k].procs|
    ensures |run[k + 1].procs| == |run[k].procs| && Lives(run[k], steps[k], run[k + 1], p)
        && Does(run[k], steps[k], run[k + 1])
  {
    hide Structure, KidsOk, Next, Lives;
    RunKids(run, steps, k);
    NextLives(run[k], steps[k], run[k + 1], p);
  }

  // ---------- pids ----------

  lemma PidsGrow(s: State, a: Action, s': State)
    requires Structure(s) && Next(s, a, s')
    ensures s'.nextPid >= s.nextPid
  {
    hide Structure;
  }

  lemma {:induction false} PidsGrowOn(run: seq<State>, steps: seq<Action>, j: nat, k: nat)
    requires Execution(run, steps) && j <= k < |run|
    ensures run[j].nextPid <= run[k].nextPid
    decreases k
  {
    hide Structure, Next, PidsOk, WakesOk;
    if j < k {
      PidsGrowOn(run, steps, j, k - 1);
      RunKeeps(run, steps, k - 1);
      PidsGrow(run[k - 1], steps[k - 1], run[k]);
    }
  }

  /** The pid a new process gets is one that no process has had before in the run. */
  lemma PidsAreNew(run: seq<State>, steps: seq<Action>, k: nat, j: nat, d: nat)
    requires Execution(run, steps) && k < |steps| && steps[k].ForkAlloc? && j <= k
    requires d < |run[j].procs| && run[j].procs[d].state != UNUSED
    ensures steps[k].c < |run[k + 1].procs| && run[k + 1].procs[steps[k].c].pid != run[j].procs[d].pid
  {
    hide Structure, WakesOk;
    PidsGrowOn(run, steps, j, k);
    RunKeeps(run, steps, j);
    assert Next(run[k], steps[k], run[k + 1]);
  }
}
