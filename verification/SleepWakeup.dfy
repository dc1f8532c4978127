/** sleep and wakeup on one channel, at the level of lock operations, in every interleaving: threads
    wait for a condition that is protected by the lock lk, and whoever makes the condition true calls
    wakeup before letting go of lk. */
module SleepWakeup {
  import opened Options

  datatype Status = Running | Runnable | Sleeping

  /** Who holds a thread's own lock. */
  datatype Lock = Free | Self | Scheduler

  datatype Pc =
    | Out                                    // not concerned
    | Want | Test | In | Taken               // waiting for the condition; In: it was seen true
    | Sleep1 | Sleep2 | Parked | Back        // inside sleep; Parked: switched out
    | WantGive | Give | Wake(j: nat) | Given // making the condition true; Wake(j): wakeup is at slot j

  datatype Thread = Thread(state: Status, lock: Lock, pc: Pc)

  datatype State = State(threads: seq<Thread>, lk: Option<nat>, ready: bool)

  datatype Action =
    | Begin(p: nat) | Acquire(p: nat) | See(p: nat) | Take(p: nat) | Leave(p: nat)
    | SleepLock(p: nat) | SleepRelease(p: nat) | SleepSwitch(p: nat) | Resume(p: nat)
    | SchedAcquire(p: nat) | SchedRelease(p: nat) | SchedRun(p: nat) | Spurious(p: nat)
    | GiveBegin(p: nat) | GiveAcquire(p: nat) | GiveSet(p: nat) | WakeStep(p: nat) | GiveEnd(p: nat)

  /** A step of p that changes p's thread, lk and the condition. */
  ghost predicate Solo(s: State, p: nat, me: Thread, lk: Option<nat>, ready: bool, s': State) {
    p < |s.threads| && s' == State(s.threads[p := me], lk, ready)
  }

  /** p moves from one position to another and nothing else changes. */
  ghost predicate Moves(s: State, p: nat, from: Pc, to: Pc, lk: Option<nat>, s': State) {
    p < |s.threads| && s.threads[p].pc == from && Solo(s, p, s.threads[p].(pc := to), lk, s.ready, s')
  }

  ghost predicate Acquires(s: State, p: nat, s': State) {
    s.lk == None && (Moves(s, p, Want, Test, Some(p), s') || Moves(s, p, WantGive, Give, Some(p), s'))
  }

  /** The condition is used up, under lk. */
  ghost predicate Takes(s: State, p: nat, s': State) {
    p < |s.threads| && s.threads[p].pc == In && Solo(s, p, s.threads[p].(pc := Taken), s.lk, false, s')
  }

  ghost predicate SleepLocks(s: State, p: nat, s': State) {
    && p < |s.threads| && s.threads[p].pc == Test && !s.ready && s.threads[p].lock == Free
    && Solo(s, p, s.threads[p].(lock := Self, pc := Sleep1), s.lk, s.ready, s')
  }

  ghost predicate SleepSwitches(s: State, p: nat, s': State) {
    p < |s.threads| && s.threads[p].pc == Sleep2 && Solo(s, p, Thread(Sleeping, Scheduler, Parked), s.lk, s.ready, s')
  }

  ghost predicate SchedRuns(s: State, p: nat, s': State) {
    && p < |s.threads| && s.threads[p].lock == Scheduler && s.threads[p].state == Runnable
    && Solo(s, p, Thread(Running, Self, Back), s.lk, s.ready, s')
  }

  ghost predicate Locks(s: State, p: nat, from: Lock, to: Lock, s': State) {
    p < |s.threads| && s.threads[p].lock == from && Solo(s, p, s.threads[p].(lock := to), s.lk, s.ready, s')
  }

  ghost predicate Resumes(s: State, p: nat, s': State) {
    p < |s.threads| && s.threads[p].pc == Back && Solo(s, p, s.threads[p].(lock := Free, pc := Want), s.lk, s.ready, s')
  }

  /** What wakeup does to one slot. */
  function Woken(t: Thread): Thread {
    if t.state == Sleeping then t.(state := Runnable) else t
  }

  /** kill, or a wakeup for somebody else's sake. */
  ghost predicate SpuriouslyWakes(s: State, p: nat, s': State) {
    p < |s.threads| && s.threads[p].lock == Free && Solo(s, p, Woken(s.threads[p]), s.lk, s.ready, s')
  }

  ghost predicate GiveSets(s: State, p: nat, s': State) {
    p < |s.threads| && s.threads[p].pc == Give && Solo(s, p, s.threads[p].(pc := Wake(0)), s.lk, true, s')
  }

  ghost predicate WakeSteps(s: State, p: nat, s': State) {
    p < |s.threads| && s.threads[p].pc.Wake? && var me, j := s.threads[p], s.threads[p].pc.j;
    if j >= |s.threads| then Solo(s, p, me.(pc := Given), s.lk, s.ready, s')
    else if j == p then Solo(s, p, me.(pc := Wake(j + 1)), s.lk, s.ready, s')
    else
      && s.threads[j].lock == Free
      && s' == s.(threads := s.threads[j := Woken(s.threads[j])][p := me.(pc := Wake(j + 1))])
  }

  ghost predicate Next(s: State, a: Action, s': State) {
    match a
    case Begin(p) => Moves(s, p, Out, Want, s.lk, s')
    case Acquire(p) => Acquires(s, p, s')
    case See(p) => s.ready && Moves(s, p, Test, In, s.lk, s')
    case Take(p) => Takes(s, p, s')
    case Leave(p) => Moves(s, p, In, Out, None, s') || Moves(s, p, Taken, Out, None, s')
    case SleepLock(p) => SleepLocks(s, p, s')
    case SleepRelease(p) => Moves(s, p, Sleep1, Sleep2, None, s')
    case SleepSwitch(p) => SleepSwitches(s, p, s')
    case Resume(p) => Resumes(s, p, s')
    case SchedAcquire(p) => Locks(s, p, Free, Scheduler, s')
    case SchedRelease(p) => Locks(s, p, Scheduler, Free, s')
    case SchedRun(p) => SchedRuns(s, p, s')
    case Spurious(p) => SpuriouslyWakes(s, p, s')
    case GiveBegin(p) => Moves(s, p, Out, WantGive, s.lk, s')
    case GiveAcquire(p) => Acquires(s, p, s')
    case GiveSet(p) => GiveSets(s, p, s')
    case WakeStep(p) => WakeSteps(s, p, s')
    case GiveEnd(p) => Moves(s, p, Given, Out, None, s')
  }

  // ---------- what every step keeps ----------

  predicate HoldsLk(pc: Pc) {
    pc == Test || pc == In || pc == Taken || pc == Sleep1 || pc == Give || pc.Wake? || pc == Given
  }

  predicate HoldsSelf(pc: Pc) {
    pc == Sleep1 || pc == Sleep2 || pc == Back
  }

  /** Going to sleep or asleep: past the point where it can see the condition become true. */
  predicate Drowsy(t: Thread) {
    t.state == Sleeping || t.pc == Sleep1 || t.pc == Sleep2
  }

  predicate ThreadOk(t: Thread) {
    && (t.lock == Self <==> HoldsSelf(t.pc))
    && (if t.pc == Parked then t.state == Sleeping || t.state == Runnable else t.state == Running)
  }

  /** A waker has made the condition true and has not yet come to slot q. */
  ghost predicate Pending(s: State, q: nat) {
    s.lk.Some? && s.lk.value < |s.threads| && s.threads[s.lk.value].pc.Wake? && s.threads[s.lk.value].pc.j <= q
  }

  /** While the condition is true, a thread sleeps only if a waker is still to come to it. */
  ghost predicate Covered(s: State, q: nat) {
    q < |s.threads| && s.ready && Drowsy(s.threads[q]) ==> Pending(s, q)
  }

  ghost predicate Inv(s: State) {
    && (s.lk.Some? ==> s.lk.value < |s.threads|)
    && (forall p: nat :: p < |s.threads| ==> ThreadOk(s.threads[p]))
    && (forall p: nat :: p < |s.threads| ==> (HoldsLk(s.threads[p].pc) <==> s.lk == Some(p)))
    && (forall q: nat :: q < |s.threads| ==> Covered(s, q))
  }

  /** The one-slot steps. */
  lemma SoloKeeps(s: State, p: nat, me: Thread, lk: Option<nat>, ready: bool, s': State)
    requires Inv(s) && Solo(s, p, me, lk, ready, s') && ThreadOk(me) && (HoldsLk(me.pc) <==> lk == Some(p))
    requires lk == s.lk || (s.lk in {None, Some(p)} && lk in {None, Some(p)})
    requires ready == s.ready || !ready || (me.pc == Wake(0) && lk == Some(p))
    requires s.ready == ready ==> (Drowsy(me) && ready ==> Drowsy(s.threads[p]))
    requires s.threads[p].pc.Wake? && s.ready ==>
      || me.pc == s.threads[p].pc
      || (me.pc.Wake? && me.pc.j == s.threads[p].pc.j + 1 && s.threads[p].pc.j == p)
      || s.threads[p].pc.j >= |s.threads|
    ensures Inv(s')
  {
    forall q: nat | q < |s'.threads| ensures Covered(s', q) {
      assert Covered(s, q);
    }
  }

  lemma MovesKeeps(s: State, p: nat, from: Pc, to: Pc, lk: Option<nat>, s': State)
    requires Inv(s) && Moves(s, p, from, to, lk, s') && (HoldsLk(to) <==> lk == Some(p))
        && (HoldsSelf(to) <==> HoldsSelf(from))
    requires lk == s.lk || (s.lk in {None, Some(p)} && lk in {None, Some(p)})
    requires from != Parked && to != Parked && !from.Wake? && !to.Wake?
        && (to == Sleep1 || to == Sleep2 ==> from == Sleep1 || from == Sleep2)
    ensures Inv(s')
  {
    assert ThreadOk(s.threads[p]);
    SoloKeeps(s, p, s.threads[p].(pc := to), lk, s.ready, s');
  }

  lemma WakeKeeps(s: State, p: nat, s': State)
    requires Inv(s) && WakeSteps(s, p, s')
    ensures Inv(s')
  {
    var j := s.threads[p].pc.j;
    assert ThreadOk(s.threads[p]);
    if j >= |s.threads| || j == p {
      SoloKeeps(s, p, s'.threads[p], s'.lk, s'.ready, s');
    } else {
      assert ThreadOk(s.threads[j]);
      forall q: nat | q < |s'.threads| ensures Covered(s', q) {
        assert Covered(s, q);
      }
    }
  }

  lemma SleepKeeps(s: State, p: nat, s': State)
    requires Inv(s) && (SleepLocks(s, p, s') || SleepSwitches(s, p, s') || SchedRuns(s, p, s') || Resumes(s, p, s'))
    ensures Inv(s')
  {
    assert ThreadOk(s.threads[p]);
    SoloKeeps(s, p, s'.threads[p], s'.lk, s'.ready, s');
  }

  lemma OtherKeeps(s: State, p: nat, s': State)
    requires Inv(s)
    requires Takes(s, p, s') || GiveSets(s, p, s') || SpuriouslyWakes(s, p, s') || Locks(s, p, Free, Scheduler, s')
        || Locks(s, p, Scheduler, Free, s')
    ensures Inv(s')
  {
    assert ThreadOk(s.threads[p]);
    SoloKeeps(s, p, s'.threads[p], s'.lk, s'.ready, s');
  }

  lemma Holder(s: State, p: nat)
    requires Inv(s) && p < |s.threads|
    ensures HoldsLk(s.threads[p].pc) <==> s.lk == Some(p)
  {
  }

  lemma NextKeeps(s: State, a: Action, s': State)
    requires Inv(s) && Next(s, a, s')
    ensures Inv(s')
  {
    hide Inv, Takes, GiveSets, SpuriouslyWakes, Locks, SleepLocks, SleepSwitches, SchedRuns, Resumes, WakeSteps, Solo;
    match a {
      case Begin(p) => Holder(s, p); MovesKeeps(s, p, Out, Want, s.lk, s');
      case Acquire(p) => if Moves(s, p, Want, Test, Some(p), s') { MovesKeeps(s, p, Want, Test, Some(p), s'); }
        else { MovesKeeps(s, p, WantGive, Give, Some(p), s'); }
      case See(p) => Holder(s, p); MovesKeeps(s, p, Test, In, s.lk, s');
      case Take(p) => OtherKeeps(s, p, s');
      case Leave(p) => Holder(s, p); MovesKeeps(s, p, s.threads[p].pc, Out, None, s');
      case SleepLock(p) => SleepKeeps(s, p, s');
      case SleepRelease(p) => Holder(s, p); MovesKeeps(s, p, Sleep1, Sleep2, None, s');
      case SleepSwitch(p) => SleepKeeps(s, p, s');
      case Resume(p) => SleepKeeps(s, p, s');
      case SchedAcquire(p) => OtherKeeps(s, p, s');
      case SchedRelease(p) => OtherKeeps(s, p, s');
      case SchedRun(p) => SleepKeeps(s, p, s');
      case Spurious(p) => OtherKeeps(s, p, s');
      case GiveBegin(p) => Holder(s, p); MovesKeeps(s, p, Out, WantGive, s.lk, s');
      case GiveAcquire(p) => if Moves(s, p, Want, Test, Some(p), s') { MovesKeeps(s, p, Want, Test, Some(p), s'); }
        else { MovesKeeps(s, p, WantGive, Give, Some(p), s'); }
      case GiveSet(p) => OtherKeeps(s, p, s');
      case WakeStep(p) => WakeKeeps(s, p, s');
      case GiveEnd(p) => Holder(s, p); MovesKeeps(s, p, Given, Out, None, s');
    }
  }

  /** All threads run, nobody is concerned, and the condition is anything. */
  ghost predicate Init(s: State) {
    s.lk == None && forall p: nat :: p < |s.threads| ==> s.threads[p] == Thread(Running, Free, Out)
  }

  ghost predicate Execution(run: seq<State>, steps: seq<Action>) {
    |run| == |steps| + 1 && Init(run[0]) && forall i :: 0 <= i < |steps| ==> Next(run[i], steps[i], run[i + 1])
  }

  /** Such a state exists for any number of threads. */
  lemma InitExists(n: nat, ready: bool) returns (s: State)
    ensures Init(s) && |s.threads| == n && s.ready == ready
  {
    s := State(seq(n, _ => Thread(Running, Free, Out)), None, ready);
  }

  lemma InitHolds(s: State)
    requires Init(s)
    ensures Inv(s)
  {
  }

  lemma {:induction false} RunKeeps(run: seq<State>, steps: seq<Action>, k: nat)
    requires Execution(run, steps) && k < |run|
    ensures Inv(run[k])
  {
    hide Inv, Next, Init;
    if k == 0 {
      InitHolds(run[0]);
    } else {
      RunKeeps(run, steps, k - 1);
      NextKeeps(run[k - 1], steps[k - 1], run[k]);
    }
  }

  /** In every interleaving: whenever lk is free and the condition is true, no thread is asleep on the
      channel or on its way there. */
  lemma NoLostWakeup(run: seq<State>, steps: seq<Action>, k: nat, q: nat)
    requires Execution(run, steps) && k < |run| && q < |run[k].threads| && run[k].lk == None && run[k].ready
    ensures run[k].threads[q].state != Sleeping && run[k].threads[q].pc != Sleep2
  {
    hide Execution;
    RunKeeps(run, steps, k);
    assert Covered(run[k], q);
  }

  // ---------- nobody is stuck ----------

  /** p has to wait: for lk, for its own lock or that of the thread it would wake, or asleep. */
  ghost predicate Waits(s: State, p: nat)
    requires p < |s.threads|
  {
    var me := s.threads[p];
    || ((me.pc == Want || me.pc == WantGive) && s.lk.Some?)
    || (me.pc == Test && !s.ready && me.lock != Free)
    || (me.pc.Wake? && me.pc.j < |s.threads| && me.pc.j != p && s.threads[me.pc.j].lock != Free)
    || (me.pc == Parked && !(me.state == Runnable && me.lock == Scheduler))
  }

  ghost predicate CanStep(s: State, a: Action) {
    exists s' :: Next(s, a, s')
  }

  lemma Step(s: State, a: Action, s': State)
    requires Next(s, a, s')
    ensures CanStep(s, a)
  {
  }

  /** The step p takes next. */
  function NextStep(s: State, p: nat): Action
    requires p < |s.threads|
  {
    match s.threads[p].pc
    case Out => Begin(p)
    case Want => Acquire(p)
    case Test => if s.ready then See(p) else SleepLock(p)
    case In => Take(p)
    case Taken => Leave(p)
    case Sleep1 => SleepRelease(p)
    case Sleep2 => SleepSwitch(p)
    case Parked => SchedRun(p)
    case Back => Resume(p)
    case WantGive => GiveAcquire(p)
    case Give => GiveSet(p)
    case Wake(_) => WakeStep(p)
    case Given => GiveEnd(p)
  }

  lemma GiverGoesOn(s: State, p: nat)
    requires p < |s.threads| && !Waits(s, p)
    requires var pc := s.threads[p].pc; pc == WantGive || pc == Give || pc.Wake? || pc == Given
    ensures CanStep(s, NextStep(s, p))
  {
    var me, a := s.threads[p], NextStep(s, p);
    match me.pc {
      case WantGive => Step(s, a, State(s.threads[p := me.(pc := Give)], Some(p), s.ready));
      case Give => Step(s, a, State(s.threads[p := me.(pc := Wake(0))], s.lk, true));
      case Wake(j) =>
        if j >= |s.threads| {
          Step(s, a, State(s.threads[p := me.(pc := Given)], s.lk, s.ready));
        } else if j == p {
          Step(s, a, State(s.threads[p := me.(pc := Wake(j + 1))], s.lk, s.ready));
        } else {
          Step(s, a, s.(threads := s.threads[j := Woken(s.threads[j])][p := me.(pc := Wake(j + 1))]));
        }
      case Given => Step(s, a, State(s.threads[p := me.(pc := Out)], None, s.ready));
    }
  }

  lemma SleeperGoesOn(s: State, p: nat)
    requires p < |s.threads| && !Waits(s, p)
    requires var pc := s.threads[p].pc; pc == Sleep1 || pc == Sleep2 || pc == Parked || pc == Back
    ensures CanStep(s, NextStep(s, p))
  {
    var me, a := s.threads[p], NextStep(s, p);
    match me.pc {
      case Sleep1 => Step(s, a, State(s.threads[p := me.(pc := Sleep2)], None, s.ready));
      case Sleep2 => Step(s, a, State(s.threads[p := Thread(Sleeping, Scheduler, Parked)], s.lk, s.ready));
      case Parked => Step(s, a, State(s.threads[p := Thread(Running, Self, Back)], s.lk, s.ready));
      case Back => Step(s, a, State(s.threads[p := me.(lock := Free, pc := Want)], s.lk, s.ready));
    }
  }

  lemma GoesOn(s: State, p: nat)
    requires p < |s.threads| && !Waits(s, p)
    ensures CanStep(s, NextStep(s, p))
  {
    var me, a := s.threads[p], NextStep(s, p);
    match me.pc {
      case Out => Step(s, a, State(s.threads[p := me.(pc := Want)], s.lk, s.ready));
      case Want => Step(s, a, State(s.threads[p := me.(pc := Test)], Some(p), s.ready));
      case Test =>
        if s.ready {
          Step(s, a, State(s.threads[p := me.(pc := In)], s.lk, s.ready));
        } else {
          Step(s, a, State(s.threads[p := me.(lock := Self, pc := Sleep1)], s.lk, s.ready));
        }
      case In => Step(s, a, State(s.threads[p := me.(pc := Taken)], s.lk, false));
      case Taken => Step(s, a, State(s.threads[p := me.(pc := Out)], None, s.ready));
      case Sleep1 => SleeperGoesOn(s, p);
      case Sleep2 => SleeperGoesOn(s, p);
      case Parked => SleeperGoesOn(s, p);
      case Back => SleeperGoesOn(s, p);
      case _ => GiverGoesOn(s, p);
    }
  }

  /** In every interleaving: who does not have to wait can go on; who has its own lock does not have to wait, and what
      the scheduler has it can let go of; who has lk waits at most for the lock of a thread; and nobody sleeps on with
      lk free and the condition true. */
  lemma NobodyIsStuck(run: seq<State>, steps: seq<Action>, k: nat, p: nat)
    requires Execution(run, steps) && k < |run| && p < |run[k].threads|
    ensures !Waits(run[k], p) ==> CanStep(run[k], NextStep(run[k], p))
    ensures run[k].threads[p].lock == Self ==> !Waits(run[k], p)
    ensures run[k].threads[p].lock == Scheduler ==> CanStep(run[k], SchedRelease(p))
    ensures run[k].lk == Some(p) && Waits(run[k], p) ==> run[k].threads[p].pc == Test || run[k].threads[p].pc.Wake?
  {
    hide Execution;
    RunKeeps(run, steps, k);
    var s := run[k];
    assert ThreadOk(s.threads[p]);
    if !Waits(s, p) { GoesOn(s, p); }
    if s.threads[p].lock == Scheduler {
      Step(s, SchedRelease(p), State(s.threads[p := s.threads[p].(lock := Free)], s.lk, s.ready));
    }
  }
}

/** The sleep lock: sleep and wakeup with the condition "not locked". */
module SleepLocks {
  import opened Options
  import opened SleepWakeup

  /** has: which threads are between acquiresleep and releasesleep; pid: the lock's pid field, where
      thread p has pid p + 1. The lock's locked field is the negation of the condition. */
  datatype State = State(g: SleepWakeup.State, pid: nat, has: seq<bool>)

  function Locked(s: State): bool {
    !s.g.ready
  }

  /** A step: any step of sleep and wakeup, in which acquiresleep leaves only after taking the lock and
      releasesleep is called only by a thread that has it. */
  ghost predicate Next(s: State, a: Action, s': State) {
    && SleepWakeup.Next(s.g, a, s'.g) && |s.has| == |s.g.threads|
    && match a
       case Take(p) => p < |s.has| && s'.pid == p + 1 && s'.has == s.has[p := true]
       case GiveSet(p) => p < |s.has| && s'.pid == 0 && s'.has == s.has[p := false]
       case Leave(p) => p < |s.has| && s.g.threads[p].pc == Taken && s'.pid == s.pid && s'.has == s.has
       case Begin(p) => p < |s.has| && !s.has[p] && s'.pid == s.pid && s'.has == s.has
       case GiveBegin(p) => p < |s.has| && s.has[p] && s'.pid == s.pid && s'.has == s.has
       case _ => s'.pid == s.pid && s'.has == s.has
  }

  /** A thread that is giving the lock up has it until it has said so; one that wants it does not. */
  predicate HasFits(pc: Pc, has: bool) {
    match pc
    case Out => true
    case Taken => has
    case WantGive => has
    case Give => has
    case _ => !has
  }

  ghost predicate Inv(s: State) {
    && SleepWakeup.Inv(s.g) && |s.has| == |s.g.threads|
    && (forall p: nat :: p < |s.has| ==> HasFits(s.g.threads[p].pc, s.has[p]))
    && (forall p: nat :: p < |s.has| && s.has[p] ==> Locked(s) && s.pid == p + 1)
    && (forall p: nat :: p < |s.has| && s.g.threads[p].pc == In ==> s.g.ready)
    && (Locked(s) ==> 0 < s.pid <= |s.has| && s.has[s.pid - 1])
  }

  /** A step moves only its own thread, and changes the condition only by taking or giving. */
  lemma Frame(s: SleepWakeup.State, a: Action, s': SleepWakeup.State)
    requires SleepWakeup.Next(s, a, s')
    ensures |s'.threads| == |s.threads| && a.p < |s.threads|
    ensures forall q: nat :: q < |s.threads| && q != a.p ==> s'.threads[q].pc == s.threads[q].pc
    ensures s'.ready == if a.Take? then false else if a.GiveSet? then true else s.ready
  {
  }

  /** How a thread's own position may change. */
  lemma Position(s: SleepWakeup.State, a: Action, s': SleepWakeup.State)
    requires SleepWakeup.Inv(s) && SleepWakeup.Next(s, a, s')
    ensures a.p < |s.threads| && a.p < |s'.threads|
    ensures
      var from, to := s.threads[a.p].pc, s'.threads[a.p].pc;
      match a
      case Begin(_) => to == Want
      case See(_) => to == In && s.ready
      case Take(_) => from == In && to == Taken && s.lk == Some(a.p)
      case Leave(_) => to == Out
      case GiveBegin(_) => to == WantGive
      case GiveSet(_) => from == Give && to.Wake? && s.lk == Some(a.p)
      case GiveEnd(_) => from == Given && to == Out
      case _ =>
        to == from
        || (HasFits(from, true) == HasFits(to, true) && HasFits(from, false) == HasFits(to, false) && to != In)
  {
    assert ThreadOk(s.threads[a.p]);
  }

  lemma NextKeeps(s: State, a: Action, s': State)
    requires Inv(s) && Next(s, a, s')
    ensures Inv(s')
  {
    hide SleepWakeup.Next, SleepWakeup.Inv;
    SleepWakeup.NextKeeps(s.g, a, s'.g);
    Frame(s.g, a, s'.g);
    Position(s.g, a, s'.g);
    if a.Take? || a.GiveSet? { Alone(s.g, a, s'.g); }
  }

  /** Whoever takes or gives holds lk, so nobody else has seen the condition true and not yet taken. */
  lemma Alone(s: SleepWakeup.State, a: Action, s': SleepWakeup.State)
    requires SleepWakeup.Inv(s) && SleepWakeup.Next(s, a, s') && (a.Take? || a.GiveSet?)
    ensures forall q: nat :: q < |s.threads| && q != a.p ==> s.threads[q].pc != In
  {
    assert HoldsLk(s.threads[a.p].pc);
  }

  /** Nobody has the lock. */
  ghost predicate Init(s: State) {
    SleepWakeup.Init(s.g) && s.g.ready && s.pid == 0 && s.has == seq(|s.g.threads|, _ => false)
  }

  ghost predicate Execution(run: seq<State>, steps: seq<Action>) {
    |run| == |steps| + 1 && Init(run[0]) && forall i :: 0 <= i < |steps| ==> Next(run[i], steps[i], run[i + 1])
  }

  lemma {:induction false} RunKeeps(run: seq<State>, steps: seq<Action>, k: nat)
    requires Execution(run, steps) && k < |run|
    ensures Inv(run[k])
  {
    hide Inv, Next, Init;
    if k == 0 {
      InitHolds(run[0]);
    } else {
      RunKeeps(run, steps, k - 1);
      NextKeeps(run[k - 1], steps[k - 1], run[k]);
    }
  }

  lemma InitExists(n: nat) returns (s: State)
    ensures Init(s) && |s.has| == n
  {
    var g := SleepWakeup.InitExists(n, true);
    s := State.State(g, 0, seq(n, _ => false));
  }

  lemma InitHolds(s: State)
    requires Init(s)
    ensures Inv(s)
  {
    SleepWakeup.InitHolds(s.g);
  }

  /** In every interleaving at most one thread has the lock; holdingsleep, which compares the pid
      field, is right about who; and when the lock and lk are free no thread is asleep on it. */
  lemma MutualExclusion(run: seq<State>, steps: seq<Action>, k: nat, p: nat, q: nat)
    requires Execution(run, steps) && k < |run| && p < |run[k].has| && q < |run[k].has|
    ensures run[k].has[p] && run[k].has[q] ==> p == q
    ensures run[k].has[p] <==> Locked(run[k]) && run[k].pid == p + 1
    ensures !Locked(run[k]) && run[k].g.lk == None ==> q < |run[k].g.threads| && run[k].g.threads[q].state != Sleeping
  {
    hide Execution;
    RunKeeps(run, steps, k);
    if q < |run[k].g.threads| { assert Covered(run[k].g, q); }
  }
}
