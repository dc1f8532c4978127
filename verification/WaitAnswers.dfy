/** When wait may answer -1, when it may sleep, and whose pid it may return, over every run of ExitWait. All three
    rest on what the scan has seen: a process's children change only by its own steps, except that init is handed
    children, and wait_lock is held from the beginning of a scan to its end. */
module WaitAnswers {
  import opened Counting
  import opened Options
  import opened ExitWait

  ghost predicate IsChild(s: State, c: nat, p: nat) {
    c < |s.procs| && s.procs[c].parent == Some(p)
  }

  ghost predicate HasChild(s: State, p: nat) {
    exists c: nat :: IsChild(s, c, p)
  }

  ghost predicate ChildBelow(s: State, p: nat, k: nat) {
    exists c: nat :: c < k && IsChild(s, c, p)
  }

  /** At pc nothing is said about children. */
  predicate Unbound(pc: Pc) {
    !pc.Wait1? && !pc.Wait2? && pc != Sleep1 && pc != Sleep2 && pc != Parked(ToWait) && !pc.Fork3? && !pc.Fork4?
  }

  /** What the position of process p says of its children: havekids is right for the slots passed, the slot being
      looked at is a child's, only a process with a child sleeps, and a slot that fork has linked is a child's. */
  ghost predicate KidsAt(s: State, p: nat, pc: Pc) {
    match pc
    case Wait1(k, kids) => kids <==> ChildBelow(s, p, k)
    case Wait2(k) => IsChild(s, k, p)
    case Fork3(c) => IsChild(s, c, p)
    case Fork4(c) => IsChild(s, c, p)
    case _ => Unbound(pc) || HasChild(s, p)
  }

  ghost predicate KidsOk(s: State) {
    forall p: nat :: p < |s.procs| ==> KidsAt(s, p, s.procs[p].pc)
  }

  // ---------- what every step keeps ----------

  ghost predicate SameParents(s: State, s': State) {
    |s'.procs| == |s.procs| && forall c :: 0 <= c < |s.procs| ==> s'.procs[c].parent == s.procs[c].parent
  }

  /** Apart from process p, every position is the same or says nothing of children. */
  ghost predicate SamePcs(s: State, s': State, p: nat) {
    |s'.procs| == |s.procs|
      && forall q :: 0 <= q < |s.procs| && q != p ==> s'.procs[q].pc == s.procs[q].pc || Unbound(s'.procs[q].pc)
  }

  lemma SameKids(s: State, s': State, q: nat, pc: Pc)
    requires SameParents(s, s') && KidsAt(s, q, pc)
    ensures KidsAt(s', q, pc)
  {
    forall c: nat ensures IsChild(s', c, q) <==> IsChild(s, c, q) {}
    hide IsChild;
    match pc {
      case Wait1(k, kids) =>
      case Wait2(k) =>
      case Fork3(c) =>
      case Fork4(c) =>
      case _ =>
        if HasChild(s, q) {
          var c: nat :| IsChild(s, c, q);
          assert IsChild(s', c, q);
        }
    }
  }

  /** Parents stay, and what p's new position says holds. */
  lemma StepKids(s: State, p: nat, s': State)
    requires KidsOk(s) && SameParents(s, s') && SamePcs(s, s', p) && p < |s.procs|
    requires KidsAt(s, p, s'.procs[p].pc)
    ensures KidsOk(s')
  {
    hide KidsAt;
    forall q: nat | q < |s'.procs| ensures KidsAt(s', q, s'.procs[q].pc) {
      assert q == p || KidsAt(s, q, s'.procs[q].pc) by {
        if q != p { UnboundKids(s, q, s'.procs[q].pc); }
      }
      SameKids(s, s', q, s'.procs[q].pc);
    }
  }

  lemma UnboundKids(s: State, q: nat, pc: Pc)
    ensures Unbound(pc) ==> KidsAt(s, q, pc)
  {
  }

  /** Slot k gets another parent. What the position of its old parent says holds, and the new one is not scanning. */
  lemma MoveKids(s: State, p: nat, k: nat, s': State)
    requires KidsOk(s) && SamePcs(s, s', p) && p < |s.procs| && KidsAt(s', p, s'.procs[p].pc) && k < |s.procs|
    requires forall c :: 0 <= c < |s.procs| && c != k ==> s'.procs[c].parent == s.procs[c].parent
    requires s.procs[k].parent == None || s.procs[k].parent == Some(p)
    requires forall q :: 0 <= q < |s.procs| && s'.procs[k].parent == Some(q) ==>
      !s'.procs[q].pc.Wait1? && !s'.procs[q].pc.Wait2?
    ensures KidsOk(s')
  {
    forall q: nat | q < |s'.procs| ensures KidsAt(s', q, s'.procs[q].pc) {
      if q != p && !Unbound(s'.procs[q].pc) {
        assert KidsAt(s, q, s.procs[q].pc);
        MovedKids(s, p, k, s', q);
      }
    }
  }

  lemma MovedKids(s: State, p: nat, k: nat, s': State, q: nat)
    requires |s'.procs| == |s.procs| && k < |s.procs| && q < |s.procs| && q != p && KidsAt(s, q, s'.procs[q].pc)
    requires forall c :: 0 <= c < |s.procs| && c != k ==> s'.procs[c].parent == s.procs[c].parent
    requires s.procs[k].parent == None || s.procs[k].parent == Some(p)
    requires s'.procs[k].parent == Some(q) ==> !s'.procs[q].pc.Wait1? && !s'.procs[q].pc.Wait2?
    ensures KidsAt(s', q, s'.procs[q].pc)
  {
    forall c: nat | IsChild(s, c, q) ensures IsChild(s', c, q) {}
    forall c: nat | IsChild(s', c, q) && s'.procs[k].parent != Some(q) ensures IsChild(s, c, q) {}
    hide IsChild;
    match s'.procs[q].pc {
      case Wait1(j, kids) =>
        assert ChildBelow(s, q, j) <==> ChildBelow(s', q, j);
      case Wait2(j) =>
      case Fork3(c) =>
      case Fork4(c) =>
      case _ =>
        if HasChild(s, q) {
          var c: nat :| IsChild(s, c, q);
          assert IsChild(s', c, q);
        }
    }
  }

  // ---------- the steps ----------

  lemma PlainSolo(s: State, a: Action, s': State)
    requires Structure(s) && KidsOk(s) && Next(s, a, s')
    requires a.SchedAcquire? || a.SchedRun? || a.SchedRelease? || a.ReleaseSelf? || a.YieldLock? || a.YieldSwitch?
      || a.NapLock? || a.NapSwitch? || a.WakeOther? || a.Kill? || a.ExitBegin? || a.ExitLock?
      || a.ExitZombie? || a.ExitSwitch? || a.WaitCall? || a.WaitLeave?
    ensures KidsOk(s')
  {
    hide Structure, KidsAt;
    assert KidsAt(s, a.p, s.procs[a.p].pc);
    UnboundKids(s, a.p, s'.procs[a.p].pc);
    StepKids(s, a.p, s');
  }

  lemma RoundKids(s: State, p: nat, j: nat, chan: Chan, next: Pc, s': State)
    requires KidsOk(s) && WakeRound(s, p, j, chan, next, s') && Unbound(next)
    ensures KidsOk(s')
  {
    UnboundKids(s, p, next);
    hide KidsAt;
    StepKids(s, p, s');
  }

  lemma ExitKids(s: State, p: nat, s': State)
    requires Structure(s) && KidsOk(s)
    requires ExitReparents(s, p, s') || ExitWakesInit(s, p, s') || ExitWakesParent(s, p, s')
    ensures KidsOk(s')
  {
    hide Structure, KidsAt, WakeRound;
    if s.procs[p].pc.Exit1? {
      UnboundKids(s, p, s'.procs[p].pc);
      var k := s.procs[p].pc.k;
      if k < |s.procs| && s.procs[k].parent == Some(p) {
        forall q: nat | q < |s.procs| && q != p ensures !s'.procs[q].pc.Wait1? && !s'.procs[q].pc.Wait2? {
          NotScanning(s, p, q);
        }
        UnboundKids(s', p, s'.procs[p].pc);
        MoveKids(s, p, k, s');
      } else {
        StepKids(s, p, s');
      }
    } else if s.procs[p].pc.ExitInit? && s.procs[p].pc.j < |s.procs| {
      RoundKids(s, p, s.procs[p].pc.j, Slot(s.init), ExitInit(s.procs[p].pc.k, s.procs[p].pc.j + 1), s');
    } else if s.procs[p].pc.ExitWake? && s.procs[p].pc.j < |s.procs| {
      var parent := if s.procs[p].parent.Some? then Slot(s.procs[p].parent.value) else NoChan;
      RoundKids(s, p, s.procs[p].pc.j, parent, ExitWake(s.procs[p].pc.j + 1), s');
    } else {
      UnboundKids(s, p, s'.procs[p].pc);
      StepKids(s, p, s');
    }
  }

  lemma NotScanning(s: State, p: nat, q: nat)
    requires Structure(s) && p < |s.procs| && q < |s.procs| && q != p && HoldsWait(s.procs[p].pc)
    ensures !s.procs[q].pc.Wait1? && !s.procs[q].pc.Wait2?
  {
    hide LocksOk, SlotsOk, ForksOk, ParentsOk, InitOk;
  }

  lemma ForkKids(s: State, a: Action, s': State)
    requires KidsOk(s) && Next(s, a, s') && (a.ForkAlloc? || a.ForkUnlock? || a.ForkReady?)
    ensures KidsOk(s')
  {
    hide KidsAt;
    UnboundKids(s, a.p, s'.procs[a.p].pc);
    StepKids(s, a.p, s');
  }

  lemma ForkFailKids(s: State, p: nat, s': State)
    requires ForksOk(s) && KidsOk(s) && ForkFails(s, p, s')
    ensures KidsOk(s')
  {
    hide KidsAt;
    assert Forking(s.procs[p].pc).Some?;
    UnboundKids(s, p, s'.procs[p].pc);
    StepKids(s, p, s');
  }

  lemma ForkLinkKids(s: State, p: nat, s': State)
    requires Structure(s) && KidsOk(s) && ForkLinks(s, p, s')
    ensures KidsOk(s')
  {
    hide WaitLockOk, LocksOk, ParentsOk, InitOk, SlotsOk, KidsOk;
    MoveKids(s, p, s.procs[p].pc.c, s');
  }

  lemma ForkUnwaitKids(s: State, p: nat, s': State)
    requires KidsOk(s) && ForkUnwaits(s, p, s')
    ensures KidsOk(s')
  {
    assert KidsAt(s, p, s.procs[p].pc);
    StepKids(s, p, s');
  }

  lemma PassedOver(s: State, p: nat, k: nat, kids: bool)
    requires KidsAt(s, p, Wait1(k, kids)) && !IsChild(s, k, p)
    ensures KidsAt(s, p, Wait1(k + 1, kids))
  {
    forall c: nat | c < k + 1 && IsChild(s, c, p) ensures c < k {}
    hide IsChild;
    assert ChildBelow(s, p, k + 1) <==> ChildBelow(s, p, k);
  }

  lemma LookedAt(s: State, p: nat, k: nat)
    requires KidsAt(s, p, Wait2(k))
    ensures KidsAt(s, p, Wait1(k + 1, true))
  {
  }

  lemma BeginKids(s: State, p: nat, s': State)
    requires KidsOk(s) && WaitBegins(s, p, s')
    ensures KidsOk(s')
  {
    assert KidsAt(s, p, Wait1(0, false));
    hide KidsAt;
    StepKids(s, p, s');
  }

  lemma ScanKids(s: State, p: nat, s': State)
    requires KidsOk(s) && WaitScans(s, p, s')
    ensures KidsOk(s')
  {
    hide KidsAt;
    var k := s.procs[p].pc.k;
    if s.procs[k].parent == Some(p) { AtChild(s, p, k); } else { PassedOver(s, p, k, s.procs[p].pc.kids); }
    StepKids(s, p, s');
  }

  lemma LookKids(s: State, p: nat, s': State)
    requires KidsOk(s) && WaitLooks(s, p, s')
    ensures KidsOk(s')
  {
    hide KidsAt;
    LookedAt(s, p, s.procs[p].pc.k);
    StepKids(s, p, s');
  }

  lemma AtChild(s: State, p: nat, k: nat)
    requires k < |s.procs| && s.procs[k].parent == Some(p)
    ensures KidsAt(s, p, Wait2(k))
  {
  }

  lemma SleepKids(s: State, p: nat, s': State)
    requires KidsOk(s) && (SleepLocks(s, p, s') || SleepUnwaits(s, p, s') || SleepSwitches(s, p, s'))
    ensures KidsOk(s')
  {
    assert KidsAt(s, p, s.procs[p].pc);
    StepKids(s, p, s');
  }

  lemma ReapKids(s: State, p: nat, s': State)
    requires Structure(s) && KidsOk(s) && (WaitReaps(s, p, s') || WaitFaults(s, p, s'))
    ensures KidsOk(s')
  {
    hide Structure;
    assert KidsAt(s, p, s.procs[p].pc);
    if WaitReaps(s, p, s') {
      MoveKids(s, p, s.procs[p].pc.k, s');
    } else {
      UnboundKids(s, p, s'.procs[p].pc);
      StepKids(s, p, s');
    }
  }

  lemma ForksAt(s: State)
    requires Structure(s)
    ensures ForksOk(s)
  {
    hide WaitLockOk, LocksOk, SlotsOk, ForksOk, ParentsOk, InitOk;
  }

  /** Every step keeps what positions say of children. */
  lemma KidsKept(s: State, a: Action, s': State)
    requires Structure(s) && KidsOk(s) && Next(s, a, s')
    ensures KidsOk(s')
  {
    hide Structure, KidsOk, ForksOk, ForkFails, ForkLinks, ForkUnwaits, ExitReparents, ExitWakesInit,
      ExitWakesParent, WaitBegins, WaitScans, WaitLooks, WaitReaps, WaitFaults, SleepLocks, SleepUnwaits, SleepSwitches;
    match a {
      case ForkAlloc(_, _) => ForkKids(s, a, s');
      case ForkFail(p) => ForksAt(s); ForkFailKids(s, p, s');
      case ForkUnlock(_) => ForkKids(s, a, s');
      case ForkLink(p) => ForkLinkKids(s, p, s');
      case ForkUnwait(p) => ForkUnwaitKids(s, p, s');
      case ForkReady(_) => ForkKids(s, a, s');
      case ExitReparent(p) => ExitKids(s, p, s');
      case ExitInitStep(p) => ExitKids(s, p, s');
      case ExitWakeStep(p) => ExitKids(s, p, s');
      case WaitBegin(p) => BeginKids(s, p, s');
      case WaitScan(p) => ScanKids(s, p, s');
      case WaitLook(p) => LookKids(s, p, s');
      case WaitReap(p) => ReapKids(s, p, s');
      case WaitFault(p) => ReapKids(s, p, s');
      case SleepLock(p) => SleepKids(s, p, s');
      case SleepUnwait(p) => SleepKids(s, p, s');
      case SleepSwitch(p) => SleepKids(s, p, s');
      case _ => PlainSolo(s, a, s');
    }
  }

  // ---------- every run ----------

  lemma {:induction false} RunKids(run: seq<State>, steps: seq<Action>, k: nat)
    requires Execution(run, steps) && k < |run|
    ensures KidsOk(run[k]) && Structure(run[k])
  {
    hide Structure, Next;
    RunKeeps(run, steps, k);
    if k > 0 {
      RunKids(run, steps, k - 1);
      KidsKept(run[k - 1], steps[k - 1], run[k]);
    }
  }

  lemma ScanOver(s: State, p: nat)
    requires KidsOk(s) && p < |s.procs| && s.procs[p].pc.Wait1? && s.procs[p].pc.k >= |s.procs|
    ensures s.procs[p].pc.kids <==> HasChild(s, p)
  {
    assert KidsAt(s, p, s.procs[p].pc);
    forall c: nat | IsChild(s, c, p) ensures c < s.procs[p].pc.k {}
    hide IsChild;
  }

  /** wait gives up only if its caller has been killed or has no child, and goes to sleep only if it has one. */
  lemma GivesUpRightly(run: seq<State>, steps: seq<Action>, k: nat, p: nat)
    requires Execution(run, steps) && k < |steps|
    ensures steps[k] == WaitLeave(p) ==> p < |run[k].procs| && (run[k].procs[p].killed || !HasChild(run[k], p))
    ensures steps[k] == SleepLock(p) ==> HasChild(run[k], p)
  {
    hide Structure, KidsOk, HasChild;
    RunKids(run, steps, k);
    assert Next(run[k], steps[k], run[k + 1]);
    if steps[k] == WaitLeave(p) || steps[k] == SleepLock(p) { ScanOver(run[k], p); }
  }

  ghost predicate ZombieChild(s: State, c: nat, p: nat) {
    IsChild(s, c, p) && s.procs[c].state == ZOMBIE
  }

  /** What wait returns is the pid of a child that was a zombie, and that child's slot becomes free; if the copy of the
      status fails there is such a child too, and it stays. */
  lemma ReturnsChild(run: seq<State>, steps: seq<Action>, k: nat, p: nat) returns (c: nat)
    requires Execution(run, steps) && k < |steps| && (steps[k] == WaitReap(p) || steps[k] == WaitFault(p))
    ensures ZombieChild(run[k], c, p)
    ensures steps[k] == WaitReap(p) ==>
      && run[k + 1].reaped == run[k].reaped + [run[k].procs[c].pid]
      && c < |run[k + 1].procs| && run[k + 1].procs[c] == Freed()
    ensures steps[k] == WaitFault(p) ==> ZombieChild(run[k + 1], c, p) && run[k + 1].reaped == run[k].reaped
  {
    hide Structure;
    RunKids(run, steps, k);
    assert Next(run[k], steps[k], run[k + 1]);
    assert KidsAt(run[k], p, run[k].procs[p].pc);
    c := run[k].procs[p].pc.k;
  }

  /** When the scan is over and p's lock is free, wait may give up if and only if p has no child or is killed, and may
      sleep if and only if p has a child. */
  lemma ScanDecides(run: seq<State>, steps: seq<Action>, k: nat, p: nat)
    requires Execution(run, steps) && k < |run| && p < |run[k].procs|
    requires run[k].procs[p].pc.Wait1? && run[k].procs[p].pc.k >= |run[k].procs| && run[k].procs[p].lock == Free
    ensures (exists s' :: Next(run[k], WaitLeave(p), s')) <==> !HasChild(run[k], p) || run[k].procs[p].killed
    ensures (exists s' :: Next(run[k], SleepLock(p), s')) <==> HasChild(run[k], p)
  {
    hide Structure, KidsOk, HasChild, Execution, Next;
    RunKids(run, steps, k);
    ScanOver(run[k], p);
    LeaveEnabled(run[k], p);
    SleepEnabled(run[k], p);
  }

  lemma LeaveEnabled(s: State, p: nat)
    requires p < |s.procs| && s.procs[p].pc.Wait1? && s.procs[p].pc.k >= |s.procs| && s.procs[p].lock == Free
    ensures (exists s' :: Next(s, WaitLeave(p), s')) <==> !s.procs[p].pc.kids || s.procs[p].killed
  {
    var s' := s.(procs := s.procs[p := s.procs[p].(pc := Run)], waitLock := None);
    if !s.procs[p].pc.kids || s.procs[p].killed { assert Next(s, WaitLeave(p), s'); }
  }

  lemma SleepEnabled(s: State, p: nat)
    requires p < |s.procs| && s.procs[p].pc.Wait1? && s.procs[p].pc.k >= |s.procs| && s.procs[p].lock == Free
    ensures (exists s' :: Next(s, SleepLock(p), s')) <==> s.procs[p].pc.kids
  {
    var s' := s.(procs := s.procs[p := s.procs[p].(lock := Thread(p), pc := Sleep1)]);
    if s.procs[p].pc.kids { assert Next(s, SleepLock(p), s'); }
  }

  /** What fork makes ready is a child of the process that called it. */
  lemma ForkMakesChild(run: seq<State>, steps: seq<Action>, k: nat, p: nat) returns (c: nat)
    requires Execution(run, steps) && k < |steps| && steps[k] == ForkReady(p)
    ensures IsChild(run[k + 1], c, p) && run[k + 1].procs[c].state == RUNNABLE && p < |run[k + 1].procs|
    ensures run[k].procs[c].state == USED && run[k + 1].procs[c].pid == run[k].procs[c].pid
  {
    hide WaitLockOk, LocksOk, SlotsOk, ParentsOk, InitOk;
    RunKids(run, steps, k);
    assert Next(run[k], steps[k], run[k + 1]);
    assert KidsAt(run[k], p, run[k].procs[p].pc);
    c := run[k].procs[p].pc.c;
  }

  /** In every state of every run a process that sleeps in wait has a child. */
  lemma SleepersHaveChildren(run: seq<State>, steps: seq<Action>, k: nat, p: nat)
    requires Execution(run, steps) && k < |run| && p < |run[k].procs|
    requires run[k].procs[p].state == SLEEPING && run[k].procs[p].chan == Slot(p)
    ensures HasChild(run[k], p)
  {
    RunKids(run, steps, k);
    hide WaitLockOk, LocksOk, ForksOk, ParentsOk, InitOk, HasChild;
    assert KidsAt(run[k], p, run[k].procs[p].pc);
    assert SlotOk(run[k].procs[p], p);
  }
}
