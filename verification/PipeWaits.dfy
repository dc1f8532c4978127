/** Who sleeps on a pipe's two channels, in every order of stretches. A stretch runs under the pipe's lock, and
    going to sleep gives the lock back in the same step, as SleepWakeup shows it may be taken to. */
module PipeWaits {
  import opened PipeModel

  /** What a process is doing with the pipe. Writers sleep on nwrite, readers on nread. */
  datatype Doing =
    | Idle
    | Writing(bytes: seq<nat>, i: nat)
    | WriterAsleep(bytes: seq<nat>, i: nat)
    | Reading(n: nat)
    | ReaderAsleep(n: nat)

  datatype State = State(pipe: View, procs: seq<Doing>)

  datatype Action =
    | StartWrite(p: nat, bytes: seq<nat>)
    | StartRead(p: nat, n: nat)
    | Write(p: nat, copyable: nat, killedAt: nat)
    | Read(p: nat, copyable: nat, killed: bool)
    | Close(writable: bool)
    | Kill(p: nat)

  function Woken(d: Doing, readers: bool): Doing {
    match d
    case ReaderAsleep(n) => if readers then Reading(n) else d
    case WriterAsleep(bytes, i) => if readers then d else Writing(bytes, i)
    case _ => d
  }

  /** wakeup(&pi->nread), or wakeup(&pi->nwrite). */
  function Wake(procs: seq<Doing>, readers: bool): (procs': seq<Doing>)
    ensures |procs'| == |procs|
  {
    seq(|procs|, q requires 0 <= q < |procs| => Woken(procs[q], readers))
  }

  predicate Writer(d: Doing) {
    d.Writing? || d.WriterAsleep?
  }

  predicate Reader(d: Doing) {
    d.Reading? || d.ReaderAsleep?
  }

  predicate CanWrite(s: State, p: nat, copyable: nat, killedAt: nat) {
    && p < |s.procs| && s.procs[p].Writing? && Ok(s.pipe)
    && Possible(s.pipe, In(s.procs[p].bytes, s.procs[p].i, copyable, killedAt))
  }

  /** A writer's stretch wakes the readers unless it is cut off. */
  ghost predicate Writes(s: State, p: nat, copyable: nat, killedAt: nat, s': State) {
    && CanWrite(s, p, copyable, killedAt)
    && var bytes, i := s.procs[p].bytes, s.procs[p].i;
       var j, stop := WriteEnd(s.pipe, bytes, i, copyable, killedAt), WriteStop(s.pipe, bytes, i, copyable, killedAt);
       && s'.pipe == Effect(s.pipe, In(bytes, i, copyable, killedAt))
       && s'.procs == match stop
          case Copied => Wake(s.procs, true)[p := Idle]
          case Full => Wake(s.procs, true)[p := WriterAsleep(bytes, j)]
          case Cut => s.procs[p := Idle]
  }

  ghost predicate Reads(s: State, p: nat, copyable: nat, killed: bool, s': State) {
    && p < |s.procs| && s.procs[p].Reading? && Ok(s.pipe) && s.pipe.readopen
    && if |s.pipe.sent| == s.pipe.taken && s.pipe.writeopen
       then s' == s.(procs := s.procs[p := if killed then Idle else ReaderAsleep(s.procs[p].n)])
       else s' == State(Effect(s.pipe, Out(s.procs[p].n, copyable)), Wake(s.procs, false)[p := Idle])
  }

  /** The last descriptor of an end goes: nobody is in the middle of using it. */
  ghost predicate Closes(s: State, writable: bool, s': State) {
    && Ok(s.pipe) && Possible(s.pipe, Shut(writable))
    && (forall q :: 0 <= q < |s.procs| ==> !(if writable then Writer(s.procs[q]) else Reader(s.procs[q])))
    && s' == State(Effect(s.pipe, Shut(writable)), Wake(s.procs, writable))
  }

  ghost predicate Starts(s: State, p: nat, d: Doing, s': State) {
    p < |s.procs| && s.procs[p] == Idle && s' == s.(procs := s.procs[p := d])
  }

  /** kill, or a wakeup meant for somebody else. */
  ghost predicate Kills(s: State, p: nat, s': State) {
    p < |s.procs| && s' == s.(procs := s.procs[p := Woken(Woken(s.procs[p], true), false)])
  }

  ghost predicate Next(s: State, a: Action, s': State) {
    match a
    case StartWrite(p, bytes) => s.pipe.writeopen && Starts(s, p, Writing(bytes, 0), s')
    case StartRead(p, n) => s.pipe.readopen && Starts(s, p, Reading(n), s')
    case Write(p, copyable, killedAt) => Writes(s, p, copyable, killedAt, s')
    case Read(p, copyable, killed) => Reads(s, p, copyable, killed, s')
    case Close(writable) => Closes(s, writable, s')
    case Kill(p) => Kills(s, p, s')
  }

  // ---------- what every step keeps ----------

  ghost predicate DoingOk(v: View, d: Doing) {
    && (Writer(d) ==> v.writeopen && d.i <= |d.bytes|)
    && (Reader(d) ==> v.readopen)
    && (d.WriterAsleep? ==> v.readopen && |v.sent| - v.taken == PIPESIZE)
  }

  /** Writers sleep only on a full pipe that can be read, and an end in use is open. */
  ghost predicate Inv(s: State) {
    Ok(s.pipe) && forall q :: 0 <= q < |s.procs| ==> DoingOk(s.pipe, s.procs[q])
  }

  /** No reader sleeps while there are bytes. */
  ghost predicate ReadersCalm(s: State) {
    forall q :: 0 <= q < |s.procs| && s.procs[q].ReaderAsleep? ==> |s.pipe.sent| == s.pipe.taken
  }

  lemma WritesKeep(s: State, p: nat, copyable: nat, killedAt: nat, s': State)
    requires Inv(s) && Writes(s, p, copyable, killedAt, s')
    ensures Inv(s')
  {
    assert DoingOk(s.pipe, s.procs[p]);
    forall q | 0 <= q < |s'.procs| ensures DoingOk(s'.pipe, s'.procs[q]) {
      assert DoingOk(s.pipe, s.procs[q]);
    }
  }

  lemma NextKeeps(s: State, a: Action, s': State)
    requires Inv(s) && Next(s, a, s')
    ensures Inv(s')
  {
    if a.Write? {
      WritesKeep(s, a.p, a.copyable, a.killedAt, s');
    } else {
      forall q | 0 <= q < |s'.procs| ensures DoingOk(s'.pipe, s'.procs[q]) {
        assert DoingOk(s.pipe, s.procs[q]);
      }
    }
  }

  /** While a reader sleeps and the pipe can be read, a writer is going to be killed past its first byte and before
      its last, at a byte it can copy and the pipe has room for. */
  ghost predicate LosesWakeup(s: State, a: Action) {
    && a.Write? && CanWrite(s, a.p, a.copyable, a.killedAt)
    && (exists q :: 0 <= q < |s.procs| && s.procs[q].ReaderAsleep?) && s.pipe.readopen
    && var bytes, i := s.procs[a.p].bytes, s.procs[a.p].i;
       i < a.killedAt < |bytes| && a.killedAt <= a.copyable
       && |s.pipe.sent| - s.pipe.taken + (a.killedAt - i) <= PIPESIZE
  }

  /** Exactly that step leaves a reader asleep over bytes. */
  lemma CalmUnlessLost(s: State, a: Action, s': State)
    requires Inv(s) && ReadersCalm(s) && Next(s, a, s')
    ensures ReadersCalm(s') <==> !LosesWakeup(s, a)
  {
    if a.Write? {
      WriteCalm(s, a, s');
    } else {
      forall q | 0 <= q < |s'.procs| && s'.procs[q].ReaderAsleep? ensures |s'.pipe.sent| == s'.pipe.taken {
        assert DoingOk(s.pipe, s.procs[q]);
      }
    }
  }

  lemma WriteCalm(s: State, a: Action, s': State)
    requires Inv(s) && ReadersCalm(s) && a.Write? && Writes(s, a.p, a.copyable, a.killedAt, s')
    ensures ReadersCalm(s') <==> !LosesWakeup(s, a)
  {
    var bytes, i := s.procs[a.p].bytes, s.procs[a.p].i;
    var j := WriteEnd(s.pipe, bytes, i, a.copyable, a.killedAt);
    assert |s'.pipe.sent| == |s.pipe.sent| + j - i;
    if LosesWakeup(s, a) {
      var q :| 0 <= q < |s.procs| && s.procs[q].ReaderAsleep?;
      assert s'.procs[q].ReaderAsleep?;
    } else {
      forall q | 0 <= q < |s'.procs| && s'.procs[q].ReaderAsleep? ensures |s'.pipe.sent| == s'.pipe.taken {
        assert s.procs[q].ReaderAsleep?;
      }
    }
  }

  // ---------- runs ----------

  ghost predicate Run(states: seq<State>, actions: seq<Action>) {
    && |states| == |actions| + 1
    && forall i :: 0 <= i < |actions| ==> Next(states[i], actions[i], states[i + 1])
  }

  ghost predicate Init(s: State) {
    s.pipe == Fresh && forall q :: 0 <= q < |s.procs| ==> s.procs[q] == Idle
  }

  lemma {:induction false} RunKeeps(states: seq<State>, actions: seq<Action>, i: nat)
    requires Run(states, actions) && Init(states[0]) && i < |states|
    ensures Inv(states[i])
  {
    if i > 0 {
      RunKeeps(states, actions, i - 1);
      NextKeeps(states[i - 1], actions[i - 1], states[i]);
    }
  }

  /** In every state of every run a sleeping writer faces a full pipe with a reader's end. */
  lemma WritersSleepOnFull(states: seq<State>, actions: seq<Action>, i: nat, q: nat)
    requires Run(states, actions) && Init(states[0]) && i < |states| && q < |states[i].procs|
    requires states[i].procs[q].WriterAsleep?
    ensures |states[i].pipe.sent| - states[i].pipe.taken == PIPESIZE && states[i].pipe.readopen
  {
    RunKeeps(states, actions, i);
    assert DoingOk(states[i].pipe, states[i].procs[q]);
  }

  lemma {:induction false} CalmUpTo(states: seq<State>, actions: seq<Action>, i: nat)
    requires Run(states, actions) && Init(states[0]) && i < |states|
    requires forall k :: 0 <= k < i ==> !LosesWakeup(states[k], actions[k])
    ensures ReadersCalm(states[i])
  {
    if i > 0 {
      CalmUpTo(states, actions, i - 1);
      RunKeeps(states, actions, i - 1);
      CalmUnlessLost(states[i - 1], actions[i - 1], states[i]);
    }
  }

  /** No reader sleeps over bytes anywhere in a run if and only if no writer is killed half-way through a
      stretch while a reader sleeps. */
  lemma NoReaderLeftAsleep(states: seq<State>, actions: seq<Action>)
    requires Run(states, actions) && Init(states[0])
    ensures (forall i :: 0 <= i < |states| ==> ReadersCalm(states[i]))
       <==> (forall i :: 0 <= i < |actions| ==> !LosesWakeup(states[i], actions[i]))
  {
    if forall i :: 0 <= i < |states| ==> ReadersCalm(states[i]) {
      forall i | 0 <= i < |actions| ensures !LosesWakeup(states[i], actions[i]) {
        RunKeeps(states, actions, i);
        assert ReadersCalm(states[i + 1]);
        CalmUnlessLost(states[i], actions[i], states[i + 1]);
      }
    }
    if forall i :: 0 <= i < |actions| ==> !LosesWakeup(states[i], actions[i]) {
      forall i | 0 <= i < |states| ensures ReadersCalm(states[i]) {
        CalmUpTo(states, actions, i);
      }
    }
  }

  /** The next stretch of a writer that is not cut off, or the end of the last writer, wakes every reader. */
  lemma NextWriterWakes(s: State, a: Action, s': State, q: nat)
    requires Inv(s) && Next(s, a, s') && q < |s'.procs|
    requires a == Close(true)
      || (a.Write? && WriteStop(s.pipe, s.procs[a.p].bytes, s.procs[a.p].i, a.copyable, a.killedAt) != Cut)
    ensures !s'.procs[q].ReaderAsleep?
  {
  }

  /** A writer goes on after a sleep with the byte after the last it put in: a stretch of its own puts in the bytes from
      its place to its next, and no other step moves it. It leaves only at the end of a stretch. */
  lemma WriterKeepsPlace(s: State, a: Action, s': State, p: nat)
    requires Inv(s) && Next(s, a, s') && p < |s.procs| && Writer(s.procs[p])
    ensures p < |s'.procs| && if a.Write? && a.p == p
      then
        exists j: nat :: s.procs[p].i <= j <= |s.procs[p].bytes|
          && s'.pipe.sent == s.pipe.sent + s.procs[p].bytes[s.procs[p].i..j]
          && (s'.procs[p] == Idle || (j < |s.procs[p].bytes| && s'.procs[p] == WriterAsleep(s.procs[p].bytes, j)))
      else Writer(s'.procs[p]) && s'.procs[p].bytes == s.procs[p].bytes && s'.procs[p].i == s.procs[p].i
  {
    assert DoingOk(s.pipe, s.procs[p]);
    if a.Write? && a.p == p {
      var j := WriteEnd(s.pipe, s.procs[p].bytes, s.procs[p].i, a.copyable, a.killedAt);
      assert s'.pipe.sent == s.pipe.sent + s.procs[p].bytes[s.procs[p].i..j];
    }
  }

  /** kill leaves nobody asleep on the pipe, and a reader that finds itself killed gives up instead of sleeping. */
  lemma KilledDoNotSleep(s: State, a: Action, s': State, p: nat)
    requires Next(s, a, s') && p < |s.procs| && (a == Kill(p) || (a.Read? && a.p == p && a.killed))
    ensures p < |s'.procs| && !s'.procs[p].ReaderAsleep? && !s'.procs[p].WriterAsleep?
    ensures a.Read? ==> s'.procs[p] == Idle
  {
  }

  /** It happens: a reader sleeps, a writer of two bytes is killed after the first. */
  lemma LostWakeupRun() returns (states: seq<State>, actions: seq<Action>)
    ensures Run(states, actions) && Init(states[0])
    ensures !ReadersCalm(states[|states| - 1])
  {
    var s0 := State(Fresh, [Idle, Idle]);
    var s1 := State(Fresh, [Reading(1), Idle]);
    var s2 := State(Fresh, [ReaderAsleep(1), Idle]);
    var s3 := State(Fresh, [ReaderAsleep(1), Writing([7, 8], 0)]);
    var s4 := State(Fresh.(sent := [7]), [ReaderAsleep(1), Idle]);
    states, actions := [s0, s1, s2, s3, s4],
      [StartRead(0, 1), Read(0, 1, false), StartWrite(1, [7, 8]), Write(1, 2, 1)];
    assert Next(s0, actions[0], s1);
    assert Next(s1, actions[1], s2);
    assert Next(s2, actions[2], s3);
    assert WriteEnd(Fresh, [7, 8], 0, 2, 1) == 1 && [] + [7, 8][0..1] == [7];
    assert Writes(s3, 1, 2, 1, s4);
    assert s4.procs[0].ReaderAsleep?;
  }
}
