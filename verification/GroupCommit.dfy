/** The space reservation of begin_op, end_op and log_write (kernel/log.c): which runs of the
    log's admission protocol can panic. */
module GroupCommit {
  import opened Blocks
  import Storage
  import CommitSteps

  /** The admission state: log.size, log.lh, the outstanding operations with the number of
      blocks each has added, and log.committing. */
  datatype Group = Group(size: nat, lh: seq<nat>, ops: map<nat, nat>, committing: bool)

  datatype Action = Begin(tid: nat) | Log(tid: nat, blockno: nat) | End(tid: nat) | Clear | Done

  predicate Panics(g: Group) {
    Storage.LogWritePanics(g.size, |g.lh|, |g.ops|)
  }

  /** One step of the protocol. An operation adds at most MAXOPBLOCKS blocks. */
  ghost predicate Next(g: Group, a: Action, g': Group) {
    match a
    case Begin(t) =>
      && t !in g.ops && !g.committing && |g.lh| + (|g.ops| + 1) * MAXOPBLOCKS <= LOGSIZE
      && g' == g.(ops := g.ops[t := 0])
    case Log(t, b) =>
      && t in g.ops && !Panics(g)
      && if b in g.lh then g' == g
         else g.ops[t] < MAXOPBLOCKS && g' == g.(lh := g.lh + [b], ops := g.ops[t := g.ops[t] + 1])
    case End(t) =>
      t in g.ops && !g.committing && g' == g.(ops := g.ops - {t}, committing := g.ops.Keys == {t})
    case Clear => g.committing && g' == g.(lh := [])
    case Done => g.committing && g.lh == [] && g' == g.(committing := false)
  }

  ghost predicate Steps(g: Group, g': Group) {
    exists a: Action :: Next(g, a, g')
  }

  ghost predicate Run(run: seq<Group>) {
    |run| > 0 && run[0].lh == [] && run[0].ops == map[] && !run[0].committing
    && forall i :: 0 <= i < |run| - 1 ==> Steps(run[i], run[i + 1])
  }

  // ---------- reservations ----------

  /** Blocks the outstanding operations may still add. */
  ghost function Unspent(ops: map<nat, nat>): int
    decreases |ops|
  {
    if ops == map[] then 0
    else
      var t :| t in ops;
      assert |ops - {t}| < |ops| by { assert (ops - {t}).Keys == ops.Keys - {t}; }
      MAXOPBLOCKS - ops[t] + Unspent(ops - {t})
  }

  /** The sum does not depend on the order in which operations are taken. */
  lemma {:induction false} UnspentWithout(ops: map<nat, nat>, t: nat)
    requires t in ops
    ensures Unspent(ops) == MAXOPBLOCKS - ops[t] + Unspent(ops - {t})
    decreases |ops|
  {
    var u: nat :| u in ops && Unspent(ops) == MAXOPBLOCKS - ops[u] + Unspent(ops - {u});
    if u != t {
      assert (ops - {u}).Keys == ops.Keys - {u};
      assert (ops - {t}).Keys == ops.Keys - {t};
      UnspentWithout(ops - {u}, t);
      UnspentWithout(ops - {t}, u);
      assert (ops - {u}) - {t} == (ops - {t}) - {u};
    }
  }

  lemma UnspentUpdate(ops: map<nat, nat>, t: nat, n: nat)
    ensures Unspent(ops[t := n]) == MAXOPBLOCKS - n + Unspent(ops - {t})
  {
    UnspentWithout(ops[t := n], t);
    assert ops[t := n] - {t} == ops - {t};
  }

  ghost predicate Inv(g: Group) {
    && |g.lh| + Unspent(g.ops) <= LOGSIZE
    && (forall t :: t in g.ops ==> g.ops[t] <= MAXOPBLOCKS)
    && (g.committing ==> g.ops == map[])
  }

  lemma {:induction false} UnspentBounds(ops: map<nat, nat>)
    requires forall t :: t in ops ==> ops[t] <= MAXOPBLOCKS
    ensures 0 <= Unspent(ops) <= |ops| * MAXOPBLOCKS
    decreases |ops|
  {
    if ops != map[] {
      var t :| t in ops;
      assert (ops - {t}).Keys == ops.Keys - {t};
      UnspentWithout(ops, t);
      UnspentBounds(ops - {t});
    }
  }

  lemma NextKeeps(g: Group, a: Action, g': Group)
    requires Inv(g) && Next(g, a, g')
    ensures Inv(g')
  {
    match a
    case Begin(t) =>
      UnspentUpdate(g.ops, t, 0);
      assert g.ops - {t} == g.ops;
      UnspentBounds(g.ops);
    case Log(t, b) =>
      UnspentWithout(g.ops, t);
      if b !in g.lh { UnspentUpdate(g.ops, t, g.ops[t] + 1); }
    case End(t) =>
      UnspentWithout(g.ops, t);
      assert (g.ops - {t}).Keys == g.ops.Keys - {t};
      if g'.committing { assert g'.ops == map[]; }
    case Clear =>
    case Done =>
  }

  /** In every run the blocks logged plus all unspent reservations fit in the log, and a commit
      never overlaps an operation, so end_op's panic is unreachable. */
  lemma {:induction false} ReservationsFit(run: seq<Group>, i: nat)
    requires Run(run) && i < |run|
    ensures |run[i].lh| + Unspent(run[i].ops) <= LOGSIZE
    ensures run[i].committing ==> run[i].ops == map[]
    ensures Inv(run[i])
  {
    if i > 0 {
      ReservationsFit(run, i - 1);
      assert Steps(run[i - 1], run[i - 1 + 1]);
      var a: Action :| Next(run[i - 1], a, run[i]);
      NextKeeps(run[i - 1], a, run[i]);
    }
  }

  /** With a log area larger than LOGSIZE, an operation within its reservation that logs a new
      block never panics. */
  lemma RoomForReserved(run: seq<Group>, i: nat, t: nat)
    requires Run(run) && i < |run| && t in run[i].ops && run[i].ops[t] < MAXOPBLOCKS
    requires run[i].size > LOGSIZE
    ensures !Panics(run[i])
  {
    ReservationsFit(run, i);
    var g := run[i];
    UnspentWithout(g.ops, t);
    var rest := g.ops - {t};
    UnspentBounds(rest);
  }

  // ---------- and without the larger area ----------

  function Clamp(n: int): nat {
    if n < 0 then 0 else if n > MAXOPBLOCKS then MAXOPBLOCKS else n
  }

  /** Three operations have logged blocks 0 .. k - 1 between them, ten each in turn. */
  function Busy(size: nat, k: nat): Group {
    Group(size, seq(k, i => i), map[0 := Clamp(k), 1 := Clamp(k - 10), 2 := Clamp(k - 20)], false)
  }

  /** Such a state is reached in k + 3 steps for any k that the checks of log_write let through. */
  lemma {:induction false} BusyReachable(size: nat, k: nat) returns (run: seq<Group>)
    requires k <= LOGSIZE && k < size
    ensures Run(run) && run[|run| - 1] == Busy(size, k)
  {
    if k == 0 {
      var g0 := Group(size, [], map[], false);
      var g1 := g0.(ops := map[0 := 0]);
      var g2 := g1.(ops := map[0 := 0, 1 := 0]);
      var g3 := g2.(ops := map[0 := 0, 1 := 0, 2 := 0]);
      assert Next(g0, Begin(0), g1) && Next(g1, Begin(1), g2) && Next(g2, Begin(2), g3);
      run := [g0, g1, g2, g3];
    } else {
      var before := BusyReachable(size, k - 1);
      var g, g' := Busy(size, k - 1), Busy(size, k);
      var t := (k - 1) / MAXOPBLOCKS;
      assert g'.lh == g.lh + [k - 1];
      assert g'.ops == g.ops[t := g.ops[t] + 1];
      assert Next(g, Log(t, k - 1), g');
      run := before + [g'];
      forall i | 0 <= i < |run| - 1 ensures Steps(run[i], run[i + 1]) {
        if i < |before| - 1 { assert Steps(before[i], before[i + 1]); } else { assert Steps(g, g'); }
      }
    }
  }

  /** A log area of LOGSIZE blocks or fewer, which is what mkfs lays out, is too small for the
      reservations begin_op grants: some run brings an operation that is within its reservation to
      log a new block, and log_write panics. Together with RoomForReserved: the panic is ruled out
      exactly when log.size exceeds LOGSIZE. */
  lemma SmallAreaPanics(size: nat) returns (run: seq<Group>, t: nat, b: nat)
    requires 1 <= size <= LOGSIZE
    ensures Run(run) && run[|run| - 1].size == size
    ensures var g := run[|run| - 1];
      t in g.ops && g.ops[t] < MAXOPBLOCKS && b !in g.lh && Panics(g)
  {
    run := BusyReachable(size, size - 1);
    t, b := (size - 1) / MAXOPBLOCKS, size;
  }

  /** log_write tests for room before it looks for absorption: with a full log even rewriting a
      block that is already logged panics, whatever the size of the area. */
  lemma FullLogPanicsOnAbsorption(size: nat) returns (run: seq<Group>, t: nat, b: nat)
    requires size > LOGSIZE
    ensures Run(run) && run[|run| - 1].size == size
    ensures var g := run[|run| - 1];
      t in g.ops && b in g.lh && Panics(g)
  {
    run := BusyReachable(size, LOGSIZE);
    t, b := 0, 0;
    assert Busy(size, LOGSIZE).lh[0] == 0;
  }

  // ---------- the storage machine follows the protocol ----------

  function Admission(s: Storage.State): Group {
    Group(s.layout.size, s.lh, s.ops, !s.phase.Idle?)
  }

  lemma EndFollows(s: Storage.State, t: nat, s': Storage.State)
    requires Storage.Shaped(s) && Storage.End(s, t, s') && (!s.phase.Idle? ==> s.ops == map[])
    ensures Next(Admission(s), End(t), Admission(s'))
  {
    hide Storage.Shaped;
    assert s'.ops.Keys == s.ops.Keys - {t};
    if s'.ops == map[] {
      assert s.ops.Keys - {t} == {};
      assert s.ops.Keys == {t};
    }
  }

  /** Every step of the storage machine that keeps operations within MAXOPBLOCKS blocks is a step
      of this protocol or leaves the admission state alone. */
  lemma StorageFollows(s: Storage.State, a: Storage.Action, s': Storage.State)
    requires Storage.Inv(s) && Storage.Next(s, a, s')
    requires forall t :: t in s'.ops ==> s'.ops[t] <= MAXOPBLOCKS
    ensures Admission(s') == Admission(s) || Steps(Admission(s), Admission(s'))
  {
    hide Storage.BufOk, Storage.HomeOk, Storage.PinsCached, CommitSteps.LogOne, CommitSteps.HeadOne,
      CommitSteps.InstallOne;
    var g, g' := Admission(s), Admission(s');
    match a
    case BeginOp(t) => assert Next(g, Begin(t), g');
    case EndOp(t) => EndFollows(s, t, s');
    case LogWrite(t, i) =>
      var b := s.cache.bufs[i].blockno;
      assert s'.ops[t] <= MAXOPBLOCKS;
      assert Next(g, Log(t, b), g');
    case CommitStep =>
      if s.phase.Finished? {
        assert Next(g, Done, g');
      } else if s.phase.Installing? && s.phase.t >= |s.lh| {
        assert Next(g, Clear, g');
      }
    case _ =>
  }

  /** So in every run of the storage machine whose operations keep to MAXOPBLOCKS blocks, the
      reservations fit, no commit overlaps an operation, and with a log area larger than LOGSIZE
      no operation within its reservation can make log_write panic. */
  lemma {:induction false} StorageReservations(run: seq<Storage.State>, i: nat)
    requires Storage.Run(run) && i < |run|
    requires forall k, t :: 0 <= k <= i && t in run[k].ops ==> run[k].ops[t] <= MAXOPBLOCKS
    ensures Inv(Admission(run[i]))
    ensures forall t :: t in run[i].ops && run[i].ops[t] < MAXOPBLOCKS && run[i].layout.size > LOGSIZE
              ==> !Storage.LogWritePanics(run[i].layout.size, |run[i].lh|, |run[i].ops|)
  {
    hide Storage.Inv, Storage.Next, Storage.Shaped;
    if i > 0 {
      StorageReservations(run, i - 1);
      Storage.RunKeeps(run, i - 1);
      assert Storage.StepBy(run[i - 1], run[i - 1 + 1]);
      var a: Storage.Action :| Storage.Next(run[i - 1], a, run[i]);
      StorageFollows(run[i - 1], a, run[i]);
      if Admission(run[i]) != Admission(run[i - 1]) {
        var b: Action :| Next(Admission(run[i - 1]), b, Admission(run[i]));
        NextKeeps(Admission(run[i - 1]), b, Admission(run[i]));
      }
    }
    forall t | t in run[i].ops && run[i].ops[t] < MAXOPBLOCKS && run[i].layout.size > LOGSIZE
      ensures !Storage.LogWritePanics(run[i].layout.size, |run[i].lh|, |run[i].ops|)
    {
      UnspentWithout(run[i].ops, t);
      var rest := run[i].ops - {t};
      UnspentBounds(rest);
    }
  }
}
