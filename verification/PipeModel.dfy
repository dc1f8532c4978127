/** A pipe as a value: the bytes ever put in, how many of them have come out, and which ends are open.
    Writers and readers hold the pipe's lock except while they sleep, so what runs undivided is one
    stretch of copying; Effect and Result give what a stretch does in closed form. */
module PipeModel {

  const PIPESIZE: nat := 512

  datatype View = View(sent: seq<nat>, taken: nat, readopen: bool, writeopen: bool)

  /** How a stretch of writing ends: all copied (or a failed copy), pipe full, or cut off. */
  datatype Stop = Copied | Full | Cut

  /** In: a writer with bytes[i..] left, whose copy from user memory fails at bytes[copyable] and who finds
      itself killed on reaching bytes[killedAt]. Out: a reader of n bytes whose copy to user memory
      fails after copyable bytes. Shut: one end is closed for good. */
  datatype Transfer =
    | In(bytes: seq<nat>, i: nat, copyable: nat, killedAt: nat)
    | Out(n: nat, copyable: nat)
    | Shut(writable: bool)

  datatype Outcome =
    | Wrote(bytes: seq<nat>, stop: Stop)
    | Took(bytes: seq<nat>, lost: seq<nat>, sleeps: bool)
    | Closed(last: bool)

  const Fresh := View([], 0, true, true)

  predicate Ok(v: View) {
    v.taken <= |v.sent| <= v.taken + PIPESIZE
  }

  function Min(a: int, b: int): int {
    if a < b then a else b
  }

  /** Writers and readers have their end open, and an end is closed once. */
  predicate Possible(v: View, t: Transfer) {
    match t
    case In(bytes, i, copyable, killedAt) => v.writeopen && i <= |bytes| && i <= copyable && i <= killedAt
    case Out(n, copyable) => v.readopen
    case Shut(writable) => if writable then v.writeopen else v.readopen
  }

  /** Where a writer stops: at the end, at a failed copy, when killed, or when the pipe is full. */
  function WriteEnd(v: View, bytes: seq<nat>, i: nat, copyable: nat, killedAt: nat): (j: nat)
    requires Ok(v) && i <= |bytes| && i <= copyable && i <= killedAt
    ensures i <= j <= |bytes|
  {
    if !v.readopen then i
    else Min(Min(|bytes|, copyable), Min(killedAt, i + PIPESIZE - (|v.sent| - v.taken)))
  }

  function WriteStop(v: View, bytes: seq<nat>, i: nat, copyable: nat, killedAt: nat): Stop
    requires Ok(v) && i <= |bytes| && i <= copyable && i <= killedAt
  {
    var j := WriteEnd(v, bytes, i, copyable, killedAt);
    if j == |bytes| then Copied
    else if !v.readopen || j == killedAt then Cut
    else if |v.sent| - v.taken + j - i == PIPESIZE then Full
    else Copied
  }

  /** How many bytes a reader is given, and how many leave the pipe: one more if a copy fails. */
  function Given(v: View, n: nat, copyable: nat): nat
    requires Ok(v)
  {
    Min(copyable, Min(n, |v.sent| - v.taken))
  }

  function Removed(v: View, n: nat, copyable: nat): nat
    requires Ok(v)
  {
    Min(copyable + 1, Min(n, |v.sent| - v.taken))
  }

  function Effect(v: View, t: Transfer): (v': View)
    requires Ok(v) && Possible(v, t)
    ensures Ok(v')
  {
    match t
    case In(bytes, i, copyable, killedAt) => v.(sent := v.sent + bytes[i..WriteEnd(v, bytes, i, copyable, killedAt)])
    case Out(n, copyable) => v.(taken := v.taken + Removed(v, n, copyable))
    case Shut(writable) => if writable then v.(writeopen := false) else v.(readopen := false)
  }

  function Result(v: View, t: Transfer): Outcome
    requires Ok(v) && Possible(v, t)
  {
    match t
    case In(bytes, i, copyable, killedAt) =>
      Wrote(bytes[i..WriteEnd(v, bytes, i, copyable, killedAt)], WriteStop(v, bytes, i, copyable, killedAt))
    case Out(n, copyable) =>
      var given, removed := v.taken + Given(v, n, copyable), v.taken + Removed(v, n, copyable);
      Took(v.sent[v.taken..given], v.sent[given..removed], |v.sent| == v.taken && v.writeopen)
    case Shut(writable) => Closed(if writable then !v.readopen else !v.writeopen)
  }

  // ---------- runs ----------

  /** Each transfer is possible in the state in which it comes. */
  predicate Fits(v: View, ts: seq<Transfer>)
    requires Ok(v)
    decreases |ts|
  {
    ts != [] ==> Possible(v, ts[0]) && Fits(Effect(v, ts[0]), ts[1..])
  }

  function After(v: View, ts: seq<Transfer>): (v': View)
    requires Ok(v) && Fits(v, ts)
    ensures Ok(v')
    decreases |ts|
  {
    if ts == [] then v else After(Effect(v, ts[0]), ts[1..])
  }

  function Outcomes(v: View, ts: seq<Transfer>): (os: seq<Outcome>)
    requires Ok(v) && Fits(v, ts)
    ensures |os| == |ts|
    decreases |ts|
  {
    if ts == [] then [] else [Result(v, ts[0])] + Outcomes(Effect(v, ts[0]), ts[1..])
  }

  /** The bytes the writers copied in, one stretch after another. */
  function Written(os: seq<Outcome>): seq<nat> {
    if os == [] then [] else (if os[0].Wrote? then os[0].bytes else []) + Written(os[1..])
  }

  /** The bytes that left the pipe, with those a failed copy lost in their place. */
  function Consumed(os: seq<Outcome>): seq<nat> {
    if os == [] then [] else (if os[0].Took? then os[0].bytes + os[0].lost else []) + Consumed(os[1..])
  }

  /** What the readers got. */
  function Delivered(os: seq<Outcome>): seq<nat> {
    if os == [] then [] else (if os[0].Took? then os[0].bytes else []) + Delivered(os[1..])
  }

  /** A writer copies byte after byte for as long as somebody can read, it is not killed, the next byte can be copied in
      and there is room. It returns -1 exactly if it stops short because nobody can read, when not one byte is copied,
      or because it is killed; it sleeps exactly if it stops short at a full pipe otherwise. */
  lemma WriterStops(v: View, bytes: seq<nat>, i: nat, copyable: nat, killedAt: nat)
    requires Ok(v) && Possible(v, In(bytes, i, copyable, killedAt))
    ensures
      var o, v' := Result(v, In(bytes, i, copyable, killedAt)), Effect(v, In(bytes, i, copyable, killedAt));
      var j := i + |o.bytes|;
      && j <= |bytes| && o.bytes == bytes[i..j] && v'.sent == v.sent + bytes[i..j] && v'.taken == v.taken
      && (!v.readopen ==> j == i) && (v.readopen ==> j <= copyable && j <= killedAt)
      && var full := |v'.sent| == v'.taken + PIPESIZE;
         && (j < |bytes| ==> !v.readopen || j == killedAt || full || j == copyable)
         && (o.stop == Cut <==> j < |bytes| && (!v.readopen || j == killedAt))
         && (o.stop == Full <==> j < |bytes| && v.readopen && j != killedAt && full)
  {
  }

  /** A reader sleeps if and only if nothing is in the pipe and somebody can still write. It gets the oldest bytes, as
      many as it asks for and there are, unless a copy to it fails: that byte is lost, and it gets those before. */
  lemma ReaderStops(v: View, n: nat, copyable: nat)
    requires Ok(v) && Possible(v, Out(n, copyable))
    ensures
      var o, v' := Result(v, Out(n, copyable)), Effect(v, Out(n, copyable));
      var there, got := |v.sent| - v.taken, |o.bytes|;
      && (o.sleeps <==> there == 0 && v.writeopen)
      && got <= n && got <= there && got <= copyable && (got == n || got == there || got == copyable)
      && o.bytes == v.sent[v.taken..v.taken + got]
      && |o.lost| == (if got < n && got < there then 1 else 0)
      && v' == v.(taken := v.taken + got + |o.lost|)
  {
  }

  /** Closing an end closes that end and nothing else, and tells whether the other was closed already. */
  lemma ShutCloses(v: View, writable: bool)
    requires Ok(v) && Possible(v, Shut(writable))
    ensures
      var v' := Effect(v, Shut(writable));
      && v'.sent == v.sent && v'.taken == v.taken
      && v'.writeopen == (v.writeopen && !writable) && v'.readopen == (v.readopen && writable)
      && Result(v, Shut(writable)) == Closed(!v'.readopen && !v'.writeopen)
  {
  }

  /** One stretch puts its bytes behind the others, and takes the oldest. */
  lemma StepInOrder(v: View, t: Transfer)
    requires Ok(v) && Possible(v, t)
    ensures var o, v' := Result(v, t), Effect(v, t);
      && v'.sent == v.sent + (if o.Wrote? then o.bytes else [])
      && v.taken <= v'.taken && v'.sent[v.taken..v'.taken] == if o.Took? then o.bytes + o.lost else []
  {
    if t.Out? {
      var given, removed := v.taken + Given(v, t.n, t.copyable), v.taken + Removed(v, t.n, t.copyable);
      assert v.sent[v.taken..given] + v.sent[given..removed] == v.sent[v.taken..removed];
    }
  }

  lemma Slices(a: seq<nat>, b: seq<nat>, i: nat, j: nat, k: nat)
    requires i <= j <= |a| && j <= k <= |a + b|
    ensures (a + b)[i..k] == a[i..j] + (a + b)[j..k]
  {
  }

  /** In every order of stretches and closes, what is in the pipe's history is what the writers copied, in
      order, what came out is its beginning, and at most PIPESIZE bytes are inside. */
  lemma {:induction false} InOrder(v: View, ts: seq<Transfer>)
    requires Ok(v) && Fits(v, ts)
    ensures var os, v' := Outcomes(v, ts), After(v, ts);
      && v'.sent == v.sent + Written(os)
      && v.taken <= v'.taken <= |v'.sent| <= v'.taken + PIPESIZE
      && v'.sent[v.taken..v'.taken] == Consumed(os)
    decreases |ts|
  {
    hide Effect, Result, Possible;
    if ts != [] {
      var v1, v', o, os := Effect(v, ts[0]), After(v, ts), Result(v, ts[0]), Outcomes(Effect(v, ts[0]), ts[1..]);
      StepInOrder(v, ts[0]);
      InOrder(v1, ts[1..]);
      assert Outcomes(v, ts)[1..] == os;
      Slices(v1.sent, Written(os), v.taken, v1.taken, v'.taken);
    }
  }

  /** Bytes go missing only where a copy to user memory fails. */
  lemma {:induction false} NothingLost(v: View, ts: seq<Transfer>)
    requires Ok(v) && Fits(v, ts) && forall t :: t in ts && t.Out? ==> t.n <= t.copyable
    ensures Delivered(Outcomes(v, ts)) == Consumed(Outcomes(v, ts))
    decreases |ts|
  {
    if ts != [] {
      assert ts[0] in ts;
      NothingLost(Effect(v, ts[0]), ts[1..]);
    }
  }

  /** FIFO: from a new pipe, what the readers got is the beginning of what the writers copied in. */
  lemma Fifo(ts: seq<Transfer>)
    requires Fits(Fresh, ts) && forall t :: t in ts && t.Out? ==> t.n <= t.copyable
    ensures Delivered(Outcomes(Fresh, ts)) <= Written(Outcomes(Fresh, ts))
  {
    InOrder(Fresh, ts);
    NothingLost(Fresh, ts);
    var v' := After(Fresh, ts);
    assert v'.sent == Written(Outcomes(Fresh, ts));
    assert v'.sent[0..v'.taken] == v'.sent[..v'.taken];
  }

  /** Once no end for writing is open, nothing more goes in. */
  lemma {:induction false} ShutStays(v: View, ts: seq<Transfer>)
    requires Ok(v) && Fits(v, ts) && !v.writeopen
    ensures After(v, ts).sent == v.sent
    decreases |ts|
  {
    if ts != [] { ShutStays(Effect(v, ts[0]), ts[1..]); }
  }

  /** A reader told of the end of file, at any point of a run, has been given all there will ever be. */
  lemma EndIsTheEnd(v: View, n: nat, copyable: nat, rest: seq<Transfer>)
    requires Ok(v) && n > 0 && copyable > 0 && Fits(v, [Out(n, copyable)] + rest)
    requires Result(v, Out(n, copyable)) == Took([], [], false)
    ensures v.taken == |v.sent| && !v.writeopen && After(v, [Out(n, copyable)] + rest).sent == v.sent
  {
    assert |v.sent[v.taken..v.taken + Given(v, n, copyable)]| == 0;
    ShutStays(v, [Out(n, copyable)] + rest);
  }

  // ---------- records ----------

  /** The bytes of records one after another. */
  function Flat(recs: seq<seq<nat>>): seq<nat> {
    if recs == [] then [] else recs[0] + Flat(recs[1..])
  }

  predicate AllOf(recs: seq<seq<nat>>, k: nat) {
    forall i :: 0 <= i < |recs| ==> |recs[i]| == k
  }

  lemma {:induction false} FlatLength(recs: seq<seq<nat>>, k: nat)
    requires AllOf(recs, k)
    ensures |Flat(recs)| == |recs| * k
  {
    if recs != [] { FlatLength(recs[1..], k); }
  }

  lemma {:induction false} FlatAdd(recs: seq<seq<nat>>, rec: seq<nat>)
    ensures Flat(recs + [rec]) == Flat(recs) + rec
  {
    if recs != [] {
      FlatAdd(recs[1..], rec);
      assert (recs + [rec])[1..] == recs[1..] + [rec];
    }
  }

  datatype Event = Send(rec: seq<nat>) | Receive

  predicate Sized(events: seq<Event>, k: nat) {
    forall i :: 0 <= i < |events| ==> events[i].Send? ==> |events[i].rec| == k
  }

  /** Sending a record of k bytes, or asking for one. */
  function Transfers(k: nat, events: seq<Event>): (ts: seq<Transfer>)
    ensures |ts| == |events|
  {
    seq(|events|, i requires 0 <= i < |events| => if events[i].Send? then In(events[i].rec, 0, k, k) else Out(k, k))
  }

  lemma TransfersTail(k: nat, events: seq<Event>)
    requires events != []
    ensures Transfers(k, events)[1..] == Transfers(k, events[1..])
  {
  }

  /** The answers of a queue that holds up to cap records: a sender finds room or waits, a receiver gets
      the oldest record or waits. */
  function QueueOutcomes(cap: nat, held: seq<seq<nat>>, events: seq<Event>): seq<Outcome>
    decreases |events|
  {
    if events == [] then []
    else match events[0]
      case Send(rec) =>
        if |held| < cap then [Wrote(rec, Copied)] + QueueOutcomes(cap, held + [rec], events[1..])
        else [Wrote([], Full)] + QueueOutcomes(cap, held, events[1..])
      case Receive =>
        if held == [] then [Took([], [], true)] + QueueOutcomes(cap, held, events[1..])
        else [Took(held[0], [], false)] + QueueOutcomes(cap, held[1..], events[1..])
  }

  /** The pipe holds exactly these records. */
  ghost predicate Holds(v: View, held: seq<seq<nat>>, k: nat) {
    Ok(v) && v.readopen && v.writeopen && AllOf(held, k) && v.sent[v.taken..] == Flat(held)
  }

  /** Records that are not as many as fit leave room for one more. */
  lemma RoomForOne(n: nat, k: nat)
    requires k > 0 && PIPESIZE % k == 0 && n * k <= PIPESIZE
    ensures n < PIPESIZE / k <==> n * k < PIPESIZE
    ensures n < PIPESIZE / k ==> n * k + k <= PIPESIZE
  {
    var cap := PIPESIZE / k;
    assert cap * k == PIPESIZE;
    if n < cap {
      assert (n + 1) * k <= cap * k;
    } else {
      assert cap * k <= n * k;
    }
  }

  /** A sender of a whole record puts all of it in, or nothing because the pipe is full of records. */
  lemma SendWhole(v: View, held: seq<seq<nat>>, k: nat, rec: seq<nat>)
    requires Holds(v, held, k) && k > 0 && PIPESIZE % k == 0 && |rec| == k
    ensures var t := In(rec, 0, k, k);
      if |held| < PIPESIZE / k then Result(v, t) == Wrote(rec, Copied) && Holds(Effect(v, t), held + [rec], k)
      else Result(v, t) == Wrote([], Full) && Effect(v, t) == v
  {
    FlatLength(held, k);
    RoomForOne(|held|, k);
    assert rec[0..k] == rec;
    if |held| < PIPESIZE / k {
      FlatAdd(held, rec);
      assert (v.sent + rec)[v.taken..] == v.sent[v.taken..] + rec;
    } else {
      assert rec[0..0] == [];
      assert v.sent + [] == v.sent;
    }
  }

  /** A receiver of k bytes gets exactly the oldest record. */
  lemma ReceiveWhole(v: View, held: seq<seq<nat>>, k: nat)
    requires Holds(v, held, k) && k > 0
    ensures var t := Out(k, k);
      if held == [] then Result(v, t) == Took([], [], true) && Effect(v, t) == v
      else Result(v, t) == Took(held[0], [], false) && Holds(Effect(v, t), held[1..], k)
  {
    if held != [] {
      assert |held[0]| == k;
      assert v.sent[v.taken..][..k] == held[0];
      assert v.sent[v.taken..v.taken + k] == v.sent[v.taken..][..k];
      assert v.sent[v.taken + k..] == v.sent[v.taken..][k..];
    }
  }

  /** If k divides PIPESIZE, the pipe is a queue of PIPESIZE / k records: in every run of senders and receivers
      of k bytes, records go in whole or not at all and come out whole, in order. */
  lemma {:induction false} RecordsWhole(v: View, held: seq<seq<nat>>, k: nat, events: seq<Event>)
    requires Holds(v, held, k) && k > 0 && PIPESIZE % k == 0 && Sized(events, k)
    ensures Fits(v, Transfers(k, events))
    ensures Outcomes(v, Transfers(k, events)) == QueueOutcomes(PIPESIZE / k, held, events)
    decreases |events|
  {
    if events != [] {
      TransfersTail(k, events);
      match events[0] {
        case Send(rec) =>
          SendWhole(v, held, k, rec);
          RecordsWhole(Effect(v, In(rec, 0, k, k)), if |held| < PIPESIZE / k then held + [rec]
            else held, k, events[1..]);
        case Receive =>
          ReceiveWhole(v, held, k);
          RecordsWhole(Effect(v, Out(k, k)), if held == [] then held else held[1..], k, events[1..]);
      }
    }
  }

  // ---------- records that do not divide the pipe ----------

  lemma {:induction false} RunsJoin(v: View, a: seq<Transfer>, b: seq<Transfer>)
    requires Ok(v) && Fits(v, a) && Fits(After(v, a), b)
    ensures Fits(v, a + b) && After(v, a + b) == After(After(v, a), b)
    ensures Outcomes(v, a + b) == Outcomes(v, a) + Outcomes(After(v, a), b)
    decreases |a|
  {
    if a == [] {
      assert a + b == b;
    } else {
      assert (a + b)[1..] == a[1..] + b;
      RunsJoin(Effect(v, a[0]), a[1..], b);
    }
  }

  function SendAll(recs: seq<seq<nat>>, k: nat): seq<Transfer> {
    if recs == [] then [] else [In(recs[0], 0, k, k)] + SendAll(recs[1..], k)
  }

  function ReceiveAll(n: nat, k: nat): seq<Transfer> {
    if n == 0 then [] else [Out(k, k)] + ReceiveAll(n - 1, k)
  }

  function WroteAll(recs: seq<seq<nat>>): seq<Outcome> {
    if recs == [] then [] else [Wrote(recs[0], Copied)] + WroteAll(recs[1..])
  }

  function TookAll(recs: seq<seq<nat>>): seq<Outcome> {
    if recs == [] then [] else [Took(recs[0], [], false)] + TookAll(recs[1..])
  }

  /** Whole records go in as long as there is room for all of them. */
  lemma {:induction false} Filling(v: View, held: seq<seq<nat>>, recs: seq<seq<nat>>, k: nat)
    requires Holds(v, held, k) && AllOf(recs, k) && k > 0 && (|held| + |recs|) * k <= PIPESIZE
    ensures Fits(v, SendAll(recs, k)) && Outcomes(v, SendAll(recs, k)) == WroteAll(recs)
    ensures Holds(After(v, SendAll(recs, k)), held + recs, k)
    decreases |recs|
  {
    if recs == [] {
      assert held + recs == held;
    } else {
      FlatLength(held, k);
      var t := In(recs[0], 0, k, k);
      assert |held| * k + k <= PIPESIZE by { Scaled(|held| + 1, |held| + |recs|, k); }
      assert recs[0][0..k] == recs[0];
      FlatAdd(held, recs[0]);
      assert (v.sent + recs[0])[v.taken..] == v.sent[v.taken..] + recs[0];
      Filling(Effect(v, t), held + [recs[0]], recs[1..], k);
      assert held + [recs[0]] + recs[1..] == held + recs;
    }
  }

  lemma Scaled(a: nat, b: nat, k: nat)
    requires a <= b
    ensures a * k <= b * k
  {
  }

  /** Whole records come out before a shorter rest, which a last read gets alone. */
  lemma {:induction false} Draining(v: View, held: seq<seq<nat>>, rest: seq<nat>, k: nat)
    requires Ok(v) && v.readopen && AllOf(held, k) && 0 < |rest| < k && v.sent[v.taken..] == Flat(held) + rest
    ensures Fits(v, ReceiveAll(|held| + 1, k))
    ensures Outcomes(v, ReceiveAll(|held| + 1, k)) == TookAll(held) + [Took(rest, [], false)]
    decreases |held|
  {
    var t := Out(k, k);
    if held == [] {
      assert v.sent[v.taken..v.taken + |rest|] == rest;
      assert v.sent[v.taken + |rest|..v.taken + |rest|] == [];
      assert Result(v, t) == Took(rest, [], false);
      assert ReceiveAll(1, k) == [t];
      assert Outcomes(v, [t]) == [Result(v, t)] + Outcomes(Effect(v, t), []);
    } else {
      DrainOne(v, held, rest, k);
      Draining(Effect(v, t), held[1..], rest, k);
      assert ReceiveAll(|held| + 1, k) == [t] + ReceiveAll(|held|, k);
      assert ([t] + ReceiveAll(|held|, k))[1..] == ReceiveAll(|held|, k);
    }
  }

  lemma DrainOne(v: View, held: seq<seq<nat>>, rest: seq<nat>, k: nat)
    requires Ok(v) && v.readopen && AllOf(held, k) && held != [] && v.sent[v.taken..] == Flat(held) + rest && k > 0
    ensures Result(v, Out(k, k)) == Took(held[0], [], false)
    ensures var v' := Effect(v, Out(k, k));
      v'.sent == v.sent && v'.readopen && v'.sent[v'.taken..] == Flat(held[1..]) + rest
  {
    Front(v.sent, v.taken, held[0], Flat(held[1..]) + rest);
    assert held[0] + (Flat(held[1..]) + rest) == Flat(held) + rest;
  }

  /** The first part of what is left from t on. */
  lemma Front(s: seq<nat>, t: nat, a: seq<nat>, b: seq<nat>)
    requires t <= |s| && s[t..] == a + b
    ensures t + |a| <= |s| && s[t..t + |a|] == a && s[t + |a|..] == b
  {
    assert |s[t..]| == |a| + |b|;
    assert s[t..t + |a|] == s[t..][..|a|];
    assert s[t + |a|..] == s[t..][|a|..];
  }

  /** What a full pipe does to the next writer. */
  lemma Splitting(v: View, held: seq<seq<nat>>, rec: seq<nat>, k: nat)
    requires Holds(v, held, k) && |rec| == k > 0 && PIPESIZE % k != 0 && |held| == PIPESIZE / k
    ensures var t, rem := In(rec, 0, k, k), PIPESIZE % k;
      && Result(v, t) == Wrote(rec[..rem], Full)
      && Effect(v, t).sent == v.sent + rec[..rem] && Effect(v, t).taken == v.taken
  {
    FlatLength(held, k);
    assert |held| * k + PIPESIZE % k == PIPESIZE;
    assert rec[0..PIPESIZE % k] == rec[..PIPESIZE % k];
  }

  /** If k does not divide PIPESIZE, records do get split: with as many in the pipe as fit whole, the next
      writer puts in the first PIPESIZE % k bytes of its record and sleeps; and readers of k bytes then get
      the whole records and one short read. */
  lemma RecordSplits(k: nat, recs: seq<seq<nat>>, rec: seq<nat>)
    requires k > 0 && PIPESIZE % k != 0 && AllOf(recs, k) && |recs| == PIPESIZE / k && |rec| == k
    ensures var ts, rem := SendAll(recs, k) + ([In(rec, 0, k, k)] + ReceiveAll(|recs| + 1, k)), PIPESIZE % k;
      && Fits(Fresh, ts) && 0 < rem < k
      && Outcomes(Fresh, ts) ==
        WroteAll(recs) + ([Wrote(rec[..rem], Full)] + (TookAll(recs) + [Took(rec[..rem], [], false)]))
  {
    hide Result, Effect, Fits, Outcomes, After, Holds, AllOf, Possible;
    assert 0 < PIPESIZE % k < k;
    FillingFresh(recs, k);
    var v, t, rest := After(Fresh, SendAll(recs, k)), In(rec, 0, k, k), ReceiveAll(|recs| + 1, k);
    OneThen(v, t, rest, recs, rec, k);
    RunsJoin(Fresh, SendAll(recs, k), [t] + rest);
  }

  lemma FillingFresh(recs: seq<seq<nat>>, k: nat)
    requires AllOf(recs, k) && k > 0 && |recs| == PIPESIZE / k
    ensures Fits(Fresh, SendAll(recs, k)) && Outcomes(Fresh, SendAll(recs, k)) == WroteAll(recs)
    ensures Holds(After(Fresh, SendAll(recs, k)), recs, k)
  {
    Filling(Fresh, [], recs, k);
    assert [] + recs == recs;
  }

  lemma OneThen(v: View, t: Transfer, rest: seq<Transfer>, recs: seq<seq<nat>>, rec: seq<nat>, k: nat)
    requires Holds(v, recs, k) && |rec| == k > 0 && PIPESIZE % k != 0 && |recs| == PIPESIZE / k
    requires t == In(rec, 0, k, k) && rest == ReceiveAll(|recs| + 1, k)
    ensures var rem := PIPESIZE % k;
      && Fits(v, [t] + rest)
      && Outcomes(v, [t] + rest) == [Wrote(rec[..rem], Full)] + (TookAll(recs) + [Took(rec[..rem], [], false)])
  {
    Splitting(v, recs, rec, k);
    var v1 := Effect(v, t);
    assert v1.sent[v1.taken..] == v.sent[v.taken..] + rec[..PIPESIZE % k];
    Draining(v1, recs, rec[..PIPESIZE % k], k);
    assert ([t] + rest)[1..] == rest;
  }
}
