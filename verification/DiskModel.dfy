/** The disk as its callers see it: buffers, the medium, and up to two requests in flight, without rings and
    descriptors. */
module DiskModel {
  import opened Counting

  datatype Buf = Buf(blockno: nat, data: seq<nat>, disk: bool)

  datatype Phase = Published | Working | Done | Seen

  datatype Req = Req(write: bool, phase: Phase)

  /** Requests are named by their buffers; queued are those the device has still to fetch, done those whose
      completion has still to be seen, both in order. */
  datatype View = View(bufs: map<nat, Buf>, store: seq<seq<nat>>, reqs: map<nat, Req>, queued: seq<nat>, done: seq<nat>)

  /** The sections that run one at a time: driver and handler hold vdisk_lock, the device does one
      thing to the shared memory at a time. Load is the owner of an idle buffer using it. */
  datatype Event =
    | Submit(buf: nat, write: bool)
    | Fetch
    | Complete(buf: nat)
    | Handle
    | Collect(buf: nat)
    | Load(buf: nat, blockno: nat, data: seq<nat>)

  datatype Answer = Acted(ok: bool) | Transferred(data: seq<nat>)

  const MAXREQS: nat := 2        // three of eight descriptors each

  /** A caller has locked its buffer, and no two buffers are for the same block, so a request for a buffer or a
      block in flight is not made; and the device completes what it has fetched, once. */
  ghost predicate Possible(v: View, e: Event) {
    match e
    case Submit(b, write) =>
      && b in v.bufs && b !in v.reqs && v.bufs[b].blockno < |v.store|
      && forall x :: x in v.reqs && x in v.bufs ==> v.bufs[x].blockno != v.bufs[b].blockno
    case Fetch => true
    case Complete(b) => b in v.reqs && v.reqs[b].phase == Working
    case Handle => true
    case Collect(b) => b in v.reqs && v.reqs[b].phase == Seen
    case Load(b, blockno, data) => b !in v.reqs
  }

  /** What holds between events. */
  ghost predicate Ok(v: View) {
    && |v.reqs| <= MAXREQS
    && (forall b :: b in v.reqs ==> ReqOk(v, b))
    && (forall a, b :: a in v.reqs && b in v.reqs ==> OtherBlock(v, a, b))
    && Line(v.reqs, v.queued, Published) && Line(v.reqs, v.done, Done)
  }

  /** Different requests are for different blocks. */
  ghost predicate OtherBlock(v: View, a: nat, b: nat) {
    a in v.bufs && b in v.bufs && a != b ==> v.bufs[a].blockno != v.bufs[b].blockno
  }

  ghost predicate Line(reqs: map<nat, Req>, line: seq<nat>, phase: Phase) {
    Once(line) && forall b :: b in line ==> b in reqs && reqs[b].phase == phase
  }

  /** A buffer in flight is the disk's until its completion has been seen; what is done is done. */
  ghost predicate ReqOk(v: View, b: nat)
    requires b in v.reqs
  {
    && b in v.bufs && v.bufs[b].blockno < |v.store| && (v.bufs[b].disk <==> v.reqs[b].phase != Seen)
    && (v.reqs[b].phase == Done || v.reqs[b].phase == Seen ==> v.bufs[b].data == v.store[v.bufs[b].blockno])
  }

  function InPhase(v: View, b: nat, phase: Phase): View
    requires b in v.reqs
  {
    v.(reqs := v.reqs[b := v.reqs[b].(phase := phase)])
  }

  /** The request for buffer b has its buffer and its block, as every request does. */
  predicate Served(v: View, b: nat) {
    b in v.reqs && b in v.bufs && v.bufs[b].blockno < |v.store|
  }

  function Effect(v: View, e: Event): View {
    match e
    case Submit(b, write) =>
      if |v.reqs| >= MAXREQS || b !in v.bufs then v
      else v.(reqs := v.reqs[b := Req(write, Published)], queued := v.queued + [b],
        bufs := v.bufs[b := v.bufs[b].(disk := true)])
    case Fetch =>
      if v.queued == [] || !Served(v, v.queued[0]) then v
      else InPhase(v, v.queued[0], Working).(queued := v.queued[1..])
    case Complete(b) =>
      if !Served(v, b) then v
      else
        var at, m := v.bufs[b].blockno, InPhase(v, b, Done).(done := v.done + [b]);
        if v.reqs[b].write then m.(store := v.store[at := v.bufs[b].data])
        else m.(bufs := v.bufs[b := v.bufs[b].(data := v.store[at])])
    case Handle =>
      if v.done == [] || !Served(v, v.done[0]) then v
      else
        var b := v.done[0];
        InPhase(v, b, Seen).(done := v.done[1..], bufs := v.bufs[b := v.bufs[b].(disk := false)])
    case Collect(b) => v.(reqs := v.reqs - {b})
    case Load(b, blockno, data) => v.(bufs := v.bufs[b := Buf(blockno, data, false)])
  }

  function Reply(v: View, e: Event): Answer {
    match e
    case Submit(b, write) => Acted(|v.reqs| < MAXREQS)
    case Fetch => Acted(v.queued != [])
    case Complete(b) => Acted(true)
    case Handle => Acted(v.done != [])
    case Collect(b) => Transferred(if b in v.bufs then v.bufs[b].data else [])
    case Load(b, blockno, data) => Acted(true)
  }

  lemma LineAdd(reqs: map<nat, Req>, line: seq<nat>, phase: Phase, c: nat, reqs': map<nat, Req>)
    requires Line(reqs, line, phase) && (c in reqs ==> reqs[c].phase != phase) && c in reqs' && reqs'[c].phase == phase
    requires forall b :: b in reqs && b != c ==> b in reqs' && reqs'[b] == reqs[b]
    ensures Line(reqs', line + [c], phase)
  {
  }

  lemma LineKept(reqs: map<nat, Req>, line: seq<nat>, phase: Phase, c: nat, reqs': map<nat, Req>)
    requires Line(reqs, line, phase) && (c in reqs ==> reqs[c].phase != phase)
    requires forall b :: b in reqs && b != c ==> b in reqs' && reqs'[b] == reqs[b]
    ensures Line(reqs', line, phase)
  {
  }

  lemma SubmitOk(v: View, c: nat, write: bool)
    requires Ok(v) && Possible(v, Submit(c, write))
    ensures Ok(Effect(v, Submit(c, write)))
  {
    hide Line;
    if |v.reqs| < MAXREQS {
      var v' := Effect(v, Submit(c, write));
      assert v'.reqs.Keys == v.reqs.Keys + {c};
      LineAdd(v.reqs, v.queued, Published, c, v'.reqs);
      LineKept(v.reqs, v.done, Done, c, v'.reqs);
      forall b | b in v'.reqs ensures ReqOk(v', b) {
        if b in v.reqs { assert ReqOk(v, b); }
      }
      forall a, b | a in v'.reqs && b in v'.reqs ensures OtherBlock(v', a, b) {
        if a in v.reqs && b in v.reqs { assert OtherBlock(v, a, b); }
      }
    }
  }

  lemma FetchOk(v: View)
    requires Ok(v) && Possible(v, Fetch) && v.queued != []
    ensures Ok(Effect(v, Fetch))
  {
    var v' := Effect(v, Fetch);
    assert v.queued[0] in v.queued && v'.reqs.Keys == v.reqs.Keys;
    Tail(v.queued);
    forall b | b in v'.reqs ensures ReqOk(v', b) {
      if b in v.reqs { assert ReqOk(v, b); }
    }
    forall a, b | a in v'.reqs && b in v'.reqs ensures OtherBlock(v', a, b) {
      if a in v.reqs && b in v.reqs { assert OtherBlock(v, a, b); }
    }
  }

  lemma CompleteOk(v: View, c: nat)
    requires Ok(v) && Possible(v, Complete(c))
    ensures Ok(Effect(v, Complete(c)))
  {
    hide Line;
    var v' := Effect(v, Complete(c));
    assert v'.reqs.Keys == v.reqs.Keys && ReqOk(v, c);
    LineAdd(v.reqs, v.done, Done, c, v'.reqs);
    LineKept(v.reqs, v.queued, Published, c, v'.reqs);
    forall b | b in v'.reqs ensures ReqOk(v', b) {
      if b in v.reqs { assert ReqOk(v, b); }
    }
    forall a, b | a in v'.reqs && b in v'.reqs ensures OtherBlock(v', a, b) {
      if a in v.reqs && b in v.reqs { assert OtherBlock(v, a, b); }
    }
  }

  lemma HandleOk(v: View)
    requires Ok(v) && Possible(v, Handle) && v.done != []
    ensures Ok(Effect(v, Handle))
  {
    var v' := Effect(v, Handle);
    assert v.done[0] in v.done && v'.reqs.Keys == v.reqs.Keys;
    Tail(v.done);
    forall b | b in v'.reqs ensures ReqOk(v', b) {
      if b in v.reqs { assert ReqOk(v, b); }
    }
    forall a, b | a in v'.reqs && b in v'.reqs ensures OtherBlock(v', a, b) {
      if a in v.reqs && b in v.reqs { assert OtherBlock(v, a, b); }
    }
  }

  lemma CollectOk(v: View, c: nat)
    requires Ok(v) && Possible(v, Collect(c))
    ensures Ok(Effect(v, Collect(c)))
  {
    var v' := Effect(v, Collect(c));
    assert v'.reqs.Keys == v.reqs.Keys - {c};
    forall b | b in v'.reqs ensures ReqOk(v', b) {
      if b in v.reqs { assert ReqOk(v, b); }
    }
    forall a, b | a in v'.reqs && b in v'.reqs ensures OtherBlock(v', a, b) {
      if a in v.reqs && b in v.reqs { assert OtherBlock(v, a, b); }
    }
  }

  lemma Tail(s: seq<nat>)
    requires Once(s) && s != []
    ensures Once(s[1..]) && s[0] !in s[1..] && forall x :: x in s <==> x == s[0] || x in s[1..]
  {
    assert s == [s[0]] + s[1..];
  }

  lemma EffectOk(v: View, e: Event)
    requires Ok(v) && Possible(v, e)
    ensures Ok(Effect(v, e))
  {
    hide Ok, Possible;
    match e {
      case Submit(b, write) => SubmitOk(v, b, write);
      case Fetch => if v.queued != [] { FetchOk(v); }
      case Complete(b) => CompleteOk(v, b);
      case Handle => if v.done != [] { HandleOk(v); }
      case Collect(b) => CollectOk(v, b);
      case Load(b, blockno, data) => LoadOk(v, b, blockno, data);
    }
  }

  lemma LoadOk(v: View, c: nat, blockno: nat, data: seq<nat>)
    requires Ok(v) && Possible(v, Load(c, blockno, data))
    ensures Ok(Effect(v, Load(c, blockno, data)))
  {
    var v' := Effect(v, Load(c, blockno, data));
    forall b | b in v'.reqs ensures ReqOk(v', b) { assert ReqOk(v, b); }
    forall a, b | a in v'.reqs && b in v'.reqs ensures OtherBlock(v', a, b) { assert OtherBlock(v, a, b); }
  }

  /** What the events do when the view is as it should be. */
  lemma FetchIs(v: View)
    requires Ok(v) && v.queued != []
    ensures v.queued[0] in v.reqs && Effect(v, Fetch) == InPhase(v, v.queued[0], Working).(queued := v.queued[1..])
  {
    assert v.queued[0] in v.queued && ReqOk(v, v.queued[0]);
  }

  lemma HandleIs(v: View)
    requires Ok(v) && v.done != []
    ensures
      var b := v.done[0];
      b in v.reqs && b in v.bufs
      && Effect(v, Handle) == InPhase(v, b, Seen).(done := v.done[1..], bufs := v.bufs[b := v.bufs[b].(disk := false)])
  {
    assert v.done[0] in v.done && ReqOk(v, v.done[0]);
  }

  // ---------- runs ----------

  ghost predicate Fits(v: View, es: seq<Event>)
    decreases |es|
  {
    es != [] ==> Possible(v, es[0]) && Fits(Effect(v, es[0]), es[1..])
  }

  function After(v: View, es: seq<Event>): View
    decreases |es|
  {
    if es == [] then v else After(Effect(v, es[0]), es[1..])
  }

  function Replies(v: View, es: seq<Event>): (rs: seq<Answer>)
    ensures |rs| == |es|
    decreases |es|
  {
    if es == [] then [] else [Reply(v, es[0])] + Replies(Effect(v, es[0]), es[1..])
  }

  lemma {:induction false} RunOk(v: View, es: seq<Event>)
    requires Ok(v) && Fits(v, es)
    ensures Ok(After(v, es))
    decreases |es|
  {
    if es != [] {
      EffectOk(v, es[0]);
      RunOk(Effect(v, es[0]), es[1..]);
    }
  }

  datatype Write = Write(blockno: nat, data: seq<nat>)

  /** The write an event carries out, if any. */
  function Written(v: View, e: Event): seq<Write> {
    if e.Complete? && Served(v, e.buf) && v.reqs[e.buf].write
    then [Write(v.bufs[e.buf].blockno, v.bufs[e.buf].data)]
    else []
  }

  /** The writes the device carries out, in the order in which it completes them. */
  function Writes(v: View, es: seq<Event>): seq<Write>
    decreases |es|
  {
    if es == [] then [] else Written(v, es[0]) + Writes(Effect(v, es[0]), es[1..])
  }

  function Replayed(store: seq<seq<nat>>, ws: seq<Write>): seq<seq<nat>>
    decreases |ws|
  {
    if ws == [] then store
    else Replayed(if ws[0].blockno < |store| then store[ws[0].blockno := ws[0].data] else store, ws[1..])
  }

  /** The medium is at any time what the completed writes make of it, in their order. */
  lemma {:induction false} StoreIsReplay(v: View, es: seq<Event>)
    ensures After(v, es).store == Replayed(v.store, Writes(v, es))
    decreases |es|
  {
    if es != [] {
      StoreIsReplay(Effect(v, es[0]), es[1..]);
      var first, rest := Written(v, es[0]), Writes(Effect(v, es[0]), es[1..]);
      if first == [] {
        assert first + rest == rest;
      } else {
        assert (first + rest)[0] == first[0] && (first + rest)[1..] == rest;
      }
    }
  }

  /** Request b is still in flight in v', and has only been served: its own data, if it writes, and its block
      on the medium, if it reads, are what they were. */
  ghost predicate Serving(v: View, v': View, b: nat) {
    && b in v.reqs && b in v'.reqs && b in v.bufs && b in v'.bufs && |v'.store| == |v.store|
    && v'.reqs[b].write == v.reqs[b].write && v'.bufs[b].blockno == v.bufs[b].blockno < |v.store|
    && (if v.reqs[b].write then v'.bufs[b].data == v.bufs[b].data
        else v'.store[v.bufs[b].blockno] == v.store[v.bufs[b].blockno])
  }

  lemma StepServes(v: View, e: Event, b: nat)
    requires Ok(v) && Possible(v, e) && b in v.reqs && e != Collect(b)
    ensures Serving(v, Effect(v, e), b)
  {
    assert ReqOk(v, b);
    match e {
      case Complete(c) => assert ReqOk(v, c) && OtherBlock(v, b, c);
      case Fetch => if v.queued != [] { assert v.queued[0] in v.queued; assert ReqOk(v, v.queued[0]); }
      case Handle => if v.done != [] { assert v.done[0] in v.done; assert ReqOk(v, v.done[0]); }
      case _ =>
    }
  }

  lemma {:induction false} RunServes(v: View, es: seq<Event>, b: nat)
    requires Ok(v) && Fits(v, es) && b in v.reqs && Collect(b) !in es
    ensures Serving(v, After(v, es), b)
    decreases |es|
  {
    if es == [] {
      assert ReqOk(v, b);
    } else {
      EffectOk(v, es[0]);
      StepServes(v, es[0], b);
      RunServes(Effect(v, es[0]), es[1..], b);
    }
  }

  /** Whatever happens between a submission and the collection of its outcome, a write that is collected is on
      the medium, and a read that is collected is what the medium held; for both, block and buffer agree. */
  lemma RequestIsCarriedOut(v: View, es: seq<Event>, b: nat)
    requires Ok(v) && Fits(v, es) && b in v.reqs && Collect(b) !in es && Possible(After(v, es), Collect(b))
    ensures
      var v' := After(v, es);
      && b in v.bufs && b in v'.bufs && v.bufs[b].blockno < |v.store| == |v'.store|
      && var at := v.bufs[b].blockno;
         && Reply(v', Collect(b)) == Transferred(v'.store[at])
         && (if v.reqs[b].write then v'.store[at] == v.bufs[b].data else v'.bufs[b].data == v.store[at])
  {
    RunServes(v, es, b);
    RunOk(v, es);
    assert ReqOk(After(v, es), b);
  }

  /** The same from the submission on: a call to write block at puts there what the buffer held when it was submitted,
      a call to read it gives what the medium held then and leaves that there, whatever else goes on. */
  lemma SubmitIsCarriedOut(v: View, es: seq<Event>, b: nat, write: bool)
    requires Ok(v) && Possible(v, Submit(b, write)) && |v.reqs| < MAXREQS
    requires Fits(Effect(v, Submit(b, write)), es) && Collect(b) !in es
    requires Possible(After(Effect(v, Submit(b, write)), es), Collect(b))
    ensures Fits(v, [Submit(b, write)] + es)
    ensures
      var v', at := After(v, [Submit(b, write)] + es), v.bufs[b].blockno;
      && at < |v'.store|
      && v'.store[at] == (if write then v.bufs[b].data else v.store[at])
      && Reply(v', Collect(b)) == Transferred(v'.store[at])
  {
    hide Ok, Effect, Possible;
    var v1 := Effect(v, Submit(b, write));
    assert ([Submit(b, write)] + es)[1..] == es;
    EffectOk(v, Submit(b, write));
    Submitted(v, b, write);
    RequestIsCarriedOut(v1, es, b);
  }

  lemma Submitted(v: View, b: nat, write: bool)
    requires Possible(v, Submit(b, write)) && |v.reqs| < MAXREQS
    ensures
      var v1 := Effect(v, Submit(b, write));
      && b in v.bufs && b in v1.reqs && b in v1.bufs && v1.reqs[b].write == write && v1.store == v.store
      && v1.bufs[b].data == v.bufs[b].data && v1.bufs[b].blockno == v.bufs[b].blockno
  {
  }
}
