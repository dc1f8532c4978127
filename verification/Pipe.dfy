/** The pipe as written: a ring of PIPESIZE bytes between counters that wrap at 32 bits, proved against
    the pipe of PipeModel. */
module Pipe {
  import opened Machine
  import opened PipeModel

  ghost predicate RingOk(data: seq<nat>, sent: seq<nat>, taken: nat) {
    && |data| == PIPESIZE && taken <= |sent| <= taken + PIPESIZE
    && forall i :: taken <= i < |sent| ==> data[i % PIPESIZE] == sent[i]
  }

  lemma RingWrite(data: seq<nat>, sent: seq<nat>, taken: nat, ch: nat)
    requires RingOk(data, sent, taken) && |sent| < taken + PIPESIZE
    ensures RingOk(data[|sent| % PIPESIZE := ch], sent + [ch], taken)
  {
    forall i | taken <= i < |sent| + 1 ensures data[|sent| % PIPESIZE := ch][i % PIPESIZE] == (sent + [ch])[i] {
      if i < |sent| { Apart(i, |sent|); }
    }
  }

  lemma Apart(i: nat, j: nat)
    requires i < j < i + PIPESIZE
    ensures i % PIPESIZE != j % PIPESIZE
  {
  }

  lemma ModIs(x: nat, q: nat, r: nat)
    requires x == q * UINT + r && r < UINT
    ensures x % UINT == r
  {
  }

  lemma ModAdd(n: nat, k: nat)
    requires k <= PIPESIZE
    ensures (n + k) % UINT == if n % UINT + k < UINT then n % UINT + k else n % UINT + k - UINT
  {
    var q, r := n / UINT, n % UINT;
    if r + k < UINT { ModIs(n + k, q, r + k); } else { ModIs(n + k, q + 1, r + k - UINT); }
  }

  /** Equal counters mean an empty pipe, and counters PIPESIZE apart a full one, wrapped or not. */
  lemma Wrapped(n: nat, k: nat)
    requires k <= PIPESIZE
    ensures n % UINT == (n + k) % UINT <==> k == 0
    ensures (n % UINT + PIPESIZE) % UINT == (n + k) % UINT <==> k == PIPESIZE
  {
    ModAdd(n, k);
    ModAdd(n % UINT, PIPESIZE);
  }

  lemma WrapSlot(n: nat)
    ensures n % UINT % PIPESIZE == n % PIPESIZE
  {
  }

  lemma Bump(n: nat)
    ensures (n % UINT + 1) % UINT == (n + 1) % UINT
  {
  }

  /** A read that takes given bytes and loses lost more, as a transfer. */
  lemma ReadResult(v: View, n: nat, copyable: nat, given: nat, lost: nat)
    requires Ok(v) && v.readopen && given == Given(v, n, copyable) && given + lost == Removed(v, n, copyable)
    ensures v.taken + given + lost <= |v.sent| && Effect(v, Out(n, copyable)) == v.(taken := v.taken + given + lost)
    ensures var sleeps := |v.sent| == v.taken && v.writeopen;
      var at := v.taken + given;
      Result(v, Out(n, copyable)) == Took(v.sent[v.taken..at], v.sent[at..at + lost], sleeps)
  {
  }

  class Ring {
    var data: seq<nat>
    var nread: nat
    var nwrite: nat
    var readopen: bool
    var writeopen: bool
    ghost var sent: seq<nat>       // every byte ever put in
    ghost var taken: nat           // how many of them have come out

    ghost predicate Valid()
      reads this
    {
      RingOk(data, sent, taken) && nwrite == |sent| % UINT && nread == taken % UINT
    }

    ghost function Abs(): (v: View)
      requires Valid()
      reads this
      ensures Ok(v)
    {
      View(sent, taken, readopen, writeopen)
    }

    constructor ()
      ensures Valid() && Abs() == Fresh
    {
      data, nread, nwrite, readopen, writeopen := seq(PIPESIZE, _ => 0), 0, 0, true, true;
      sent, taken := [], 0;
    }

    ghost method Counters()
      requires Valid()
      ensures nread == nwrite <==> |sent| == taken
      ensures nwrite == (nread + PIPESIZE) % UINT <==> |sent| - taken == PIPESIZE
      ensures nwrite % PIPESIZE == |sent| % PIPESIZE && nread % PIPESIZE == taken % PIPESIZE && |data| == PIPESIZE
      ensures taken <= |sent| <= taken + PIPESIZE
    {
      Wrapped(taken, |sent| - taken);
      WrapSlot(taken);
      WrapSlot(|sent|);
    }

    method Put(ch: nat)
      requires Valid() && |sent| < taken + PIPESIZE
      modifies this`data, this`nwrite, this`sent
      ensures Valid() && sent == old(sent) + [ch]
    {
      hide RingOk;
      Counters();
      RingWrite(data, sent, taken, ch);
      Bump(|sent|);
      assert nwrite % PIPESIZE == |sent| % PIPESIZE;
      data := data[nwrite % PIPESIZE := ch];
      nwrite := (nwrite + 1) % UINT;
      sent := sent + [ch];
    }

    method Get() returns (ch: nat)
      requires Valid() && taken < |sent|
      modifies this`nread, this`taken
      ensures Valid() && taken == old(taken) + 1 && ch == sent[old(taken)]
    {
      Counters();
      Bump(taken);
      ch := data[nread % PIPESIZE];
      nread := (nread + 1) % UINT;
      taken := taken + 1;
    }

    /** A writer with bytes[i..] left copies one by one until it is done, the pipe is full (it now has to
        sleep) or, at bytes[copyable], copying from the user fails. It is cut off if nobody can read any
        more, or on reaching bytes[killedAt], where it finds itself killed. */
    method Write(bytes: seq<nat>, i: nat, copyable: nat, killedAt: nat) returns (j: nat, stop: Stop)
      requires Valid() && Possible(Abs(), In(bytes, i, copyable, killedAt))
      modifies this`data, this`nwrite, this`sent
      ensures Valid() && Abs() == Effect(old(Abs()), In(bytes, i, copyable, killedAt))
      ensures j == WriteEnd(old(Abs()), bytes, i, copyable, killedAt)
      ensures stop == WriteStop(old(Abs()), bytes, i, copyable, killedAt)
    {
      hide RingOk;
      j := i;
      while j < |bytes|
        invariant i <= j <= |bytes| && j <= copyable && j <= killedAt && Valid() && sent == old(sent) + bytes[i..j]
        invariant j > i ==> readopen
        invariant |sent| - taken <= PIPESIZE
      {
        if !readopen || j == killedAt {
          return j, Cut;
        }
        Counters();
        if nwrite == (nread + PIPESIZE) % UINT {
          return j, Full;
        }
        if j == copyable {
          break;
        }
        assert bytes[i..j + 1] == bytes[i..j] + [bytes[j]];
        Put(bytes[j]);
        j := j + 1;
      }
      stop := Copied;
    }

    /** The reader's copying loop. */
    method CopyOut(n: nat, copyable: nat) returns (bytes: seq<nat>, ghost lost: seq<nat>)
      requires Valid()
      modifies this`nread, this`taken
      ensures Valid() && |bytes| == Given(old(Abs()), n, copyable)
          && |bytes| + |lost| == Removed(old(Abs()), n, copyable)
      ensures taken == old(taken) + |bytes| + |lost| <= |sent|
      ensures bytes == sent[old(taken)..old(taken) + |bytes|] && lost == sent[old(taken) + |bytes|..taken]
    {
      hide RingOk, Valid;
      bytes, lost := [], [];
      Counters();
      while |bytes| < n
        invariant |bytes| <= n && |bytes| <= copyable && Valid() && taken == old(taken) + |bytes| <= |sent|
        invariant bytes == sent[old(taken)..taken] && lost == []
        decreases n - |bytes|
      {
        Counters();
        if nread == nwrite {
          break;
        }
        var ch := Get();
        if |bytes| == copyable {
          lost := [ch];
          break;
        }
        assert sent[old(taken)..taken] == sent[old(taken)..taken - 1] + [sent[taken - 1]];
        bytes := bytes + [ch];
      }
    }

    /** A reader that finds the pipe empty sleeps, or gives up if killed, as long as somebody can write.
        Otherwise it takes up to n bytes, as many as there are; the byte after copyable cannot be
        copied to the user and is lost. */
    method Read(n: nat, copyable: nat) returns (sleeps: bool, bytes: seq<nat>, ghost lost: seq<nat>)
      requires Valid() && Possible(Abs(), Out(n, copyable))
      modifies this`nread, this`taken
      ensures Valid() && Abs() == Effect(old(Abs()), Out(n, copyable))
      ensures Took(bytes, lost, sleeps) == Result(old(Abs()), Out(n, copyable))
    {
      hide RingOk, Effect, Result;
      bytes, lost := [], [];
      Counters();
      sleeps := nread == nwrite && writeopen;
      if !sleeps {
        bytes, lost := CopyOut(n, copyable);
      }
      ReadResult(old(Abs()), n, copyable, |bytes|, |lost|);
    }

    /** One end is closed; last says nobody has the pipe any more. */
    method Close(writable: bool) returns (last: bool)
      requires Valid() && Possible(Abs(), Shut(writable))
      modifies this`readopen, this`writeopen
      ensures Valid() && Abs() == Effect(old(Abs()), Shut(writable))
      ensures Closed(last) == Result(old(Abs()), Shut(writable))
    {
      if writable {
        writeopen := false;
      } else {
        readopen := false;
      }
      last := !readopen && !writeopen;
    }
  }

  /** The ring does in every run what the pipe of PipeModel does. */
  method Carry(pipe: Ring, transfers: seq<Transfer>) returns (ghost outcomes: seq<Outcome>)
    requires pipe.Valid() && Fits(pipe.Abs(), transfers)
    modifies pipe
    ensures pipe.Valid() && pipe.Abs() == After(old(pipe.Abs()), transfers)
    ensures outcomes == Outcomes(old(pipe.Abs()), transfers)
  {
    hide Effect, Result, Possible;
    outcomes := [];
    var i := 0;
    assert transfers[0..] == transfers;
    while i < |transfers|
      invariant 0 <= i <= |transfers| && pipe.Valid() && Fits(pipe.Abs(), transfers[i..])
      invariant After(old(pipe.Abs()), transfers) == After(pipe.Abs(), transfers[i..])
      invariant Outcomes(old(pipe.Abs()), transfers) == outcomes + Outcomes(pipe.Abs(), transfers[i..])
    {
      assert transfers[i..][0] == transfers[i] && transfers[i..][1..] == transfers[i + 1..];
      ghost var o := Transferred(pipe, transfers[i]);
      outcomes := outcomes + [o];
      i := i + 1;
    }
  }

  method Transferred(pipe: Ring, t: Transfer) returns (ghost o: Outcome)
    requires pipe.Valid() && Possible(pipe.Abs(), t)
    modifies pipe
    ensures pipe.Valid() && pipe.Abs() == Effect(old(pipe.Abs()), t) && o == Result(old(pipe.Abs()), t)
  {
    match t {
      case In(bytes, i, copyable, killedAt) =>
        var j, stop := pipe.Write(bytes, i, copyable, killedAt);
        o := Wrote(bytes[i..j], stop);
      case Out(n, copyable) =>
        ghost var lost;
        var sleeps, bytes;
        sleeps, bytes, lost := pipe.Read(n, copyable);
        o := Took(bytes, lost, sleeps);
      case Shut(writable) =>
        var last := pipe.Close(writable);
        o := Closed(last);
    }
  }
}
