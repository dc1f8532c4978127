/** How many blocks a chunk of filewrite really logs: the bound of MAXOPBLOCKS is reached. */
module FileTight {
  import opened Blocks
  import opened Counting
  import opened FileBlocks
  import opened FileLog
  import opened FileSys

  // ---------- exact count ----------

  function AddrsOf(ps: seq<Pass>): seq<nat> {
    seq(|ps|, k requires 0 <= k < |ps| => ps[k].addr)
  }

  function BitsOf(sb: Super, bs: seq<nat>): seq<nat> {
    seq(|bs|, k requires 0 <= k < |bs| => BBlock(sb, bs[k]))
  }

  /** A pass that logs the indirect block. */
  predicate LogsInd(p: Pass) {
    p.madeInd || (p.made && p.bn >= NDIRECT)
  }

  ghost predicate NeedsInd(ps: seq<Pass>) {
    exists k :: 0 <= k < |ps| && LogsInd(ps[k])
  }

  /** What passes that all write log: their data blocks, the bitmap blocks of what they take, and the
      indirect block if it changes. */
  lemma {:induction false} LogsSplit(sb: Super, ps: seq<Pass>, ind: nat)
    requires forall k :: 0 <= k < |ps| ==> ps[k].wrote && (LogsInd(ps[k]) ==> ps[k].ind == ind)
    ensures Logs(sb, ps) == Elements(AddrsOf(ps)) + Elements(BitsOf(sb, TakenBy(ps))) + if NeedsInd(ps) then {ind}
        else {}
  {
    if ps != [] {
      var rest, p := ps[..|ps| - 1], ps[|ps| - 1];
      LogsSplit(sb, rest, ind);
      assert AddrsOf(ps) == AddrsOf(rest) + [p.addr];
      assert BitsOf(sb, TakenBy(ps)) == BitsOf(sb, TakenBy(rest)) + BitsOf(sb, PassTaken(p));
      assert NeedsInd(ps) <==> NeedsInd(rest) || LogsInd(p);
      ElementsJoin(AddrsOf(rest), [p.addr]);
      ElementsJoin(BitsOf(sb, TakenBy(rest)), BitsOf(sb, PassTaken(p)));
      PassLogSplit(sb, p, ind);
      hide PassLog, TakenBy, Elements, AddrsOf, BitsOf;
    }
  }

  lemma ElementsJoin(a: seq<nat>, b: seq<nat>)
    ensures Elements(a + b) == Elements(a) + Elements(b)
  {
  }

  lemma PassLogSplit(sb: Super, p: Pass, ind: nat)
    requires p.wrote && (LogsInd(p) ==> p.ind == ind)
    ensures PassLog(sb, p) == Elements([p.addr]) + Elements(BitsOf(sb, PassTaken(p))) + if LogsInd(p) then {ind} else {}
  {
    var i1, i2 := if p.madeInd then [p.ind] else [], if p.made then [p.addr] else [];
    assert BitsOf(sb, PassTaken(p)) == BitsOf(sb, i1) + BitsOf(sb, i2);
    ElementsJoin(BitsOf(sb, i1), BitsOf(sb, i2));
    assert BitsOf(sb, [p.ind]) == [BBlock(sb, p.ind)] && BitsOf(sb, [p.addr]) == [BBlock(sb, p.addr)];
  }

  /** If all the bitmap blocks are different, nothing is logged twice: one block for each pass, one for
      each block taken, the indirect block and the inode's block. */
  lemma ExactCount(fs0: FS, fs: FS, owner: map<nat, Place>, i: nat, lo: nat, ps: seq<Pass>, iblock: nat)
    requires Own(fs, owner, {}) && LayoutOk(fs0) && i < |fs0.inodes| == |fs.inodes|
    requires Passes(fs0, fs, i, lo, ps) && (forall k :: 0 <= k < |ps| ==> ps[k].wrote)
    requires NeedsInd(ps) && Once(BitsOf(fs.sb, TakenBy(ps))) && iblock < fs.sb.bmapstart
    ensures |Logs(fs.sb, ps) + {iblock}| == |ps| + |TakenBy(ps)| + 2
  {
    hide Used, TakenBy, Logs;
    var ind := Ref(fs, i, IND);
    WroteSome(fs0, fs, i, lo, ps);
    IndKnown(fs0, fs, i, lo, ps);
    LogsSplit(fs.sb, ps, ind);
    IndirectOwned(fs, owner, i);
    AddrsApart(fs0, fs, owner, i, lo, ps);
    BitsLow(fs0, fs, i, lo, ps);
    OnceCard(AddrsOf(ps));
    OnceCard(BitsOf(fs.sb, TakenBy(ps)));
    FourParts(Elements(AddrsOf(ps)), Elements(BitsOf(fs.sb, TakenBy(ps))), ind, iblock, fs.sb);
  }

  lemma FourParts(a: set<nat>, b: set<nat>, ind: nat, iblock: nat, sb: Super)
    requires (forall x :: x in a ==> x >= sb.nmeta && x != ind) && (forall x :: x in b ==> sb.bmapstart <= x < sb.nmeta)
    requires ind >= sb.nmeta >= sb.bmapstart && iblock < sb.bmapstart
    ensures |a + b + {ind} + {iblock}| == |a| + |b| + 2
  {
    assert a !! b;
    assert |a + b| == |a| + |b|;
    assert ind !in a + b;
    assert |a + b + {ind}| == |a| + |b| + 1;
    assert iblock !in a + b + {ind};
  }

  lemma IndKnown(fs0: FS, fs: FS, i: nat, lo: nat, ps: seq<Pass>)
    requires LayoutOk(fs0) && LayoutOk(fs) && i < |fs0.inodes| == |fs.inodes| && Passes(fs0, fs, i, lo, ps)
    requires (forall k :: 0 <= k < |ps| ==> ps[k].addr != 0) && NeedsInd(ps)
    ensures forall k :: 0 <= k < |ps| && LogsInd(ps[k]) ==> ps[k].ind == Ref(fs, i, IND)
    ensures Ref(fs, i, IND) != 0
  {
    hide Used, Allots, TakenBy;
    forall k | 0 <= k < |ps| && LogsInd(ps[k]) ensures ps[k].ind == Ref(fs, i, IND) && Ref(fs, i, IND) != 0 {
      assert PassAt(fs0, fs, i, lo + k, ps[k]);
    }
    var k :| 0 <= k < |ps| && LogsInd(ps[k]);
    assert PassAt(fs0, fs, i, lo + k, ps[k]);
  }

  lemma AddrsApart(fs0: FS, fs: FS, owner: map<nat, Place>, i: nat, lo: nat, ps: seq<Pass>)
    requires Own(fs, owner, {}) && LayoutOk(fs0) && i < |fs0.inodes| == |fs.inodes|
    requires Passes(fs0, fs, i, lo, ps) && (forall k :: 0 <= k < |ps| ==> ps[k].addr != 0) && Ref(fs, i, IND) != 0
    ensures Once(AddrsOf(ps)) && forall x :: x in Elements(AddrsOf(ps)) ==> x >= fs.sb.nmeta && x != Ref(fs, i, IND)
  {
    hide Used, Allots, TakenBy, RefsOwned, OwnersHold, BitsExact;
    IndirectOwned(fs, owner, i);
    forall k | 0 <= k < |ps| ensures
      && lo + k < MAXFILE && ps[k].addr in owner && owner[ps[k].addr] == Place(i, SlotOf(lo + k))
      && ps[k].addr >= fs.sb.nmeta && ps[k].addr != Ref(fs, i, IND)
    {
      assert PassAt(fs0, fs, i, lo + k, ps[k]);
      AddrOwned(fs, owner, {}, i, lo + k);
    }
  }

  lemma BitsLow(fs0: FS, fs: FS, i: nat, lo: nat, ps: seq<Pass>)
    requires LayoutOk(fs0) && LayoutOk(fs) && i < |fs0.inodes| == |fs.inodes| && Passes(fs0, fs, i, lo, ps)
    ensures forall x :: x in Elements(BitsOf(fs.sb, TakenBy(ps))) ==> fs.sb.bmapstart <= x < fs.sb.nmeta
  {
    hide Used, TakenBy;
    var bs := TakenBy(ps);
    forall k | 0 <= k < |bs| ensures fs.sb.bmapstart <= BBlock(fs.sb, bs[k]) < fs.sb.nmeta {
      assert NextFree(fs0, bs[k], bs[..k]);
      assert bs[k] / BPB <= fs.sb.size / BPB;
    }
  }

  // ---------- the lowest free blocks ----------

  /** The lowest free blocks of fs, in order. */
  ghost predicate LowestFree(fs: FS, free: seq<nat>)
    requires LayoutOk(fs)
  {
    forall k :: 0 <= k < |free| ==> NextFree(fs, free[k], free[..k])
  }

  lemma NextFreeUnique(fs: FS, a: nat, b: nat, given: seq<nat>)
    requires LayoutOk(fs) && NextFree(fs, a, given) && NextFree(fs, b, given)
    ensures a == b
  {
    hide Used;
  }

  /** What is allocated is the beginning of the lowest free blocks. */
  lemma {:induction false} TakesLowest(fs: FS, taken: seq<nat>, free: seq<nat>, n: nat)
    requires LayoutOk(fs) && LowestFree(fs, taken) && LowestFree(fs, free) && n <= |taken| && n <= |free|
    ensures taken[..n] == free[..n]
  {
    if n > 0 {
      TakesLowest(fs, taken, free, n - 1);
      NextFreeUnique(fs, taken[n - 1], free[n - 1], taken[..n - 1]);
    }
  }

  // ---------- the worst chunk ----------

  /** Just inside the last direct block. */
  const LATE: nat := 11 * BSIZE + 1

  /** Passes over the last direct block, which is there or not, and three blocks beyond: the indirect
      block is taken once, and every block that was missing. */
  lemma TakenCount(fs0: FS, fs: FS, i: nat, ps: seq<Pass>)
    requires LayoutOk(fs0) && LayoutOk(fs) && i < |fs0.inodes| == |fs.inodes|
    requires Passes(fs0, fs, i, 11, ps) && |ps| <= 4 && Ref(fs0, i, IND) == 0
    ensures |TakenBy(ps)| == Made(ps) + (if Ref(fs, i, IND) != 0 then 1 else 0)
  {
    hide Used, Allots;
    TakenLength(ps);
    IndOnce(ps);
  }

  function Made(ps: seq<Pass>): nat {
    if ps == [] then 0 else Made(ps[..|ps| - 1]) + if ps[|ps| - 1].made then 1 else 0
  }

  function MadeInds(ps: seq<Pass>): nat {
    if ps == [] then 0 else MadeInds(ps[..|ps| - 1]) + if ps[|ps| - 1].madeInd then 1 else 0
  }

  lemma {:induction false} TakenLength(ps: seq<Pass>)
    ensures |TakenBy(ps)| == Made(ps) + MadeInds(ps)
  {
    if ps != [] { TakenLength(ps[..|ps| - 1]); }
  }

  lemma {:induction false} IndOnce(ps: seq<Pass>)
    requires forall j, k :: 0 <= j < k < |ps| && ps[j].madeInd ==> !ps[k].madeInd
    ensures MadeInds(ps) == if exists k :: 0 <= k < |ps| && ps[k].madeInd then 1 else 0
  {
    if ps != [] {
      var n := |ps| - 1;
      var rest := ps[..n];
      assert forall k :: 0 <= k < n ==> rest[k] == ps[k];
      IndOnce(rest);
      assert ps[n].madeInd ==> exists k :: 0 <= k < |ps| && ps[k].madeInd;
      if exists k :: 0 <= k < n && rest[k].madeInd {
        var k :| 0 <= k < n && rest[k].madeInd;
        assert ps[k].madeInd;
      }
    }
  }

  /** Blocks past the direct ones are missing when there is no indirect block. */
  lemma MadeCount(fs0: FS, fs: FS, i: nat, ps: seq<Pass>)
    requires LayoutOk(fs0) && LayoutOk(fs) && i < |fs0.inodes| == |fs.inodes|
    requires Passes(fs0, fs, i, 11, ps) && |ps| <= 4 && Ref(fs0, i, IND) == 0
    ensures Made(ps) <= |ps| && (Addr(fs0, i, 11) != 0 && ps != [] ==> Made(ps) <= |ps| - 1)
    ensures ps != [] && ps[|ps| - 1].addr == 0 ==>
        Made(ps) <= |ps| - (if Addr(fs0, i, 11) != 0 && |ps| > 1 then 2 else 1)
    ensures |ps| == 4 && (forall k :: 0 <= k < 4 ==> ps[k].addr != 0) ==>
      Made(ps) == (if Addr(fs0, i, 11) != 0 then 3 else 4) && Ref(fs, i, IND) != 0 && NeedsInd(ps)
  {
    hide Used, Allots, TakenBy;
    if |ps| > 0 { assert PassAt(fs0, fs, i, 11, ps[0]); assert ps[..1] == [ps[0]] && ps[..0] == []; }
    if |ps| > 1 { assert PassAt(fs0, fs, i, 12, ps[1]); assert ps[..2][..1] == ps[..1]; }
    if |ps| > 2 { assert PassAt(fs0, fs, i, 13, ps[2]); assert ps[..3][..2] == ps[..2]; }
    if |ps| > 3 { assert PassAt(fs0, fs, i, 14, ps[3]); assert ps[..4][..3] == ps[..3] && ps[..4] == ps; }
    if |ps| > 1 && ps[1].addr != 0 { assert LogsInd(ps[1]); }
    MadeUpTo(ps);
  }

  lemma MadeUpTo(ps: seq<Pass>)
    requires |ps| <= 4
    ensures |ps| > 0 ==> Made(ps[..1]) == if ps[0].made then 1 else 0
    ensures |ps| > 1 ==> Made(ps[..2]) == Made(ps[..1]) + if ps[1].made then 1 else 0
    ensures |ps| > 2 ==> Made(ps[..3]) == Made(ps[..2]) + if ps[2].made then 1 else 0
    ensures |ps| > 3 ==> Made(ps[..4]) == Made(ps[..3]) + if ps[3].made then 1 else 0
    ensures ps[..|ps|] == ps
  {
    if |ps| > 0 { assert ps[..1][..0] == []; }
    if |ps| > 1 { assert ps[..2][..1] == ps[..1]; }
    if |ps| > 2 { assert ps[..3][..2] == ps[..2]; }
    if |ps| > 3 { assert ps[..4][..3] == ps[..3]; }
  }

  /** What the four passes take, if all succeed. */
  lemma WorstTaken(fs0: FS, fs: FS, i: nat, ps: seq<Pass>, free: seq<nat>)
    requires LayoutOk(fs) && LayoutOk(fs0) && i < |fs0.inodes| == |fs.inodes|
    requires Passes(fs0, fs, i, 11, ps) && |ps| == 4 && (forall k :: 0 <= k < 4 ==> ps[k].addr != 0)
    requires Ref(fs0, i, IND) == 0 && LowestFree(fs0, free) && |free| == if Addr(fs0, i, 11) != 0 then 4 else 5
    ensures TakenBy(ps) == free && NeedsInd(ps)
  {
    TakenCount(fs0, fs, i, ps);
    MadeCount(fs0, fs, i, ps);
    hide Used, Ref, Addr, NeedsInd, TakenBy, Made, NextFree;
    TakesLowest(fs0, TakenBy(ps), free, |free|);
    assert TakenBy(ps) == TakenBy(ps)[..|free|] && free[..|free|] == free;
  }

  /** Four blocks written from the last direct one on, without an indirect block before, on a disk whose lowest
      free blocks are under different bitmap blocks: ten blocks are logged if the first block was
      there, and eleven if it was not. */
  lemma WorstCount(fs0: FS, fs: FS, owner: map<nat, Place>, i: nat, ps: seq<Pass>, free: seq<nat>, iblock: nat)
    requires Own(fs, owner, {}) && LayoutOk(fs0) && i < |fs0.inodes| == |fs.inodes| && iblock < fs.sb.bmapstart
    requires Passes(fs0, fs, i, 11, ps) && |ps| == 4 && (forall k :: 0 <= k < 4 ==> ps[k].wrote)
    requires Ref(fs0, i, IND) == 0 && LowestFree(fs0, free) && Once(BitsOf(fs0.sb, free))
    requires |free| == if Addr(fs0, i, 11) != 0 then 4 else 5
    ensures |Logs(fs.sb, ps) + {iblock}| == if Addr(fs0, i, 11) != 0 then MAXOPBLOCKS else MAXOPBLOCKS + 1
  {
    hide Own, Addr, NeedsInd, TakenBy, LowestFree, BitsOf, Once, Ref;
    LaidOut(fs, owner);
    WroteSome(fs0, fs, i, 11, ps);
    WorstTaken(fs0, fs, i, ps, free);
    ExactCount(fs0, fs, owner, i, 11, ps, iblock);
  }

  /** A full chunk written at such a place reaches the bound: all of it goes in, and MAXOPBLOCKS blocks are logged. */
  method FullChunk(f: FileSystem, i: nat, src: seq<Byte>, ghost free: seq<nat>) returns (r: int, ghost ps: seq<Pass>)
    requires f.Valid() && i < |f.inodes| && |src| == MAXCHUNK && f.logged == {}
    requires f.inodes[i].size == LATE && |f.inodes[i].addrs| > IND && f.inodes[i].addrs[IND] == 0
        && f.IBlockOf(i) < f.sb.bmapstart
    requires LayoutOk(f.Fs()) && LowestFree(f.Fs(), free) && |free| == 4 && Once(BitsOf(f.sb, free))
    modifies f
    ensures f.Valid() && LayoutOk(old(f.Fs())) && LayoutOk(f.Fs()) && i < |f.inodes| == old(|f.inodes|) && r == MAXCHUNK
    ensures LATE <= |Contents(old(f.Fs()), i)| && Contents(f.Fs(), i) == Splice(Contents(old(f.Fs()), i), LATE, src)
    ensures forall k: nat :: k < |f.inodes| && k != i ==> Contents(f.Fs(), k) == Contents(old(f.Fs()), k)
    ensures Passes(old(f.Fs()), f.Fs(), i, 11, ps) && f.logged == Logs(f.sb, ps) + {f.IBlockOf(i)}
    ensures |f.logged| == MAXOPBLOCKS
  {
    hide Own, FileOk, LowestFree, Passes, Logs, BitsOf, Once, Contents, LogsAll, LogBound, Full, LayoutOk;
    ghost var fs0 := f.Fs();
    FirstThere(fs0, i);
    r, ps := f.Writei(i, LATE, src, (t: nat) => true);
    f.ValidLaidOut();
    if r < |src| {
      NeverFull(fs0, f.Fs(), i, ps, free);
    }
    assert Touched(LATE, MAXCHUNK) == 4 && src[..MAXCHUNK] == src;
    WorstCount(fs0, f.Fs(), f.owner, i, ps, free, f.IBlockOf(i));
    assert f.logged == Logs(f.sb, ps) + {f.IBlockOf(i)};
  }

  lemma FirstThere(fs: FS, i: nat)
    requires LayoutOk(fs) && i < |fs.inodes| && FileOk(fs, i) && fs.inodes[i].size == LATE
    ensures Addr(fs, i, 11) != 0
  {
    assert 11 * BSIZE < fs.inodes[i].size;
  }

  /** With four free blocks the disk does not fill up. */
  lemma NeverFull(fs0: FS, fs: FS, i: nat, ps: seq<Pass>, free: seq<nat>)
    requires LayoutOk(fs0) && LayoutOk(fs) && i < |fs0.inodes| == |fs.inodes| && Passes(fs0, fs, i, 11, ps)
    requires 0 < |ps| <= 4 && Addr(fs0, i, 11) != 0 && Ref(fs0, i, IND) == 0 && ps[|ps| - 1].addr == 0
    requires LowestFree(fs0, free) && |free| == 4
    ensures !Full(fs)
  {
    TakenCount(fs0, fs, i, ps);
    MadeCount(fs0, fs, i, ps);
    assert |TakenBy(ps)| <= 3;
    hide Ref, Addr, TakenBy, Made, Used;
    var n := |TakenBy(ps)|;
    TakesLowest(fs0, TakenBy(ps), free, n);
    assert TakenBy(ps)[..n] == TakenBy(ps);
    assert NextFree(fs0, free[n], free[..n]) && !Used(fs, free[n]);
  }

  /** A block that was written is there. */
  lemma WroteSome(fs0: FS, fs: FS, i: nat, lo: nat, ps: seq<Pass>)
    requires LayoutOk(fs0) && LayoutOk(fs) && i < |fs0.inodes| == |fs.inodes| && Passes(fs0, fs, i, lo, ps)
    ensures forall k :: 0 <= k < |ps| && ps[k].wrote ==> ps[k].addr != 0
  {
    hide Used, Allots, TakenBy, Addr, Ref;
    forall k | 0 <= k < |ps| && ps[k].wrote ensures ps[k].addr != 0 { assert PassAt(fs0, fs, i, lo + k, ps[k]); }
  }
}
