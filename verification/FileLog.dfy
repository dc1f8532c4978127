/** Which blocks bmap allocates and which blocks writei logs, pass by pass of its loop. */
module FileLog {
  import opened FileBlocks

  /** The free blocks that have gone into use from fs0 to fs, in the order of allocation: always the lowest. */
  ghost predicate Allots(fs0: FS, fs: FS, taken: seq<nat>)
    requires LayoutOk(fs0) && LayoutOk(fs)
  {
    && fs.sb == fs0.sb
    && (forall b: nat :: b < fs0.sb.size ==> (Used(fs, b) <==> Used(fs0, b) || b in taken))
    && forall k :: 0 <= k < |taken| ==> NextFree(fs0, taken[k], taken[..k])
  }

  /** With the given blocks in use, r is the lowest free block. */
  ghost predicate NextFree(fs: FS, r: nat, given: seq<nat>)
    requires LayoutOk(fs)
  {
    r < fs.sb.size && !Used(fs, r) && r !in given && forall b: nat :: b < r ==> Used(fs, b) || b in given
  }

  lemma AllotsNone(fs: FS)
    requires LayoutOk(fs)
    ensures Allots(fs, fs, [])
  {
  }

  lemma AllotsOne(fs: FS, fs': FS, r: nat)
    requires LayoutOk(fs) && LayoutOk(fs') && fs'.sb == fs.sb && r < fs.sb.size && !Used(fs, r)
    requires forall b: nat :: b < r ==> Used(fs, b)
    requires forall b: nat :: b < fs.sb.size ==> (Used(fs', b) <==> Used(fs, b) || b == r)
    ensures Allots(fs, fs', [r])
  {
    hide Used;
  }

  lemma AllotsThen(fs0: FS, fs1: FS, fs2: FS, a: seq<nat>, b: seq<nat>)
    requires LayoutOk(fs0) && LayoutOk(fs1) && LayoutOk(fs2) && Allots(fs0, fs1, a) && Allots(fs1, fs2, b)
    ensures Allots(fs0, fs2, a + b)
  {
    hide Used;
    var c := a + b;
    forall k | 0 <= k < |c| ensures NextFree(fs0, c[k], c[..k]) {
      if k < |a| {
        assert c[..k] == a[..k];
      } else {
        assert c[..k] == a + b[..k - |a|];
        assert NextFree(fs1, b[k - |a|], b[..k - |a|]);
      }
    }
  }

  lemma AllotsSame(fs0: FS, fs: FS, fs': FS, taken: seq<nat>)
    requires LayoutOk(fs0) && LayoutOk(fs) && LayoutOk(fs') && Allots(fs0, fs, taken) && fs'.sb == fs.sb
    requires forall b: nat :: b < fs.sb.size ==> Used(fs', b) == Used(fs, b)
    ensures Allots(fs0, fs', taken)
  {
    hide Used, NextFree;
  }

  // ---------- one pass ----------

  /** One pass of writei's loop over file block bn: the block's address, whether it and the indirect block
      were allocated in this pass, and whether data was written. */
  datatype Pass = Pass(bn: nat, addr: nat, made: bool, ind: nat, madeInd: bool, wrote: bool)

  /** What bmap logs: for each block it allocates the bitmap block and the zeroed block, and the indirect
      block if it gets an entry. */
  function MapLog(sb: Super, p: Pass): set<nat> {
    (if p.madeInd then {BBlock(sb, p.ind), p.ind} else {})
    + (if p.made then {BBlock(sb, p.addr), p.addr} + (if p.bn >= NDIRECT then {p.ind} else {}) else {})
  }

  function PassLog(sb: Super, p: Pass): set<nat> {
    MapLog(sb, p) + if p.wrote then {p.addr} else {}
  }

  function PassTaken(p: Pass): seq<nat> {
    (if p.madeInd then [p.ind] else []) + if p.made then [p.addr] else []
  }

  function Logs(sb: Super, ps: seq<Pass>): set<nat> {
    if ps == [] then {} else Logs(sb, ps[..|ps| - 1]) + PassLog(sb, ps[|ps| - 1])
  }

  function TakenBy(ps: seq<Pass>): seq<nat> {
    if ps == [] then [] else TakenBy(ps[..|ps| - 1]) + PassTaken(ps[|ps| - 1])
  }

  lemma Appended(sb: Super, ps: seq<Pass>, p: Pass)
    ensures Logs(sb, ps + [p]) == Logs(sb, ps) + PassLog(sb, p) && TakenBy(ps + [p]) == TakenBy(ps) + PassTaken(p)
  {
    assert (ps + [p])[..|ps|] == ps;
  }

  /** bmap's step from fs to fs' for block p.bn of inode i: no other block of the file comes or goes. */
  ghost predicate Mapped(fs: FS, fs': FS, i: nat, p: Pass)
    requires LayoutOk(fs) && LayoutOk(fs') && i < |fs.inodes| == |fs'.inodes|
  {
    && p.bn < MAXFILE && p.addr == Addr(fs', i, p.bn) && p.ind == Ref(fs', i, IND)
    && (p.made <==> Addr(fs, i, p.bn) == 0 && p.addr != 0)
    && (p.madeInd <==> Ref(fs, i, IND) == 0 && p.ind != 0) && (p.wrote ==> p.addr != 0)
    && (p.madeInd ==> Addr(fs, i, p.bn) == 0)
    && (forall n: nat :: n < MAXFILE && (n != p.bn || Addr(fs, i, n) != 0) ==> Addr(fs', i, n) == Addr(fs, i, n))
    && (Ref(fs, i, IND) != 0 ==> Ref(fs', i, IND) == Ref(fs, i, IND))
    && Allots(fs, fs', PassTaken(p))
  }

  /** The same files' blocks and the same bits. */
  ghost predicate SameMap(fs: FS, fs': FS, i: nat)
    requires LayoutOk(fs) && LayoutOk(fs') && i < |fs.inodes| == |fs'.inodes|
  {
    && fs'.sb == fs.sb && Ref(fs', i, IND) == Ref(fs, i, IND)
    && (forall n: nat :: n < MAXFILE ==> Addr(fs', i, n) == Addr(fs, i, n))
    && forall b: nat :: b < fs.sb.size ==> Used(fs', b) == Used(fs, b)
  }

  lemma MappedSame(fs: FS, fs1: FS, fs2: FS, i: nat, p: Pass)
    requires LayoutOk(fs) && LayoutOk(fs1) && LayoutOk(fs2) && i < |fs.inodes| == |fs1.inodes| == |fs2.inodes|
    requires Mapped(fs, fs1, i, p) && SameMap(fs1, fs2, i)
    ensures Mapped(fs, fs2, i, p) && (p.addr != 0 ==> Mapped(fs, fs2, i, p.(wrote := true)))
  {
    hide Used, Ref, Addr, Allots;
    AllotsSame(fs, fs1, fs2, PassTaken(p));
  }

  // ---------- all passes ----------

  /** What pass p over block bn was, seen from the beginning and the end of the run. */
  ghost predicate PassAt(fs0: FS, fs: FS, i: nat, bn: nat, p: Pass)
    requires LayoutOk(fs0) && LayoutOk(fs) && i < |fs0.inodes| == |fs.inodes|
  {
    && p.bn == bn < MAXFILE && p.addr == Addr(fs, i, bn)
    && (Addr(fs0, i, bn) != 0 ==> p.addr == Addr(fs0, i, bn))
    && (p.made <==> Addr(fs0, i, bn) == 0 && p.addr != 0)
    && (p.madeInd ==> Ref(fs0, i, IND) == 0 && p.ind != 0 && Addr(fs0, i, bn) == 0)
    && (p.ind != 0 ==> p.ind == Ref(fs, i, IND)) && (p.addr != 0 && bn >= NDIRECT ==> p.ind != 0)
    && (p.wrote ==> p.addr != 0)
  }

  lemma EntryNeedsInd(fs: FS, i: nat, n: nat)
    requires LayoutOk(fs) && i < |fs.inodes| && NDIRECT <= n < MAXFILE && Addr(fs, i, n) != 0
    ensures Ref(fs, i, IND) != 0
  {
  }

  /** The passes from block lo on, and what they took. */
  ghost predicate Passes(fs0: FS, fs: FS, i: nat, lo: nat, ps: seq<Pass>)
    requires LayoutOk(fs0) && LayoutOk(fs) && i < |fs0.inodes| == |fs.inodes|
  {
    && (forall k :: 0 <= k < |ps| ==> PassAt(fs0, fs, i, lo + k, ps[k]))
    && (forall n: nat :: n < MAXFILE && lo + |ps| <= n ==> Addr(fs, i, n) == Addr(fs0, i, n))
    && (Ref(fs0, i, IND) != 0 ==> Ref(fs, i, IND) == Ref(fs0, i, IND))
    && (Ref(fs, i, IND) != Ref(fs0, i, IND) <==> exists k :: 0 <= k < |ps| && ps[k].madeInd)
    && (forall j, k :: 0 <= j < k < |ps| && ps[j].madeInd ==> !ps[k].madeInd)
    && Allots(fs0, fs, TakenBy(ps))
  }

  lemma PassesNone(fs: FS, i: nat, lo: nat)
    requires LayoutOk(fs) && i < |fs.inodes|
    ensures Passes(fs, fs, i, lo, [])
  {
    AllotsNone(fs);
  }

  lemma PassesMore(fs0: FS, fs: FS, fs': FS, i: nat, lo: nat, ps: seq<Pass>, p: Pass)
    requires LayoutOk(fs0) && LayoutOk(fs) && LayoutOk(fs') && i < |fs0.inodes| == |fs.inodes| == |fs'.inodes|
    requires Passes(fs0, fs, i, lo, ps) && Mapped(fs, fs', i, p) && p.bn == lo + |ps|
    ensures Passes(fs0, fs', i, lo, ps + [p])
  {
    hide Used, Ref, Addr, Allots, TakenBy;
    Appended(fs.sb, ps, p);
    AllotsThen(fs0, fs, fs', TakenBy(ps), PassTaken(p));
    var all := ps + [p];
    if p.addr != 0 && p.bn >= NDIRECT { EntryNeedsInd(fs', i, p.bn); }
    forall k | 0 <= k < |all| ensures PassAt(fs0, fs', i, lo + k, all[k]) {
      if k < |ps| { assert PassAt(fs0, fs, i, lo + k, ps[k]); }
    }
    assert all[|ps|] == p && forall k :: 0 <= k < |ps| ==> all[k] == ps[k];
    forall j | 0 <= j < |ps| && ps[j].madeInd ensures !p.madeInd { assert PassAt(fs0, fs, i, lo + j, ps[j]); }
  }

  lemma PassesSame(fs0: FS, fs: FS, fs': FS, i: nat, lo: nat, ps: seq<Pass>)
    requires LayoutOk(fs0) && LayoutOk(fs) && LayoutOk(fs') && i < |fs0.inodes| == |fs.inodes| == |fs'.inodes|
    requires Passes(fs0, fs, i, lo, ps) && SameMap(fs, fs', i)
    ensures Passes(fs0, fs', i, lo, ps)
  {
    hide Used, Ref, Addr, Allots;
    AllotsSame(fs0, fs, fs', TakenBy(ps));
    forall k | 0 <= k < |ps| ensures PassAt(fs0, fs', i, lo + k, ps[k]) {
      assert PassAt(fs0, fs, i, lo + k, ps[k]);
    }
  }
}
