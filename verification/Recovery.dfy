/** The on-disk redo log of kernel/log.c: header format, the block writes of commit and
    of recovery, and what a crash between any two of those writes leaves behind. */
module Recovery {
  import opened Blocks
  import opened Counting

  /** Where the log lives: a header block at start and size - 1 data blocks behind it. */
  datatype Layout = Layout(start: nat, size: nat)

  predicate InLog(l: Layout, b: nat) {
    l.start <= b < l.start + l.size
  }

  /** struct logheader: word 0 is n, the next n words are the home block numbers. */
  function WriteHeader(was: Block, lh: seq<nat>): (r: Block)
    requires |lh| <= LOGSIZE
  {
    [|lh|] + lh + was[1 + |lh|..]
  }

  predicate HeaderFits(b: Block) {
    b[0] <= LOGSIZE
  }

  function ReadHeader(b: Block): (lh: seq<nat>)
    requires HeaderFits(b)
  {
    b[1..1 + b[0]]
  }

  lemma HeaderRoundTrip(was: Block, lh: seq<nat>)
    requires |lh| <= LOGSIZE
    ensures HeaderFits(WriteHeader(was, lh)) && ReadHeader(WriteHeader(was, lh)) == lh
  {
  }

  /** Blocks a transaction may log: distinct, on the disk, outside the log, and few enough. */
  ghost predicate Loggable(l: Layout, diskSize: nat, lh: seq<nat>) {
    && |lh| <= LOGSIZE && |lh| < l.size
    && Once(lh)
    && forall t :: 0 <= t < |lh| ==> lh[t] < diskSize && !InLog(l, lh[t])
  }

  ghost predicate DiskOk(l: Layout, d: seq<Block>) {
    && 1 <= l.size && l.start + l.size <= |d|
    && HeaderFits(d[l.start])
    && Loggable(l, |d|, ReadHeader(d[l.start]))
  }

  datatype Write = Write(blockno: nat, data: Block)

  /** The disk after a sequence of single-block writes. */
  function Apply(d: seq<Block>, ws: seq<Write>): (r: seq<Block>)
    requires forall k :: 0 <= k < |ws| ==> ws[k].blockno < |d|
    ensures |r| == |d|
  {
    if ws == [] then d
    else
      var last := ws[|ws| - 1];
      Apply(d, ws[..|ws| - 1])[last.blockno := last.data]
  }

  /** install_trans: copy log block t to its home, for each t in turn. */
  function InstallWrites(l: Layout, d: seq<Block>, lh: seq<nat>): (ws: seq<Write>)
    requires l.start + l.size <= |d| && |lh| < l.size
    ensures |ws| == |lh|
  {
    seq(|lh|, t requires 0 <= t < |lh| => Write(lh[t], d[l.start + 1 + t]))
  }

  /** recover_from_log: install what the header names, then write an empty header. */
  ghost function RecoveryWrites(l: Layout, d: seq<Block>): (ws: seq<Write>)
    requires DiskOk(l, d)
    ensures |ws| == d[l.start][0] + 1
    ensures forall k :: 0 <= k < |ws| ==> ws[k].blockno < |d|
  {
    InstallWrites(l, d, ReadHeader(d[l.start])) + [Write(l.start, WriteHeader(d[l.start], []))]
  }

  ghost function Recover(l: Layout, d: seq<Block>): (r: seq<Block>)
    requires DiskOk(l, d)
    ensures |r| == |d|
  {
    Apply(d, RecoveryWrites(l, d))
  }

  /** The disk if a crash stops recovery after its first k block writes. */
  ghost function CrashedRecovery(l: Layout, d: seq<Block>, k: nat): (r: seq<Block>)
    requires DiskOk(l, d) && k <= |RecoveryWrites(l, d)|
    ensures |r| == |d|
  {
    Apply(d, RecoveryWrites(l, d)[..k])
  }

  /** Block b after the first k installs: the log's copy if one of them named b, else as before. */
  lemma {:induction false} InstallPrefix(l: Layout, d: seq<Block>, lh: seq<nat>, k: nat, b: nat)
    requires l.start + l.size <= |d| && Loggable(l, |d|, lh) && k <= |lh| && b < |d|
    ensures var r := Apply(d, InstallWrites(l, d, lh)[..k]);
      && (b !in lh[..k] ==> r[b] == d[b])
      && (forall t :: 0 <= t < k && lh[t] == b ==> r[b] == d[l.start + 1 + t])
  {
    if k > 0 {
      var ws := InstallWrites(l, d, lh);
      InstallPrefix(l, d, lh, k - 1, b);
      assert ws[..k][..k - 1] == ws[..k - 1];
      assert lh[..k] == lh[..k - 1] + [lh[k - 1]];
    }
  }

  /** Recovery, block by block: a home block named by the header gets its log copy, the
      header is emptied and every other block stays. */
  lemma RecoverAt(l: Layout, d: seq<Block>, b: nat)
    requires DiskOk(l, d) && b < |d|
    ensures var lh := ReadHeader(d[l.start]);
      && (b == l.start ==> Recover(l, d)[b] == WriteHeader(d[l.start], []))
      && (b != l.start && b !in lh ==> Recover(l, d)[b] == d[b])
      && (forall t :: 0 <= t < |lh| && lh[t] == b ==> Recover(l, d)[b] == d[l.start + 1 + t])
  {
    var lh := ReadHeader(d[l.start]);
    var ws := RecoveryWrites(l, d);
    var ins := InstallWrites(l, d, lh);
    InstallPrefix(l, d, lh, |lh|, b);
    assert ws[..|ws| - 1] == ins && ins[..|lh|] == ins && lh[..|lh|] == lh;
  }

  /** A crash after any number of recovery's writes leaves a disk from which a fresh
      recovery ends in exactly the same place. */
  lemma RecoveryRestarts(l: Layout, d: seq<Block>, k: nat)
    requires DiskOk(l, d) && k <= |RecoveryWrites(l, d)|
    ensures DiskOk(l, CrashedRecovery(l, d, k))
    ensures Recover(l, CrashedRecovery(l, d, k)) == Recover(l, d)
  {
    var lh := ReadHeader(d[l.start]);
    var ins := InstallWrites(l, d, lh);
    var c := CrashedRecovery(l, d, k);
    var ws := RecoveryWrites(l, d);
    if k == |ws| {
      assert ws[..k] == ws;
      RecoverAt(l, d, l.start);
      HeaderRoundTrip(d[l.start], []);
      forall b | 0 <= b < |d| ensures Recover(l, c)[b] == c[b] { RecoverAt(l, c, b); }
    } else {
      assert ws[..k] == ins[..k];
      forall b: nat | b < |d| && InLog(l, b) ensures c[b] == d[b] {
        InstallPrefix(l, d, lh, k, b);
      }
      forall b | 0 <= b < |d| ensures Recover(l, c)[b] == Recover(l, d)[b] {
        InstallPrefix(l, d, lh, k, b);
        RecoverAt(l, c, b);
        RecoverAt(l, d, b);
        if b in lh { var t := IndexOf(lh, b); }
        assert b !in lh ==> b !in lh[..k];
      }
    }
  }

  /** Recovery starts from d and a crash stops it, leaving d'. */
  ghost predicate CrashesInto(l: Layout, d: seq<Block>, d': seq<Block>) {
    DiskOk(l, d) && exists k: nat :: k <= |RecoveryWrites(l, d)| && d' == CrashedRecovery(l, d, k)
  }

  /** Reboots in a row: crash i stops the recovery started from ds[i] and leaves ds[i + 1]. */
  ghost predicate CrashChain(l: Layout, ds: seq<seq<Block>>) {
    |ds| > 0 && forall i :: 0 <= i < |ds| - 1 ==> CrashesInto(l, ds[i], ds[i + 1])
  }

  lemma OneCrash(l: Layout, d: seq<Block>, d': seq<Block>)
    requires CrashesInto(l, d, d')
    ensures DiskOk(l, d') && Recover(l, d') == Recover(l, d)
  {
    var k: nat :| k <= |RecoveryWrites(l, d)| && d' == CrashedRecovery(l, d, k);
    RecoveryRestarts(l, d, k);
  }

  /** However many times recovery is interrupted, the recovery that completes ends where an
      uninterrupted one would have, with an empty header. */
  lemma {:induction false} RecoverySurvivesCrashes(l: Layout, ds: seq<seq<Block>>)
    requires CrashChain(l, ds) && DiskOk(l, ds[0])
    ensures DiskOk(l, ds[|ds| - 1])
    ensures Recover(l, ds[|ds| - 1]) == Recover(l, ds[0])
    ensures ReadHeader(Recover(l, ds[|ds| - 1])[l.start]) == []
  {
    hide Recover, CrashesInto;
    var n := |ds| - 1;
    if n == 0 {
      RecoverAt(l, ds[0], l.start);
    } else {
      RecoverySurvivesCrashes(l, ds[..n]);
      assert CrashesInto(l, ds[n - 1], ds[n - 1 + 1]);
      OneCrash(l, ds[n - 1], ds[n]);
    }
  }
}
