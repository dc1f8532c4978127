/** filewrite of kernel/file.c over the log: each chunk is one transaction of kernel/log.c, and the blocks it logs
    go through the buffer cache. Whenever the machine stops, the recovered disk holds the file as some chunk left it. */
module FileCrash {
  import opened Blocks
  import opened Counting
  import opened Options
  import opened FileBlocks
  import opened FileSys
  import opened DiskFormat
  import opened Recovery
  import opened LogRoom
  import opened Machine
  import S = Storage
  import C = CommitSteps
  import LogCode
  import BufferCache

  /** The log's callers see the file system f, which has room for an operation in the log and no inode waiting for
      iupdate. */
  ghost predicate Joined(s: S.State, f: FileSystem, head: Heads)
    reads f
  {
    && f.Valid() && f.dinodes == f.inodes && Laid(s.layout, f.sb) && MAXOPBLOCKS < s.layout.size
    && Stores(s.layout, head, s.logical, f.Fs())
  }

  // ---------- one transaction ----------

  /** Part-way through an operation's log_writes: the blocks in todo are still to come. */
  ghost predicate Flushing(s: S.State, tid: nat, head: Heads, fs: FS, logged: set<nat>, todo: set<nat>) {
    && NoUsers(s) && s.phase == S.Idle && s.ops.Keys == {tid}
    && todo <= logged && |logged| <= MAXOPBLOCKS < s.layout.size
    && Elements(s.lh) == logged - todo && StoredBut(s.layout, head, s.logical, fs, todo)
  }

  lemma FlushRoom(s: S.State, tid: nat, head: Heads, fs: FS, logged: set<nat>, todo: set<nat>, b: nat)
    requires S.Inv(s) && Flushing(s, tid, head, fs, logged, todo) && b in todo && b < |fs.blocks|
    ensures S.Shaped(s) && C.AnyFree(s.cache) && S.Unlocked(s, b) && tid in s.ops && b < |s.disk|
    ensures |s.ops| == 1 && |s.lh| < MAXOPBLOCKS < s.layout.size
  {
    OnceCard(s.lh);
    SubsetCard(logged - todo, logged - {b});
    CommitRoom(s);
    Idles(s);
    hide S.Inv;
    assert |s.ops| == |s.ops.Keys|;
  }

  lemma FlushOn(s: S.State, tid: nat, head: Heads, fs: FS, logged: set<nat>, todo: set<nat>, b: nat, s': S.State)
    requires Flushing(s, tid, head, fs, logged, todo) && b in todo && b < |fs.blocks|
    requires LogCode.Adds(s.lh, s.ops, tid, b, s'.lh, s'.ops) && s'.logical == s.logical[b := Stored(fs, head, b)]
    requires s'.users == s.users && s'.holder == s.holder && s'.phase == s.phase && s'.layout == s.layout
    ensures Flushing(s', tid, head, fs, logged, todo - {b})
  {
    hide Stored;
    assert s'.ops.Keys == {tid};
    assert Elements(s'.lh) == Elements(s.lh) + {b};
  }

  /** Every block the operation has logged goes through the cache and into the log, with its contents. */
  method Flush(log: LogCode.Log, f: FileSystem, tid: nat, head: Heads)
    requires log.Valid() && Flushing(log.Now(), tid, head, f.Fs(), f.logged, f.logged)
    requires f.dinodes == f.inodes && forall b :: b in f.logged ==> b < |f.blocks| && !InLog(log.layout, b)
    modifies log.block, log`n, log`path, log.cache, log.cache.buf, log.cache.next, log.cache.prev
    ensures log.cache.buf == old(log.cache.buf) && log.cache.next == old(log.cache.next)
        && log.cache.prev == old(log.cache.prev)
    ensures log.Valid() && Flushing(log.Now(), tid, head, f.Fs(), f.logged, {})
    ensures LogCode.SameOps(old(log.path), log.path)
  {
    hide S.Inv, LogCode.Path, BufferCache.BufferCache.Valid, C.AnyFree, S.Shaped, S.Unlocked, LogCode.SameOps,
      LogCode.Adds, Flushing, Stored;
    var todo := f.logged;
    LogCode.SameOpsSelf(log.path);
    while todo != {}
      invariant log.cache.buf == old(log.cache.buf) && log.cache.next == old(log.cache.next)
          && log.cache.prev == old(log.cache.prev)
      invariant log.Valid() && todo <= f.logged && Flushing(log.Now(), tid, head, f.Fs(), f.logged, todo)
      invariant LogCode.SameOps(old(log.path), log.path)
      decreases |todo|
    {
      var b: nat :| b in todo;
      ghost var s, p := log.Now(), log.path;
      FlushRoom(s, tid, head, f.Fs(), f.logged, todo, b);
      var ok := log.WriteBlock(tid, b, Stored(FS(f.sb, f.blocks, f.dinodes), head, b));
      assert ok;
      FlushOn(s, tid, head, f.Fs(), f.logged, todo, b, log.Now());
      LogCode.SameOpsTrans(old(log.path), p, log.path);
      todo := todo - {b};
    }
  }

  /** Every state in which no operation is under way shows what the path's end shows. */
  ghost predicate OneCommit(p: seq<S.State>, q: seq<S.State>) {
    |p| > 0 && p <= q && forall k :: |p| <= k < |q| && q[k].ops == map[] ==> q[k].logical == q[|q| - 1].logical
  }

  /** log_writes that leave the operation outstanding, and the end_op that commits. */
  lemma CommitsOnce(p: seq<S.State>, q: seq<S.State>, r: seq<S.State>)
    requires |p| > 0 && p[|p| - 1].ops != map[] && LogCode.SameOps(p, q) && LogCode.Settles(q, r)
    ensures OneCommit(p, r)
  {
    forall k | |p| <= k < |q| ensures r[k].ops != map[] {
      assert q[k].ops.Keys == p[|p| - 1].ops.Keys;
    }
  }

  lemma CommitsFrom(p: seq<S.State>, s: S.State, r: seq<S.State>)
    requires |p| > 0 && s.ops != map[] && OneCommit(p + [s], r)
    ensures OneCommit(p, r)
  {
    assert (p + [s])[|p|] == s;
  }

  /** What a chunk logs lies outside the log area, and is all that the log's callers have yet to see. */
  lemma ChunkLeft(s: S.State, head: Heads, fs: FS, f: FileSystem, i: nat)
    requires Laid(s.layout, fs.sb) && Stores(s.layout, head, s.logical, fs) && f.Valid() && f.sb == fs.sb
    requires i < |f.inodes| && LogsAll(fs.blocks, f.blocks, {}, f.logged) && OnlyInode(fs.inodes, f.inodes, i)
    requires f.inodes == fs.inodes || f.IBlockOf(i) in f.logged
    requires forall b :: b in f.logged ==> b == f.IBlockOf(i) || f.sb.bmapstart <= b < f.sb.size
    ensures StoredBut(s.layout, head, s.logical, f.Fs(), f.logged)
    ensures forall b :: b in f.logged ==> b < |f.blocks| && !InLog(s.layout, b)
  {
    LeftToWrite(s.layout, head, s.logical, fs, f.Fs(), i, f.logged);
    assert i / IPB <= fs.sb.ninodes / IPB;
  }

  lemma Synced(a: seq<Inode>, b: seq<Inode>, d: seq<Inode>, i: nat)
    requires OnlyInode(a, b, i) && i < |a| && d == a[i := b[i]]
    ensures d == b
  {
  }

  lemma Admits(s: S.State, tid: nat)
    requires S.Inv(s) && Quiet(s)
    ensures S.Shaped(s) && tid !in s.ops && |s.ops| == 0
  {
  }

  lemma Flushed(s: S.State, head: Heads, fs: FS, tid: nat, logged: set<nat>)
    requires S.Inv(s) && Flushing(s, tid, head, fs, logged, {})
    ensures s.ops.Keys == {tid} && |s.lh| < NBUF && !s.phase.Installing?
    ensures NoUsers(s) && Stores(s.layout, head, s.logical, fs)
  {
    assert Elements(s.lh) == logged;
    OnceCard(s.lh);
  }

  lemma SettledQuiet(q: seq<S.State>, r: seq<S.State>)
    requires LogCode.Settles(q, r) && NoUsers(q[|q| - 1])
    ensures Quiet(r[|r| - 1]) && r[|r| - 1].logical == q[|q| - 1].logical
  {
    if |r| == |q| { assert q == r; }
  }

  lemma Started(s: S.State, tid: nat, s1: S.State, head: Heads, fs: FS, logged: set<nat>)
    requires S.Shaped(s) && Quiet(s) && S.Next(s, S.BeginOp(tid), s1) && |logged| <= MAXOPBLOCKS < s.layout.size
    requires StoredBut(s1.layout, head, s1.logical, fs, logged)
    ensures Flushing(s1, tid, head, fs, logged, logged) && s1.ops != map[]
  {
    hide StoredBut, S.Shaped;
    assert s1.ops.Keys == {tid};
  }

  /** end_op of the only operation. */
  method EndLast(log: LogCode.Log, tid: nat)
    requires log.Valid() && NoUsers(log.Now()) && log.Now().ops.Keys == {tid} && |log.Now().lh| < NBUF
    requires !log.Now().phase.Installing?
    modifies log`outstanding, log`committing, log`disk, log`path, log`n
    modifies log.cache, log.cache.buf, log.cache.next, log.cache.prev
    ensures log.cache.buf == old(log.cache.buf) && log.cache.next == old(log.cache.next)
        && log.cache.prev == old(log.cache.prev)
    ensures log.Valid() && Quiet(log.Now()) && LogCode.Settles(old(log.path), log.path)
    ensures log.Now().logical == old(log.Now().logical) && log.Now().layout == old(log.Now().layout)
  {
    hide S.Inv, LogCode.Path, BufferCache.BufferCache.Valid, C.AnyFree, LogCode.Settles, S.Next, Quiet, S.Shaped,
      LogCode.NoneLocked;
    ghost var p := log.path;
    ghost var s := log.Now();
    assert |s.ops| == |s.ops.Keys|;
    LogCode.InvShape(s);
    CommitRoom(s);
    Idles(s);
    Dirties(s);
    var ok := log.EndOp(tid);
    SettledQuiet(p, log.path);
  }

  lemma Dirties(s: S.State)
    requires S.Shaped(s)
    ensures |s.holder| == |s.dirty| == NBUF
  {
  }

  /** The log_writes of an operation and its end_op. */
  method Commit(log: LogCode.Log, f: FileSystem, tid: nat, head: Heads)
    requires log.Valid() && Flushing(log.Now(), tid, head, f.Fs(), f.logged, f.logged) && log.Now().ops != map[]
    requires f.dinodes == f.inodes && forall b :: b in f.logged ==> b < |f.blocks| && !InLog(log.layout, b)
    modifies log, log.block, log.cache, log.cache.buf, log.cache.next, log.cache.prev
    ensures log.cache.buf == old(log.cache.buf) && log.cache.next == old(log.cache.next)
        && log.cache.prev == old(log.cache.prev)
    ensures log.Valid() && Quiet(log.Now()) && OneCommit(old(log.path), log.path)
    ensures Stores(log.layout, head, log.Now().logical, f.Fs())
  {
    hide S.Inv, LogCode.Path, BufferCache.BufferCache.Valid, C.AnyFree, S.Shaped, LogCode.SameOps, LogCode.Settles,
      StoredBut, Flushing, NoUsers, OneCommit, Quiet, S.Next;
    ghost var fs := f.Fs();
    Flush(log, f, tid, head);
    ghost var p := log.path;
    Flushed(p[|p| - 1], head, fs, tid, f.logged);
    EndLast(log, tid);
    CommitsOnce(old(log.path), p, log.path);
  }

  /** One chunk of filewrite, as one transaction. Once it is over the log is empty and its callers see the file
      system as the chunk left it; in between they are never without an operation under way. */
  method WriteChunk(log: LogCode.Log, f: FileSystem, tid: nat, i: nat, off: nat, src: seq<Byte>, done: nat, n1: nat,
      copyOk: nat -> bool, head: Heads, ghost fs0: FS) returns (r: int)
    requires log.Valid() && Quiet(log.Now()) && Joined(log.Now(), f, head)
    requires i < |f.inodes| && |src| < UINT && off + done < UINT && done + n1 <= |src| && n1 <= MAXCHUNK
    requires LayoutOk(fs0) && i < |fs0.inodes| && Copied(f.Fs(), i, off, src, done, fs0)
    modifies log, log.block, log.cache, log.cache.buf, log.cache.next, log.cache.prev
    modifies f`blocks, f`inodes, f`dinodes, f`logged, f`owner
    ensures log.cache.buf == old(log.cache.buf) && log.cache.next == old(log.cache.next)
        && log.cache.prev == old(log.cache.prev)
    ensures log.Valid() && Quiet(log.Now()) && Joined(log.Now(), f, head) && OneCommit(old(log.path), log.path)
    ensures |f.inodes| == old(|f.inodes|) && -1 <= r <= n1
    ensures r >= 0 ==> off + done + n1 <= MAXFILE * BSIZE
    ensures r == -1 <==> off + done > old(f.inodes)[i].size || off + done + n1 > MAXFILE * BSIZE
    ensures 0 <= r < n1 ==> LayoutOk(f.Fs()) && (Full(f.Fs()) || !copyOk(done + r))
    ensures r >= 0 ==> CopiesOk(off, done, r, copyOk)
    ensures Copied(f.Fs(), i, off, src, if r > 0 then done + r else done, fs0)
  {
    hide S.Inv, LogCode.Path, BufferCache.BufferCache.Valid, S.Shaped, FileSystem.Valid, StoredBut, Copied, Laid,
      LogsAll, OnlyInode, LayoutOk, Full, OneCommit, CopiesOk;
    ghost var s0, fs := log.Now(), f.Fs();
    Admits(s0, tid);
    var admitted := log.BeginOp(tid);
    assert admitted;
    ghost var s1 := log.Now();
    r := f.WriteOneChunk(i, off, src, done, n1, copyOk, fs0);
    f.ValidLaidOut();
    assert log.Valid() && log.Now() == s1;
    if r != -1 { Synced(fs.inodes, f.inodes, f.dinodes, i); }
    ChunkLeft(s1, head, fs, f, i);
    Started(s0, tid, s1, head, f.Fs(), f.logged);
    Commit(log, f, tid, head);
    CommitsFrom(old(log.path), s1, log.path);
  }

  // ---------- filewrite ----------

  /** The file system, its owners of blocks and the bytes written, as a chunk has left them. */
  datatype Mark = Mark(fs: FS, owner: map<nat, Place>, done: nat)

  /** The file system is sound, and done bytes of src have gone into file i. */
  ghost predicate MarkOk(m: Mark, i: nat, off: nat, src: seq<Byte>, fs0: FS)
    requires LayoutOk(fs0) && i < |fs0.inodes|
  {
    && m.fs.sb == fs0.sb && m.done <= |src| && Own(m.fs, m.owner, {})
    && (forall k: nat :: k < |m.fs.inodes| ==> FileOk(m.fs, k)) && Copied(m.fs, i, off, src, m.done, fs0)
  }

  ghost predicate MarksOk(marks: seq<Mark>, i: nat, off: nat, src: seq<Byte>, fs0: FS)
    requires LayoutOk(fs0) && i < |fs0.inodes|
  {
    |marks| > 0 && forall m :: 0 <= m < |marks| ==> MarkOk(marks[m], i, off, src, fs0)
  }

  /** Every mark but the last is at the end of a whole chunk. */
  ghost predicate Chunks(marks: seq<Mark>) {
    forall m :: 0 <= m < |marks| - 1 ==> marks[m].done == m * MAXCHUNK
  }

  ghost predicate AtMark(l: Layout, head: Heads, d: seq<Block>, marks: seq<Mark>, m: nat) {
    m < |marks| && Stores(l, head, d, marks[m].fs)
  }

  /** From state p0 on, whenever no operation is under way the log's callers see the file system of some mark. */
  ghost predicate Shown(l: Layout, head: Heads, path: seq<S.State>, p0: nat, marks: seq<Mark>) {
    forall k :: p0 <= k < |path| && path[k].ops == map[] ==> exists m: nat :: AtMark(l, head, path[k].logical, marks, m)
  }

  lemma ShownMore(l: Layout, head: Heads, p: seq<S.State>, q: seq<S.State>, p0: nat, marks: seq<Mark>, m: Mark)
    requires Shown(l, head, p, p0, marks) && OneCommit(p, q) && Stores(l, head, q[|q| - 1].logical, m.fs)
    ensures Shown(l, head, q, p0, marks + [m])
  {
    hide StoredBut;
    forall k | p0 <= k < |q| && q[k].ops == map[]
      ensures exists j: nat :: AtMark(l, head, q[k].logical, marks + [m], j)
    {
      if k < |p| {
        var j: nat :| AtMark(l, head, p[k].logical, marks, j);
        assert AtMark(l, head, q[k].logical, marks + [m], j);
      } else {
        assert AtMark(l, head, q[k].logical, marks + [m], |marks|);
      }
    }
  }

  /** Between two chunks of a filewrite that began at the end of path0: m is the latest mark, and every state since
      then with no operation under way shows a mark. */
  ghost predicate Between(l: Layout, path0: seq<S.State>, path: seq<S.State>, head: Heads, i: nat, off: nat,
      src: seq<Byte>, fs0: FS, m: Mark, marks: seq<Mark>)
  {
    && |path0| > 0 && path0 <= path && LayoutOk(fs0) && i < |fs0.inodes| == |m.fs.inodes|
    && MarksOk(marks, i, off, src, fs0) && Chunks(marks) && marks[|marks| - 1] == m
    && Shown(l, head, path, |path0| - 1, marks)
  }

  lemma LayoutNow(log: LogCode.Log)
    requires log.Valid()
    ensures log.Now().layout == log.layout
  {
    hide S.Inv, LogCode.Path;
  }

  lemma NewMark(f: FileSystem, i: nat, off: nat, src: seq<Byte>, done: nat, fs0: FS)
    requires LayoutOk(fs0) && i < |fs0.inodes| && f.Valid() && f.sb == fs0.sb && done <= |src|
    requires Copied(f.Fs(), i, off, src, done, fs0)
    ensures MarkOk(Mark(f.Fs(), f.owner, done), i, off, src, fs0)
  {
    hide Own, FileOk, Copied;
  }

  lemma BetweenStarts(l: Layout, path: seq<S.State>, f: FileSystem, head: Heads, i: nat, off: nat, src: seq<Byte>)
    requires |path| > 0 && f.Valid() && Stores(l, head, path[|path| - 1].logical, f.Fs()) && i < |f.inodes|
    ensures var m := Mark(f.Fs(), f.owner, 0); Between(l, path, path, head, i, off, src, f.Fs(), m, [m])
  {
    hide Own, FileOk, Copied, StoredBut, Shown, MarkOk;
    f.ValidLaidOut();
    CopiedNothing(f.Fs(), i, off, src);
    NewMark(f, i, off, src, 0, f.Fs());
    ShownFirst(l, head, path, [Mark(f.Fs(), f.owner, 0)]);
  }

  lemma BetweenOn(l: Layout, path0: seq<S.State>, path: seq<S.State>, path': seq<S.State>, head: Heads, i: nat,
      off: nat, src: seq<Byte>, fs0: FS, m: Mark, marks: seq<Mark>, m': Mark)
    requires Between(l, path0, path, head, i, off, src, fs0, m, marks) && m.done == (|marks| - 1) * MAXCHUNK
    requires OneCommit(path, path') && Stores(l, head, path'[|path'| - 1].logical, m'.fs)
    requires MarkOk(m', i, off, src, fs0) && |m'.fs.inodes| == |fs0.inodes|
    ensures Between(l, path0, path', head, i, off, src, fs0, m', marks + [m'])
  {
    hide MarkOk, Shown, StoredBut;
    ShownMore(l, head, path, path', |path0| - 1, marks, m');
  }

  lemma BetweenSize(l: Layout, path0: seq<S.State>, path: seq<S.State>, head: Heads, i: nat, off: nat, src: seq<Byte>,
      fs0: FS, m: Mark, marks: seq<Mark>)
    requires Between(l, path0, path, head, i, off, src, fs0, m, marks)
    ensures |m.fs.inodes| == |fs0.inodes| && m.fs.sb == fs0.sb && m.done <= |src| && LayoutOk(fs0) && i < |fs0.inodes|
    ensures Copied(m.fs, i, off, src, m.done, fs0) && (m.done > 0 ==> off + m.done <= m.fs.inodes[i].size)
    ensures m.done == 0 ==> m.fs.inodes[i].size == fs0.inodes[i].size
  {
    hide Copied, Shown, LayoutOk;
    assert MarkOk(marks[|marks| - 1], i, off, src, fs0);
    CopiedSize(m.fs, i, off, src, m.done, fs0);
  }

  /** A chunk, with its mark. */
  method NextChunk(log: LogCode.Log, f: FileSystem, tid: nat, i: nat, off: nat, src: seq<Byte>, done: nat, n1: nat,
      copyOk: nat -> bool, head: Heads, ghost path0: seq<S.State>, ghost fs0: FS, ghost marks: seq<Mark>)
    returns (r: int, ghost marks': seq<Mark>)
    requires log.Valid() && Quiet(log.Now()) && Joined(log.Now(), f, head)
    requires Between(log.layout, path0, log.path, head, i, off, src, fs0, Mark(f.Fs(), f.owner, done), marks)
    requires |src| < UINT && off + done < UINT && done + n1 <= |src| && n1 <= MAXCHUNK
    requires done == (|marks| - 1) * MAXCHUNK
    modifies log, log.block, log.cache, log.cache.buf, log.cache.next, log.cache.prev
    modifies f`blocks, f`inodes, f`dinodes, f`logged, f`owner
    ensures log.cache.buf == old(log.cache.buf) && log.cache.next == old(log.cache.next)
        && log.cache.prev == old(log.cache.prev)
    ensures log.Valid() && Quiet(log.Now()) && Joined(log.Now(), f, head) && |marks'| == |marks| + 1 && -1 <= r <= n1
    ensures var m := Mark(f.Fs(), f.owner, if r > 0 then done + r else done);
      Between(log.layout, path0, log.path, head, i, off, src, fs0, m, marks')
    ensures r >= 0 ==> off + done + n1 <= MAXFILE * BSIZE
    ensures r == -1 <==> i >= old(|f.inodes|) || off + done > old(f.inodes)[i].size || off + done + n1 > MAXFILE * BSIZE
    ensures 0 <= r < n1 ==> LayoutOk(f.Fs()) && (Full(f.Fs()) || !copyOk(done + r))
    ensures r >= 0 ==> CopiesOk(off, done, r, copyOk)
  {
    hide S.Inv, LogCode.Path, BufferCache.BufferCache.Valid, FileSystem.Valid, StoredBut, Copied, Laid, LayoutOk,
      Full, Quiet, MarkOk, Between, OneCommit, LogCode.Log.Is, CopiesOk;
    ghost var p, was := log.path, Mark(f.Fs(), f.owner, done);
    BetweenSize(log.layout, path0, p, head, i, off, src, fs0, was, marks);
    r := WriteChunk(log, f, tid, i, off, src, done, n1, copyOk, head, fs0);
    ghost var m := Mark(f.Fs(), f.owner, if r > 0 then done + r else done);
    NewMark(f, i, off, src, m.done, fs0);
    LayoutNow(log);
    BetweenOn(log.layout, path0, p, log.path, head, i, off, src, fs0, was, marks, m);
    marks' := marks + [m];
  }

  /** Why a filewrite stops after done bytes: the offset is past the end, the next chunk would make the file too
      large, the disk is full, or the next byte cannot be copied. */
  ghost predicate Refused(fs: FS, size: nat, off: nat, src: seq<Byte>, done: nat, copyOk: nat -> bool) {
    && LayoutOk(fs) && done <= |src|
    && (off > size || off + done + Chunk(|src| - done) > MAXFILE * BSIZE || Full(fs) || !copyOk(done))
  }

  /** filewrite on an inode, with every chunk a transaction of the log. */
  method FileWrite(log: LogCode.Log, f: FileSystem, tid: nat, i: nat, off: nat, src: seq<Byte>, copyOk: nat -> bool,
      head: Heads) returns (ret: int, off': nat, ghost marks: seq<Mark>)
    requires log.Valid() && Quiet(log.Now()) && Joined(log.Now(), f, head)
    requires i < |f.inodes| && off < UINT && |src| < UINT
    modifies log, log.block, log.cache, log.cache.buf, log.cache.next, log.cache.prev
    modifies f`blocks, f`inodes, f`dinodes, f`logged, f`owner
    ensures log.Valid() && Quiet(log.Now()) && Joined(log.Now(), f, head) && off <= off' <= off + |src|
    ensures var m := Mark(f.Fs(), f.owner, off' - off);
      Between(log.layout, old(log.path), log.path, head, i, off, src, old(f.Fs()), m, marks)
    ensures ret == |src| || ret == -1
    ensures ret == |src| ==> off' == off + |src|
    ensures ChunksOk(off, off' - off, copyOk)
    ensures ret != |src| ==>
      Refused(f.Fs(), old(f.inodes)[i].size, off, src, off' - off, copyOk)
  {
    hide S.Inv, LogCode.Path, BufferCache.BufferCache.Valid, FileSystem.Valid, Copied, LayoutOk, Full, Between,
      StoredBut, Laid, Quiet, LogCode.Log.Is, CopiesOk, ChunksOk;
    ghost var fs0, path0 := f.Fs(), log.path;
    LayoutNow(log);
    BetweenStarts(log.layout, path0, f, head, i, off, src);
    marks := [Mark(fs0, f.owner, 0)];
    ChunksNone(off, copyOk);
    off' := off;
    var done := 0;
    while done < |src|
      invariant log.cache.buf == old(log.cache.buf) && log.cache.next == old(log.cache.next)
          && log.cache.prev == old(log.cache.prev)
      invariant done <= |src| && off' == off + done && off' < UINT && (done > 0 ==> off + done <= MAXFILE * BSIZE)
      invariant log.Valid() && Quiet(log.Now()) && Joined(log.Now(), f, head)
      invariant Between(log.layout, path0, log.path, head, i, off, src, fs0, Mark(f.Fs(), f.owner, done), marks)
      invariant done < |src| ==> done == (|marks| - 1) * MAXCHUNK && done % MAXCHUNK == 0
      invariant ChunksOk(off, done, copyOk)
    {
      BetweenSize(log.layout, path0, log.path, head, i, off, src, fs0, Mark(f.Fs(), f.owner, done), marks);
      var n1 := Chunk(|src| - done);
      var r;
      r, marks := NextChunk(log, f, tid, i, off, src, done, n1, copyOk, head, path0, fs0, marks);
      f.ValidLaidOut();
      if r > 0 {
        off' := off' + r;
        ChunksMore(off, done, r, copyOk);
      }
      if r != n1 {
        return -1, off', marks;
      }
      done := done + r;
    }
    ret := |src|;
  }

  lemma ShownFirst(l: Layout, head: Heads, path: seq<S.State>, marks: seq<Mark>)
    requires |path| > 0 && |marks| == 1 && Stores(l, head, path[|path| - 1].logical, marks[0].fs)
    ensures Shown(l, head, path, |path| - 1, marks)
  {
    assert AtMark(l, head, path[|path| - 1].logical, marks, 0);
  }

  // ---------- crashes ----------

  lemma NextLayout(s: S.State, a: S.Action, s': S.State)
    requires S.Shaped(s) && S.Next(s, a, s')
    ensures s'.layout == s.layout
  {
    hide S.Shaped, C.LogOne, C.HeadOne, C.InstallOne;
  }

  lemma {:induction false} RunLayout(run: seq<S.State>, i: nat)
    requires S.Run(run) && i < |run|
    ensures run[i].layout == run[0].layout
  {
    hide S.Shaped, S.Next, S.Inv;
    if i > 0 {
      RunLayout(run, i - 1);
      assert S.StepBy(run[i - 1], run[i - 1 + 1]);
      var a: S.Action :| S.Next(run[i - 1], a, run[i]);
      NextLayout(run[i - 1], a, run[i]);
    }
  }

  /** With nothing in the log, what is durable is what the callers see. */
  lemma QuietDurable(s: S.State, b: nat)
    requires S.Inv(s) && Quiet(s) && b < |s.disk| && !InLog(s.layout, b)
    ensures |s.durable| == |s.logical| == |s.disk| && s.durable[b] == s.logical[b]
  {
    assert S.HomeOk(s, b);
  }

  /** Whatever the commit that a crash leaves durable, it left the file system of a mark. */
  lemma DurableMark(run: seq<S.State>, p0: nat, k: nat, j: nat, head: Heads, marks: seq<Mark>) returns (m: nat)
    requires S.Run(run) && p0 <= k < |run| && Quiet(run[p0]) && Shown(run[0].layout, head, run, p0, marks)
    requires j <= k && run[j].ops == map[] && forall t :: j <= t <= k ==> run[t].durable == run[j].logical
    ensures AtMark(run[0].layout, head, run[j].logical, marks, m)
  {
    hide S.Inv, S.Run;
    var l := run[0].layout;
    if j >= p0 {
      m :| AtMark(l, head, run[j].logical, marks, m);
    } else {
      var s := run[p0];
      S.RunKeeps(run, p0);
      RunLayout(run, p0);
      m :| AtMark(l, head, s.logical, marks, m);
      LogCode.InvShape(s);
      assert s.durable == run[j].logical;
      forall b: nat | b < |s.disk| && !InLog(l, b) ensures run[j].logical[b] == s.logical[b] {
        QuietDurable(s, b);
      }
    }
  }

  /** Stop a filewrite anywhere, between any two disk writes, and let any number of further crashes interrupt the
      recovery. The disk that the completed recovery leaves, mounted, is a sound file system in which file i has its
      old contents with a prefix of src spliced in, the prefix that some chunk of the filewrite ended with, and every
      other file is as it was before. */
  lemma CrashLeavesChunks(run: seq<S.State>, path0: seq<S.State>, k: nat, ds: seq<seq<Block>>, l: Layout, head: Heads,
      i: nat, off: nat, src: seq<Byte>, fs0: FS, last: Mark, marks: seq<Mark>) returns (m: Mark)
    requires S.Run(run) && l == run[0].layout && Laid(l, fs0.sb)
    requires Between(l, path0, run, head, i, off, src, fs0, last, marks) && Quiet(path0[|path0| - 1])
    requires |path0| - 1 <= k < |run| && |ds| > 0 && CrashChain(l, ds) && ds[0] == run[k].disk
    ensures DiskOk(l, ds[|ds| - 1]) && m.fs == Mounted(fs0.sb, Recover(l, ds[|ds| - 1]))
    ensures LayoutOk(fs0) && i < |fs0.inodes| && MarkOk(m, i, off, src, fs0)
    ensures m.done % MAXCHUNK == 0 || m.done == last.done
  {
    hide S.Run, Shown, Recover, StoredBut, MarkOk, Laid, LayoutOk, Mounted, Quiet, CrashChain, DiskOk, Chunks;
    assert run[|path0| - 1] == path0[|path0| - 1];
    RunLayout(run, k);
    var j := S.CrashAtomicity(run, k, ds);
    var at := DurableMark(run, |path0| - 1, k, j, head, marks);
    var d := Recover(l, ds[|ds| - 1]);
    SameStores(l, head, run[j].logical, d, marks[at].fs);
    MarkMounts(l, head, d, marks[at], i, off, src, fs0);
    m := Mark(Mounted(fs0.sb, d), marks[at].owner, marks[at].done);
    ChunkEnds(marks, at);
  }

  lemma ChunkEnds(marks: seq<Mark>, m: nat)
    requires Chunks(marks) && m < |marks|
    ensures marks[m].done % MAXCHUNK == 0 || m == |marks| - 1
  {
    if m < |marks| - 1 { assert marks[m].done == m * MAXCHUNK; }
  }

  /** Once filewrite has returned, a crash takes nothing back. */
  lemma ReturnedIsDurable(run: seq<S.State>, ds: seq<seq<Block>>, l: Layout, head: Heads, fs: FS,
      owner: map<nat, Place>)
    requires |run| > 0 && S.Run(run) && l == run[0].layout && Laid(l, fs.sb) && Quiet(run[|run| - 1])
    requires Own(fs, owner, {})
    requires Stores(l, head, run[|run| - 1].logical, fs)
    requires CrashChain(l, ds) && ds[0] == run[|run| - 1].disk
    ensures DiskOk(l, ds[|ds| - 1])
    ensures var fs' := Mounted(fs.sb, Recover(l, ds[|ds| - 1]));
      && Own(fs', owner, {}) && |fs'.inodes| == |fs.inodes|
      && forall i: nat :: i < |fs.inodes| ==> Contents(fs', i) == Contents(fs, i)
  {
    hide S.Run, Recover, StoredBut, Laid, Mounted, Own, S.Inv;
    var s := run[|run| - 1];
    RunLayout(run, |run| - 1);
    S.RunKeeps(run, |run| - 1);
    LogCode.InvShape(s);
    var j := S.CrashAtomicity(run, |run| - 1, ds);
    var d := Recover(l, ds[|ds| - 1]);
    assert s.durable == run[j].logical;
    forall b: nat | b < |s.disk| && !InLog(l, b) ensures d[b] == s.logical[b] { QuietDurable(s, b); }
    SameStores(l, head, s.logical, d, fs);
    LaidOut(fs, owner);
    MountsBack(l, head, d, fs, owner);
  }

  lemma SameStores(l: Layout, head: Heads, d: seq<Block>, d': seq<Block>, fs: FS)
    requires Stores(l, head, d, fs) && |d'| == |d| && forall b :: 0 <= b < |d| && !InLog(l, b) ==> d'[b] == d[b]
    ensures Stores(l, head, d', fs)
  {
    hide Stored;
  }

  lemma MarkMounts(l: Layout, head: Heads, d: seq<Block>, m: Mark, i: nat, off: nat, src: seq<Byte>, fs0: FS)
    requires LayoutOk(fs0) && i < |fs0.inodes| && MarkOk(m, i, off, src, fs0) && Laid(l, fs0.sb)
    requires Stores(l, head, d, m.fs)
    ensures MarkOk(Mark(Mounted(fs0.sb, d), m.owner, m.done), i, off, src, fs0)
  {
    hide Stored, StoredBut, Mounted, Contents, Splice, FileOk;
    MountsBack(l, head, d, m.fs, m.owner);
    LaidOut(m.fs, m.owner);
    LaidOut(Mounted(fs0.sb, d), m.owner);
  }
}
