/** create, link and unlink as the kernel runs them, with their failure paths, and closing files: proved
    against the system calls of LinkRuns. */
module LinkOps {
  import opened LinkCounts
  import opened LinkRuns

  class Files {
    var inodes: seq<Inode>
    var refs: seq<nat>

    ghost function Abs(): State
      reads this
    {
      State(inodes, refs)
    }

    /** The file system mkfs makes. */
    constructor (n: nat)
      requires n > ROOT
      ensures |inodes| == n && Initial(inodes) && Sound(Abs())
    {
      var root := Inode(Dir, 1, [Entry(ROOT, "."), Entry(ROOT, "..")]);
      inodes := seq(n, i => if i == ROOT then root else FREE);
      refs := seq(n, _ => 0);
      new;
      InitHolds(inodes, refs);
    }

    /** The slot of the entry called name. */
    method Dirlookup(d: nat, name: string) returns (found: bool, k: nat)
      requires d < |inodes|
      ensures found <==> !Absent(inodes[d].entries, name)
      ensures found ==> k == SlotOf(inodes[d].entries, name) < |inodes[d].entries|
    {
      k := 0;
      while k < |inodes[d].entries|
        invariant 0 <= k <= |inodes[d].entries| && forall j :: 0 <= j < k ==> !Called(inodes[d].entries[j], name)
      {
        if inodes[d].entries[k].inum != 0 && inodes[d].entries[k].name == name {
          SlotOfIs(inodes[d].entries, name, k);
          return true, k;
        }
        k := k + 1;
      }
      found := false;
      SlotOfIs(inodes[d].entries, name, k);
    }

    /** Put (name, i) in the first free slot of directory d. Fails if the name is there, or if d would
        have to grow and there is no room. */
    method Dirlink(d: nat, name: string, i: nat, room: bool) returns (ok: bool)
      requires d < |inodes|
      modifies this`inodes
      ensures var es := old(inodes[d].entries);
        && ok == (Absent(es, name) && (FirstFree(es) < |es| || room))
        && inodes == if ok then old(inodes)[d := old(inodes[d]).(entries := Put(es, FirstFree(es), Entry(i, name)))]
                     else old(inodes)
    {
      var found, at := Dirlookup(d, name);
      if found {
        return false;
      }
      var es := inodes[d].entries;
      var k := 0;
      while k < |es| && es[k].inum != 0
        invariant 0 <= k <= |es| && forall j :: 0 <= j < k ==> es[j].inum != 0
      {
        k := k + 1;
      }
      FirstFreeIs(es, k);
      if k == |es| && !room {
        return false;
      }
      inodes := inodes[d := inodes[d].(entries := Put(es, k, Entry(i, name)))];
      ok := true;
    }

    /** Is directory d empty except for "." and ".."? */
    method Isdirempty(d: nat) returns (empty: bool)
      requires d < |inodes|
      ensures empty <==> EmptyDir(inodes[d].entries)
    {
      var j := 2;
      while j < |inodes[d].entries|
        invariant 2 <= j && forall x :: 2 <= x < j && x < |inodes[d].entries| ==> inodes[d].entries[x].inum == 0
      {
        if inodes[d].entries[j].inum != 0 {
          return false;
        }
        j := j + 1;
      }
      empty := true;
    }

    /** Take the first free inode; 0 if there is none. The caller has a reference to it. */
    method Ialloc(kind: Kind) returns (i: nat)
      requires |refs| == |inodes| && |inodes| > 0
      modifies this
      ensures i == FreeInode(old(inodes), 1)
      ensures if i == 0 then inodes == old(inodes) && refs == old(refs)
        else inodes == old(inodes)[i := Inode(kind, 0, [])] && refs == old(refs)[i := old(refs[i]) + 1]
    {
      i := 1;
      while i < |inodes|
        invariant 1 <= i <= |inodes| && inodes == old(inodes) && refs == old(refs)
        invariant forall j :: 1 <= j < i ==> inodes[j].kind != None
      {
        if inodes[i].kind == None {
          FreeInodeIs(inodes, 1, i);
          inodes := inodes[i := Inode(kind, 0, [])];
          refs := refs[i := refs[i] + 1];
          return;
        }
        i := i + 1;
      }
      FreeInodeIs(inodes, 1, i);
      i := 0;
    }

    /** Drop a reference; the last one to an inode without links frees it. */
    method Iput(i: nat)
      requires i < |inodes| && i < |refs| && refs[i] >= 1
      modifies this
      ensures Abs() == Closed(old(Abs()), i)
    {
      if refs[i] == 1 && inodes[i].nlink == 0 {
        inodes := inodes[i := FREE];
      }
      refs := refs[i := refs[i] - 1];
    }

    /** Make an inode called name in directory d, or find the file that is. The caller gets a reference;
        0 is failure, after which everything is as before. */
    method Create(d: nat, name: string, kind: Kind, dot: bool, dotdot: bool, room: bool) returns (i: nat)
      requires Allowed(Abs(), Op.Create(d, name, kind, dot, dotdot, room))
      modifies this
      ensures var op := Op.Create(d, name, kind, dot, dotdot, room);
        && Abs() == Effect(old(Abs()), op)
        && Reply(old(Abs()), op) == if i == 0 then Failed else Got(i)
    {
      hide Absent, DirOk, Created;
      var found, k := Dirlookup(d, name);
      if found {
        EntryInRange(Abs(), d, k);
        i := Existing(inodes[d].entries[k].inum, kind);
      } else {
        i := MakeNew(d, name, kind, dot, dotdot, room);
      }
    }

    /** The name is free: take an inode, make it a directory if it is to be one, and enter it. */
    method MakeNew(d: nat, name: string, kind: Kind, dot: bool, dotdot: bool, room: bool) returns (i: nat)
      requires Clean(Abs()) && 0 < d < |inodes| && Live(inodes[d]) && Absent(inodes[d].entries, name) && kind != None
      modifies this
      ensures
        var es, free := old(inodes[d].entries), FreeInode(old(inodes), 1);
        var fails := free == 0 || (kind == Dir && !(dot && dotdot)) || (FirstFree(es) == |es| && !room);
        && i == (if fails then 0 else free)
        && inodes == (if fails then old(inodes) else Created(old(inodes), d, FirstFree(es), i, name, kind))
        && |refs| == |old(refs)| == |inodes| && refs == (if fails then old(refs) else old(refs)[i := old(refs[i]) + 1])
    {
      hide Put, Absent;
      i := Ialloc(kind);
      if i == 0 {
        return;
      }
      inodes := inodes[i := inodes[i].(nlink := 1)];
      var ok := true;
      if kind == Dir {
        ok := MakeDots(i, d, dot, dotdot);
      }
      if ok {
        assert inodes == old(inodes)[i := Inode(kind, 1, NewEntries(kind, i, d))];
        ok := Dirlink(d, name, i, room);
      }
      if !ok {
        Unmake(i, old(inodes), old(refs));
        i := 0;
        return;
      }
      if kind == Dir {
        inodes := inodes[d := inodes[d].(nlink := Wrap(inodes[d].nlink + 1))];
      }
      CreatedIs(old(inodes), d, i, name, kind, inodes);
    }

    /** The name is taken: that will do only for a plain file, if it is a file or a device. */
    method Existing(e: nat, kind: Kind) returns (i: nat)
      requires 0 < e < |inodes| && e < |refs|
      modifies this`refs
      ensures if kind == File && (inodes[e].kind == File || inodes[e].kind == Device)
        then i == e && refs == old(refs)[e := old(refs[e]) + 1] else i == 0 && refs == old(refs)
    {
      i := 0;
      if kind == File && (inodes[e].kind == File || inodes[e].kind == Device) {
        i := e;
        refs := refs[i := refs[i] + 1];
      }
    }

    /** The first two entries of a new directory. */
    method MakeDots(i: nat, d: nat, dot: bool, dotdot: bool) returns (ok: bool)
      requires 0 < i < |inodes| && d != 0 && inodes[i].entries == []
      modifies this`inodes
      ensures |inodes| == |old(inodes)| && inodes == old(inodes)[i := old(inodes[i]).(entries := inodes[i].entries)]
      ensures ok == (dot && dotdot)
      ensures ok ==> inodes[i].entries == [Entry(i, "."), Entry(d, "..")]
    {
      ok := Dirlink(i, ".", i, dot);
      if ok {
        ok := Dirlink(i, "..", d, dotdot);
        TwoEntries(i, d);
      }
    }

    /** Something went wrong: the new inode goes back. */
    method Unmake(i: nat, ghost inodes0: seq<Inode>, ghost refs0: seq<nat>)
      requires 0 < i < |inodes0| && |refs0| == |inodes0| && inodes0[i] == FREE && refs0[i] == 0
      requires |inodes| == |inodes0| && inodes == inodes0[i := inodes[i]] && refs == refs0[i := 1]
      modifies this
      ensures inodes == inodes0 && refs == refs0
    {
      inodes := inodes[i := inodes[i].(nlink := 0)];
      Iput(i);
    }

    /** Give inode i, which some path names, another name in directory d. Fails for a directory, for a
        name that is taken, and when d has to grow and cannot; then everything is as before. */
    method Link(i: nat, d: nat, name: string, room: bool) returns (ok: bool)
      requires Allowed(Abs(), Op.Link(i, d, name, room))
      modifies this
      ensures var op := Op.Link(i, d, name, room);
        && Abs() == Effect(old(Abs()), op)
        && Reply(old(Abs()), op) == if ok then Done else Failed
    {
      hide Put, Absent, DirOk;
      refs := refs[i := refs[i] + 1];            // namei
      if inodes[i].kind == Dir {
        Iput(i);
        assert refs == old(refs);
        return false;
      }
      inodes := inodes[i := inodes[i].(nlink := Wrap(inodes[i].nlink + 1))];
      ok := Dirlink(d, name, i, room);
      if !ok {
        inodes := inodes[i := inodes[i].(nlink := Wrap(inodes[i].nlink - 1))];
        assert inodes == old(inodes);
      }
      Iput(i);
      assert refs == old(refs);
    }

    /** Remove the entry called name from directory d. Fails for "." and "..", for a name that is not
        there, and for a directory that is not empty. */
    method Unlink(d: nat, name: string) returns (answer: Answer)
      requires Allowed(Abs(), Op.Unlink(d, name))
      modifies this
      ensures Abs() == Effect(old(Abs()), Op.Unlink(d, name)) && answer == Reply(old(Abs()), Op.Unlink(d, name))
    {
      hide Absent, DirOk, Unlinked;
      if name == "." || name == ".." {
        return Failed;
      }
      var found, k := Dirlookup(d, name);
      if !found {
        return Failed;
      }
      var e := inodes[d].entries[k].inum;
      EntryInRange(Abs(), d, k);
      if inodes[e].nlink < 1 {
        return Panicked;
      }
      if inodes[e].kind == Dir {
        var empty := Isdirempty(e);
        if !empty {
          return Failed;
        }
      }
      SlotIsNamed(Abs(), d, name);
      refs := refs[e := refs[e] + 1];            // dirlookup's iget
      Remove(d, k, e);
      Iput(e);
      answer := Done;
    }

    method Remove(d: nat, k: nat, e: nat)
      requires d < |inodes| && k < |inodes[d].entries| && e == inodes[d].entries[k].inum < |inodes| && e != d
      modifies this`inodes
      ensures inodes == Unlinked(old(inodes), d, k)
    {
      inodes := inodes[d := inodes[d].(entries := inodes[d].entries[k := Entry(0, "")])];
      if inodes[e].kind == Dir {
        inodes := inodes[d := inodes[d].(nlink := Wrap(inodes[d].nlink - 1))];
      }
      inodes := inodes[e := inodes[e].(nlink := Wrap(inodes[e].nlink - 1))];
    }

    method Open(i: nat)
      requires Allowed(Abs(), Op.Open(i))
      modifies this`refs
      ensures Abs() == Opened(old(Abs()), i)
    {
      refs := refs[i := refs[i] + 1];
    }

    method Operate(op: Op) returns (answer: Answer)
      requires Allowed(Abs(), op)
      modifies this
      ensures Abs() == Effect(old(Abs()), op) && answer == Reply(old(Abs()), op)
    {
      hide Parent, Clean;
      match op {
        case Create(d, name, kind, dot, dotdot, room) =>
          var i := Create(d, name, kind, dot, dotdot, room);
          answer := if i == 0 then Failed else Got(i);
        case Link(i, d, name, room) =>
          var ok := Link(i, d, name, room);
          answer := if ok then Done else Failed;
        case Unlink(d, name) =>
          answer := Unlink(d, name);
        case Open(i) =>
          Open(i);
          answer := Got(i);
        case Close(i) =>
          assert Clean(Abs());
          InRange(Abs(), i);
          Iput(i);
          answer := Done;
      }
    }

    /** The code does in every run what the calls of LinkRuns do. */
    method Run(ops: seq<Op>) returns (answers: seq<Answer>)
      requires Fits(Abs(), ops)
      modifies this
      ensures Abs() == After(old(Abs()), ops) && answers == Replies(old(Abs()), ops)
    {
      hide Effect, Reply, Allowed;
      answers := [];
      var n := 0;
      assert ops[0..] == ops;
      while n < |ops|
        invariant 0 <= n <= |ops| && Fits(Abs(), ops[n..])
        invariant After(old(Abs()), ops) == After(Abs(), ops[n..])
        invariant Replies(old(Abs()), ops) == answers + Replies(Abs(), ops[n..])
      {
        assert ops[n..][0] == ops[n] && ops[n..][1..] == ops[n + 1..];
        var answer := Operate(ops[n]);
        answers := answers + [answer];
        n := n + 1;
      }
    }
  }

  lemma InRange(s: State, i: nat)
    requires Clean(s) && i < |s.inodes|
    ensures i < |s.refs|
  {
  }

  lemma EntryInRange(s: State, d: nat, k: nat)
    requires Clean(s) && Parent(s, d) && k < |s.inodes[d].entries| && s.inodes[d].entries[k].inum != 0
    ensures 0 < s.inodes[d].entries[k].inum < |s.inodes| && |s.refs| == |s.inodes|
  {
  }

  lemma CreatedIs(inodes: seq<Inode>, d: nat, i: nat, name: string, kind: Kind, inodes': seq<Inode>)
    requires d < |inodes| && i < |inodes| && i != d && Live(inodes[d])
    requires
      var es := inodes[d].entries;
      var mid := inodes[i := Inode(kind, 1, NewEntries(kind, i, d))];
      var put := mid[d := mid[d].(entries := Put(es, FirstFree(es), Entry(i, name)))];
      inodes' == if kind == Dir then put[d := put[d].(nlink := Wrap(put[d].nlink + 1))] else put
    ensures inodes' == Created(inodes, d, FirstFree(inodes[d].entries), i, name, kind)
  {
  }

  lemma TwoEntries(i: nat, d: nat)
    requires i != 0 && d != 0
    ensures
      var one := Put([], FirstFree([]), Entry(i, "."));
      Put(one, FirstFree(one), Entry(d, "..")) == [Entry(i, "."), Entry(d, "..")]
  {
  }
}
