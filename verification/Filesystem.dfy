/** What the ledger's relocation stands on: names that lead to files, SQLite ledgers with a main file
    and a write-ahead log, one writer lock for each, and every other process, which may at any moment
    open the ledger by its path, wait for the lock, commit, checkpoint, close or be killed. */
module Filesystem {
  import opened Wrappers

  type Name = string
  type Inode = nat
  type Pid = nat
  type Tx = nat

  /** A directory entry: a file, or a symbolic link to another name. */
  datatype Entry = File(inode: Inode) | Link(target: Name)

  /** A ledger's files: the main file, the log's transactions, and how many of them a checkpoint has
      already copied into the main file. Only a truncating checkpoint or a rewind empties the log. */
  datatype Ledger = Ledger(main: seq<Tx>, log: seq<Tx>, applied: nat)

  /** `next` is the first inode number never used; `committed` is the history of every transaction any
      process ever committed, in order. */
  datatype Disk = Disk(
    names: map<Name, Entry>,
    ledgers: map<Inode, Ledger>,
    open: set<(Pid, Inode)>,
    writer: map<Inode, Pid>,
    next: Inode,
    committed: seq<Tx>)

  /** The relocating process. */
  const MOVER: Pid := 0

  function Resolve(d: Disk, name: Name): Option<Inode> {
    if name !in d.names then None
    else
      match d.names[name]
      case File(i) => Some(i)
      case Link(t) => if t in d.names && d.names[t].File? then Some(d.names[t].inode) else None
  }

  /** What a reader of these files sees. */
  function Content(l: Ledger): seq<Tx> {
    l.main + if l.applied <= |l.log| then l.log[l.applied..] else []
  }

  /** `otherHolders`: the other processes that have the named file open, whatever name they used. */
  function Holders(d: Disk, name: Name): set<Pid> {
    var i := Resolve(d, name);
    set h | h in d.open && h.0 != MOVER && i == Some(h.1) :: h.0
  }

  // ---- the other processes -------------------------------------------------------------------

  datatype Act =
    | Open(pid: Pid)
    | Begin(pid: Pid, inode: Inode)
    | Commit(pid: Pid, inode: Inode, tx: Tx, rewind: bool)
    | Rollback(pid: Pid, inode: Inode)
    | Checkpoint(pid: Pid, inode: Inode, count: nat, truncate: bool)
    | Close(pid: Pid, inode: Inode)
    | Die(pid: Pid)

  function Appended(l: Ledger, tx: Tx, rewind: bool): Ledger {
    if rewind && l.applied == |l.log| then Ledger(l.main, [tx], 0) else l.(log := l.log + [tx])
  }

  function Checkpointed(l: Ledger, count: nat, truncate: bool): Ledger {
    if l.applied + count > |l.log| then l
    else
      var more := l.(main := l.main + l.log[l.applied..l.applied + count], applied := l.applied + count);
      if truncate && more.applied == |more.log| then more.(log := [], applied := 0) else more
  }

  function Gone(d: Disk, pids: set<Pid>): Disk {
    d.(open := (set h | h in d.open && h.0 !in pids),
       writer := (map i | i in d.writer && d.writer[i] !in pids :: d.writer[i]))
  }

  /** One act of another process; an act it cannot perform does nothing. A commit needs the file
      open and the writer lock; a checkpoint needs only the file. */
  function After(path: Name, d: Disk, a: Act): Disk {
    if a.pid == MOVER then d
    else
      match a
      case Open(p) =>
        var i := Resolve(d, path);
        if i.Some? && i.value in d.ledgers then d.(open := d.open + {(p, i.value)}) else d
      case Begin(p, i) => if (p, i) in d.open && i !in d.writer then d.(writer := d.writer[i := p]) else d
      case Commit(p, i, tx, rewind) =>
        if i in d.writer && d.writer[i] == p && i in d.ledgers then
          d.(ledgers := d.ledgers[i := Appended(d.ledgers[i], tx, rewind)], writer := d.writer - {i},
             committed := d.committed + [tx])
        else d
      case Rollback(p, i) => if i in d.writer && d.writer[i] == p then d.(writer := d.writer - {i}) else d
      case Checkpoint(p, i, count, truncate) =>
        if (p, i) in d.open && i in d.ledgers then d.(ledgers := d.ledgers[i := Checkpointed(d.ledgers[i], count, truncate)])
        else d
      case Close(p, i) =>
        d.(open := d.open - {(p, i)}, writer := if i in d.writer && d.writer[i] == p then d.writer - {i} else d.writer)
      case Die(p) => Gone(d, {p})
  }

  function AfterAll(path: Name, d: Disk, acts: seq<Act>): Disk
    decreases |acts|
  {
    if acts == [] then d else AfterAll(path, After(path, d, acts[0]), acts[1..])
  }

  // ---- what holds whatever the others do -----------------------------------------------------

  /** The path leads to a ledger, locks are held on open files, and logs are read within bounds. */
  ghost predicate Sound(path: Name, d: Disk) {
    && Resolve(d, path).Some? && Resolve(d, path).value in d.ledgers
    && (forall h :: h in d.open ==> h.1 in d.ledgers)
    && (forall i :: i in d.writer ==> (d.writer[i], i) in d.open)
    && (forall i :: i in d.ledgers ==> i < d.next && d.ledgers[i].applied <= |d.ledgers[i].log|)
  }

  /** Every committed transaction, in order and nothing else, is in the file the path leads to. */
  ghost predicate Whole(path: Name, d: Disk) {
    && Resolve(d, path).Some? && Resolve(d, path).value in d.ledgers
    && Content(d.ledgers[Resolve(d, path).value]) == d.committed
  }

  /** No other process has any file open but the one the path leads to. */
  ghost predicate Clean(path: Name, d: Disk) {
    forall h :: h in d.open && h.0 != MOVER ==> Resolve(d, path) == Some(h.1)
  }

  /** The mover holds this file's writer lock. */
  ghost predicate Locked(d: Disk, i: Inode) {
    (MOVER, i) in d.open && i in d.writer && d.writer[i] == MOVER && i in d.ledgers
  }

  /** The mover holds the lock of a file whose log is empty: its main file cannot change. */
  ghost predicate Frozen(d: Disk, i: Inode) {
    Locked(d, i) && d.ledgers[i].log == [] && d.ledgers[i].applied == 0
  }

  /** The other processes hold only these two files. */
  ghost predicate Within(d: Disk, i: Inode, j: Inode) {
    forall h :: h in d.open && h.0 != MOVER ==> h.1 == i || h.1 == j
  }

  lemma ActKeepsNames(path: Name, d: Disk, a: Act)
    ensures After(path, d, a).names == d.names
    ensures forall n :: Resolve(After(path, d, a), n) == Resolve(d, n)
    ensures forall i :: (MOVER, i) in d.open <==> (MOVER, i) in After(path, d, a).open
    ensures forall i :: i in d.writer && d.writer[i] == MOVER ==> i in After(path, d, a).writer && After(path, d, a).writer[i] == MOVER
    ensures After(path, d, a).ledgers.Keys == d.ledgers.Keys && d.committed <= After(path, d, a).committed
  {}

  lemma ActKeepsSound(path: Name, d: Disk, a: Act)
    requires Sound(path, d)
    ensures Sound(path, After(path, d, a))
  {
    ActKeepsNames(path, d, a);
  }

  lemma AppendedContent(l: Ledger, tx: Tx, rewind: bool)
    requires l.applied <= |l.log|
    ensures Content(Appended(l, tx, rewind)) == Content(l) + [tx]
  {
    if rewind && l.applied == |l.log| {
      assert Content(l) == l.main;
      assert [tx][0..] == [tx];
    } else {
      assert (l.log + [tx])[l.applied..] == l.log[l.applied..] + [tx];
    }
  }

  lemma CheckpointedContent(l: Ledger, count: nat, truncate: bool)
    requires l.applied <= |l.log|
    ensures Content(Checkpointed(l, count, truncate)) == Content(l)
  {
    if l.applied + count <= |l.log| {
      assert l.log[l.applied..] == l.log[l.applied..l.applied + count] + l.log[l.applied + count..];
    }
  }

  /** An act never changes a file whose lock the mover holds and whose log is empty. */
  lemma ActKeepsFrozen(path: Name, d: Disk, a: Act, i: Inode)
    requires Frozen(d, i)
    ensures Frozen(After(path, d, a), i) && After(path, d, a).ledgers[i] == d.ledgers[i]
  {
    ActKeepsNames(path, d, a);
    assert d.ledgers[i].main + [] == d.ledgers[i].main;
  }

  /** Nothing is lost while every file another process could commit to is the path's own, or is one
      whose lock the mover holds. */
  lemma ActKeepsWhole(path: Name, d: Disk, a: Act, other: Inode)
    requires Sound(path, d) && Whole(path, d) && Within(d, other, Resolve(d, path).value)
    requires Resolve(d, path) == Some(other) || (other in d.writer && d.writer[other] == MOVER)
    ensures Whole(path, After(path, d, a)) && Within(After(path, d, a), other, Resolve(d, path).value)
  {
    ActKeepsNames(path, d, a);
    var now := Resolve(d, path).value;
    match a
    case Commit(p, i, tx, rewind) =>
      if p != MOVER && i in d.writer && d.writer[i] == p && i in d.ledgers {
        assert (p, i) in d.open;
        AppendedContent(d.ledgers[now], tx, rewind);
      }
    case Checkpoint(p, i, count, truncate) => CheckpointedContent(d.ledgers[now], count, truncate);
    case _ =>
  }

  // ---- and over any number of acts -----------------------------------------------------------

  lemma {:induction false} RunKeepsNames(path: Name, d: Disk, acts: seq<Act>)
    ensures AfterAll(path, d, acts).names == d.names
    ensures forall n :: Resolve(AfterAll(path, d, acts), n) == Resolve(d, n)
    ensures forall i :: (MOVER, i) in d.open <==> (MOVER, i) in AfterAll(path, d, acts).open
    ensures forall i :: i in d.writer && d.writer[i] == MOVER ==>
              i in AfterAll(path, d, acts).writer && AfterAll(path, d, acts).writer[i] == MOVER
    ensures AfterAll(path, d, acts).ledgers.Keys == d.ledgers.Keys && d.committed <= AfterAll(path, d, acts).committed
    decreases |acts|
  {
    hide After; hide Resolve;
    if acts != [] {
      ActKeepsNames(path, d, acts[0]);
      RunKeepsNames(path, After(path, d, acts[0]), acts[1..]);
    }
  }

  lemma {:induction false} RunKeepsSound(path: Name, d: Disk, acts: seq<Act>)
    requires Sound(path, d)
    ensures Sound(path, AfterAll(path, d, acts))
    decreases |acts|
  {
    hide After; hide Sound;
    if acts != [] {
      ActKeepsSound(path, d, acts[0]);
      RunKeepsSound(path, After(path, d, acts[0]), acts[1..]);
    }
  }

  lemma {:induction false} RunKeepsFrozen(path: Name, d: Disk, acts: seq<Act>, i: Inode)
    requires Frozen(d, i)
    ensures Frozen(AfterAll(path, d, acts), i) && AfterAll(path, d, acts).ledgers[i] == d.ledgers[i]
    decreases |acts|
  {
    hide After;
    if acts != [] {
      ActKeepsFrozen(path, d, acts[0], i);
      RunKeepsFrozen(path, After(path, d, acts[0]), acts[1..], i);
    }
  }

  lemma {:induction false} RunKeepsWhole(path: Name, d: Disk, acts: seq<Act>, other: Inode)
    requires Sound(path, d) && Whole(path, d) && Within(d, other, Resolve(d, path).value)
    requires Resolve(d, path) == Some(other) || (other in d.writer && d.writer[other] == MOVER)
    ensures Whole(path, AfterAll(path, d, acts)) && Within(AfterAll(path, d, acts), other, Resolve(d, path).value)
    decreases |acts|
  {
    hide After; hide Sound; hide Whole; hide Within; hide Resolve;
    if acts != [] {
      ActKeepsNames(path, d, acts[0]);
      ActKeepsSound(path, d, acts[0]);
      SoundResolves(path, d);
      ActKeepsWhole(path, d, acts[0], other);
      RunKeepsWhole(path, After(path, d, acts[0]), acts[1..], other);
    }
  }

  /** A file nobody has open and the path does not lead to is left alone. */
  ghost predicate Unopened(path: Name, d: Disk, i: Inode) {
    i in d.ledgers && Resolve(d, path) != Some(i) && forall h :: h in d.open ==> h.1 != i
  }

  lemma ActKeepsUnopened(path: Name, d: Disk, a: Act, i: Inode)
    requires Sound(path, d) && Unopened(path, d, i)
    ensures Unopened(path, After(path, d, a), i) && After(path, d, a).ledgers[i] == d.ledgers[i]
  {
    ActKeepsNames(path, d, a);
  }

  lemma {:induction false} RunKeepsUnopened(path: Name, d: Disk, acts: seq<Act>, i: Inode)
    requires Sound(path, d) && Unopened(path, d, i)
    ensures Unopened(path, AfterAll(path, d, acts), i) && AfterAll(path, d, acts).ledgers[i] == d.ledgers[i]
    decreases |acts|
  {
    hide After; hide Sound; hide Resolve;
    if acts != [] {
      ActKeepsSound(path, d, acts[0]);
      ActKeepsUnopened(path, d, acts[0], i);
      RunKeepsUnopened(path, After(path, d, acts[0]), acts[1..], i);
    }
  }

  lemma SoundResolves(path: Name, d: Disk)
    requires Sound(path, d)
    ensures Resolve(d, path).Some?
  {}

  /** Whatever the other processes do from here on, every committed transaction stays readable at
      the path. */
  ghost predicate SafeForever(path: Name, d: Disk) {
    forall acts :: Whole(path, AfterAll(path, d, acts))
  }

  /** No commit can ever be lost exactly when nothing but the path's own file is still open: one
      process left on another file is enough to lose one. */
  lemma SafeIffClean(path: Name, d: Disk)
    requires Sound(path, d) && Whole(path, d) && forall i :: (MOVER, i) !in d.open
    ensures SafeForever(path, d) <==> Clean(path, d)
  {
    if Clean(path, d) {
      forall acts ensures Whole(path, AfterAll(path, d, acts)) {
        RunKeepsWhole(path, d, acts, Resolve(d, path).value);
      }
    } else {
      var h :| h in d.open && h.0 != MOVER && Resolve(d, path) != Some(h.1);
      var acts := StrayCommit(path, d, h.0, h.1);
      assert !Whole(path, AfterAll(path, d, acts));
    }
  }

  /** The run that loses a commit: a process that has another file open takes its lock, or whoever
      has it already does, and commits there. */
  lemma StrayCommit(path: Name, d: Disk, pid: Pid, i: Inode) returns (acts: seq<Act>)
    requires Sound(path, d) && Whole(path, d) && (forall j :: (MOVER, j) !in d.open)
    requires (pid, i) in d.open && Resolve(d, path) != Some(i)
    ensures !Whole(path, AfterAll(path, d, acts))
  {
    var first := if i in d.writer then Begin(d.writer[i], i) else Begin(pid, i);
    var mid := After(path, d, first);
    var q := mid.writer[i];
    var last := Commit(q, i, 0, false);
    acts := [first, last];
    var end := After(path, mid, last);
    assert acts[1..] == [last] && [last][1..] == [];
    assert AfterAll(path, d, acts) == AfterAll(path, mid, [last]) == end;
    ActKeepsNames(path, d, first);
    ActKeepsNames(path, mid, last);
    var now := Resolve(d, path).value;
    assert end.ledgers[now] == d.ledgers[now];
    assert |end.committed| == |d.committed| + 1;
  }
}
