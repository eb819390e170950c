/** Moving the live ledger to another filesystem, and back, while any other process may open it, wait
    for its lock, commit or be killed between any two statements, and the mover itself may crash. */
module Relocation {
  import opened Wrappers
  import opened Filesystem

  /** `Moved` and `LeftInPlace` are the source's true and false, `Failed` its exceptions. */
  datatype Outcome = Moved | LeftInPlace | Failed | Crashed

  /** How one part of the procedure ended: `Going` on to the next, or stopping with an outcome. */
  datatype Progress = Going | Stop(outcome: Outcome)

  /** What one moment of a run brings: what the other processes do, whether the mover is killed, whether
      its next call fails, and what `cp` writes if not the very bytes. */
  datatype Chance = Chance(acts: seq<Act>, killed: bool, fails: bool, garbled: Option<seq<Tx>>)

  /** Nobody else does anything, and nothing goes wrong. */
  const Calm := Chance([], false, false, None)

  /** From this moment on nobody else does anything and nothing goes wrong. */
  ghost predicate Quiet(chances: nat -> Chance, from: nat) {
    forall n: nat :: n >= from ==> chances(n) == Calm
  }

  lemma QuietLater(chances: nat -> Chance, from: nat, to: nat)
    requires from <= to
    ensures Quiet(chances, from) ==> Quiet(chances, to) && chances(to) == Calm
  {}

  /** The last of these moments was the mover's end. */
  predicate Killed(chances: nat -> Chance, from: nat, to: nat) {
    to > from && chances(to - 1).killed
  }

  lemma QuietAlive(chances: nat -> Chance, from: nat, to: nat)
    requires Quiet(chances, from)
    ensures forall m: nat :: from <= m ==> !Killed(chances, m, to)
  {}

  /** The names one run uses beside the ledger's path. */
  datatype Stamp = Stamp(destination: Name, moving: Name, retired: Name, link: Name, stale: Name, staleMoving: Name)

  /** The ledger is whole, nothing but the path's own file is open, and the mover holds nothing. */
  ghost predicate Settled(path: Name, d: Disk) {
    Sound(path, d) && Whole(path, d) && Clean(path, d) && forall i :: (MOVER, i) !in d.open
  }

  ghost predicate MoverHolds(d: Disk, i: Inode) {
    forall j :: (MOVER, j) in d.open <==> j == i
  }

  /** The path still leads, directly or by its link, to the file being moved. */
  ghost predicate Named(path: Name, d: Disk, source: Name, i: Inode) {
    && source in d.names && d.names[source] == File(i)
    && path in d.names && (path == source || d.names[path] == Link(source))
  }

  /** Before the swap, with the mover's own connection open. */
  ghost predicate Held(path: Name, d: Disk, i: Inode) {
    Sound(path, d) && Whole(path, d) && Clean(path, d) && Resolve(d, path) == Some(i) && MoverHolds(d, i)
  }

  /** After the swap: the path leads to the copy, and the retired file cannot change. */
  ghost predicate Swapped(path: Name, d: Disk, i: Inode, copy: Inode) {
    && Sound(path, d) && Whole(path, d) && Resolve(d, path) == Some(copy) && copy != i
    && Within(d, i, copy) && Frozen(d, i) && MoverHolds(d, i) && Content(d.ledgers[i]) <= d.committed
  }

  // ---- how the predicates survive the other processes -----------------------------------------

  lemma CleanIsWithin(path: Name, d: Disk)
    requires Resolve(d, path).Some?
    ensures Clean(path, d) <==> Within(d, Resolve(d, path).value, Resolve(d, path).value)
  {}

  lemma RunKeepsHeld(path: Name, d: Disk, acts: seq<Act>, i: Inode)
    requires Held(path, d, i)
    ensures Held(path, AfterAll(path, d, acts), i)
  {
    hide After; hide AfterAll; hide Resolve; hide Sound; hide Whole; hide Clean; hide Within;
    RunKeepsNames(path, d, acts);
    RunKeepsSound(path, d, acts);
    CleanIsWithin(path, d);
    RunKeepsWhole(path, d, acts, i);
    CleanIsWithin(path, AfterAll(path, d, acts));
  }

  lemma RunKeepsSettled(path: Name, d: Disk, acts: seq<Act>)
    requires Settled(path, d)
    ensures Settled(path, AfterAll(path, d, acts))
  {
    SoundResolves(path, d);
    hide After; hide AfterAll; hide Resolve; hide Sound; hide Whole; hide Clean; hide Within;
    RunKeepsNames(path, d, acts);
    RunKeepsSound(path, d, acts);
    CleanIsWithin(path, d);
    RunKeepsWhole(path, d, acts, Resolve(d, path).value);
    CleanIsWithin(path, AfterAll(path, d, acts));
  }

  lemma RunKeepsSwapped(path: Name, d: Disk, acts: seq<Act>, i: Inode, copy: Inode)
    requires Swapped(path, d, i, copy)
    ensures Swapped(path, AfterAll(path, d, acts), i, copy)
    ensures AfterAll(path, d, acts).ledgers[i] == d.ledgers[i]
    ensures Clean(path, d) ==> Clean(path, AfterAll(path, d, acts))
  {
    assert i in d.writer && d.writer[i] == MOVER;
    hide After; hide AfterAll; hide Resolve; hide Sound; hide Whole; hide Clean; hide Within; hide Frozen; hide Content;
    RunKeepsNames(path, d, acts);
    RunKeepsSound(path, d, acts);
    RunKeepsFrozen(path, d, acts, i);
    RunKeepsWhole(path, d, acts, i);
    CleanIsWithin(path, d);
    CleanIsWithin(path, AfterAll(path, d, acts));
    if Clean(path, d) { RunKeepsWhole(path, d, acts, copy); }
  }

  /** The mover lets go of everything it holds, by closing or by dying. */
  lemma MoverGone(path: Name, d: Disk)
    requires Sound(path, d) && Whole(path, d)
    ensures var e := Gone(d, {MOVER});
      && Sound(path, e) && Whole(path, e) && Resolve(e, path) == Resolve(d, path)
      && (Clean(path, e) <==> Clean(path, d)) && forall i :: (MOVER, i) !in e.open
  {
    var e := Gone(d, {MOVER});
    assert forall h :: h in d.open && h.0 != MOVER ==> h in e.open;
  }

  /** A finished copy of the held file, which nobody has open. */
  ghost predicate Copied(path: Name, d: Disk, i: Inode, copy: Inode) {
    Frozen(d, i) && Unopened(path, d, copy) && d.ledgers[copy] == Ledger(d.ledgers[i].main, [], 0)
  }

  lemma RunKeepsCopied(path: Name, d: Disk, acts: seq<Act>, i: Inode, copy: Inode)
    requires Sound(path, d) && Copied(path, d, i, copy)
    ensures Copied(path, AfterAll(path, d, acts), i, copy)
  {
    hide After; hide AfterAll; hide Resolve; hide Sound; hide Frozen; hide Unopened;
    RunKeepsFrozen(path, d, acts, i);
    RunKeepsUnopened(path, d, acts, copy);
    UnopenedIn(path, d, copy);
    UnopenedIn(path, AfterAll(path, d, acts), copy);
    FrozenIn(d, i);
    FrozenIn(AfterAll(path, d, acts), i);
  }

  lemma UnopenedIn(path: Name, d: Disk, i: Inode)
    requires Unopened(path, d, i)
    ensures i in d.ledgers
  {}

  lemma FrozenIn(d: Disk, i: Inode)
    requires Frozen(d, i)
    ensures i in d.ledgers
  {}

  lemma EmptyLogFrozen(path: Name, d: Disk, i: Inode)
    requires Sound(path, d) && Locked(d, i) && d.ledgers[i].log == []
    ensures Frozen(d, i)
  {}

  /** The instant of the swap: the path leads to the copy, which holds every commit. */
  lemma SwapInstant(path: Name, d: Disk, e: Disk, i: Inode, copy: Inode)
    requires Held(path, d, i) && Copied(path, d, i, copy)
    requires e == d.(names := e.names) && Resolve(e, path) == Some(copy)
    ensures Swapped(path, e, i, copy) && Content(e.ledgers[i]) == d.committed
  {
    assert Content(d.ledgers[copy]) == d.ledgers[i].main == Content(d.ledgers[i]);
  }

  /** Stopping processes other than the mover. */
  lemma GoneKeepsSwapped(path: Name, d: Disk, pids: set<Pid>, i: Inode, copy: Inode)
    requires Swapped(path, d, i, copy) && MOVER !in pids
    ensures Swapped(path, Gone(d, pids), i, copy)
    ensures (forall h :: h in d.open && h.0 != MOVER && h.1 == i ==> h.0 in pids) ==> Clean(path, Gone(d, pids))
  {}

  /** Once nobody else has the retired file open, nothing but the path's own file is open. */
  lemma NoHoldersClean(path: Name, d: Disk, retired: Name, i: Inode, copy: Inode)
    requires Swapped(path, d, i, copy) && Resolve(d, retired) == Some(i)
    ensures Holders(d, retired) == {} <==> Clean(path, d)
    ensures forall h :: h in d.open && h.0 != MOVER && h.1 == i ==> h.0 in Holders(d, retired)
  {
    forall h | h in d.open && h.0 != MOVER && h.1 == i ensures h.0 in Holders(d, retired) {}
    if Holders(d, retired) != {} {
      var p :| p in Holders(d, retired);
      assert (p, i) in d.open;
    }
  }

  /** Changing names the path does not use changes nothing that matters before the swap. */
  lemma RenamedElsewhere(path: Name, d: Disk, e: Disk, source: Name, i: Inode)
    requires e == d.(names := e.names) && Named(path, d, source, i)
    requires path in e.names && e.names[path] == d.names[path] && source in e.names && e.names[source] == d.names[source]
    ensures Named(path, e, source, i) && Resolve(e, path) == Resolve(d, path) == Some(i)
    ensures Held(path, d, i) ==> Held(path, e, i)
    ensures Settled(path, d) ==> Settled(path, e)
    ensures forall copy :: Copied(path, d, i, copy) ==> Copied(path, e, i, copy)
  {}

  /** How a run of `fencedCopyAndSwap` leaves the disk. However it ends, every transaction ever
      committed is in the file the path leads to. Unless it crashed after the swap, that stays so
      whatever anyone does next; and if it did, that stays so exactly when no other process still has
      the retired file open. Before the swap, and after every refusal or failure, the path still leads
      to the original; after it, the original is kept under its retired name, with every transaction that
      was committed before the run, and with none that was never committed. */
  ghost predicate Concluded(path: Name, before: Disk, d: Disk, retired: Name, outcome: Outcome) {
    var i := Resolve(before, path);
    && Sound(path, d) && Whole(path, d) && (forall j :: (MOVER, j) !in d.open)
    && (outcome.Moved? ==> Resolve(d, path) != i)
    && (outcome.LeftInPlace? || outcome.Failed? ==> Resolve(d, path) == i)
    && (outcome != Crashed || Resolve(d, path) == i ==> SafeForever(path, d))
    && (SafeForever(path, d) <==> Clean(path, d))
    && (Resolve(d, path) != i ==>
          && Resolve(d, retired) == i && i.Some? && i.value in d.ledgers
          && before.committed <= Content(d.ledgers[i.value]) <= d.committed)
    && before.committed <= d.committed
  }

  lemma Conclude(path: Name, before: Disk, d: Disk, retired: Name, outcome: Outcome)
    requires Settled(path, d) && Resolve(before, path) == Resolve(d, path) && !outcome.Moved?
    requires before.committed <= d.committed
    ensures Concluded(path, before, d, retired, outcome)
  {
    SafeIffClean(path, d);
  }

  lemma ConcludeSwapped(path: Name, before: Disk, d: Disk, retired: Name, outcome: Outcome)
    requires Sound(path, d) && Whole(path, d) && (forall j :: (MOVER, j) !in d.open)
    requires (outcome.Moved? && Clean(path, d)) || outcome.Crashed?
    requires Resolve(d, path) != Resolve(before, path) && Resolve(d, retired) == Resolve(before, path)
    requires var i := Resolve(before, path);
      i.Some? && i.value in d.ledgers && before.committed <= Content(d.ledgers[i.value]) <= d.committed
    ensures Concluded(path, before, d, retired, outcome)
  {
    SafeIffClean(path, d);
  }

  /** Where a run began matters only by what the path led to and by what was committed. */
  lemma ConcludedAlike(path: Name, before: Disk, ready: Disk, d: Disk, retired: Name, outcome: Outcome)
    requires Concluded(path, ready, d, retired, outcome)
    requires Resolve(ready, path) == Resolve(before, path) && ready.committed == before.committed
    ensures Concluded(path, before, d, retired, outcome)
  {}

  lemma ConcludedChain(path: Name, before: Disk, d: Disk, retired: Name, outcome: Outcome)
    requires Concluded(path, before, d, retired, outcome)
    ensures Sound(path, d) && Whole(path, d) && (SafeForever(path, d) <==> Clean(path, d))
    ensures Clean(path, d) <==> Settled(path, d)
    ensures before.committed <= d.committed
    ensures outcome != Crashed || Resolve(d, path) == Resolve(before, path) ==> Clean(path, d)
  {}

  /** Who has a file open depends on nothing but its name's entry and the others' connections. */
  lemma SameHolders(d: Disk, e: Disk, name: Name)
    requires name in d.names && d.names[name].File? && name in e.names && e.names[name] == d.names[name]
    requires forall h :: h in d.open + e.open && h.0 != MOVER ==> h in d.open && h in e.open
    ensures Holders(e, name) == Holders(d, name)
  {
    forall p ensures p in Holders(e, name) <==> p in Holders(d, name) {
      if p in Holders(e, name) { assert (p, d.names[name].inode) in d.open; }
      if p in Holders(d, name) { assert (p, d.names[name].inode) in e.open; }
    }
  }

  lemma HolderListed(d: Disk, name: Name, p: Pid, i: Inode)
    requires (p, i) in d.open && p != MOVER && Resolve(d, name) == Some(i)
    ensures p in Holders(d, name)
  {}

  /** Without holders there is no lock either. */
  lemma NobodyLocks(path: Name, d: Disk, name: Name, i: Inode)
    requires Settled(path, d) && Resolve(d, name) == Some(i) && Holders(d, name) == {}
    ensures i !in d.writer
  {
    if i in d.writer { HolderListed(d, name, d.writer[i], i); }
  }

  /** `chances` is what happens from moment to moment, and `tick` the next moment. */
  class Mover {
    const path: Name
    const chances: nat -> Chance
    var disk: Disk
    var tick: nat

    constructor (path: Name, disk: Disk, chances: nat -> Chance)
      ensures this.path == path && this.disk == disk && this.chances == chances && tick == 0
    {
      this.path, this.disk, this.chances, tick := path, disk, chances, 0;
    }

    method Fails() returns (fails: bool)
      modifies this`tick
      ensures tick == old(tick) + 1 && fails == chances(old(tick)).fails
    {
      fails := chances(tick).fails;
      tick := tick + 1;
    }

    /** Any number of acts of the other processes; then the mover may be gone too. */
    method Pause() returns (alive: bool, ghost acts: seq<Act>)
      modifies this`disk, this`tick
      ensures tick == old(tick) + 1 && acts == chances(old(tick)).acts && alive == !chances(old(tick)).killed
      ensures disk == if alive then AfterAll(path, old(disk), acts) else Gone(AfterAll(path, old(disk), acts), {MOVER})
    {
      var chance := chances(tick);
      tick := tick + 1;
      acts := chance.acts;
      disk := AfterAll(path, disk, chance.acts);
      alive := !chance.killed;
      if !alive { disk := Gone(disk, {MOVER}); }
    }

    method PauseSettled() returns (alive: bool)
      requires Settled(path, disk)
      modifies this`disk, this`tick
      ensures tick == old(tick) + 1 && alive == !chances(old(tick)).killed
      ensures Quiet(chances, old(tick)) ==> disk == old(disk)
      ensures old(disk.committed) <= disk.committed
      ensures disk.names == old(disk.names) && Settled(path, disk)
    {
      ghost var before := disk;
      ghost var acts;
      alive, acts := Pause();
      RunKeepsNames(path, before, acts);
      RunKeepsSettled(path, before, acts);
      if !alive { MoverGone(path, AfterAll(path, before, acts)); }
    }

    /** A pause before the swap: the others may come and go, but what the mover has established
        about the file it holds, and about its copy, stays. */
    method PauseHeld(i: Inode, ghost copy: Inode) returns (progress: Progress)
      requires Held(path, disk, i)
      modifies this`disk, this`tick
      ensures tick == old(tick) + 1 && progress.Stop? == chances(old(tick)).killed
      ensures Quiet(chances, old(tick)) ==> disk == old(disk)
      ensures old(disk.committed) <= disk.committed
      ensures disk.names == old(disk.names)
      ensures progress.Going? ==> Held(path, disk, i)
      ensures progress.Going? && old(Locked(disk, i)) ==> Locked(disk, i)
      ensures progress.Going? && old(Frozen(disk, i)) ==> Frozen(disk, i)
      ensures progress.Going? && old(Copied(path, disk, i, copy)) ==> Copied(path, disk, i, copy)
      ensures progress.Stop? ==> progress.outcome.Crashed? && Settled(path, disk)
    {
      var alive, acts := Pause();
      ghost var before := old(disk);
      RunKeepsNames(path, before, acts);
      RunKeepsHeld(path, before, acts, i);
      if Frozen(before, i) { RunKeepsFrozen(path, before, acts, i); }
      if Copied(path, before, i, copy) { RunKeepsCopied(path, before, acts, i, copy); }
      progress := Going;
      if !alive {
        MoverGone(path, AfterAll(path, before, acts));
        progress := Stop(Crashed);
      }
    }

    /** `PRAGMA wal_checkpoint(TRUNCATE)` when nothing stands in its way. */
    method Truncate(i: Inode)
      requires Held(path, disk, i) && i !in disk.writer
      modifies this`disk
      ensures disk.open == old(disk.open) && disk.writer == old(disk.writer)
      ensures i in disk.ledgers && disk.ledgers[i].log == []
      ensures disk.names == old(disk.names) && disk.committed == old(disk.committed) && Held(path, disk, i)
    {
      var l := disk.ledgers[i];
      CheckpointedContent(l, |l.log| - l.applied, true);
      disk := disk.(ledgers := disk.ledgers[i := Checkpointed(l, |l.log| - l.applied, true)]);
    }

    /** `BEGIN IMMEDIATE` when no other process holds the writer lock. */
    method BeginImmediate(i: Inode)
      requires Held(path, disk, i) && i !in disk.writer
      modifies this`disk
      ensures disk.open == old(disk.open) && disk.ledgers == old(disk.ledgers)
      ensures disk.names == old(disk.names) && disk.committed == old(disk.committed) && Held(path, disk, i) && Locked(disk, i)
    {
      disk := disk.(writer := disk.writer[i := MOVER]);
    }

    method ReleaseLock(i: Inode)
      requires Held(path, disk, i)
      modifies this`disk
      ensures disk.names == old(disk.names) && disk.committed == old(disk.committed) && Held(path, disk, i)
    {
      disk := disk.(writer := disk.writer - {i});
    }

    /** One attempt: empty the log, take the writer lock, and look whether a commit came in between. If
        not, the lock is kept over an empty log. */
    method TryLock(i: Inode) returns (progress: Progress, empty: bool)
      requires Held(path, disk, i)
      modifies this`disk, this`tick
      ensures tick >= old(tick) && (progress == Stop(Crashed) ==> Killed(chances, old(tick), tick))
      ensures old(disk.committed) <= disk.committed && disk.names == old(disk.names)
      ensures Quiet(chances, old(tick)) && i !in old(disk.writer) ==>
                progress.Going? && empty && disk.open == old(disk.open)
      ensures progress.Going? ==> Held(path, disk, i) && (empty ==> Frozen(disk, i))
      ensures progress.Stop? ==> progress.outcome in {Crashed, Failed}
      ensures progress == Stop(Failed) ==> Held(path, disk, i)
      ensures progress == Stop(Crashed) ==> Settled(path, disk)
    {
      hide AfterAll; hide Sound; hide Whole; hide Clean; hide Settled; hide Quiet;
      empty := false;
      QuietLater(chances, tick, tick);
      progress := PauseHeld(i, i);
      if progress.Stop? { return; }
      QuietLater(chances, old(tick), tick);
      var busy := Fails();
      if busy || i in disk.writer { return Stop(Failed), empty; }
      QuietLater(chances, old(tick), tick);
      Truncate(i);
      progress := PauseHeld(i, i);
      if progress.Stop? { return; }
      if i in disk.writer { return Stop(Failed), empty; }
      QuietLater(chances, old(tick), tick);
      BeginImmediate(i);
      progress := PauseHeld(i, i);
      if progress.Stop? { return; }
      empty := disk.ledgers[i].log == [];
      if empty { EmptyLogFrozen(path, disk, i); }
    }

    /** The checkpoint loop: try again while a commit came in between. On success the lock is held and
        the log is empty under it. `tries` counts the attempts. */
    method LockEmpty(i: Inode) returns (progress: Progress, tries: nat)
      requires Held(path, disk, i)
      modifies this`disk, this`tick
      ensures tries <= 21
      ensures tick >= old(tick) && (progress == Stop(Crashed) ==> Killed(chances, old(tick), tick))
      ensures Quiet(chances, old(tick)) && i !in old(disk.writer) ==> progress.Going? && disk.open == old(disk.open)
      ensures old(disk.committed) <= disk.committed
      ensures disk.names == old(disk.names)
      ensures progress.Going? ==> Held(path, disk, i) && Frozen(disk, i)
      ensures progress.Stop? ==> progress.outcome in {Crashed, Failed}
      ensures progress == Stop(Failed) ==> Held(path, disk, i)
      ensures progress == Stop(Crashed) ==> Settled(path, disk)
    {
      hide AfterAll; hide Sound; hide Whole; hide Clean; hide Settled; hide Quiet;
      tries := 0;
      while true
        invariant 0 <= tries <= 20 && disk.names == old(disk.names) && Held(path, disk, i)
        invariant tick >= old(tick) && old(disk.committed) <= disk.committed
        invariant Quiet(chances, old(tick)) && i !in old(disk.writer) ==> tries == 0 && tick == old(tick) && disk == old(disk)
        decreases 20 - tries
      {
        var empty;
        progress, empty := TryLock(i);
        tries := tries + 1;
        if progress.Stop? || empty { return; }
        ReleaseLock(i);
        if tries > 20 { return Stop(Failed), tries; }
      }
    }

    /** A new name for a new file holding these transactions and no log. */
    method Create(name: Name, main: seq<Tx>, source: Name, i: Inode) returns (copy: Inode)
      requires Held(path, disk, i) && Frozen(disk, i) && Named(path, disk, source, i)
      requires name != path && name != source
      modifies this`disk
      ensures disk.names == old(disk.names)[name := File(copy)]
      ensures Held(path, disk, i) && Frozen(disk, i) && disk.ledgers[i] == old(disk.ledgers[i])
      ensures disk.open == old(disk.open) && disk.committed == old(disk.committed)
      ensures Unopened(path, disk, copy) && disk.ledgers[copy] == Ledger(main, [], 0)
    {
      copy := disk.next;
      disk := disk.(names := disk.names[name := File(copy)], next := disk.next + 1,
                    ledgers := disk.ledgers[copy := Ledger(main, [], 0)]);
    }

    /** `cp`, then `cmp`, then SQLite's own checks on the copy, then the copy's final name. What `cp`
        wrote is arbitrary: only the comparison vouches for it. */
    method CopyOut(source: Name, moving: Name, destination: Name, i: Inode) returns (progress: Progress, copy: Inode)
      requires Held(path, disk, i) && Frozen(disk, i) && Named(path, disk, source, i)
      requires moving != destination && {moving, destination} !! {path, source}
      modifies this`disk, this`tick
      ensures old(disk.committed) <= disk.committed
      ensures tick >= old(tick) && (progress == Stop(Crashed) ==> Killed(chances, old(tick), tick))
      ensures Quiet(chances, old(tick)) ==> progress.Going? && disk.open == old(disk.open)
      ensures progress.Going? ==> disk.names == old(disk.names)[destination := File(copy)] - {moving}
      ensures disk.names.Keys <= old(disk.names.Keys) + {moving, destination}
      ensures forall n :: n in old(disk.names) && n != moving && n != destination ==>
                n in disk.names && disk.names[n] == old(disk.names[n])
      ensures progress.Going? ==> Held(path, disk, i) && Named(path, disk, source, i) && Copied(path, disk, i, copy)
      ensures progress.Going? ==> destination in disk.names && disk.names[destination] == File(copy)
      ensures progress.Stop? ==> progress.outcome in {Crashed, Failed}
      ensures progress == Stop(Failed) ==> Held(path, disk, i)
      ensures progress == Stop(Crashed) ==> Settled(path, disk)
    {
      hide AfterAll; hide Sound; hide Whole; hide Clean; hide Settled; hide Quiet; hide Content; hide Held;
      QuietLater(chances, tick, tick);
      var bytes := if chances(tick).garbled.Some? then chances(tick).garbled.value else disk.ledgers[i].main;
      copy := Create(moving, bytes, source, i);
      var unwritten := Fails();
      if unwritten || disk.ledgers[i].main != bytes { return Stop(Failed), copy; }
      QuietLater(chances, old(tick), tick);
      var broken := Fails();
      if broken { return Stop(Failed), copy; }
      QuietLater(chances, old(tick), tick);
      progress := PauseHeld(i, copy);
      if progress.Stop? { return; }
      QuietLater(chances, old(tick), tick);
      RenameElsewhere(disk.names[destination := File(copy)] - {moving}, source, i);
      progress := PauseHeld(i, copy);
    }

    method RenameElsewhere(names: map<Name, Entry>, source: Name, i: Inode)
      requires Named(path, disk, source, i)
      requires path in names && names[path] == disk.names[path] && source in names && names[source] == disk.names[source]
      modifies this`disk
      ensures disk == old(disk).(names := names) && Named(path, disk, source, i) && Resolve(disk, path) == Some(i)
      ensures old(Held(path, disk, i)) ==> Held(path, disk, i)
      ensures old(Settled(path, disk)) ==> Settled(path, disk)
      ensures forall copy :: old(Copied(path, disk, i, copy)) ==> Copied(path, disk, i, copy)
    {
      RenamedElsewhere(path, disk, disk.(names := names), source, i);
      disk := disk.(names := names);
    }

    /** A new name beside the path's, which fails if the name is in use; and what happens meanwhile. */
    method AddName(name: Name, entry: Entry, i: Inode, copy: Inode) returns (progress: Progress)
      requires Held(path, disk, i) && Named(path, disk, path, i) && Copied(path, disk, i, copy) && name != path
      modifies this`disk, this`tick
      ensures tick >= old(tick) && (progress == Stop(Crashed) ==> Killed(chances, old(tick), tick))
      ensures old(disk.committed) <= disk.committed
      ensures Quiet(chances, old(tick)) && name !in old(disk.names) ==> progress.Going?
      ensures progress.Going? ==> disk.names == old(disk.names)[name := entry]
      ensures progress.Going? ==> Held(path, disk, i) && Copied(path, disk, i, copy)
      ensures progress.Stop? ==> progress.outcome in {Crashed, Failed}
      ensures progress == Stop(Failed) ==> Held(path, disk, i)
      ensures progress == Stop(Crashed) ==> Settled(path, disk)
      ensures Named(path, disk, path, i)
    {
      hide AfterAll; hide Sound; hide Whole; hide Clean; hide Settled; hide Quiet;
      QuietLater(chances, tick, tick);
      var fails := Fails();
      if fails || name in disk.names { return Stop(Failed); }
      RenameElsewhere(disk.names[name := entry], path, i);
      QuietLater(chances, old(tick), tick);
      progress := PauseHeld(i, copy);
    }

    /** The forward publish: keep the original under its retired name, then swap the path for a link
        in one rename. Any step before that rename may fail, with the path unchanged. */
    method PublishLink(destination: Name, retired: Name, link: Name, i: Inode, copy: Inode) returns (progress: Progress)
      requires Held(path, disk, i) && Named(path, disk, path, i) && Copied(path, disk, i, copy)
      requires destination in disk.names && disk.names[destination] == File(copy)
      requires link != destination && retired != destination && link != retired && path !in {destination, retired, link}
      modifies this`disk, this`tick
      ensures old(disk.committed) <= disk.committed
      ensures tick >= old(tick) && (progress == Stop(Crashed) ==> Killed(chances, old(tick), tick))
      ensures Quiet(chances, old(tick)) && retired !in old(disk.names) && link !in old(disk.names) ==> progress.Going?
      ensures progress.Going? ==> Swapped(path, disk, i, copy) && Resolve(disk, retired) == Some(i)
      ensures progress.Going? ==> old(disk.committed) <= Content(disk.ledgers[i])
      ensures progress.Going? ==> path in disk.names && disk.names[path] == Link(destination)
      ensures progress.Stop? ==> progress.outcome in {Crashed, Failed}
      ensures progress == Stop(Failed) ==> Held(path, disk, i)
      ensures progress == Stop(Crashed) ==> Settled(path, disk)
      ensures progress.Stop? ==> Named(path, disk, path, i)
    {
      hide AfterAll; hide Sound; hide Whole; hide Clean; hide Settled; hide Quiet; hide Copied;
      progress := AddName(retired, File(i), i, copy);
      if progress.Stop? { return; }
      QuietLater(chances, old(tick), tick);
      progress := AddName(link, Link(destination), i, copy);
      if progress.Stop? { return; }
      QuietLater(chances, old(tick), tick);
      var fails := Fails();
      if fails { return Stop(Failed); }
      ghost var before := disk;
      disk := disk.(names := disk.names[path := Link(destination)] - {link});
      SwapInstant(path, before, disk, i, copy);
    }

    /** The rollback's publish: one rename puts the copy where the link was. */
    method PublishBack(source: Name, destination: Name, i: Inode, copy: Inode) returns (progress: Progress)
      requires Held(path, disk, i) && Named(path, disk, source, i) && Copied(path, disk, i, copy)
      requires destination in disk.names && disk.names[destination] == File(copy)
      requires source != path && destination !in {path, source}
      modifies this`disk, this`tick
      ensures old(disk.committed) <= disk.committed
      ensures tick >= old(tick) && (progress == Stop(Crashed) ==> Killed(chances, old(tick), tick))
      ensures Quiet(chances, old(tick)) ==> progress.Going?
      ensures progress.Going? ==> Swapped(path, disk, i, copy) && Resolve(disk, source) == Some(i)
      ensures progress.Going? ==> old(disk.committed) <= Content(disk.ledgers[i])
      ensures progress.Going? ==> path in disk.names && disk.names[path] == File(copy)
      ensures progress.Stop? ==> progress == Stop(Failed) && disk == old(disk)
    {
      hide AfterAll; hide Sound; hide Whole; hide Clean; hide Settled; hide Quiet;
      QuietLater(chances, tick, tick);
      var fails := Fails();
      if fails { return Stop(Failed); }
      ghost var before := disk;
      disk := disk.(names := disk.names[path := File(copy)] - {destination});
      SwapInstant(path, before, disk, i, copy);
      progress := Going;
    }

    /** A pause after the swap. */
    method PauseSwapped(i: Inode, copy: Inode) returns (alive: bool)
      requires Swapped(path, disk, i, copy)
      modifies this`disk, this`tick
      ensures tick == old(tick) + 1 && alive == !chances(old(tick)).killed
      ensures old(disk.committed) <= disk.committed
      ensures disk.names == old(disk.names)
      ensures i in disk.ledgers && old(i in disk.ledgers) && disk.ledgers[i] == old(disk.ledgers[i])
      ensures alive ==> Swapped(path, disk, i, copy) && (old(Clean(path, disk)) ==> Clean(path, disk))
      ensures !alive ==> Sound(path, disk) && Whole(path, disk) && forall j :: (MOVER, j) !in disk.open
      ensures Content(disk.ledgers[i]) <= disk.committed
    {
      ghost var before := disk;
      ghost var acts;
      alive, acts := Pause();
      RunKeepsNames(path, before, acts);
      RunKeepsSwapped(path, before, acts, i, copy);
      if !alive { MoverGone(path, AfterAll(path, before, acts)); }
    }

    /** The wait: the lock is held until nobody else has the retired file open; whoever will not let
        go is asked to stop after 30 seconds and stopped after 60. `waited` counts the seconds. */
    method AwaitRelease(retired: Name, i: Inode, copy: Inode) returns (alive: bool, waited: nat)
      requires Swapped(path, disk, i, copy) && Resolve(disk, retired) == Some(i)
      modifies this`disk, this`tick
      ensures old(disk.committed) <= disk.committed
      ensures disk.names == old(disk.names)
      ensures i in disk.ledgers && old(i in disk.ledgers) && disk.ledgers[i] == old(disk.ledgers[i])
      ensures waited <= 61
      ensures tick >= old(tick) && (!alive ==> Killed(chances, old(tick), tick))
      ensures alive ==> Swapped(path, disk, i, copy) && Clean(path, disk)
      ensures !alive ==> Sound(path, disk) && Whole(path, disk) && forall j :: (MOVER, j) !in disk.open
      ensures Content(disk.ledgers[i]) <= disk.committed
    {
      hide AfterAll; hide Sound; hide Whole; hide Clean;
      waited := 0;
      alive := true;
      while true
        invariant 0 <= waited <= 61 && disk.names == old(disk.names) && Swapped(path, disk, i, copy)
        invariant tick >= old(tick)
        invariant old(disk.committed) <= disk.committed
        invariant disk.ledgers[i] == old(disk.ledgers[i])
        invariant waited == 61 ==> Clean(path, disk)
        decreases 61 - waited
      {
        var holders := Holders(disk, retired);
        NoHoldersClean(path, disk, retired, i, copy);
        if holders == {} { return; }
        if waited == 60 {
          GoneKeepsSwapped(path, disk, holders, i, copy);
          disk := Gone(disk, holders);
        }
        alive := PauseSwapped(i, copy);
        if !alive { return; }
        waited := waited + 1;
      }
    }

    /** The names a forward swap needs are not in use. */
    predicate Unused(d: Disk, stamp: Stamp, back: bool) {
      back || ({stamp.retired, stamp.link} !! d.names.Keys + {stamp.moving, stamp.destination})
    }

    /** The end of every run: the lock and the connection go. */
    method LetGo()
      requires Sound(path, disk) && Whole(path, disk)
      modifies this`disk
      ensures disk == Gone(old(disk), {MOVER})
      ensures disk.names == old(disk.names) && Resolve(disk, path) == old(Resolve(disk, path))
      ensures disk.ledgers == old(disk.ledgers) && disk.committed == old(disk.committed)
      ensures Sound(path, disk) && Whole(path, disk) && forall j :: (MOVER, j) !in disk.open
      ensures old(Clean(path, disk)) ==> Settled(path, disk)
    {
      MoverGone(path, disk);
      disk := Gone(disk, {MOVER});
    }

    method Connect(i: Inode)
      requires Settled(path, disk) && Resolve(disk, path) == Some(i)
      modifies this`disk
      ensures disk.open == old(disk.open) + {(MOVER, i)} && disk.writer == old(disk.writer)
      ensures disk.names == old(disk.names) && disk.committed == old(disk.committed) && Held(path, disk, i)
    {
      disk := disk.(open := disk.open + {(MOVER, i)});
    }

    /** `fencedCopyAndSwap`. `back` tells which publish step it was given. */
    method FencedCopyAndSwap(source: Name, stamp: Stamp, back: bool) returns (outcome: Outcome)
      requires Settled(path, disk) && Resolve(disk, path).Some? && Named(path, disk, source, Resolve(disk, path).value)
      requires stamp.moving != stamp.destination && {stamp.moving, stamp.destination} !! {path, source}
      requires if back then source != path && stamp.retired == source
               else source == path && stamp.link != stamp.destination && stamp.retired != stamp.destination
                    && stamp.link != stamp.retired && path !in {stamp.retired, stamp.link}
      modifies this`disk, this`tick
      ensures tick >= old(tick) && (outcome.Crashed? ==> Killed(chances, old(tick), tick))
      ensures Holders(old(disk), source) != {} ==> outcome.LeftInPlace? && disk == old(disk)
      ensures outcome.LeftInPlace? ==> Holders(disk, source) != {}
      ensures Quiet(chances, old(tick)) && Holders(old(disk), source) == {} && Unused(old(disk), stamp, back) ==> outcome.Moved?
      ensures Concluded(path, old(disk), disk, stamp.retired, outcome)
    {
      hide AfterAll; hide Sound; hide Whole; hide Clean; hide Concluded; hide Copied; hide Swapped; hide SafeForever; hide Content;
      hide Quiet; hide Holders;
      ghost var start := disk;
      var i := Resolve(disk, path).value;
      if Holders(disk, source) != {} {
        Conclude(path, start, disk, stamp.retired, LeftInPlace);
        return LeftInPlace;
      }
      QuietLater(chances, tick, tick);
      var alive := PauseSettled();
      if !alive {
        Conclude(path, start, disk, stamp.retired, Crashed);
        return Crashed;
      }
      QuietLater(chances, old(tick), tick);
      if Quiet(chances, old(tick)) { NobodyLocks(path, disk, source, i); }
      Connect(i);
      if Quiet(chances, old(tick)) { SameHolders(start, disk, source); }
      var swapped;
      outcome, swapped := Fenced(source, stamp, back, i);
      ghost var found := disk;
      if outcome != Crashed { LetGo(); }
      if outcome == LeftInPlace { SameHolders(found, disk, source); }
      if !swapped { Conclude(path, start, disk, stamp.retired, outcome); }
      else { ConcludeSwapped(path, start, disk, stamp.retired, outcome); }
    }

    /** The first part: the lock over an empty log, and a look for other holders. */
    method Secure(source: Name, i: Inode) returns (progress: Progress)
      requires Held(path, disk, i) && Named(path, disk, source, i)
      modifies this`disk, this`tick
      ensures old(disk.committed) <= disk.committed && disk.names == old(disk.names)
      ensures tick >= old(tick) && (progress == Stop(Crashed) ==> Killed(chances, old(tick), tick))
      ensures Quiet(chances, old(tick)) && Holders(old(disk), source) == {} && i !in old(disk.writer) ==>
                progress.Going? && Holders(disk, source) == {}
      ensures progress.Going? ==> Held(path, disk, i) && Frozen(disk, i)
      ensures progress.Stop? ==> !progress.outcome.Moved?
      ensures progress.Stop? ==> if progress.outcome.Crashed? then Settled(path, disk) else Held(path, disk, i)
      ensures progress == Stop(LeftInPlace) ==> Holders(disk, source) != {}
    {
      hide AfterAll; hide Sound; hide Whole; hide Clean; hide Content; hide Quiet; hide Settled; hide Holders; hide Held; hide Frozen;
      ghost var start := disk;
      var tries;
      progress, tries := LockEmpty(i);
      if progress.Stop? { return; }
      QuietLater(chances, old(tick), tick);
      if Quiet(chances, old(tick)) && i !in start.writer { SameHolders(start, disk, source); }
      if Holders(disk, source) != {} { return Stop(LeftInPlace); }
      progress := PauseHeld(i, i);
    }

    /** Everything before the publishing step: the lock over an empty log, the copy, and another look. */
    method Prepare(source: Name, stamp: Stamp, i: Inode) returns (progress: Progress, copy: Inode)
      requires Held(path, disk, i) && Named(path, disk, source, i)
      requires stamp.moving != stamp.destination && {stamp.moving, stamp.destination} !! {path, source}
      modifies this`disk, this`tick
      ensures old(disk.committed) <= disk.committed && Named(path, disk, source, i)
      ensures tick >= old(tick) && (progress == Stop(Crashed) ==> Killed(chances, old(tick), tick))
      ensures Quiet(chances, old(tick)) && Holders(old(disk), source) == {} && i !in old(disk.writer) ==> progress.Going?
      ensures progress.Going? ==> Held(path, disk, i) && Copied(path, disk, i, copy)
      ensures progress.Going? ==> disk.names == old(disk.names)[stamp.destination := File(copy)] - {stamp.moving}
      ensures progress.Stop? ==> !progress.outcome.Moved?
      ensures progress.Stop? ==> if progress.outcome.Crashed? then Settled(path, disk) else Held(path, disk, i)
      ensures progress == Stop(LeftInPlace) ==> Holders(disk, source) != {}
    {
      hide AfterAll; hide Sound; hide Whole; hide Clean; hide Copied; hide Content; hide Quiet; hide Settled; hide Holders; hide Held;
      hide Frozen;
      copy := i;
      progress := Secure(source, i);
      if progress.Stop? { return; }
      QuietLater(chances, old(tick), tick);
      ghost var locked := disk;
      progress, copy := CopyOut(source, stamp.moving, stamp.destination, i);
      if progress.Stop? { return; }
      QuietLater(chances, old(tick), tick);
      if Quiet(chances, old(tick)) { SameHolders(locked, disk, source); }
      if Holders(disk, source) != {} {
        ghost var found := disk;
        RenameElsewhere(disk.names - {stamp.destination}, source, i);
        SameHolders(found, disk, source);
        return Stop(LeftInPlace), copy;
      }
      progress := PauseHeld(i, copy);
    }

    /** The part between opening the connection and letting go of it. */
    method Fenced(source: Name, stamp: Stamp, back: bool, i: Inode) returns (outcome: Outcome, swapped: bool)
      requires Held(path, disk, i) && Named(path, disk, source, i)
      requires stamp.moving != stamp.destination && {stamp.moving, stamp.destination} !! {path, source}
      requires if back then source != path && stamp.retired == source
               else source == path && stamp.link != stamp.destination && stamp.retired != stamp.destination
                    && stamp.link != stamp.retired && path !in {stamp.retired, stamp.link}
      modifies this`disk, this`tick
      ensures old(disk.committed) <= disk.committed
      ensures tick >= old(tick) && (outcome.Crashed? ==> Killed(chances, old(tick), tick))
      ensures Quiet(chances, old(tick)) && Holders(old(disk), source) == {} && i !in old(disk.writer) && Unused(old(disk), stamp, back) ==>
                outcome.Moved?
      ensures outcome.LeftInPlace? ==> Holders(disk, source) != {} && source in disk.names && disk.names[source] == File(i)
      ensures !swapped ==> !outcome.Moved? && Resolve(disk, path) == Some(i)
      ensures !swapped ==> if outcome.Crashed? then Settled(path, disk) else Held(path, disk, i)
      ensures swapped ==> outcome.Moved? || outcome.Crashed?
      ensures swapped ==> Resolve(disk, path) != Some(i) && Resolve(disk, stamp.retired) == Some(i)
      ensures swapped ==> i in disk.ledgers && old(disk.committed) <= Content(disk.ledgers[i]) <= disk.committed
      ensures swapped ==> Sound(path, disk) && Whole(path, disk)
      ensures swapped && outcome.Moved? ==> Clean(path, disk)
      ensures swapped && outcome.Crashed? ==> forall j :: (MOVER, j) !in disk.open
    {
      hide AfterAll; hide Sound; hide Whole; hide Clean; hide Copied; hide Content; hide Quiet; hide Settled; hide Holders;
      swapped := false;
      var progress, copy := Prepare(source, stamp, i);
      if progress.Stop? { return progress.outcome, false; }
      QuietLater(chances, old(tick), tick);
      if back { progress := PublishBack(source, stamp.destination, i, copy); }
      else { progress := PublishLink(stamp.destination, stamp.retired, stamp.link, i, copy); }
      if progress.Stop? { return progress.outcome, false; }
      QuietLater(chances, old(tick), tick);
      swapped := true;
      var alive, waited := AwaitRelease(stamp.retired, i, copy);
      if Quiet(chances, old(tick)) { QuietAlive(chances, old(tick), tick); }
      outcome := if alive then Moved else Crashed;
    }

    // ---- the two directions ------------------------------------------------------------------

    /** The forward move: only from a plain file, and never onto a leftover of an earlier move. */
    method Forward(stamp: Stamp) returns (outcome: Outcome)
      requires Settled(path, disk) && Fresh(stamp)
      modifies this`disk, this`tick
      ensures tick >= old(tick) && (outcome.Crashed? ==> Killed(chances, old(tick), tick))
      ensures Concluded(path, old(disk), disk, stamp.retired, outcome)
      ensures path in old(disk.names)
      ensures old(disk.names)[path].Link? ==> outcome.LeftInPlace? && disk == old(disk)
      ensures old(disk.names)[path].File? && Holders(old(disk), path) != {} ==> outcome.LeftInPlace?
      ensures old(disk.names)[path].File? && outcome.LeftInPlace? ==> Holders(disk, path) != {} || chances(old(tick)).fails
      ensures Quiet(chances, old(tick)) && old(disk.names)[path].File? && Holders(old(disk), path) == {} && NewNames(old(disk), stamp) ==>
                outcome.Moved?
    {
      hide AfterAll; hide Sound; hide Whole; hide Clean; hide SafeForever; hide Content; hide Quiet; hide Holders; hide Settled;
      hide Concluded;
      ghost var start := disk;
      SettledPath(path, disk);
      Conclude(path, start, disk, stamp.retired, LeftInPlace);
      if disk.names[path].Link? { return LeftInPlace; }
      var i := disk.names[path].inode;
      SetAside(stamp.destination, stamp.stale, i);
      SetAside(stamp.moving, stamp.staleMoving, i);
      SameHolders(start, disk, path);
      QuietLater(chances, tick, tick);
      var full := Fails();
      Conclude(path, start, disk, stamp.retired, LeftInPlace);
      if full { return LeftInPlace; }
      QuietLater(chances, old(tick), tick);
      ghost var ready := disk;
      outcome := FencedCopyAndSwap(path, stamp, false);
      ConcludedAlike(path, start, ready, disk, stamp.retired, outcome);
    }

    /** None of the names a forward move is about to make is in use, now or by what it sets aside. */
    predicate NewNames(d: Disk, stamp: Stamp) {
      {stamp.retired, stamp.link} !! d.names.Keys + {stamp.moving, stamp.destination, stamp.stale, stamp.staleMoving}
    }

    predicate Fresh(stamp: Stamp) {
      && stamp.moving != stamp.destination && stamp.link != stamp.destination && stamp.retired != stamp.destination
      && stamp.link != stamp.retired && stamp.stale != stamp.destination && stamp.staleMoving != stamp.moving
      && path !in {stamp.moving, stamp.destination, stamp.retired, stamp.link, stamp.stale, stamp.staleMoving}
    }

    /** A leftover is renamed, never used. */
    method SetAside(name: Name, stale: Name, i: Inode)
      requires Settled(path, disk) && Named(path, disk, path, i) && path !in {name, stale} && name != stale
      modifies this`disk
      ensures Settled(path, disk) && Named(path, disk, path, i)
      ensures name !in disk.names
      ensures disk == old(disk).(names := if name in old(disk.names) then old(disk.names)[stale := old(disk.names)[name]] - {name}
                                          else old(disk.names))
    {
      hide Sound; hide Whole; hide Clean;
      if name in disk.names {
        RenameElsewhere(disk.names[stale := disk.names[name]] - {name}, path, i);
      }
    }

    /** The name under which a rollback leaves the file it copies back. */
    function RetiredName(stamp: Stamp): Name
      reads this
    {
      if path in disk.names && disk.names[path].Link? then disk.names[path].target else stamp.retired
    }

    /** The rollback: only from a link, back to a plain file in its place. */
    method Back(stamp: Stamp) returns (outcome: Outcome)
      requires Settled(path, disk) && Fresh(stamp)
      requires path in disk.names && disk.names[path].Link? ==> disk.names[path].target !in {stamp.moving, stamp.destination}
      modifies this`disk, this`tick
      ensures tick >= old(tick) && (outcome.Crashed? ==> Killed(chances, old(tick), tick))
      ensures Concluded(path, old(disk), disk, old(RetiredName(stamp)), outcome)
      ensures path in old(disk.names)
      ensures old(disk.names)[path].File? ==> outcome.LeftInPlace? && disk == old(disk)
      ensures old(disk.names)[path].Link? && chances(old(tick)).fails ==> outcome.Failed? && disk == old(disk)
      ensures old(disk.names)[path].Link? && !chances(old(tick)).fails ==>
                var target := old(disk.names)[path].target;
                && (Holders(old(disk), target) != {} ==> outcome.LeftInPlace? && disk == old(disk))
                && (outcome.LeftInPlace? ==> Holders(disk, target) != {})
                && (Quiet(chances, old(tick)) && Holders(old(disk), target) == {} ==> outcome.Moved?)
    {
      hide AfterAll; hide Sound; hide Whole; hide Clean; hide SafeForever; hide Content; hide Quiet; hide Holders; hide Concluded;
      SettledPath(path, disk);
      Conclude(path, old(disk), disk, RetiredName(stamp), LeftInPlace);
      Conclude(path, old(disk), disk, RetiredName(stamp), Failed);
      if disk.names[path].File? { return LeftInPlace; }
      QuietLater(chances, tick, tick);
      var full := Fails();
      if full { return Failed; }
      QuietLater(chances, old(tick), tick);
      var source := disk.names[path].target;
      LinkTarget(path, disk);
      outcome := FencedCopyAndSwap(source, stamp.(retired := source), true);
    }

    /** Any number of updates, moving and rolling back in any order, each ending however it may, crashes
        included. The chain goes on after every crash that left nothing but the path's own file open, so
        after every crash before a swap; it ends early only where a crash after a swap left the retired
        file open, and then, and only then, can a commit still be lost. */
    method Updates(rounds: seq<(bool, Stamp)>) returns (done: nat)
      requires Settled(path, disk)
      requires forall r :: r in rounds ==> Fresh(r.1)
      modifies this`disk, this`tick
      ensures Sound(path, disk) && Whole(path, disk) && (SafeForever(path, disk) <==> Clean(path, disk))
      ensures done <= |rounds| && (done < |rounds| <==> !Clean(path, disk))
      ensures done < |rounds| ==> Killed(chances, old(tick), tick)
      ensures done == |rounds| ==> Settled(path, disk)
      ensures old(disk.committed) <= disk.committed
    {
      hide AfterAll; hide Sound; hide Whole; hide SafeForever; hide Concluded;
      done := 0;
      SettledSafe(path, disk);
      while done < |rounds|
        invariant done <= |rounds| && Settled(path, disk) && (SafeForever(path, disk) <==> Clean(path, disk))
        invariant tick >= old(tick)
        invariant old(disk.committed) <= disk.committed
      {
        hide Clean;
        var round := rounds[done];
        if !round.0 {
          ghost var before := disk;
          var outcome := Forward(round.1);
          ConcludedChain(path, before, disk, round.1.retired, outcome);
        } else if path in disk.names && (disk.names[path].Link? ==> disk.names[path].target !in {round.1.moving, round.1.destination}) {
          ghost var before, retired := disk, RetiredName(round.1);
          var outcome := Back(round.1);
          ConcludedChain(path, before, disk, retired, outcome);
        }
        if !OnlyPathOpen() { return; }
        var alive := PauseSettled();
        SettledSafe(path, disk);
        done := done + 1;
      }
    }

    predicate OnlyPathOpen()
      reads this
      ensures OnlyPathOpen() <==> Clean(path, disk)
    {
      forall h :: h in disk.open ==> h.0 == MOVER || Resolve(disk, path) == Some(h.1)
    }
  }

  lemma SettledSafe(path: Name, d: Disk)
    requires Settled(path, d)
    ensures SafeForever(path, d) <==> Clean(path, d)
  {
    SafeIffClean(path, d);
  }

  lemma SettledPath(path: Name, d: Disk)
    requires Settled(path, d)
    ensures Resolve(d, path).Some? && path in d.names
    ensures d.names[path].File? ==> Named(path, d, path, Resolve(d, path).value)
  {}

  lemma LinkTarget(path: Name, d: Disk)
    requires Settled(path, d) && path in d.names && d.names[path].Link?
    ensures var t := d.names[path].target; t != path && Resolve(d, path).Some? && Named(path, d, t, Resolve(d, path).value)
  {}
}
