/** Custody of the provider's output and exit: what submits and stdin callbacks journal, and that the
    journaled output is the provider's text, up to a recorded exit and a durable release. */
module HostCustody {
  import opened Wrappers
  import opened Journal
  import opened HostState
  import opened HostCommands
  import opened HostSteps
  import Lines

  // ---- the events that are not neutral, in the same form -------------------------------------

  lemma CallbackAppends(c: Codec, h: Host, n: nat, ok: bool, rooms: seq<nat>)
    requires Good(c) && Represents(c, h.store) && n < |h.writes| && (ok ==> h.writes[n].handed)
    ensures var w, k := h.writes[n], OnStdinCallback(c, h, n, ok, rooms);
      && Appends(k.(store := h.store, attachments := h.attachments, opening := h.opening), k,
                 [if ok then Written(w.id) else WriteFailed(w.id)])
      && k == h.(store := k.store, attachments := k.attachments, opening := k.opening, receipts := k.receipts,
                 writes := k.writes, replies := k.replies)
      && k.receipts == h.receipts[w.id := if ok then Accepted(w.seqNo)
                                          else Failed(w.seqNo, if w.handed then PipeError else StdinClosed)]
      && Represents(c, k.store)
  {
    hide AppendFrame; hide Represents; hide Good; hide Appends;
    var w, k := h.writes[n], OnStdinCallback(c, h, n, ok, rooms);
    var body := if ok then Written(w.id) else WriteFailed(w.id);
    AppendsOne(c, h, body, Room(rooms, 0));
    AppendsFields(h, AppendFrame(c, h, body, Room(rooms, 0)), [body]);
    AppendsElsewhere(h, AppendFrame(c, h, body, Room(rooms, 0)),
                     k.(store := h.store, attachments := h.attachments, opening := h.opening), k, [body]);
  }

  /** An accepted submit: one author, one input frame, and a failure frame when its record waits. */
  ghost predicate Submitted(c: Codec, h: Host, k: Host, conn: nat, id: string, line: string) {
    var n := |h.store.recorded| + 1;
    && k == h.(store := k.store, attachments := k.attachments, opening := k.opening, receipts := k.receipts,
               writes := k.writes, replies := k.replies, stdin := k.stdin, authors := h.authors + [Author(n, Current(h), conn)])
    && id !in h.receipts && id != "" && k.receipts.Keys == h.receipts.Keys + {id}
    && (forall x :: x in h.receipts ==> k.receipts[x] == h.receipts[x])
    && LineReceipt(k.receipts[id])
    && h.stdin <= k.stdin
    && (Appends(k.(store := h.store, attachments := h.attachments, opening := h.opening), k, [Input(id, line)])
        || Appends(k.(store := h.store, attachments := h.attachments, opening := h.opening), k,
                   [Input(id, line), WriteFailed(id)]))
    && Represents(c, k.store)
  }

  lemma SubmitAppends(c: Codec, h: Host, conn: nat, id: string, line: Option<string>, rooms: seq<nat>)
    requires Good(c) && Represents(c, h.store) && id !in h.receipts && id != ""
    ensures var k := OnSubmit(c, h, conn, id, line, rooms);
      k == h.(replies := k.replies) || (line.Some? && Submitted(c, h, k, conn, id, line.value))
  {
    if line != None && '\n' !in line.value && h.store.unwritten == [] {
      if AppendFrame(c, h, Input(id, line.value), Room(rooms, 0)).store.unwritten != [] {
        UnrecordedSubmitted(c, h, conn, id, line.value, rooms);
      } else {
        RecordedSubmitted(c, h, conn, id, line.value, rooms);
      }
    }
  }

  lemma UnrecordedSubmitted(c: Codec, h: Host, conn: nat, id: string, line: string, rooms: seq<nat>)
    requires Good(c) && Represents(c, h.store) && id !in h.receipts && id != "" && '\n' !in line
    requires h.store.unwritten == [] && AppendFrame(c, h, Input(id, line), Room(rooms, 0)).store.unwritten != []
    ensures Submitted(c, h, OnSubmit(c, h, conn, id, Some(line), rooms), conn, id, line)
  {
    WithinRecord(c, h.store);
    SubmitUnrecorded(c, h, conn, id, line, rooms);
    hide AppendFrame; hide Represents; hide Good; hide Appends; hide OnSubmit;
    var recorded := AppendFrame(c, h, Input(id, line), Room(rooms, 0));
    AppendsOne(c, h, Input(id, line), Room(rooms, 0));
    var n := |h.store.recorded| + 1;
    var authors := h.authors + [Author(n, Current(h), conn)];
    var failed := AppendFrame(c, recorded.(authors := authors), WriteFailed(id), Room(rooms, 1));
    AppendsOne(c, recorded.(authors := authors), WriteFailed(id), Room(rooms, 1));
    UnrecordedAppends(c, h, id, line, authors, rooms);
    var r := Failed(n, JournalUnavailable);
    UnrecordedFields(c, h, failed, conn, id, line, authors, r);
  }

  lemma UnrecordedFields(c: Codec, h: Host, failed: Host, conn: nat, id: string, line: string, authors: seq<Author>,
                         r: Receipt)
    requires Appends(h.(authors := authors), failed, [Input(id, line), WriteFailed(id)]) && Represents(c, failed.store)
    requires authors == h.authors + [Author(|h.store.recorded| + 1, Current(h), conn)]
    requires id !in h.receipts && id != "" && LineReceipt(r)
    ensures Submitted(c, h, AddReply(failed.(receipts := h.receipts[id := r]), conn, Receipt(id, r)), conn, id, line)
  {
    hide Appends; hide Represents;
    AppendsFields(h.(authors := authors), failed, [Input(id, line), WriteFailed(id)]);
    var k := AddReply(failed.(receipts := h.receipts[id := r]), conn, Receipt(id, r));
    AppendsElsewhere(h.(authors := authors), failed,
                     k.(store := h.store, attachments := h.attachments, opening := h.opening), k,
                     [Input(id, line), WriteFailed(id)]);
  }

  lemma RecordedSubmitted(c: Codec, h: Host, conn: nat, id: string, line: string, rooms: seq<nat>)
    requires Good(c) && Represents(c, h.store) && id !in h.receipts && id != "" && '\n' !in line
    requires h.store.unwritten == [] && AppendFrame(c, h, Input(id, line), Room(rooms, 0)).store.unwritten == []
    ensures Submitted(c, h, OnSubmit(c, h, conn, id, Some(line), rooms), conn, id, line)
  {
    WithinRecord(c, h.store);
    hide AppendFrame; hide Represents; hide Good; hide Appends;
    var recorded := AppendFrame(c, h, Input(id, line), Room(rooms, 0));
    AppendsOne(c, h, Input(id, line), Room(rooms, 0));
    AppendsFields(h, recorded, [Input(id, line)]);
    var k := OnSubmit(c, h, conn, id, Some(line), rooms);
    AppendsElsewhere(h, recorded, k.(store := h.store, attachments := h.attachments, opening := h.opening), k,
                     [Input(id, line)]);
  }

  // ---- bodies --------------------------------------------------------------------------------

  function BodiesOf(frames: seq<Frame>): seq<Body> {
    seq(|frames|, i requires 0 <= i < |frames| => frames[i].body)
  }

  lemma BodiesAppend(h: Host, k: Host, bodies: seq<Body>)
    requires Appends(h, k, bodies)
    ensures BodiesOf(k.store.recorded) == BodiesOf(h.store.recorded) + bodies
  {
    var n := |h.store.recorded|;
    forall i | 0 <= i < n + |bodies|
      ensures BodiesOf(k.store.recorded)[i] == (BodiesOf(h.store.recorded) + bodies)[i]
    {
      if i >= n { assert k.store.recorded[n + (i - n)].body == bodies[i - n]; }
    }
  }

  function OutputLines(bodies: seq<Body>): seq<string> {
    if bodies == [] then []
    else (if bodies[0].Output? then [bodies[0].line] else []) + OutputLines(bodies[1..])
  }

  lemma {:induction false} OutputLinesJoin(a: seq<Body>, b: seq<Body>)
    ensures OutputLines(a + b) == OutputLines(a) + OutputLines(b)
  {
    if a == [] {
      assert a + b == b;
    } else {
      assert (a + b)[1..] == a[1..] + b;
      OutputLinesJoin(a[1..], b);
    }
  }

  lemma {:induction false} OutputLinesOf(lines: seq<string>)
    ensures OutputLines(OutputBodies(lines)) == lines
  {
    if lines != [] {
      assert OutputBodies(lines)[1..] == OutputBodies(lines[1..]);
      OutputLinesOf(lines[1..]);
      assert [lines[0]] + lines[1..] == lines;
    }
  }

  ghost predicate NoOutput(bodies: seq<Body>) {
    forall i :: 0 <= i < |bodies| ==> !bodies[i].Output? && !bodies[i].Exited?
  }

  lemma {:induction false} NoOutputLines(bodies: seq<Body>)
    requires NoOutput(bodies)
    ensures OutputLines(bodies) == []
  {
    if bodies != [] { NoOutputLines(bodies[1..]); }
  }

  // ---- output and exit -----------------------------------------------------------------------

  /** The exit frame: the only one, and after every line of output. */
  ghost predicate ExitAt(bodies: seq<Body>, x: nat, code: int) {
    && x < |bodies| && bodies[x] == Exited(code)
    && (forall i :: 0 <= i < |bodies| && bodies[i].Exited? ==> i == x)
    && (forall i :: x < i < |bodies| ==> !bodies[i].Output?)
  }

  /** The journaled output is the one-shot split of everything the provider wrote, with the
      unfinished last line recorded just before the exit. */
  ghost predicate OutputInv(h: Host) {
    var bodies, cut := BodiesOf(h.store.recorded), Lines.Split(h.heard);
    && (h.exit == None ==>
          && OutputLines(bodies) == cut.lines && h.stdoutRest == cut.rest
          && (forall i :: 0 <= i < |bodies| ==> !bodies[i].Exited?))
    && (h.exit != None ==>
          && OutputLines(bodies) == cut.lines + (if cut.rest == "" then [] else [cut.rest])
          && h.stdoutRest == "" && exists x: nat :: ExitAt(bodies, x, h.exit.value))
  }

  /** A released host's exit frame is on disk, and so is all the output, which precedes it. */
  ghost predicate ReleaseInv(h: Host) {
    h.released ==>
      h.exit != None && exists x: nat :: x < h.store.persisted && ExitAt(BodiesOf(h.store.recorded), x, h.exit.value)
  }

  /** A step that records neither output nor exit. */
  lemma OutputQuiet(h: Host, base: Host, k: Host, bodies: seq<Body>)
    requires OutputInv(h) && Appends(base, k, bodies) && NoOutput(bodies)
    requires base.store == h.store && base.heard == h.heard && base.stdoutRest == h.stdoutRest && base.exit == h.exit
    ensures OutputInv(k)
  {
    BodiesAppend(base, k, bodies);
    OutputLinesJoin(BodiesOf(h.store.recorded), bodies);
    NoOutputLines(bodies);
    assert OutputLines(BodiesOf(h.store.recorded)) + [] == OutputLines(BodiesOf(h.store.recorded));
    if h.exit != None {
      var x: nat :| ExitAt(BodiesOf(h.store.recorded), x, h.exit.value);
      ExitStays(BodiesOf(h.store.recorded), bodies, x, h.exit.value);
    }
  }

  lemma ReleaseQuiet(h: Host, base: Host, k: Host, bodies: seq<Body>)
    requires ReleaseInv(h) && Appends(base, k, bodies) && (h.released ==> NoOutput(bodies))
    requires base.store == h.store && base.exit == h.exit && base.released == h.released
    ensures ReleaseInv(k)
  {
    BodiesAppend(base, k, bodies);
    if h.released {
      var x: nat :| x < h.store.persisted && ExitAt(BodiesOf(h.store.recorded), x, h.exit.value);
      ExitStays(BodiesOf(h.store.recorded), bodies, x, h.exit.value);
    }
  }

  lemma ExitStays(a: seq<Body>, b: seq<Body>, x: nat, code: int)
    requires ExitAt(a, x, code) && NoOutput(b)
    ensures ExitAt(a + b, x, code)
  {}

  /** A chunk of output extends the one-shot split by exactly the lines it completed. */
  lemma OutputStdout(h: Host, k: Host, chunk: string)
    requires OutputInv(h) && h.exit == None
    requires var cut := Lines.Split(h.stdoutRest + chunk);
      Appends(h.(stdoutRest := cut.rest, heard := h.heard + chunk), k, OutputBodies(cut.lines))
    ensures OutputInv(k)
  {
    hide OutputLines; hide Lines.Split;
    var before, cut := BodiesOf(h.store.recorded), Lines.Split(h.stdoutRest + chunk);
    BodiesAppend(h.(stdoutRest := cut.rest, heard := h.heard + chunk), k, OutputBodies(cut.lines));
    OutputLinesJoin(before, OutputBodies(cut.lines));
    OutputLinesOf(cut.lines);
    Lines.SplitResumes(h.heard, chunk);
  }

  lemma OutputExit(h: Host, k: Host, code: int, note: seq<Body>)
    requires OutputInv(h) && h.exit == None && NoOutput(note)
    requires Appends(h.(exit := Some(code), stdoutRest := ""), k, note + ExitBodies(h.stdoutRest, code))
    ensures OutputInv(k)
  {
    hide OutputLines; hide Lines.Split;
    var before, added := BodiesOf(h.store.recorded), note + ExitBodies(h.stdoutRest, code);
    BodiesAppend(h.(exit := Some(code), stdoutRest := ""), k, added);
    OutputLinesJoin(before, added);
    OutputLinesJoin(note, ExitBodies(h.stdoutRest, code));
    NoOutputLines(note);
    ExitLines(h.stdoutRest, code);
    ExitLast(before, note, h.stdoutRest, code);
  }

  lemma ExitLast(before: seq<Body>, note: seq<Body>, rest: string, code: int)
    requires forall i :: 0 <= i < |before| ==> !before[i].Exited?
    requires NoOutput(note)
    ensures var all := before + (note + ExitBodies(rest, code)); ExitAt(all, |all| - 1, code)
  {}

  lemma ExitLines(rest: string, code: int)
    ensures OutputLines(ExitBodies(rest, code)) == if rest == "" then [] else [rest]
  {
    assert OutputLines([Exited(code)]) == [];
    if rest != "" {
      assert ExitBodies(rest, code)[1..] == [Exited(code)];
    } else {
      assert ExitBodies(rest, code) == [Exited(code)];
    }
  }

  /** Release is refused until the exit is recorded and nothing waits for the disk, so whatever the
      disk does next the exit and all the output are on it. */
  lemma ReleaseDurable(c: Codec, h: Host, base: Host, k: Host, id: string)
    requires OutputInv(h) && Represents(c, h.store) && h.exit != None && h.store.unwritten == []
    requires Appends(base, k, [Journal.Released(id), HostExit]) && base.store == h.store && base.exit == h.exit
    ensures ReleaseInv(k)
  {
    var x: nat :| ExitAt(BodiesOf(h.store.recorded), x, h.exit.value);
    AllPersisted(c, h.store);
    BodiesAppend(base, k, [Journal.Released(id), HostExit]);
    ExitStays(BodiesOf(h.store.recorded), [Journal.Released(id), HostExit], x, h.exit.value);
  }
}
