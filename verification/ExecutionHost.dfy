/** The execution host itself: the program's variables, updated in place by the code of each segment,
    and proved equal, segment by segment and over whole runs, to the state machine `HostState`. */
module ExecutionHost {
  import opened Wrappers
  import opened Journal
  import opened HostState
  import Lines

  // ---- small facts about the specification functions -----------------------------------------

  /** One partial write of `n` bytes brings a flush no nearer or further from its end. */
  lemma PartialWrite(c: Codec, j: Store, room: nat, n: nat)
    requires j.unwritten != [] && n <= room && j.offset + n <= |c.encode(j.unwritten[0])|
    ensures var bytes := c.encode(j.unwritten[0]);
      Flush(c, j, room) == Flush(c, j.(file := j.file + bytes[j.offset..j.offset + n], offset := j.offset + n), room - n)
  {
    var bytes := c.encode(j.unwritten[0]);
    var left := Drop(bytes, j.offset);
    var next := j.(file := j.file + bytes[j.offset..j.offset + n], offset := j.offset + n);
    assert Drop(bytes, next.offset) == left[n..];
    if room < |left| {
      assert j.file + left[..room] == next.file + left[n..][..room - n];
    } else {
      assert j.file + left == next.file + left[n..];
      assert PersistHead(c, j) == PersistHead(c, next);
    }
  }

  lemma {:induction false} DeliverOneMore(attached: Option<nat>, a: Attachment, frames: seq<Frame>, frame: Frame)
    ensures DeliverAll(attached, a, frames + [frame]) == Deliver(attached, DeliverAll(attached, a, frames), frame)
    decreases |frames|
  {
    if frames == [] {
      assert frames + [frame] == [frame];
    } else {
      DeliverOneMore(attached, Deliver(attached, a, frames[0]), frames[1..], frame);
      assert (frames + [frame])[1..] == frames[1..] + [frame];
    }
  }

  lemma BroadcastOneMore(attached: Option<nat>, listeners: seq<Attachment>, frames: seq<Frame>, frame: Frame)
    ensures Broadcast(attached, Broadcast(attached, listeners, frames), [frame]) == Broadcast(attached, listeners, frames + [frame])
  {
    forall i | 0 <= i < |listeners|
      ensures DeliverAll(attached, DeliverAll(attached, listeners[i], frames), [frame])
           == DeliverAll(attached, listeners[i], frames + [frame])
    {
      DeliverOneMore(attached, listeners[i], frames, frame);
    }
  }

  /** The rooms left once the first `i` appends took theirs. */
  function RoomsFrom(rooms: seq<nat>, i: nat): seq<nat> {
    if i <= |rooms| then rooms[i..] else []
  }

  /** A flush, put together from what became of the journal and of the listeners. */
  lemma FlushIs(c: Codec, h: Host, room: nat, k: nat, after: Store, listeners: seq<Attachment>)
    requires k <= |h.store.unwritten| && after == Flush(c, h.store, room) && after.unwritten == h.store.unwritten[k..]
    requires listeners == Broadcast(h.attached, h.attachments, h.store.unwritten[..k])
    ensures var ready := after.unwritten == [] && h.opening == WaitingForDisk;
      FlushHost(c, h, room)
      == h.(store := after, attachments := listeners, opening := if ready then Ready else h.opening)
  {
    hide Flush; hide DeliverAll;
    assert Persisted(h.store, after) == h.store.unwritten[..k];
  }

  class ExecutionHost {
    const codec: Codec
    const openingLine: string

    // The journal file and the variables around it.
    var journal: string
    var sequence: nat
    var persistedSequence: nat
    var unwritten: seq<Frame>
    var unwrittenOffset: nat

    // The command receipts, and the stdin writes whose callbacks have not run.
    var receipts: map<string, Receipt>
    var writes: seq<Write>
    var opening: Opening
    var stdinOpen: bool

    // The coordinator side: one listener for every accepted attach.
    var live: seq<Attachment>
    var attached: Option<nat>

    // The provider side.
    var stdoutRest: string
    var exit: Option<int>
    var released: bool
    var leaving: bool

    // What went out, and what happened so far.
    var stdin: seq<StdinLine>
    var signals: seq<SentSignal>
    var replies: seq<(nat, Reply)>
    ghost var recorded: seq<Frame>
    ghost var heard: string
    ghost var authors: seq<Author>

    ghost function Stored(): Store
      reads this
    {
      Store(journal, sequence, persistedSequence, unwritten, unwrittenOffset, recorded)
    }

    ghost function Abs(): Host
      reads this
    {
      Host(Stored(), receipts, writes, opening, openingLine, stdinOpen, live, attached, stdoutRest, exit, released,
           leaving, stdin, signals, replies, heard, authors)
    }

    // ---- the journal -------------------------------------------------------------------------

    /** The listener a connection's attach registered. */
    method Send(i: nat, frame: Frame)
      requires i < |live|
      modifies this`live
      ensures live == old(live)[i := Deliver(attached, old(live[i]), frame)]
    {
      var a := live[i];
      if attached != Some(a.conn) || frame.s <= a.until { return; }
      if a.phase != Live {
        live := live[i := a.(pending := a.pending + [frame])];
        return;
      }
      live := live[i := a.(out := a.out + [FrameMsg(frame)])];
    }

    method Publish(frame: Frame)
      modifies this`live
      ensures live == Broadcast(attached, old(live), [frame])
    {
      var i := 0;
      while i < |live|
        invariant i <= |live| == old(|live|)
        invariant forall k :: 0 <= k < i ==> live[k] == Deliver(attached, old(live[k]), frame)
        invariant forall k :: i <= k < |live| ==> live[k] == old(live[k])
      {
        Send(i, frame);
        i := i + 1;
      }
      ghost var was := old(live);
      forall k | 0 <= k < |was| ensures live[k] == DeliverAll(attached, was[k], [frame]) {
        DeliverOneMore(attached, was[k], [], frame);
        assert [] + [frame] == [frame];
      }
    }

    /** The inner loop: the first waiting frame's bytes, in whatever pieces the disk takes them, until
        none is left or the disk, which takes `room` more bytes, reports an error. */
    method WriteHead(room: nat) returns (written: bool, left: nat)
      requires unwritten != []
      modifies this`journal, this`unwrittenOffset
      ensures Flush(codec, Stored(), left) == Flush(codec, old(Stored()), room)
      ensures written ==> unwrittenOffset >= |codec.encode(unwritten[0])|
      ensures !written ==> left == 0 && unwrittenOffset < |codec.encode(unwritten[0])|
    {
      hide Flush;
      var bytes := codec.encode(unwritten[0]);
      left := room;
      while unwrittenOffset < |bytes|
        invariant Flush(codec, Stored(), left) == Flush(codec, old(Stored()), room)
        decreases |bytes| - unwrittenOffset
      {
        if left == 0 { return false, 0; }
        var n: nat :| 1 <= n <= left && unwrittenOffset + n <= |bytes|;
        ghost var j := Stored();
        PartialWrite(codec, j, left, n);
        journal := journal + bytes[unwrittenOffset..unwrittenOffset + n];
        unwrittenOffset := unwrittenOffset + n;
        assert Stored() == j.(file := journal, offset := unwrittenOffset);
        left := left - n;
      }
      written := true;
    }

    /** The first waiting frame written whole: it leaves the queue and is published. */
    method PersistFirst(room: nat) returns (written: bool, left: nat)
      requires unwritten != []
      modifies this`journal, this`persistedSequence, this`unwritten, this`unwrittenOffset, this`live
      ensures Flush(codec, Stored(), left) == Flush(codec, old(Stored()), room)
      ensures written ==> unwritten == old(unwritten)[1..] && live == Broadcast(attached, old(live), [old(unwritten)[0]])
      ensures !written ==> unwritten == old(unwritten) && live == old(live) && Flush(codec, Stored(), left) == Stored()
    {
      hide Broadcast; hide Flush;
      written, left := WriteHead(room);
      if !written {
        TornNow(codec, Stored());
        return;
      }
      WrittenNow(codec, Stored(), left);
      var head := unwritten[0];
      unwritten, unwrittenOffset := unwritten[1..], 0;
      persistedSequence := head.s;
      Publish(head);
    }

    /** `flush`: write frames out oldest first, publishing each once it is whole on disk. */
    method FlushJournal(room: nat) returns (ok: bool)
      modifies this`journal, this`persistedSequence, this`unwritten, this`unwrittenOffset, this`live, this`opening
      ensures Abs() == FlushHost(codec, old(Abs()), room)
      ensures ok == (unwritten == [])
    {
      hide Flush; hide FlushHost; hide Broadcast;
      ghost var before, listeners := unwritten, live;
      ghost var k := 0;
      var left := room;
      ok := true;
      BroadcastNothing(attached, live);
      while ok && unwritten != []
        invariant 0 <= k <= |before| && unwritten == before[k..] && opening == old(opening)
        invariant Flush(codec, Stored(), left) == Flush(codec, old(Stored()), room)
        invariant live == Broadcast(attached, listeners, before[..k])
        invariant !ok ==> unwritten != [] && Flush(codec, Stored(), left) == Stored()
        decreases |unwritten|, ok
      {
        var written;
        written, left := PersistFirst(left);
        if !written {
          ok := false;
        } else {
          BroadcastOneMore(attached, listeners, before[..k], before[k]);
          assert before[..k] + [before[k]] == before[..k + 1];
          k := k + 1;
        }
      }
      NothingWaits(codec, Stored(), left);
      ghost var h := old(Abs());
      FlushIs(codec, h, room, k, Stored(), live);
      assert Abs() == h.(store := Stored(), attachments := live);
      if ok && opening == WaitingForDisk { opening := Ready; }
    }

    /** `append`: give the frame its number, queue it, and flush. */
    method Append(body: Body, room: nat) returns (seqNo: nat, persisted: bool)
      modifies this`journal, this`sequence, this`persistedSequence, this`unwritten, this`unwrittenOffset, this`live,
               this`opening, this`recorded
      ensures Abs() == AppendFrame(codec, old(Abs()), body, room)
      ensures seqNo == sequence && persisted == (unwritten == [])
    {
      hide FlushHost;
      ghost var h := Abs();
      sequence := sequence + 1;
      var frame := Frame(sequence, body);
      unwritten, recorded := unwritten + [frame], recorded + [frame];
      assert Abs() == h.(store := Record(h.store, body));
      seqNo := sequence;
      persisted := FlushJournal(room);
    }

    // ---- the provider ------------------------------------------------------------------------

    /** A chunk of the provider's output: journal every complete line, keep the unfinished one. */
    method OnData(chunk: string, rooms: seq<nat>)
      modifies this
      ensures Abs() == OnStdout(codec, old(Abs()), chunk, rooms)
    {
      hide AppendFrame; hide Lines.Split;
      stdoutRest := stdoutRest + chunk;
      heard := heard + chunk;
      var cut := Lines.Split(stdoutRest);
      stdoutRest := cut.rest;
      ghost var start := Abs();
      var i := 0;
      assert cut.lines[0..] == cut.lines && RoomsFrom(rooms, 0) == rooms;
      while i < |cut.lines|
        invariant 0 <= i <= |cut.lines|
        invariant AppendOutputs(codec, start, cut.lines, rooms)
               == AppendOutputs(codec, Abs(), cut.lines[i..], RoomsFrom(rooms, i))
      {
        ghost var h := Abs();
        var _, _ := Append(Output(cut.lines[i]), Room(rooms, i));
        OutputsStep(codec, h, cut.lines[i..], RoomsFrom(rooms, i));
        assert cut.lines[i..][1..] == cut.lines[i + 1..];
        RoomsStep(rooms, i);
        i := i + 1;
      }
    }

    method FlushLastLine(room: nat)
      modifies this`journal, this`sequence, this`persistedSequence, this`unwritten, this`unwrittenOffset, this`live,
               this`opening, this`recorded, this`stdoutRest
      ensures Abs() == FlushRest(codec, old(Abs()), room)
    {
      hide AppendFrame;
      if stdoutRest != "" {
        var _, _ := Append(Output(stdoutRest), room);
        stdoutRest := "";
      }
    }

    /** `recordExit`: once, after the unfinished last line. */
    method Exited(code: int, rooms: seq<nat>)
      modifies this
      ensures Abs() == RecordExit(codec, old(Abs()), code, rooms)
    {
      hide AppendFrame; hide FlushRest;
      if exit != None { return; }
      FlushLastLine(Room(rooms, 0));
      ghost var h := Abs();
      exit := Some(code);
      assert Abs() == h.(exit := Some(code));
      var _, _ := Append(Body.Exited(code), Room(rooms, 1));
    }

    /** The provider is gone, and its output has closed or was given up. */
    method ProviderGone(code: int, abandoned: bool, rooms: seq<nat>)
      modifies this
      ensures Abs() == OnExit(codec, old(Abs()), code, abandoned, rooms)
    {
      hide AppendFrame; hide RecordExit;
      if exit != None { return; }
      if abandoned { var _, _ := Append(OutputAbandoned, Room(rooms, 2)); }
      Exited(code, rooms);
    }

    /** `writeLine` up to its callback. */
    method WriteLine(id: string, line: string, seqNo: nat, conn: Option<nat>)
      modifies this`stdin, this`writes
      ensures Abs() == HandLine(old(Abs()), id, line, seqNo, conn)
    {
      if stdinOpen { stdin := stdin + [StdinLine(id, line, seqNo)]; }
      writes := writes + [Write(id, seqNo, conn, stdinOpen)];
    }

    method WriteOpening()
      modifies this
      ensures Abs() == OnOpening(old(Abs()))
    {
      if opening != Ready || OPENING_ID !in receipts { return; }
      opening := Handed;
      WriteLine(OPENING_ID, openingLine, receipts[OPENING_ID].seqNo, None);
    }

    method Reply(conn: nat, reply: Reply)
      modifies this`replies
      ensures Abs() == AddReply(old(Abs()), conn, reply)
    {
      replies := replies + [(conn, reply)];
    }

    /** A write's callback: record the outcome, settle the receipt, and answer. */
    method WriteSettled(k: nat, ok: bool, rooms: seq<nat>)
      modifies this
      ensures Abs() == OnStdinCallback(codec, old(Abs()), k, ok, rooms)
    {
      hide AppendFrame;
      if k >= |writes| || (ok && !writes[k].handed) { return; }
      ghost var h := Abs();
      var w := writes[k];
      var body := if ok then Written(w.id) else WriteFailed(w.id);
      writes := writes[..k] + writes[k + 1..];
      assert Abs() == h.(writes := writes, receipts := receipts);
      AppendElsewhere(codec, h, body, Room(rooms, 0), writes, receipts);
      var _, _ := Append(body, Room(rooms, 0));
      var settled := if ok then Accepted(w.seqNo) else Failed(w.seqNo, if w.handed then PipeError else StdinClosed);
      receipts := receipts[w.id := settled];
      assert Abs() == AppendFrame(codec, h, body, Room(rooms, 0)).(receipts := h.receipts[w.id := settled], writes := writes);
      if w.conn != None { Reply(w.conn.value, HostState.Reply.Receipt(w.id, settled)); }
    }

    // ---- the coordinator's commands ----------------------------------------------------------

    /** A newer attach fences the older connection, fixes the durable boundary and registers its
        listener, all before anything can be delivered in between. */
    method Attach(conn: nat, protocol: int, from: int)
      modifies this`attached, this`live, this`replies
      ensures Abs() == OnAttach(old(Abs()), conn, protocol, from)
    {
      if protocol != PROTOCOL {
        Reply(conn, RefusedReply(WrongProtocol));
        return;
      }
      if attached != None && attached != Some(conn) { Reply(attached.value, Fenced); }
      attached := Some(conn);
      var first := if from > 0 then from as nat else 1;
      var until := persistedSequence;
      var replaying := first <= until;
      live := live + [Attachment(conn, first, until, |journal|, if replaying then ScanningOutcomes(0) else Live,
                                 [], [], sequence, false)];
      Reply(conn, AttachedReply(until));
    }

    /** The record that a line was not written, because its own record could not be kept. */
    method RefuseLine(conn: nat, id: string, seqNo: nat, room: nat)
      modifies this
      ensures Abs() == Unwritten(codec, old(Abs()), conn, id, seqNo, room)
    {
      hide AppendFrame;
      ghost var h := Abs();
      var _, _ := Append(WriteFailed(id), room);
      receipts := receipts[id := Failed(seqNo, JournalUnavailable)];
      assert Abs() == AppendFrame(codec, h, WriteFailed(id), room).(receipts := h.receipts[id := Failed(seqNo, JournalUnavailable)]);
      Reply(conn, HostState.Reply.Receipt(id, Failed(seqNo, JournalUnavailable)));
    }

    /** `submit`: recorded first, and written only if the record is on disk. */
    method Submit(conn: nat, id: string, line: Option<string>, rooms: seq<nat>)
      modifies this
      ensures Abs() == OnSubmit(codec, old(Abs()), conn, id, line, rooms)
    {
      hide OnRecordable;
      if line == None || '\n' in line.value {
        Reply(conn, RefusedReply(NotOneLine));
        return;
      }
      if unwritten != [] {
        Reply(conn, NotRecorded(id));
        return;
      }
      RecordAndWrite(conn, id, line.value, rooms);
    }

    method RecordAndWrite(conn: nat, id: string, line: string, rooms: seq<nat>)
      modifies this
      ensures Abs() == OnRecordable(codec, old(Abs()), conn, id, line, rooms)
    {
      hide AppendFrame; hide Unwritten; hide HandLine;
      ghost var h := Abs();
      var seqNo, persisted := Append(Input(id, line), Room(rooms, 0));
      ghost var recordedHost := Abs();
      authors := authors + [Author(seqNo, Current(h), conn)];
      assert Abs() == recordedHost.(authors := h.authors + [Author(seqNo, Current(h), conn)]);
      if !persisted {
        RefuseLine(conn, id, seqNo, Room(rooms, 1));
        return;
      }
      ghost var authored := Abs();
      receipts := receipts[id := Pending(seqNo)];
      assert Abs() == authored.(receipts := h.receipts[id := Pending(seqNo)]);
      WriteLine(id, line, seqNo, Some(conn));
    }

    /** The next frame, recorded for this connection's command. */
    method AppendFor(conn: nat, body: Body, room: nat) returns (seqNo: nat)
      modifies this`journal, this`sequence, this`persistedSequence, this`unwritten, this`unwrittenOffset, this`live,
               this`opening, this`recorded, this`authors
      ensures Abs() == AppendFrame(codec, old(Abs()), body, room).(authors := By(old(Abs()), conn))
      ensures seqNo == sequence
    {
      hide AppendFrame; hide By;
      ghost var h := Abs();
      var n, _ := Append(body, room);
      seqNo := n;
      ghost var after := Abs();
      authors := By(h, conn);
      assert Abs() == after.(authors := By(h, conn));
    }

    method CloseStdin(conn: nat, id: string, rooms: seq<nat>)
      modifies this
      ensures Abs() == OnClose(codec, old(Abs()), conn, id, rooms)
    {
      hide AppendFrame; hide By;
      ghost var h := Abs();
      var seqNo := AppendFor(conn, InputClosed(id), Room(rooms, 0));
      ghost var after := Abs();
      stdinOpen := false;
      receipts := receipts[id := Done(seqNo)];
      assert Abs() == after.(stdinOpen := false, receipts := h.receipts[id := Done(seqNo)]);
      Reply(conn, HostState.Reply.Receipt(id, Done(seqNo)));
    }

    method Signal(conn: nat, id: string, signal: Option<ProcessSignal>, delivered: bool, rooms: seq<nat>)
      modifies this
      ensures Abs() == OnSignal(codec, old(Abs()), conn, id, signal, delivered, rooms)
    {
      hide AppendFrame; hide By;
      if signal == None {
        Reply(conn, RefusedReply(NotASignal));
        return;
      }
      ghost var h := Abs();
      var seqNo := AppendFor(conn, Signalled(id, signal.value), Room(rooms, 0));
      ghost var after := Abs();
      if exit == None { signals := signals + [SentSignal(id, signal.value)]; }
      var r := SignalReceipt(seqNo, exit == None && delivered);
      receipts := receipts[id := r];
      assert Abs() == after.(signals := if h.exit == None then h.signals + [SentSignal(id, signal.value)] else h.signals,
                             receipts := h.receipts[id := r]);
      Reply(conn, HostState.Reply.Receipt(id, r));
    }

    method Leave(room: nat)
      modifies this
      ensures Abs() == OnLeave(codec, old(Abs()), room)
    {
      hide AppendFrame;
      var _, _ := Append(HostExit, room);
      leaving := true;
    }

    method Release(conn: nat, id: string, rooms: seq<nat>)
      modifies this
      ensures Abs() == OnRelease(codec, old(Abs()), conn, id, rooms)
    {
      hide AppendFrame; hide OnLeave; hide By;
      if exit == None {
        Reply(conn, RefusedReply(StillRunning));
        return;
      }
      if unwritten != [] {
        Reply(conn, RefusedReply(NotOnDisk));
        return;
      }
      var _ := AppendFor(conn, Journal.Released(id), Room(rooms, 0));
      Reply(conn, ReleasedReply(id));
      ghost var noted := Abs();
      released := true;
      assert Abs() == noted.(released := true);
      Leave(Room(rooms, 1));
    }

    method Command(conn: nat, command: HostState.Command, delivered: bool, rooms: seq<nat>)
      modifies this
      ensures Abs() == OnCommand(codec, old(Abs()), conn, command, delivered, rooms)
    {
      hide AppendFrame; hide OnAttach; hide OnSubmit; hide OnClose; hide OnSignal; hide OnRelease; hide AddReply;
      var id := CommandId(command);
      if command.Status? { Reply(conn, StatusReply(persistedSequence)); }
      else if command.Attach? { Attach(conn, command.protocol, command.from); }
      else if attached != Some(conn) { Reply(conn, RefusedReply(NotAttached)); }
      else if id == "" { Reply(conn, RefusedReply(NoId)); }
      else if id in receipts { Reply(conn, HostState.Reply.Receipt(id, receipts[id])); }
      else {
        match command
        case Submit(_, line) => Submit(conn, id, line, rooms);
        case CloseInput(_) => CloseStdin(conn, id, rooms);
        case SendSignal(_, signal) => Signal(conn, id, signal, delivered, rooms);
        case Release(_) => Release(conn, id, rooms);
        case Unknown(_) => Reply(conn, RefusedReply(UnknownOperation));
      }
    }

    // ---- replay ------------------------------------------------------------------------------

    /** `durableFrames`: read the journal's first `bytes` bytes in chunks of any size, cut them into
        lines, and parse each line, skipping blank and torn ones. */
    method DurableFrames(bytes: nat) returns (frames: seq<Frame>)
      ensures frames == ReadFrames(codec, Take(journal, bytes))
    {
      hide Lines.Split;
      var text := Take(journal, bytes);
      var at, rest := 0, "";
      frames := [];
      assert text[..0] == "";
      Lines.SplitNothing();
      while at < |text|
        invariant 0 <= at <= |text|
        invariant rest == Lines.Split(text[..at]).rest
        invariant frames == DecodeLines(codec, Lines.Split(text[..at]).lines)
      {
        var n: nat :| 1 <= n && at + n <= |text|;
        var chunk := text[at..at + n];
        var pieces := Lines.Split(rest + chunk);
        var found := ParseLines(pieces.lines);
        Lines.SplitResumes(text[..at], chunk);
        DecodeJoin(codec, Lines.Split(text[..at]).lines, pieces.lines);
        assert text[..at] + chunk == text[..at + n];
        frames, rest, at := frames + found, pieces.rest, at + n;
      }
      assert text[..at] == text;
    }

    method ParseLines(lines: seq<string>) returns (frames: seq<Frame>)
      ensures frames == DecodeLines(codec, lines)
    {
      frames := [];
      var i := 0;
      assert lines[0..] == lines;
      while i < |lines|
        invariant 0 <= i <= |lines|
        invariant frames + DecodeLines(codec, lines[i..]) == DecodeLines(codec, lines)
      {
        assert lines[i..][1..] == lines[i + 1..];
        ghost var rest := DecodeLines(codec, lines[i + 1..]);
        if lines[i] != "" && codec.decode(lines[i]) != None {
          var frame := codec.decode(lines[i]).value;
          AssociateFrames(frames, [frame], rest);
          frames := frames + [frame];
        } else {
          assert [] + rest == rest;
        }
        i := i + 1;
      }
    }

    /** The `finally` of a replay: with no await in between, the listener goes live and gets every
        frame that was kept back. */
    method GoLive(i: nat)
      requires i < |live|
      modifies this`live
      ensures live == old(live)[i := FinishReplay(attached, old(live[i]))]
    {
      var kept := live[i].pending;
      live := live[i := live[i].(phase := Live, pending := [])];
      ghost var a := live[i];
      var k := 0;
      assert kept[0..] == kept;
      while k < |kept|
        invariant 0 <= k <= |kept| && |live| == old(|live|)
        invariant live == old(live)[i := live[i]]
        invariant DeliverAll(attached, a, kept) == DeliverAll(attached, live[i], kept[k..])
      {
        assert kept[k..][0] == kept[k] && kept[k..][1..] == kept[k + 1..];
        Send(i, kept[k]);
        k := k + 1;
      }
    }

    /** One turn of a replay's loops: a fenced or closed connection ends it at once. */
    method ReplayTurn(i: nat)
      modifies this`live
      ensures Abs() == OnReplayTurn(codec, old(Abs()), i)
    {
      hide FinishReplay; hide ReadFrames;
      if i >= |live| { return; }
      var a := live[i];
      var frames := DurableFrames(a.bytes);
      match a.phase {
        case Live => assert live == live[i := a];
        case ScanningOutcomes(pos) =>
          if attached != Some(a.conn) { GoLive(i); }
          else if pos < |frames| {
            live := live[i := a.(phase := ScanningOutcomes(pos + 1), out := a.out + OutcomeOf(frames[pos]))];
          } else { live := live[i := a.(phase := SendingFrames(0))]; }
        case SendingFrames(pos) =>
          if attached != Some(a.conn) || pos >= |frames| { GoLive(i); }
          else if a.from <= frames[pos].s <= a.until {
            live := live[i := a.(phase := SendingFrames(pos + 1), out := a.out + [FrameMsg(frames[pos])])];
          } else { live := live[i := a.(phase := SendingFrames(pos + 1))]; }
      }
    }

    method ReplayFails(i: nat)
      modifies this`live
      ensures Abs() == OnReplayReadError(old(Abs()), i)
    {
      hide FinishReplay;
      if i >= |live| || live[i].phase == Live { return; }
      ghost var before := live;
      GoLive(i);
      live := live[i := live[i].(failed := true)];
      assert live == before[i := FinishReplay(attached, before[i]).(failed := true)];
    }

    method Closed(conn: nat)
      modifies this`attached
      ensures Abs() == OnDisconnect(old(Abs()), conn)
    {
      if attached == Some(conn) { attached := None; }
    }

    // ---- the program and its event loop ------------------------------------------------------

    constructor (c: Codec, line: string, rooms: seq<nat>)
      ensures Abs() == Start(c, line, rooms) && codec == c
    {
      codec, openingLine := c, line;
      journal, sequence, persistedSequence, unwritten, unwrittenOffset, recorded := "", 0, 0, [], 0, [];
      receipts, writes, opening, stdinOpen := map[], [], Unrecorded, true;
      live, attached, stdoutRest, exit, released, leaving := [], None, "", None, false, false;
      stdin, signals, replies, heard, authors := [], [], [], "", [];
      new;
      Launch(rooms);
    }

    /** The program up to its first await: two host facts, then the opening input. */
    method Launch(rooms: seq<nat>)
      requires Abs() == Blank.(openingLine := openingLine)
      modifies this
      ensures Abs() == Start(codec, openingLine, rooms)
    {
      hide Launched;
      RecordLaunch(rooms);
      ghost var h := Abs();
      receipts := map[OPENING_ID := Pending(sequence)];
      opening := if unwritten == [] then Ready else WaitingForDisk;
      assert Abs() == h.(receipts := receipts, opening := opening);
    }

    method RecordLaunch(rooms: seq<nat>)
      requires Abs() == Blank.(openingLine := openingLine)
      modifies this
      ensures Abs() == Launched(codec, openingLine, rooms)
    {
      hide AppendFrame;
      var _, _ := Append(HostStarted, Room(rooms, 0));
      var _, _ := Append(ProviderStarted, Room(rooms, 1));
      var _, _ := Append(Input(OPENING_ID, openingLine), Room(rooms, 2));
    }

    /** One entry of the event loop. */
    method Handle(e: Event)
      modifies this
      ensures Abs() == Step(codec, old(Abs()), e)
    {
      hide AppendFrame; hide FlushHost; hide OnStdout; hide OnExit; hide OnOpening; hide OnStdinCallback; hide Room;
      hide OnCommand; hide OnReplayTurn; hide OnReplayReadError; hide OnDisconnect; hide OnLeave;
      if leaving { return; }
      match e
      case DiskRetry(room) => var _ := FlushJournal(room);
      case StdoutData(chunk, rooms) => if exit == None { OnData(chunk, rooms); }
      case StderrData(chunk, rooms) => var _, _ := Append(ErrorText(chunk), Room(rooms, 0));
      case ProviderFact(text, gone, rooms) =>
        ghost var h := Abs();
        if gone { stdinOpen := false; }
        assert Abs() == h.(stdinOpen := h.stdinOpen && !gone);
        var _, _ := Append(Note(text), Room(rooms, 0));
      case StdinGone => stdinOpen := false;
      case ProviderExit(code, abandoned, rooms) => ProviderGone(code, abandoned, rooms);
      case OpeningTurn => WriteOpening();
      case StdinCallback(k, ok, rooms) => WriteSettled(k, ok, rooms);
      case CommandFrom(conn, command, delivered, rooms) => Command(conn, command, delivered, rooms);
      case ReplayTurn(i) => ReplayTurn(i);
      case ReplayReadError(i) => ReplayFails(i);
      case Disconnect(conn) => Closed(conn);
      case Leave(rooms) => Leave(Room(rooms, 0));
    }

    /** A whole run of the program is a run of the state machine. */
    method HandleAll(events: seq<Event>)
      modifies this
      ensures Abs() == Run(codec, old(Abs()), events)
    {
      hide Step;
      var i := 0;
      assert events[0..] == events;
      while i < |events|
        invariant 0 <= i <= |events|
        invariant Run(codec, old(Abs()), events) == Run(codec, Abs(), events[i..])
      {
        assert events[i..][0] == events[i] && events[i..][1..] == events[i + 1..];
        Handle(events[i]);
        i := i + 1;
      }
    }
  }

  lemma AssociateFrames(a: seq<Frame>, b: seq<Frame>, c: seq<Frame>)
    ensures a + (b + c) == (a + b) + c
  {}

  lemma DecodeFirst(c: Codec, a: seq<string>)
    requires a != []
    ensures DecodeLines(c, a) == DecodeLines(c, [a[0]]) + DecodeLines(c, a[1..])
  {
    assert [a[0]][1..] == [];
  }

  lemma {:induction false} DecodeJoin(c: Codec, a: seq<string>, b: seq<string>)
    ensures DecodeLines(c, a + b) == DecodeLines(c, a) + DecodeLines(c, b)
  {
    if a == [] {
      assert a + b == b;
    } else {
      DecodeJoin(c, a[1..], b);
      assert (a + b)[1..] == a[1..] + b && (a + b)[0] == a[0];
      var head := DecodeLines(c, [a[0]]);
      DecodeFirst(c, a);
      DecodeFirst(c, a + b);
      hide DecodeLines;
      assert head + (DecodeLines(c, a[1..]) + DecodeLines(c, b)) == (head + DecodeLines(c, a[1..])) + DecodeLines(c, b);
    }
  }

  /** An append neither reads nor changes the writes or the receipts. */
  lemma AppendElsewhere(c: Codec, h: Host, body: Body, room: nat, w: seq<Write>, r: map<string, Receipt>)
    ensures AppendFrame(c, h.(writes := w, receipts := r), body, room)
      == AppendFrame(c, h, body, room).(writes := w, receipts := r)
  {
    hide FlushHost; hide Record;
    FlushElsewhere(c, h.(store := Record(h.store, body)), room, w, r);
  }

  lemma FlushElsewhere(c: Codec, h: Host, room: nat, w: seq<Write>, r: map<string, Receipt>)
    ensures FlushHost(c, h.(writes := w, receipts := r), room) == FlushHost(c, h, room).(writes := w, receipts := r)
  {
    hide Flush; hide Broadcast; hide Persisted; hide Record;
  }

  lemma OutputsStep(c: Codec, h: Host, lines: seq<string>, rooms: seq<nat>)
    requires lines != []
    ensures AppendOutputs(c, h, lines, rooms)
      == AppendOutputs(c, AppendFrame(c, h, Output(lines[0]), Room(rooms, 0)), lines[1..], RoomsFrom(rooms, 1))
  {}

  lemma RoomsStep(rooms: seq<nat>, i: nat)
    ensures Room(RoomsFrom(rooms, i), 0) == Room(rooms, i)
    ensures RoomsFrom(RoomsFrom(rooms, i), 1) == RoomsFrom(rooms, i + 1)
  {}

  lemma BroadcastNothing(attached: Option<nat>, listeners: seq<Attachment>)
    ensures Broadcast(attached, listeners, []) == listeners
  {}

  lemma NothingWaits(c: Codec, j: Store, room: nat)
    ensures j.unwritten == [] ==> Flush(c, j, room) == j
  {}

  lemma TornNow(c: Codec, j: Store)
    requires j.unwritten != [] && j.offset < |c.encode(j.unwritten[0])|
    ensures Flush(c, j, 0) == j
  {
    assert j.file + "" == j.file;
    assert Drop(c.encode(j.unwritten[0]), j.offset)[..0] == "";
  }

  lemma WrittenNow(c: Codec, j: Store, room: nat)
    requires j.unwritten != [] && j.offset >= |c.encode(j.unwritten[0])|
    ensures Flush(c, j, room) == Flush(c, j.(unwritten := j.unwritten[1..], offset := 0, persisted := j.unwritten[0].s), room)
  {
    assert j.file + "" == j.file;
    assert Drop(c.encode(j.unwritten[0]), j.offset) == "";
  }
}
