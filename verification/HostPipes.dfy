/** What is over stays over: a closed stdin takes no more lines, a recorded exit never changes and no
    signal is sent after it, and every signal and every close is journaled as it happens. */
module HostPipes {
  import opened Wrappers
  import opened Journal
  import opened HostState
  import Lines

  /** Journaling leaves the pipes alone. */
  ghost predicate SamePipes(h: Host, k: Host) {
    && k.stdinOpen == h.stdinOpen && k.stdin == h.stdin && k.signals == h.signals && k.exit == h.exit
    && k.receipts == h.receipts && k.writes == h.writes
  }

  lemma AppendPipes(c: Codec, h: Host, body: Body, room: nat)
    ensures SamePipes(h, AppendFrame(c, h, body, room))
    ensures AppendFrame(c, h, body, room).store.recorded == h.store.recorded + [Frame(h.store.sequence + 1, body)]
  {
    FlushRecords(c, Record(h.store, body), room);
    hide Flush;
  }

  lemma {:induction false} FlushRecords(c: Codec, j: Store, room: nat)
    ensures Flush(c, j, room).recorded == j.recorded && Flush(c, j, room).sequence == j.sequence
    decreases |j.unwritten|
  {
    if j.unwritten != [] {
      var left := Drop(c.encode(j.unwritten[0]), j.offset);
      if room >= |left| { FlushRecords(c, PersistHead(c, j), room - |left|); }
    }
  }

  lemma FlushPipes(c: Codec, h: Host, room: nat)
    ensures SamePipes(h, FlushHost(c, h, room)) && FlushHost(c, h, room).store.recorded == h.store.recorded
  {
    FlushRecords(c, h.store, room);
    hide Flush;
  }

  lemma {:induction false} OutputsPipes(c: Codec, h: Host, lines: seq<string>, rooms: seq<nat>)
    ensures SamePipes(h, AppendOutputs(c, h, lines, rooms))
    decreases |lines|
  {
    hide AppendFrame;
    if lines != [] {
      AppendPipes(c, h, Output(lines[0]), Room(rooms, 0));
      OutputsPipes(c, AppendFrame(c, h, Output(lines[0]), Room(rooms, 0)), lines[1..], if rooms == [] then [] else rooms[1..]);
    }
  }

  /** A step neither writes to stdin while it is closed nor opens it again. */
  ghost predicate StaysClosed(h: Host, k: Host) {
    !h.stdinOpen ==> !k.stdinOpen && k.stdin == h.stdin
  }

  /** A recorded exit stays as it is, and no signal is sent after it. */
  ghost predicate StaysExited(h: Host, k: Host) {
    h.exit != None ==> k.exit == h.exit && k.signals == h.signals
  }

  ghost predicate Over(h: Host, k: Host) {
    StaysClosed(h, k) && StaysExited(h, k)
  }

  lemma ExitOver(c: Codec, h: Host, code: int, abandoned: bool, rooms: seq<nat>)
    ensures Over(h, OnExit(c, h, code, abandoned, rooms))
  {
    hide AppendFrame;
    if h.exit == None {
      var noted := if abandoned then AppendFrame(c, h, OutputAbandoned, Room(rooms, 2)) else h;
      AppendPipes(c, h, OutputAbandoned, Room(rooms, 2));
      AppendPipes(c, noted, Output(noted.stdoutRest), Room(rooms, 0));
      var flushed := FlushRest(c, noted, Room(rooms, 0)).(exit := Some(code));
      AppendPipes(c, flushed, Exited(code), Room(rooms, 1));
    }
  }

  lemma CallbackOver(c: Codec, h: Host, k: nat, ok: bool, rooms: seq<nat>)
    ensures Over(h, OnStdinCallback(c, h, k, ok, rooms))
  {
    hide AppendFrame;
    if k < |h.writes| { AppendPipes(c, h, if ok then Written(h.writes[k].id) else WriteFailed(h.writes[k].id), Room(rooms, 0)); }
  }

  lemma SubmitOver(c: Codec, h: Host, conn: nat, id: string, line: Option<string>, rooms: seq<nat>)
    ensures Over(h, OnSubmit(c, h, conn, id, line, rooms))
  {
    hide AppendFrame;
    if line != None {
      AppendPipes(c, h, Input(id, line.value), Room(rooms, 0));
      var recorded := AppendFrame(c, h, Input(id, line.value), Room(rooms, 0));
      var authored := recorded.(authors := h.authors + [Author(recorded.store.sequence, Current(h), conn)]);
      AppendPipes(c, authored, WriteFailed(id), Room(rooms, 1));
    }
  }

  lemma CloseOver(c: Codec, h: Host, conn: nat, id: string, rooms: seq<nat>)
    ensures Over(h, OnClose(c, h, conn, id, rooms)) && !OnClose(c, h, conn, id, rooms).stdinOpen
    ensures OnClose(c, h, conn, id, rooms).store.recorded == h.store.recorded + [Frame(h.store.sequence + 1, InputClosed(id))]
  {
    AppendPipes(c, h, InputClosed(id), Room(rooms, 0));
    hide AppendFrame;
  }

  lemma SignalOver(c: Codec, h: Host, conn: nat, id: string, signal: Option<ProcessSignal>, delivered: bool, rooms: seq<nat>)
    ensures var k := OnSignal(c, h, conn, id, signal, delivered, rooms);
      && Over(h, k)
      && (k.signals != h.signals ==>
            && signal.Some? && h.exit == None && k.signals == h.signals + [SentSignal(id, signal.value)]
            && k.store.recorded == h.store.recorded + [Frame(h.store.sequence + 1, Signalled(id, signal.value))])
  {
    if signal.Some? { AppendPipes(c, h, Signalled(id, signal.value), Room(rooms, 0)); }
    hide AppendFrame;
  }

  lemma ReleaseOver(c: Codec, h: Host, conn: nat, id: string, rooms: seq<nat>)
    ensures Over(h, OnRelease(c, h, conn, id, rooms))
  {
    hide AppendFrame;
    AppendPipes(c, h, Journal.Released(id), Room(rooms, 0));
    var noted := AddReply(AppendFrame(c, h, Journal.Released(id), Room(rooms, 0)), conn, ReleasedReply(id)).(released := true, authors := By(h, conn));
    AppendPipes(c, noted, HostExit, Room(rooms, 1));
  }

  lemma AnswerOver(h: Host, conn: nat, protocol: int, from: int)
    ensures Over(h, OnAttach(h, conn, protocol, from))
    ensures forall reply :: Over(h, AddReply(h, conn, reply))
  {}

  lemma CommandOver(c: Codec, h: Host, conn: nat, command: Command, delivered: bool, rooms: seq<nat>)
    ensures Over(h, OnCommand(c, h, conn, command, delivered, rooms))
  {
    hide OnSubmit; hide OnClose; hide OnSignal; hide OnRelease; hide OnAttach; hide AddReply; hide Over;
    var id := CommandId(command);
    AnswerOver(h, conn, if command.Attach? then command.protocol else 0, if command.Attach? then command.from else 0);
    match command
    case Submit(_, line) => SubmitOver(c, h, conn, id, line, rooms);
    case CloseInput(_) => CloseOver(c, h, conn, id, rooms);
    case SendSignal(_, signal) => SignalOver(c, h, conn, id, signal, delivered, rooms);
    case Release(_) => ReleaseOver(c, h, conn, id, rooms);
    case _ =>
  }

  lemma StepOver(c: Codec, h: Host, e: Event)
    ensures Over(h, Step(c, h, e))
  {
    hide AppendFrame; hide FlushHost; hide AppendOutputs; hide OnExit; hide OnStdinCallback; hide OnCommand; hide Lines.Split;
    hide ReplayOne; hide FinishReplay; hide ReplayFrames;
    match e
    case DiskRetry(room) => FlushPipes(c, h, room);
    case StdoutData(chunk, rooms) =>
      var cut := Lines.Split(h.stdoutRest + chunk);
      OutputsPipes(c, h.(stdoutRest := cut.rest, heard := h.heard + chunk), cut.lines, rooms);
    case StderrData(chunk, rooms) => AppendPipes(c, h, ErrorText(chunk), Room(rooms, 0));
    case ProviderFact(text, gone, rooms) =>
      AppendPipes(c, h.(stdinOpen := h.stdinOpen && !gone), Note(text), Room(rooms, 0));
    case ProviderExit(code, abandoned, rooms) => ExitOver(c, h, code, abandoned, rooms);
    case StdinCallback(k, ok, rooms) => CallbackOver(c, h, k, ok, rooms);
    case CommandFrom(conn, command, delivered, rooms) => CommandOver(c, h, conn, command, delivered, rooms);
    case Leave(rooms) => AppendPipes(c, h, HostExit, Room(rooms, 0));
    case _ =>
  }

  /** Whatever happens next, a closed stdin takes no line any more, and once the exit is recorded it
      stays the exit and nothing is signalled. */
  lemma {:induction false} OverStaysOver(c: Codec, h: Host, events: seq<Event>)
    ensures Over(h, Run(c, h, events))
    decreases |events|
  {
    hide Step;
    if events != [] {
      StepOver(c, h, events[0]);
      OverStaysOver(c, Step(c, h, events[0]), events[1..]);
    }
  }

  /** A close that acts is the end of stdin: it is journaled, and no line is written after it. */
  lemma NothingAfterClose(c: Codec, h: Host, conn: nat, id: string, delivered: bool, rooms: seq<nat>, events: seq<Event>)
    requires !h.left && h.attached == Some(conn) && id != "" && id !in h.receipts
    ensures var k := Step(c, h, CommandFrom(conn, CloseInput(id), delivered, rooms));
      && k.store.recorded == h.store.recorded + [Frame(h.store.sequence + 1, InputClosed(id))]
      && k.stdin == h.stdin && Run(c, k, events).stdin == h.stdin
  {
    var k := Step(c, h, CommandFrom(conn, CloseInput(id), delivered, rooms));
    AppendPipes(c, h, InputClosed(id), Room(rooms, 0));
    hide AppendFrame;
    assert k == OnClose(c, h, conn, id, rooms);
    CloseOver(c, h, conn, id, rooms);
    OverStaysOver(c, k, events);
  }
}
