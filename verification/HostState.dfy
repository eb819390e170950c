/** The execution host as a state machine: one function per synchronous segment of its event loop,
    that is, the code that runs between two `await`s or callbacks. The class `ExecutionHost` runs
    the same segments on mutable variables and is proved equal to these functions. */
module HostState {
  import opened Wrappers
  import opened Journal
  import Lines

  const PROTOCOL := 1

  /** Why a submitted line's receipt says `written: false`. Only `PipeError` leaves it unknown
      whether the provider saw the line. */
  datatype Failure = JournalUnavailable | StdinClosed | PipeError

  datatype Receipt =
    | Pending(seqNo: nat)
    | Accepted(seqNo: nat)
    | Failed(seqNo: nat, why: Failure)
    | Done(seqNo: nat)
    | SignalReceipt(seqNo: nat, delivered: bool)

  datatype Refusal =
    | WrongProtocol | NotAttached | NoId | NotOneLine | NotASignal | StillRunning | NotOnDisk | UnknownOperation

  datatype Reply =
    | Receipt(id: string, receipt: Receipt)
    | NotRecorded(id: string)
    | ReleasedReply(id: string)
    | RefusedReply(reason: Refusal)
    | AttachedReply(until: nat)
    | StatusReply(lastSeq: nat)
    | Fenced

  /** What an attachment streams to its connection. */
  datatype Msg = Outcome(id: string, written: bool) | FrameMsg(frame: Frame)

  /** A replay scans the durable prefix twice, then hands over to live delivery. */
  datatype Phase = ScanningOutcomes(pos: nat) | SendingFrames(pos: nat) | Live

  /** One accepted `attach`: its listener's captured variables, and `out`, everything it has sent.
      `since` is the sequence at the attach; `failed` records a journal read error in its replay. */
  datatype Attachment = Attachment(
    conn: nat, from: nat, until: nat, bytes: nat, phase: Phase, pending: seq<Frame>, out: seq<Msg>,
    since: nat, failed: bool)

  /** A stdin write whose callback has not run; `handed` is false when stdin was already closed. */
  datatype Write = Write(id: string, seqNo: nat, conn: Option<nat>, handed: bool)

  datatype StdinLine = StdinLine(id: string, line: string, seqNo: nat)

  /** Which attachment's command journaled a frame. */
  datatype Author = Author(seqNo: nat, attachment: nat, conn: nat)

  datatype SentSignal = SentSignal(id: string, signal: ProcessSignal)

  /** The opening input: unrecorded, waiting for the disk, ready to be written, or written. */
  datatype Opening = Unrecorded | WaitingForDisk | Ready | Handed

  const OPENING_ID := "initial"

  /** The host's variables. `stdin`, `signals`, `replies`, `heard` and `authors` are histories. */
  datatype Host = Host(
    store: Store,
    receipts: map<string, Receipt>,
    writes: seq<Write>,
    opening: Opening,
    openingLine: string,
    stdinOpen: bool,
    attachments: seq<Attachment>,
    attached: Option<nat>,
    stdoutRest: string,
    exit: Option<int>,
    released: bool,
    left: bool,
    stdin: seq<StdinLine>,
    signals: seq<SentSignal>,
    replies: seq<(nat, Reply)>,
    heard: string,
    authors: seq<Author>)

  datatype Command =
    | Status
    | Attach(protocol: int, from: int)
    | Submit(id: string, line: Option<string>)
    | CloseInput(id: string)
    | SendSignal(id: string, signal: Option<ProcessSignal>)
    | Release(id: string)
    | Unknown(id: string)

  /** Every way the event loop can be entered. `StdinGone` is the runtime closing the provider's stdin
      by itself, with no frame to tell of it. A `room` is what the disk accepts before it errors,
      one for each append of the segment; a missing one means no room. */
  datatype Event =
    | DiskRetry(room: nat)
    | StdoutData(chunk: string, rooms: seq<nat>)
    | StderrData(chunk: string, rooms: seq<nat>)
    | ProviderFact(text: string, stdinGone: bool, rooms: seq<nat>)
    | StdinGone
    | ProviderExit(code: int, abandoned: bool, rooms: seq<nat>)
    | OpeningTurn
    | StdinCallback(write: nat, ok: bool, rooms: seq<nat>)
    | CommandFrom(conn: nat, command: Command, delivered: bool, rooms: seq<nat>)
    | ReplayTurn(attachment: nat)
    | ReplayReadError(attachment: nat)
    | Disconnect(conn: nat)
    | Leave(rooms: seq<nat>)

  function Room(rooms: seq<nat>, i: nat): nat {
    if i < |rooms| then rooms[i] else 0
  }

  // ---- recording and publishing --------------------------------------------------------------

  /** A listener receives a persisted frame: dropped if its connection is not the attached one or
      the replay covers it, kept back while the replay runs, otherwise sent. */
  function Deliver(attached: Option<nat>, a: Attachment, frame: Frame): Attachment {
    if attached != Some(a.conn) || frame.s <= a.until then a
    else if a.phase != Live then a.(pending := a.pending + [frame])
    else a.(out := a.out + [FrameMsg(frame)])
  }

  function DeliverAll(attached: Option<nat>, a: Attachment, frames: seq<Frame>): Attachment
    decreases |frames|
  {
    if frames == [] then a
    else DeliverAll(attached, Deliver(attached, a, frames[0]), frames[1..])
  }

  /** The listeners once these frames were published to every one of them. */
  function Broadcast(attached: Option<nat>, listeners: seq<Attachment>, frames: seq<Frame>): seq<Attachment> {
    seq(|listeners|, i requires 0 <= i < |listeners| => DeliverAll(attached, listeners[i], frames))
  }

  function Publish(h: Host, frames: seq<Frame>): Host {
    h.(attachments := Broadcast(h.attached, h.attachments, frames))
  }

  /** `flush`: persist what fits, publish it, and when nothing waits let the opening input go. */
  function FlushHost(c: Codec, h: Host, room: nat): Host {
    var after := Flush(c, h.store, room);
    var published := Publish(h.(store := after), Persisted(h.store, after));
    if after.unwritten == [] && h.opening == WaitingForDisk then published.(opening := Ready) else published
  }

  /** `append`: record the next frame and flush. */
  function AppendFrame(c: Codec, h: Host, body: Body, room: nat): Host {
    FlushHost(c, h.(store := Record(h.store, body)), room)
  }

  function AppendOutputs(c: Codec, h: Host, lines: seq<string>, rooms: seq<nat>): Host
    decreases |lines|
  {
    if lines == [] then h
    else
      AppendOutputs(c, AppendFrame(c, h, Output(lines[0]), Room(rooms, 0)), lines[1..],
                    if rooms == [] then [] else rooms[1..])
  }

  function AddReply(h: Host, conn: nat, reply: Reply): Host {
    h.(replies := h.replies + [(conn, reply)])
  }

  // ---- the provider --------------------------------------------------------------------------

  function OnStdout(c: Codec, h: Host, chunk: string, rooms: seq<nat>): Host {
    var cut := Lines.Split(h.stdoutRest + chunk);
    AppendOutputs(c, h.(stdoutRest := cut.rest, heard := h.heard + chunk), cut.lines, rooms)
  }

  /** The unfinished last line becomes a line of its own. */
  function FlushRest(c: Codec, h: Host, room: nat): Host {
    if h.stdoutRest == "" then h else AppendFrame(c, h, Output(h.stdoutRest), room).(stdoutRest := "")
  }

  /** `recordExit`: once, after the unfinished last line. */
  function RecordExit(c: Codec, h: Host, code: int, rooms: seq<nat>): Host {
    if h.exit != None then h
    else AppendFrame(c, FlushRest(c, h, Room(rooms, 0)).(exit := Some(code)), Exited(code), Room(rooms, 1))
  }

  /** The provider is gone: its output closed by itself, or was abandoned after the grace time. */
  function OnExit(c: Codec, h: Host, code: int, abandoned: bool, rooms: seq<nat>): Host {
    if h.exit != None then h
    else if abandoned then
      RecordExit(c, AppendFrame(c, h, OutputAbandoned, Room(rooms, 2)), code, rooms)
    else RecordExit(c, h, code, rooms)
  }

  /** `writeLine`'s synchronous part: hand the line to an open stdin, and wait for its callback. */
  function HandLine(h: Host, id: string, line: string, seqNo: nat, conn: Option<nat>): Host {
    h.(stdin := if h.stdinOpen then h.stdin + [StdinLine(id, line, seqNo)] else h.stdin,
       writes := h.writes + [Write(id, seqNo, conn, h.stdinOpen)])
  }

  /** The continuation of `whenPersisted()` that writes the opening input. */
  function OnOpening(h: Host): Host {
    if h.opening != Ready || OPENING_ID !in h.receipts then h
    else HandLine(h.(opening := Handed), OPENING_ID, h.openingLine, h.receipts[OPENING_ID].seqNo, None)
  }

  /** The stdin callback, or the rejection of a write to a closed stdin. */
  function OnStdinCallback(c: Codec, h: Host, k: nat, ok: bool, rooms: seq<nat>): Host {
    if k >= |h.writes| || (ok && !h.writes[k].handed) then h
    else
      var w := h.writes[k];
      var settled := if ok then Accepted(w.seqNo)
                     else Failed(w.seqNo, if w.handed then PipeError else StdinClosed);
      var after := AppendFrame(c, h, if ok then Written(w.id) else WriteFailed(w.id), Room(rooms, 0))
                   .(receipts := h.receipts[w.id := settled], writes := h.writes[..k] + h.writes[k + 1..]);
      match w.conn
      case None => after
      case Some(conn) => AddReply(after, conn, Receipt(w.id, settled))
  }

  // ---- the coordinator's commands ------------------------------------------------------------

  function OnAttach(h: Host, conn: nat, protocol: int, from: int): Host {
    if protocol != PROTOCOL then AddReply(h, conn, RefusedReply(WrongProtocol))
    else
      var fenced := if h.attached != None && h.attached != Some(conn) then AddReply(h, h.attached.value, Fenced) else h;
      var first := if from > 0 then from as nat else 1;
      var until := h.store.persisted;
      var a := Attachment(conn, first, until, |h.store.file|, if first <= until then ScanningOutcomes(0) else Live,
                          [], [], h.store.sequence, false);
      AddReply(fenced.(attached := Some(conn), attachments := h.attachments + [a]), conn, AttachedReply(until))
  }

  /** The index of the newest attachment. */
  function Current(h: Host): nat {
    if h.attachments == [] then 0 else |h.attachments| - 1
  }

  /** The authors once this connection's command has journaled the next frame. */
  function By(h: Host, conn: nat): seq<Author> {
    h.authors + [Author(h.store.sequence + 1, Current(h), conn)]
  }

  /** A line whose record could not be kept: it is not written, and the receipt says so. */
  function Unwritten(c: Codec, h: Host, conn: nat, id: string, seqNo: nat, room: nat): Host {
    var r := Failed(seqNo, JournalUnavailable);
    AddReply(AppendFrame(c, h, WriteFailed(id), room).(receipts := h.receipts[id := r]), conn, Receipt(id, r))
  }

  /** `submit`: the input frame first; only a frame that is on disk at once lets its line out. */
  function OnSubmit(c: Codec, h: Host, conn: nat, id: string, line: Option<string>, rooms: seq<nat>): Host {
    if line == None || '\n' in line.value then AddReply(h, conn, RefusedReply(NotOneLine))
    else if h.store.unwritten != [] then AddReply(h, conn, NotRecorded(id))
    else OnRecordable(c, h, conn, id, line.value, rooms)
  }

  function OnRecordable(c: Codec, h: Host, conn: nat, id: string, line: string, rooms: seq<nat>): Host {
    var recorded := AppendFrame(c, h, Input(id, line), Room(rooms, 0));
    var seqNo := recorded.store.sequence;
    var authored := recorded.(authors := h.authors + [Author(seqNo, Current(h), conn)]);
    if recorded.store.unwritten != [] then Unwritten(c, authored, conn, id, seqNo, Room(rooms, 1))
    else HandLine(authored.(receipts := h.receipts[id := Pending(seqNo)]), id, line, seqNo, Some(conn))
  }

  function OnClose(c: Codec, h: Host, conn: nat, id: string, rooms: seq<nat>): Host {
    var after := AppendFrame(c, h, InputClosed(id), Room(rooms, 0));
    var r := Done(after.store.sequence);
    AddReply(after.(stdinOpen := false, receipts := h.receipts[id := r], authors := By(h, conn)), conn, Receipt(id, r))
  }

  /** `delivered` is whether the operating system found a process to signal. */
  function OnSignal(c: Codec, h: Host, conn: nat, id: string, signal: Option<ProcessSignal>, delivered: bool,
                    rooms: seq<nat>): Host {
    if signal == None then AddReply(h, conn, RefusedReply(NotASignal))
    else
      var after := AppendFrame(c, h, Signalled(id, signal.value), Room(rooms, 0));
      var r := SignalReceipt(after.store.sequence, h.exit == None && delivered);
      AddReply(after.(signals := if h.exit == None then h.signals + [SentSignal(id, signal.value)] else h.signals,
                      receipts := h.receipts[id := r], authors := By(h, conn)), conn, Receipt(id, r))
  }

  /** `release`: refused until the provider has exited and no frame waits for the disk; then the host leaves. */
  function OnRelease(c: Codec, h: Host, conn: nat, id: string, rooms: seq<nat>): Host {
    if h.exit == None then AddReply(h, conn, RefusedReply(StillRunning))
    else if h.store.unwritten != [] then AddReply(h, conn, RefusedReply(NotOnDisk))
    else
      var noted := AddReply(AppendFrame(c, h, Journal.Released(id), Room(rooms, 0)), conn, ReleasedReply(id));
      OnLeave(c, noted.(released := true, authors := By(h, conn)), Room(rooms, 1))
  }

  function OnLeave(c: Codec, h: Host, room: nat): Host {
    AppendFrame(c, h, HostExit, room).(left := true)
  }

  function CommandId(command: Command): string {
    match command
    case Status => ""
    case Attach(_, _) => ""
    case Submit(id, _) => id
    case CloseInput(id) => id
    case SendSignal(id, _) => id
    case Release(id) => id
    case Unknown(id) => id
  }

  function OnCommand(c: Codec, h: Host, conn: nat, command: Command, delivered: bool, rooms: seq<nat>): Host {
    var id := CommandId(command);
    if command.Status? then AddReply(h, conn, StatusReply(h.store.persisted))
    else if command.Attach? then OnAttach(h, conn, command.protocol, command.from)
    else if h.attached != Some(conn) then AddReply(h, conn, RefusedReply(NotAttached))
    else if id == "" then AddReply(h, conn, RefusedReply(NoId))
    else if id in h.receipts then AddReply(h, conn, Receipt(id, h.receipts[id]))
    else
      match command
      case Submit(_, line) => OnSubmit(c, h, conn, id, line, rooms)
      case CloseInput(_) => OnClose(c, h, conn, id, rooms)
      case SendSignal(_, signal) => OnSignal(c, h, conn, id, signal, delivered, rooms)
      case Release(_) => OnRelease(c, h, conn, id, rooms)
      case _ => AddReply(h, conn, RefusedReply(UnknownOperation))
  }

  // ---- replay --------------------------------------------------------------------------------

  /** The message an outcome frame becomes in the first pass. */
  function OutcomeOf(frame: Frame): seq<Msg> {
    match frame.body
    case Written(id) => [Outcome(id, true)]
    case WriteFailed(id) => [Outcome(id, false)]
    case _ => []
  }

  /** The end of a replay, however it ended: switch the listener to live and hand it what it kept
      back, in one segment. */
  function FinishReplay(attached: Option<nat>, a: Attachment): Attachment {
    DeliverAll(attached, a.(phase := Live, pending := []), a.pending)
  }

  /** One iteration of a replay's `for await` loop over the frames of its fixed prefix. */
  function ReplayOne(attached: Option<nat>, a: Attachment, frames: seq<Frame>): Attachment {
    match a.phase
    case Live => a
    case ScanningOutcomes(pos) =>
      if attached != Some(a.conn) then FinishReplay(attached, a)
      else if pos < |frames| then a.(phase := ScanningOutcomes(pos + 1), out := a.out + OutcomeOf(frames[pos]))
      else a.(phase := SendingFrames(0))
    case SendingFrames(pos) =>
      if attached != Some(a.conn) || pos >= |frames| then FinishReplay(attached, a)
      else if a.from <= frames[pos].s <= a.until then
        a.(phase := SendingFrames(pos + 1), out := a.out + [FrameMsg(frames[pos])])
      else a.(phase := SendingFrames(pos + 1))
  }

  /** The frames a replay reads: those of the file's first `bytes` bytes. */
  function ReplayFrames(c: Codec, h: Host, a: Attachment): seq<Frame> {
    ReadFrames(c, Take(h.store.file, a.bytes))
  }

  function OnReplayTurn(c: Codec, h: Host, i: nat): Host {
    if i >= |h.attachments| then h
    else h.(attachments := h.attachments[i := ReplayOne(h.attached, h.attachments[i], ReplayFrames(c, h, h.attachments[i]))])
  }

  function OnReplayReadError(h: Host, i: nat): Host {
    if i >= |h.attachments| || h.attachments[i].phase == Live then h
    else h.(attachments := h.attachments[i := FinishReplay(h.attached, h.attachments[i]).(failed := true)])
  }

  function OnDisconnect(h: Host, conn: nat): Host {
    if h.attached == Some(conn) then h.(attached := None) else h
  }

  // ---- runs ----------------------------------------------------------------------------------

  /** One segment of the event loop. Output that would arrive after the exit was recorded cannot:
      the pipes are closed or destroyed by then. */
  function Step(c: Codec, h: Host, e: Event): Host {
    if h.left then h
    else
      match e
      case DiskRetry(room) => FlushHost(c, h, room)
      case StdoutData(chunk, rooms) => if h.exit != None then h else OnStdout(c, h, chunk, rooms)
      case StderrData(chunk, rooms) => AppendFrame(c, h, ErrorText(chunk), Room(rooms, 0))
      case ProviderFact(text, gone, rooms) =>
        AppendFrame(c, h.(stdinOpen := h.stdinOpen && !gone), Note(text), Room(rooms, 0))
      case StdinGone => h.(stdinOpen := false)
      case ProviderExit(code, abandoned, rooms) => OnExit(c, h, code, abandoned, rooms)
      case OpeningTurn => OnOpening(h)
      case StdinCallback(k, ok, rooms) => OnStdinCallback(c, h, k, ok, rooms)
      case CommandFrom(conn, command, delivered, rooms) => OnCommand(c, h, conn, command, delivered, rooms)
      case ReplayTurn(i) => OnReplayTurn(c, h, i)
      case ReplayReadError(i) => OnReplayReadError(h, i)
      case Disconnect(conn) => OnDisconnect(h, conn)
      case Leave(rooms) => OnLeave(c, h, Room(rooms, 0))
  }

  const Blank := Host(EmptyStore, map[], [], Unrecorded, "", true, [], None, "", None, false, false, [], [], [], "", [])

  /** The program's first three frames: two host facts, then the opening input. */
  function Launched(c: Codec, openingLine: string, rooms: seq<nat>): Host {
    var h1 := AppendFrame(c, Blank.(openingLine := openingLine), HostStarted, Room(rooms, 0));
    var h2 := AppendFrame(c, h1, ProviderStarted, Room(rooms, 1));
    AppendFrame(c, h2, Input(OPENING_ID, openingLine), Room(rooms, 2))
  }

  /** The host once its program has run to the first await. */
  function Start(c: Codec, openingLine: string, rooms: seq<nat>): Host {
    var launched := Launched(c, openingLine, rooms);
    launched.(receipts := map[OPENING_ID := Pending(launched.store.sequence)],
              opening := if launched.store.unwritten == [] then Ready else WaitingForDisk)
  }

  function Run(c: Codec, h: Host, events: seq<Event>): Host
    decreases |events|
  {
    if events == [] then h else Run(c, Step(c, h, events[0]), events[1..])
  }
}
