/** What each segment of the event loop journals, in one common form, and that every segment keeps the
    invariants of commands and stdin lines. */
module HostSteps {
  import opened Wrappers
  import opened Journal
  import opened HostState
  import opened HostCommands
  import HostReplay
  import Lines

  // ---- what a run of appends does ------------------------------------------------------------

  /** `k` is `h` after journaling frames with exactly these bodies. */
  ghost predicate Appends(h: Host, k: Host, bodies: seq<Body>) {
    var n := |h.store.recorded|;
    && k == h.(store := k.store, attachments := k.attachments, opening := k.opening)
    && Extends(h.store, k.store) && HostReplay.SameAttachments(h, k)
    && k.store.persisted <= |k.store.recorded| == n + |bodies|
    && (forall i :: 0 <= i < |bodies| ==> k.store.recorded[n + i].body == bodies[i])
    && (k.opening == h.opening || (h.opening == WaitingForDisk && k.opening == Ready && n <= k.store.persisted))
  }

  lemma WithinRecord(c: Codec, j: Store)
    requires Represents(c, j)
    ensures j.persisted <= |j.recorded| == j.sequence
  {}

  lemma AppendsOne(c: Codec, h: Host, body: Body, room: nat)
    requires Good(c) && Represents(c, h.store)
    ensures Appends(h, AppendFrame(c, h, body, room), [body])
    ensures Represents(c, AppendFrame(c, h, body, room).store)
    ensures AppendFrame(c, h, body, room).store.sequence == h.store.sequence + 1
  {
    HostReplay.AppendEffect(c, h, body, room);
  }

  lemma AppendsNone(c: Codec, h: Host, room: nat)
    requires Good(c) && Represents(c, h.store)
    ensures Appends(h, FlushHost(c, h, room), [])
    ensures Represents(c, FlushHost(c, h, room).store)
  {
    HostReplay.FlushEffect(c, h, room);
  }

  lemma AppendsChain(h: Host, k: Host, m: Host, a: seq<Body>, b: seq<Body>)
    requires Appends(h, k, a) && Appends(k, m, b)
    ensures Appends(h, m, a + b)
  {
    var n := |h.store.recorded|;
    forall i | 0 <= i < |a + b| ensures m.store.recorded[n + i].body == (a + b)[i] {
      if i < |a| { assert m.store.recorded[n + i] == k.store.recorded[n + i]; }
      else { assert m.store.recorded[|k.store.recorded| + (i - |a|)].body == b[i - |a|]; }
    }
    SameChain(h, k, m);
  }

  lemma SameChain(h: Host, k: Host, m: Host)
    requires HostReplay.SameAttachments(h, k) && HostReplay.SameAttachments(k, m)
    ensures HostReplay.SameAttachments(h, m)
  {
    forall i | 0 <= i < |h.attachments|
      ensures var x, z := h.attachments[i], m.attachments[i];
        z == x.(phase := z.phase, pending := z.pending, out := z.out, failed := z.failed) && x.out <= z.out
    {
      var x, y := h.attachments[i], k.attachments[i];
      assert y == x.(phase := y.phase, pending := y.pending, out := y.out, failed := y.failed);
    }
  }

  /** Fields outside the journal make no difference to what was journaled. */
  lemma AppendsElsewhere(h: Host, k: Host, h2: Host, k2: Host, bodies: seq<Body>)
    requires Appends(h, k, bodies)
    requires h2.store == h.store && h2.attachments == h.attachments && h2.opening == h.opening
    requires k2 == h2.(store := k.store, attachments := k.attachments, opening := k.opening)
    ensures Appends(h2, k2, bodies)
  {}

  /** A step that journals nothing. */
  lemma AppendsNothing(c: Codec, base: Host, k: Host)
    requires Represents(c, base.store) && k == base.(attachments := k.attachments)
    requires HostReplay.SameAttachments(base, k)
    ensures Appends(base, k, [])
  {}

  lemma NothingHappens(c: Codec, h: Host)
    requires Represents(c, h.store)
    ensures Appends(h, h, [])
  {}

  function OutputBodies(lines: seq<string>): seq<Body> {
    seq(|lines|, i requires 0 <= i < |lines| => Output(lines[i]))
  }

  lemma {:induction false} AppendsOutputs(c: Codec, h: Host, lines: seq<string>, rooms: seq<nat>)
    requires Good(c) && Represents(c, h.store)
    ensures Appends(h, AppendOutputs(c, h, lines, rooms), OutputBodies(lines))
    ensures Represents(c, AppendOutputs(c, h, lines, rooms).store)
    decreases |lines|
  {
    hide AppendFrame; hide Represents; hide Good;
    if lines == [] {
      WithinRecord(c, h.store);
    } else {
      hide Appends;
      var k := AppendFrame(c, h, Output(lines[0]), Room(rooms, 0));
      var left := if rooms == [] then [] else rooms[1..];
      AppendsOne(c, h, Output(lines[0]), Room(rooms, 0));
      AppendsOutputs(c, k, lines[1..], left);
      AppendsChain(h, k, AppendOutputs(c, k, lines[1..], left), [Output(lines[0])], OutputBodies(lines[1..]));
      assert OutputBodies(lines) == [Output(lines[0])] + OutputBodies(lines[1..]);
    }
  }

  /** What recording the exit journals. */
  function ExitBodies(rest: string, code: int): seq<Body> {
    (if rest == "" then [] else [Output(rest)]) + [Exited(code)]
  }

  lemma AppendsExit(c: Codec, h: Host, code: int, rooms: seq<nat>)
    requires Good(c) && Represents(c, h.store) && h.exit == None
    ensures Appends(h.(exit := Some(code), stdoutRest := ""), RecordExit(c, h, code, rooms),
                    ExitBodies(h.stdoutRest, code))
    ensures Represents(c, RecordExit(c, h, code, rooms).store)
  {
    hide AppendFrame; hide Represents; hide Good;
    hide Appends;
    var base := h.(exit := Some(code), stdoutRest := "");
    if h.stdoutRest == "" {
      assert h.(exit := Some(code)) == base;
      AppendsOne(c, base, Exited(code), Room(rooms, 1));
      assert [] + [Exited(code)] == [Exited(code)];
    } else {
      var first := AppendFrame(c, h, Output(h.stdoutRest), Room(rooms, 0));
      AppendsOne(c, h, Output(h.stdoutRest), Room(rooms, 0));
      AppendsFields(h, first, [Output(h.stdoutRest)]);
      var mid := first.(stdoutRest := "").(exit := Some(code));
      AppendsElsewhere(h, first, base, mid, [Output(h.stdoutRest)]);
      AppendsOne(c, mid, Exited(code), Room(rooms, 1));
      AppendsChain(base, mid, AppendFrame(c, mid, Exited(code), Room(rooms, 1)),
                   [Output(h.stdoutRest)], [Exited(code)]);
    }
  }

  // ---- lines ---------------------------------------------------------------------------------

  ghost predicate AllNeutral(bodies: seq<Body>) {
    forall i :: 0 <= i < |bodies| ==> NeutralBody(bodies[i])
  }

  /** The neutral kind of step: other fields change from `h` to `base` (receipts may gain ids that
      name no line), then neutral frames are journaled. */
  lemma LinesNeutral(h: Host, base: Host, k: Host, bodies: seq<Body>)
    requires LinesInv(h) && h.store.persisted <= |h.store.recorded|
    requires LinesUntouched(h, base)
    requires Appends(base, k, bodies) && AllNeutral(bodies)
    ensures LinesInv(k)
  {
    forall i | |h.store.recorded| <= i < |k.store.recorded| ensures NeutralBody(k.store.recorded[i].body) {
      assert k.store.recorded[|h.store.recorded| + (i - |h.store.recorded|)].body == bodies[i - |h.store.recorded|];
    }
    NeutralKeepsLines(h, k.(authors := h.authors));
  }

  lemma SameLines(h: Host, k: Host)
    requires LinesInv(h) && h.store.persisted <= |h.store.recorded|
    requires k.store == h.store && k.writes == h.writes && k.stdin == h.stdin && k.receipts == h.receipts
    requires k.opening == h.opening && k.openingLine == h.openingLine
    ensures LinesInv(k)
  {
    LinesNeutral(h, k, k, []);
  }

  lemma SubmitLines(c: Codec, h: Host, conn: nat, id: string, line: Option<string>, rooms: seq<nat>)
    requires Good(c) && Represents(c, h.store) && LinesInv(h) && id !in h.receipts
    ensures LinesInv(OnSubmit(c, h, conn, id, line, rooms))
  {
    if line == None || '\n' in line.value || h.store.unwritten != [] {
      SameLines(h, OnSubmit(c, h, conn, id, line, rooms));
    } else if AppendFrame(c, h, Input(id, line.value), Room(rooms, 0)).store.unwritten != [] {
      UnrecordedSubmitStep(c, h, conn, id, line.value, rooms);
      UnrecordedLines(h, OnSubmit(c, h, conn, id, line, rooms), id, line.value);
    } else {
      RecordedSubmitStep(c, h, conn, id, line.value, rooms);
      RecordedLines(h, OnSubmit(c, h, conn, id, line, rooms), id, line.value, conn);
    }
  }

  lemma CarriesAppends(h: Host, base: Host, f: Host, k: Host, bodies: seq<Body>, id: string, r: Receipt)
    requires Appends(base, f, bodies)
    requires base.store == h.store && base.opening == h.opening && base.openingLine == h.openingLine
    requires k.store == f.store && k.opening == f.opening && k.openingLine == f.openingLine
    requires k.receipts == h.receipts[id := r]
    ensures Carries(h, k, bodies, id, r)
  {}

  lemma UnrecordedAppends(c: Codec, h: Host, id: string, line: string, authors: seq<Author>, rooms: seq<nat>)
    requires Good(c) && Represents(c, h.store)
    ensures var recorded := AppendFrame(c, h, Input(id, line), Room(rooms, 0));
      Appends(h.(authors := authors), AppendFrame(c, recorded.(authors := authors), WriteFailed(id), Room(rooms, 1)),
              [Input(id, line), WriteFailed(id)])
  {
    hide AppendFrame; hide Represents; hide Good; hide Appends;
    var recorded := AppendFrame(c, h, Input(id, line), Room(rooms, 0));
    AppendsOne(c, h, Input(id, line), Room(rooms, 0));
    AppendsFields(h, recorded, [Input(id, line)]);
    var authored := recorded.(authors := authors);
    AppendsElsewhere(h, recorded, h.(authors := authors), authored, [Input(id, line)]);
    AppendsOne(c, authored, WriteFailed(id), Room(rooms, 1));
    AppendsChain(h.(authors := authors), authored, AppendFrame(c, authored, WriteFailed(id), Room(rooms, 1)),
                 [Input(id, line)], [WriteFailed(id)]);
    assert [Input(id, line)] + [WriteFailed(id)] == [Input(id, line), WriteFailed(id)];
  }

  /** The branch `submit` takes when the record of the line is not on disk at once. */
  lemma SubmitUnrecorded(c: Codec, h: Host, conn: nat, id: string, line: string, rooms: seq<nat>)
    requires '\n' !in line && h.store.unwritten == []
    requires AppendFrame(c, h, Input(id, line), Room(rooms, 0)).store.unwritten != []
    ensures var recorded := AppendFrame(c, h, Input(id, line), Room(rooms, 0));
      var n := recorded.store.sequence;
      var authored := recorded.(authors := h.authors + [Author(n, Current(h), conn)]);
      OnSubmit(c, h, conn, id, Some(line), rooms)
      == AddReply(AppendFrame(c, authored, WriteFailed(id), Room(rooms, 1))
                  .(receipts := recorded.receipts[id := Failed(n, JournalUnavailable)]),
                  conn, Receipt(id, Failed(n, JournalUnavailable)))
  {
    hide AppendFrame;
  }

  lemma UnrecordedSubmitStep(c: Codec, h: Host, conn: nat, id: string, line: string, rooms: seq<nat>)
    requires Good(c) && Represents(c, h.store) && id !in h.receipts && '\n' !in line
    requires h.store.unwritten == [] && AppendFrame(c, h, Input(id, line), Room(rooms, 0)).store.unwritten != []
    ensures UnrecordedSubmit(h, OnSubmit(c, h, conn, id, Some(line), rooms), id, line)
  {
    SubmitUnrecorded(c, h, conn, id, line, rooms);
    WithinRecord(c, h.store);
    hide AppendFrame; hide Represents; hide Good; hide Appends; hide Carries; hide OnSubmit;
    var recorded := AppendFrame(c, h, Input(id, line), Room(rooms, 0));
    AppendsOne(c, h, Input(id, line), Room(rooms, 0));
    AppendsFields(h, recorded, [Input(id, line)]);
    var authors := h.authors + [Author(recorded.store.sequence, Current(h), conn)];
    UnrecordedAppends(c, h, id, line, authors, rooms);
    var failed := AppendFrame(c, recorded.(authors := authors), WriteFailed(id), Room(rooms, 1));
    AppendsFields(h.(authors := authors), failed, [Input(id, line), WriteFailed(id)]);
    CarriesAppends(h, h.(authors := authors), failed, OnSubmit(c, h, conn, id, Some(line), rooms),
                   [Input(id, line), WriteFailed(id)], id, Failed(recorded.store.sequence, JournalUnavailable));
  }

  /** Journaling touches nothing but the journal, the listeners and the opening input. */
  lemma AppendsFields(h: Host, k: Host, bodies: seq<Body>)
    requires Appends(h, k, bodies)
    ensures k == h.(store := k.store, attachments := k.attachments, opening := k.opening)
  {}

  lemma RecordedSubmitStep(c: Codec, h: Host, conn: nat, id: string, line: string, rooms: seq<nat>)
    requires Good(c) && Represents(c, h.store) && id !in h.receipts && '\n' !in line
    requires h.store.unwritten == [] && AppendFrame(c, h, Input(id, line), Room(rooms, 0)).store.unwritten == []
    ensures RecordedSubmit(h, OnSubmit(c, h, conn, id, Some(line), rooms), id, line, conn)
  {
    WithinRecord(c, h.store);
    hide AppendFrame; hide Good; hide Appends; hide Carries;
    var recorded := AppendFrame(c, h, Input(id, line), Room(rooms, 0));
    AppendsOne(c, h, Input(id, line), Room(rooms, 0));
    AppendsFields(h, recorded, [Input(id, line)]);
    AllPersisted(c, recorded.store);
    CarriesAppends(h, h, recorded, OnSubmit(c, h, conn, id, Some(line), rooms), [Input(id, line)], id,
                   Pending(recorded.store.sequence));
  }

  lemma AllPersisted(c: Codec, j: Store)
    requires Represents(c, j) && j.unwritten == []
    ensures j.persisted == |j.recorded| == j.sequence
  {}

  lemma CallbackStep(c: Codec, h: Host, n: nat, ok: bool, rooms: seq<nat>)
    requires Good(c) && Represents(c, h.store) && n < |h.writes| && (ok ==> h.writes[n].handed)
    ensures Settles(h, OnStdinCallback(c, h, n, ok, rooms), n, ok)
  {
    hide AppendFrame; hide Represents; hide Good; hide Appends; hide Carries;
    var w := h.writes[n];
    var body := if ok then Written(w.id) else WriteFailed(w.id);
    AppendsOne(c, h, body, Room(rooms, 0));
    AppendsFields(h, AppendFrame(c, h, body, Room(rooms, 0)), [body]);
    CarriesAppends(h, h, AppendFrame(c, h, body, Room(rooms, 0)), OnStdinCallback(c, h, n, ok, rooms), [body], w.id,
                   if ok then Accepted(w.seqNo) else Failed(w.seqNo, if w.handed then PipeError else StdinClosed));
  }

  lemma CallbackLines(c: Codec, h: Host, n: nat, ok: bool, rooms: seq<nat>)
    requires Good(c) && Represents(c, h.store) && LinesInv(h)
    ensures LinesInv(OnStdinCallback(c, h, n, ok, rooms))
  {
    if n < |h.writes| && (ok ==> h.writes[n].handed) {
      CallbackStep(c, h, n, ok, rooms);
      SettlesLines(h, OnStdinCallback(c, h, n, ok, rooms), n, ok);
    }
  }

  // ---- the neutral events, in one form -------------------------------------------------------

  /** The fields a neutral event changes, apart from what journaling and publishing change. */
  function NeutralBase(h: Host, e: Event): Host {
    match e
    case StdoutData(chunk, _) =>
      if h.exit != None then h
      else h.(stdoutRest := Lines.Split(h.stdoutRest + chunk).rest, heard := h.heard + chunk)
    case ProviderFact(_, gone, _) => h.(stdinOpen := h.stdinOpen && !gone)
    case StdinGone => h.(stdinOpen := false)
    case ProviderExit(code, _, _) => if h.exit != None then h else h.(exit := Some(code), stdoutRest := "")
    case Leave(_) => h.(left := true)
    case CommandFrom(conn, command, delivered, _) => CommandBase(h, conn, command, delivered)
    case Disconnect(conn) => OnDisconnect(h, conn)
    case _ => h
  }

  function CommandBase(h: Host, conn: nat, command: Command, delivered: bool): Host {
    var id := CommandId(command);
    if command.Status? then AddReply(h, conn, StatusReply(h.store.persisted))
    else if command.Attach? then OnAttach(h, conn, command.protocol, command.from)
    else if h.attached != Some(conn) then AddReply(h, conn, RefusedReply(NotAttached))
    else if id == "" then AddReply(h, conn, RefusedReply(NoId))
    else if id in h.receipts then AddReply(h, conn, Receipt(id, h.receipts[id]))
    else ActingBase(h, conn, id, command, delivered)
  }

  function ActingBase(h: Host, conn: nat, id: string, command: Command, delivered: bool): Host {
    match command
    case CloseInput(_) =>
      var r := Done(h.store.sequence + 1);
      AddReply(h.(stdinOpen := false, receipts := h.receipts[id := r], authors := By(h, conn)), conn, Receipt(id, r))
    case SendSignal(_, signal) =>
      if signal == None then AddReply(h, conn, RefusedReply(NotASignal))
      else
        var r := SignalReceipt(h.store.sequence + 1, h.exit == None && delivered);
        AddReply(h.(signals := if h.exit == None then h.signals + [SentSignal(id, signal.value)] else h.signals,
                    receipts := h.receipts[id := r], authors := By(h, conn)), conn, Receipt(id, r))
    case Release(_) =>
      if h.exit == None then AddReply(h, conn, RefusedReply(StillRunning))
      else if h.store.unwritten != [] then AddReply(h, conn, RefusedReply(NotOnDisk))
      else AddReply(h, conn, ReleasedReply(id)).(released := true, left := true, authors := By(h, conn))
    case _ => AddReply(h, conn, RefusedReply(UnknownOperation))
  }

  /** What a neutral event journals; `None` for the events that are not neutral. */
  function NeutralBodies(h: Host, e: Event): Option<seq<Body>> {
    match e
    case DiskRetry(_) => Some([])
    case StdoutData(chunk, _) =>
      Some(if h.exit != None then [] else OutputBodies(Lines.Split(h.stdoutRest + chunk).lines))
    case StderrData(chunk, _) => Some([ErrorText(chunk)])
    case ProviderFact(text, _, _) => Some([Note(text)])
    case StdinGone => Some([])
    case ProviderExit(code, abandoned, _) =>
      Some(if h.exit != None then []
           else (if abandoned then [OutputAbandoned] else []) + ExitBodies(h.stdoutRest, code))
    case Leave(_) => Some([HostExit])
    case CommandFrom(conn, command, _, _) => CommandBodies(h, conn, command)
    case ReplayTurn(_) => Some([])
    case ReplayReadError(_) => Some([])
    case Disconnect(_) => Some([])
    case _ => None
  }

  function CommandBodies(h: Host, conn: nat, command: Command): Option<seq<Body>> {
    var id := CommandId(command);
    if command.Status? || command.Attach? || h.attached != Some(conn) || id == "" || id in h.receipts then Some([])
    else
      match command
      case Submit(_, _) => None
      case CloseInput(_) => Some([InputClosed(id)])
      case SendSignal(_, signal) => Some(if signal == None then [] else [Signalled(id, signal.value)])
      case Release(_) =>
        Some(if h.exit == None || h.store.unwritten != [] then [] else [Journal.Released(id), HostExit])
      case _ => Some([])
  }

  lemma ExitAppends(c: Codec, h: Host, code: int, abandoned: bool, rooms: seq<nat>)
    requires Good(c) && Represents(c, h.store) && h.exit == None
    ensures var k := OnExit(c, h, code, abandoned, rooms);
      && Appends(h.(exit := Some(code), stdoutRest := ""), k,
                 (if abandoned then [OutputAbandoned] else []) + ExitBodies(h.stdoutRest, code))
      && Represents(c, k.store)
  {
    hide AppendFrame; hide Represents; hide Good;
    hide Appends;
    if abandoned {
      var noted := AppendFrame(c, h, OutputAbandoned, Room(rooms, 2));
      AppendsOne(c, h, OutputAbandoned, Room(rooms, 2));
      AppendsFields(h, noted, [OutputAbandoned]);
      AppendsExit(c, noted, code, rooms);
      AppendsElsewhere(h, noted, h.(exit := Some(code), stdoutRest := ""), noted.(exit := Some(code), stdoutRest := ""),
                       [OutputAbandoned]);
      AppendsChain(h.(exit := Some(code), stdoutRest := ""), noted.(exit := Some(code), stdoutRest := ""),
                   OnExit(c, h, code, abandoned, rooms), [OutputAbandoned], ExitBodies(h.stdoutRest, code));
    } else {
      AppendsExit(c, h, code, rooms);
      assert [] + ExitBodies(h.stdoutRest, code) == ExitBodies(h.stdoutRest, code);
    }
  }

  lemma ReleaseAppends(c: Codec, h: Host, conn: nat, id: string, rooms: seq<nat>)
    requires Good(c) && Represents(c, h.store) && h.exit != None && h.store.unwritten == []
    ensures var k := OnRelease(c, h, conn, id, rooms);
      && Appends(AddReply(h, conn, ReleasedReply(id)).(released := true, left := true, authors := By(h, conn)), k,
                 [Journal.Released(id), HostExit])
      && Represents(c, k.store)
  {
    hide AppendFrame; hide Represents; hide Good;
    hide Appends;
    var after := AppendFrame(c, h, Journal.Released(id), Room(rooms, 0));
    AppendsOne(c, h, Journal.Released(id), Room(rooms, 0));
    AppendsFields(h, after, [Journal.Released(id)]);
    var noted := AddReply(after, conn, ReleasedReply(id)).(released := true, authors := By(h, conn));
    var base := AddReply(h, conn, ReleasedReply(id)).(released := true, left := true, authors := By(h, conn));
    AppendsElsewhere(h, after, base, noted.(left := true), [Journal.Released(id)]);
    LeaveAppends(c, noted, Room(rooms, 1));
    AppendsChain(base, noted.(left := true), OnRelease(c, h, conn, id, rooms), [Journal.Released(id)], [HostExit]);
    assert [Journal.Released(id)] + [HostExit] == [Journal.Released(id), HostExit];
  }

  lemma CloseAppends(c: Codec, h: Host, conn: nat, id: string, rooms: seq<nat>)
    requires Good(c) && Represents(c, h.store)
    ensures var r := Done(h.store.sequence + 1);
      Appends(AddReply(h.(stdinOpen := false, receipts := h.receipts[id := r], authors := By(h, conn)),
                       conn, Receipt(id, r)),
              OnClose(c, h, conn, id, rooms), [InputClosed(id)])
    ensures Represents(c, OnClose(c, h, conn, id, rooms).store)
  {
    hide AppendFrame; hide Represents; hide Good; hide Appends;
    var after := AppendFrame(c, h, InputClosed(id), Room(rooms, 0));
    AppendsOne(c, h, InputClosed(id), Room(rooms, 0));
    AppendsFields(h, after, [InputClosed(id)]);
    var r := Done(h.store.sequence + 1);
    AppendsElsewhere(h, after,
                     AddReply(h.(stdinOpen := false, receipts := h.receipts[id := r], authors := By(h, conn)),
                              conn, Receipt(id, r)),
                     OnClose(c, h, conn, id, rooms), [InputClosed(id)]);
  }

  lemma SignalAppends(c: Codec, h: Host, conn: nat, id: string, signal: ProcessSignal, delivered: bool, rooms: seq<nat>)
    requires Good(c) && Represents(c, h.store)
    ensures var r := SignalReceipt(h.store.sequence + 1, h.exit == None && delivered);
      Appends(AddReply(h.(signals := if h.exit == None then h.signals + [SentSignal(id, signal)] else h.signals,
                          receipts := h.receipts[id := r], authors := By(h, conn)), conn, Receipt(id, r)),
              OnSignal(c, h, conn, id, Some(signal), delivered, rooms), [Signalled(id, signal)])
    ensures Represents(c, OnSignal(c, h, conn, id, Some(signal), delivered, rooms).store)
  {
    hide AppendFrame; hide Represents; hide Good; hide Appends;
    var after := AppendFrame(c, h, Signalled(id, signal), Room(rooms, 0));
    AppendsOne(c, h, Signalled(id, signal), Room(rooms, 0));
    AppendsFields(h, after, [Signalled(id, signal)]);
    var r := SignalReceipt(h.store.sequence + 1, h.exit == None && delivered);
    AppendsElsewhere(h, after,
                     AddReply(h.(signals := if h.exit == None then h.signals + [SentSignal(id, signal)] else h.signals,
                                 receipts := h.receipts[id := r], authors := By(h, conn)), conn, Receipt(id, r)),
                     OnSignal(c, h, conn, id, Some(signal), delivered, rooms), [Signalled(id, signal)]);
  }

  lemma CommandAppends(c: Codec, h: Host, conn: nat, command: Command, delivered: bool, rooms: seq<nat>)
    requires Good(c) && Represents(c, h.store) && CommandBodies(h, conn, command).Some?
    ensures var k := OnCommand(c, h, conn, command, delivered, rooms);
      && Appends(CommandBase(h, conn, command, delivered), k, CommandBodies(h, conn, command).value)
      && Represents(c, k.store)
  {
    WithinRecord(c, h.store);
    hide Represents; hide Good; hide Appends; hide OnCommand; hide CommandBase; hide CommandBodies;
    if QuietCommand(h, conn, command) {
      QuietAppends(c, h, conn, command, delivered, rooms);
      QuietStore(h, conn, command, delivered);
      NothingHappens(c, CommandBase(h, conn, command, delivered));
    } else {
      ActingAppends(c, h, conn, command, delivered, rooms);
    }
  }

  /** A command that is answered without acting. */
  predicate QuietCommand(h: Host, conn: nat, command: Command) {
    var id := CommandId(command);
    command.Status? || command.Attach? || h.attached != Some(conn) || id == "" || id in h.receipts
  }

  lemma QuietAppends(c: Codec, h: Host, conn: nat, command: Command, delivered: bool, rooms: seq<nat>)
    requires QuietCommand(h, conn, command)
    ensures OnCommand(c, h, conn, command, delivered, rooms) == CommandBase(h, conn, command, delivered)
    ensures CommandBodies(h, conn, command) == Some([])
  {
    hide ActingBase; hide OnClose; hide OnSignal; hide OnRelease; hide OnSubmit; hide OnAttach; hide AddReply;
  }

  lemma QuietStore(h: Host, conn: nat, command: Command, delivered: bool)
    requires QuietCommand(h, conn, command)
    ensures CommandBase(h, conn, command, delivered).store == h.store
  {
    hide ActingBase;
  }

  lemma ActingAppends(c: Codec, h: Host, conn: nat, command: Command, delivered: bool, rooms: seq<nat>)
    requires Good(c) && Represents(c, h.store) && CommandBodies(h, conn, command).Some?
    requires h.attached == Some(conn) && CommandId(command) != "" && CommandId(command) !in h.receipts
    ensures var k := OnCommand(c, h, conn, command, delivered, rooms);
      && Appends(CommandBase(h, conn, command, delivered), k, CommandBodies(h, conn, command).value)
      && Represents(c, k.store)
  {
    WithinRecord(c, h.store);
    var id := CommandId(command);
    hide Represents; hide Good; hide OnClose; hide AppendFrame; hide OnLeave; hide Appends;
    match command
    case CloseInput(_) => CloseAppends(c, h, conn, id, rooms);
    case SendSignal(_, signal) =>
      if signal != None { SignalAppends(c, h, conn, id, signal.value, delivered, rooms); }
      else { NothingHappens(c, CommandBase(h, conn, command, delivered)); }
    case Release(_) =>
      if h.exit != None && h.store.unwritten == [] { ReleaseAppends(c, h, conn, id, rooms); }
      else { NothingHappens(c, CommandBase(h, conn, command, delivered)); }
    case _ => NothingHappens(c, CommandBase(h, conn, command, delivered));
  }

  /** Every neutral event is its field changes followed by exactly the frames listed for it. */
  lemma NeutralEvent(c: Codec, h: Host, e: Event)
    requires Good(c) && Represents(c, h.store) && !h.left && NeutralBodies(h, e).Some?
    ensures Appends(NeutralBase(h, e), Step(c, h, e), NeutralBodies(h, e).value)
    ensures Represents(c, Step(c, h, e).store)
  {
    hide AppendFrame; hide FlushHost; hide Represents; hide Good; hide OnCommand; hide CommandBase; hide CommandBodies;
    hide Appends; hide HostReplay.SameAttachments; hide OnExit; hide OnReplayTurn; hide OnReplayReadError; hide AppendOutputs; hide ReplayOne; hide FinishReplay;
    match e
    case DiskRetry(room) => AppendsNone(c, h, room);
    case StdoutData(chunk, rooms) => StdoutAppends(c, h, chunk, rooms);
    case StderrData(chunk, rooms) => AppendsOne(c, h, ErrorText(chunk), Room(rooms, 0));
    case ProviderFact(text, gone, rooms) =>
      AppendsOne(c, h.(stdinOpen := h.stdinOpen && !gone), Note(text), Room(rooms, 0));
    case StdinGone => AppendsNothing(c, NeutralBase(h, e), NeutralBase(h, e));
    case ProviderExit(code, abandoned, rooms) =>
      if h.exit == None { ExitAppends(c, h, code, abandoned, rooms); }
      else { ExitedNothing(c, h, code, abandoned, rooms); AppendsNothing(c, h, h); }
    case Leave(rooms) => LeaveAppends(c, h, Room(rooms, 0));
    case CommandFrom(conn, command, delivered, rooms) => CommandAppends(c, h, conn, command, delivered, rooms);
    case ReplayTurn(i) =>
      ReplayTurnSame(c, h, i);
      AppendsNothing(c, h, Step(c, h, e));
    case ReplayReadError(i) =>
      ReadErrorSame(h, i);
      AppendsNothing(c, h, Step(c, h, e));
    case Disconnect(conn) => AppendsNothing(c, OnDisconnect(h, conn), OnDisconnect(h, conn));
  }

  /** A replay turn only adds to what its own attachment has sent. */
  lemma ReplayTurnSame(c: Codec, h: Host, i: nat)
    ensures HostReplay.SameAttachments(h, OnReplayTurn(c, h, i))
    ensures OnReplayTurn(c, h, i) == h.(attachments := OnReplayTurn(c, h, i).attachments)
  {
    hide ReplayFrames;
    if i < |h.attachments| {
      var a := h.attachments[i];
      HostReplay.DeliverAllKeeps(h.attached, a.(phase := Live, pending := []), a.pending);
    }
  }

  lemma ReadErrorSame(h: Host, i: nat)
    ensures HostReplay.SameAttachments(h, OnReplayReadError(h, i))
    ensures OnReplayReadError(h, i) == h.(attachments := OnReplayReadError(h, i).attachments)
  {
    if i < |h.attachments| {
      var a := h.attachments[i];
      HostReplay.DeliverAllKeeps(h.attached, a.(phase := Live, pending := []), a.pending);
    }
  }

  lemma ExitedNothing(c: Codec, h: Host, code: int, abandoned: bool, rooms: seq<nat>)
    requires h.exit != None
    ensures OnExit(c, h, code, abandoned, rooms) == h
  {}

  lemma StdoutAppends(c: Codec, h: Host, chunk: string, rooms: seq<nat>)
    requires Good(c) && Represents(c, h.store) && !h.left
    ensures var e := StdoutData(chunk, rooms);
      Appends(NeutralBase(h, e), Step(c, h, e), NeutralBodies(h, e).value) && Represents(c, Step(c, h, e).store)
  {
    hide Appends; hide Represents; hide Good; hide AppendOutputs;
    if h.exit == None {
      var cut := Lines.Split(h.stdoutRest + chunk);
      AppendsOutputs(c, h.(stdoutRest := cut.rest, heard := h.heard + chunk), cut.lines, rooms);
    } else {
      AppendsNothing(c, h, h);
    }
  }

  lemma LeaveAppends(c: Codec, h: Host, room: nat)
    requires Good(c) && Represents(c, h.store)
    ensures Appends(h.(left := true), OnLeave(c, h, room), [HostExit]) && Represents(c, OnLeave(c, h, room).store)
  {
    hide AppendFrame; hide Represents; hide Good; hide Appends;
    AppendsOne(c, h, HostExit, room);
    AppendsFields(h, AppendFrame(c, h, HostExit, room), [HostExit]);
    AppendsElsewhere(h, AppendFrame(c, h, HostExit, room), h.(left := true), OnLeave(c, h, room), [HostExit]);
  }

  lemma NeutralBodiesNeutral(h: Host, e: Event)
    requires NeutralBodies(h, e).Some?
    ensures AllNeutral(NeutralBodies(h, e).value)
  {}

  /** A neutral event's field changes settle no line. */
  ghost predicate LinesUntouched(h: Host, base: Host) {
    && base.store == h.store && base.writes == h.writes && base.stdin == h.stdin
    && base.opening == h.opening && base.openingLine == h.openingLine
    && (forall id :: id in h.receipts ==> id in base.receipts && base.receipts[id] == h.receipts[id])
    && (forall id :: id in base.receipts && id !in h.receipts ==> !LineReceipt(base.receipts[id]))
  }

  lemma RepliesUntouched(h: Host, conn: nat)
    ensures forall reply :: LinesUntouched(h, AddReply(h, conn, reply))
  {}

  lemma AttachUntouched(h: Host, conn: nat, protocol: int, from: int)
    ensures LinesUntouched(h, OnAttach(h, conn, protocol, from))
  {}

  lemma CloseUntouched(h: Host, conn: nat, id: string)
    requires id !in h.receipts
    ensures LinesUntouched(h, ActingBase(h, conn, id, CloseInput(id), false))
  {
    hide By;
  }

  lemma SignalUntouched(h: Host, conn: nat, id: string, signal: Option<ProcessSignal>, delivered: bool)
    requires id !in h.receipts
    ensures LinesUntouched(h, ActingBase(h, conn, id, SendSignal(id, signal), delivered))
  {
    hide By;
  }

  lemma ReleaseUntouched(h: Host, conn: nat, id: string)
    ensures LinesUntouched(h, ActingBase(h, conn, id, Release(id), false))
  {
    hide By;
  }

  lemma ActingBaseUntouched(h: Host, conn: nat, id: string, command: Command, delivered: bool)
    requires id !in h.receipts && id == CommandId(command)
    ensures LinesUntouched(h, ActingBase(h, conn, id, command, delivered))
  {
    hide LinesUntouched; hide By; hide AddReply;
    RepliesUntouched(h, conn);
    match command
    case CloseInput(_) => CloseUntouched(h, conn, id);
    case SendSignal(_, signal) => SignalUntouched(h, conn, id, signal, delivered);
    case Release(_) => ReleaseUntouched(h, conn, id);
    case _ =>
  }

  lemma CommandBaseUntouched(h: Host, conn: nat, command: Command, delivered: bool)
    ensures LinesUntouched(h, CommandBase(h, conn, command, delivered))
  {
    hide ActingBase; hide LinesUntouched; hide AddReply;
    var id := CommandId(command);
    if id !in h.receipts { ActingBaseUntouched(h, conn, id, command, delivered); }
    RepliesUntouched(h, conn);
    if command.Attach? { AttachUntouched(h, conn, command.protocol, command.from); }
  }

  lemma NeutralBaseUntouched(h: Host, e: Event)
    requires NeutralBodies(h, e).Some?
    ensures LinesUntouched(h, NeutralBase(h, e))
  {
    hide CommandBase; hide CommandBodies;
    if e.CommandFrom? { CommandBaseUntouched(h, e.conn, e.command, e.delivered); }
  }

  lemma NeutralLines(c: Codec, h: Host, e: Event)
    requires Good(c) && Represents(c, h.store) && LinesInv(h) && !h.left && NeutralBodies(h, e).Some?
    ensures LinesInv(Step(c, h, e))
  {
    hide Step; hide Represents; hide Good; hide LinesInv; hide Appends; hide AllNeutral; hide NeutralBase; hide NeutralBodies; hide LinesUntouched;
    WithinRecord(c, h.store);
    NeutralEvent(c, h, e);
    NeutralBodiesNeutral(h, e);
    NeutralBaseUntouched(h, e);
    LinesNeutral(h, NeutralBase(h, e), Step(c, h, e), NeutralBodies(h, e).value);
  }

  /** Every segment of the event loop keeps the line invariants. */
  lemma StepLines(c: Codec, h: Host, e: Event)
    requires Good(c) && Represents(c, h.store) && LinesInv(h)
    ensures LinesInv(Step(c, h, e))
  {
    hide Represents; hide Good; hide LinesInv; hide OnStdinCallback; hide OnSubmit; hide OnOpening;
    WithinRecord(c, h.store);
    if !h.left {
      if NeutralBodies(h, e).Some? {
        NeutralLines(c, h, e);
      } else {
        match e
        case OpeningTurn => OpeningLines(h);
        case StdinCallback(w, ok, rooms) => CallbackLines(c, h, w, ok, rooms);
        case CommandFrom(conn, command, delivered, rooms) =>
          SubmitLines(c, h, conn, command.id, command.line, rooms);
      }
    }
  }
}
