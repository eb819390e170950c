/** What the host's segments must bring about, not only what they may: signals sent, releases granted,
    repeated commands answered, outcomes told as the pipe reported them, output and exits recorded, and
    the opening input written; and that whatever it does for a command it does under one id, once. */
module HostActs {
  import opened Wrappers
  import opened Journal
  import opened HostState
  import opened HostCommands
  import opened HostSteps
  import opened HostCustody
  import opened HostFencing
  import opened HostRuns
  import opened HostTheorems
  import HostAnswers
  import HostAttach
  import HostPipes
  import Lines

  // ---- commands that act ---------------------------------------------------------------------

  /** A signal command with a new id is sent to the provider exactly while its exit is not recorded, and
      its receipt says whether it was delivered; anything that is no signal is refused. */
  lemma SignalActsExactly(c: Codec, h: Host, conn: nat, id: string, signal: Option<ProcessSignal>, delivered: bool, rooms: seq<nat>)
    requires !h.left && h.attached == Some(conn) && id != "" && id !in h.receipts
    ensures var k := Step(c, h, CommandFrom(conn, SendSignal(id, signal), delivered, rooms));
      && (signal == None ==> k == h.(replies := h.replies + [(conn, RefusedReply(NotASignal))]))
      && (signal.Some? ==>
            && (h.exit == None <==> k.signals == h.signals + [SentSignal(id, signal.value)])
            && id in k.receipts && k.receipts[id] == SignalReceipt(h.store.sequence + 1, h.exit == None && delivered)
            && k.replies == h.replies + [(conn, Reply.Receipt(id, k.receipts[id]))])
  {
    if signal.Some? {
      HostAnswers.AppendOnly(c, h, Signalled(id, signal.value), Room(rooms, 0));
      HostPipes.AppendPipes(c, h, Signalled(id, signal.value), Room(rooms, 0));
      SequenceAfter(c, h, Signalled(id, signal.value), Room(rooms, 0));
    }
    hide AppendFrame;
  }

  lemma SequenceAfter(c: Codec, h: Host, body: Body, room: nat)
    ensures AppendFrame(c, h, body, room).store.sequence == h.store.sequence + 1
  {
    HostPipes.FlushRecords(c, Record(h.store, body), room);
    hide Flush;
  }

  /** A close with a new id is journaled, closes stdin, and is answered as done, to whoever sent it. */
  lemma CloseActs(c: Codec, h: Host, conn: nat, id: string, delivered: bool, rooms: seq<nat>)
    requires !h.left && h.attached == Some(conn) && id != "" && id !in h.receipts
    ensures var k, n := Step(c, h, CommandFrom(conn, CloseInput(id), delivered, rooms)), h.store.sequence + 1;
      && !k.stdinOpen && k.store.recorded == h.store.recorded + [Frame(n, InputClosed(id))]
      && id in k.receipts && k.receipts[id] == Done(n) && k.replies == h.replies + [(conn, Reply.Receipt(id, Done(n)))]
  {
    HostAnswers.AppendOnly(c, h, InputClosed(id), Room(rooms, 0));
    HostPipes.AppendPipes(c, h, InputClosed(id), Room(rooms, 0));
    SequenceAfter(c, h, InputClosed(id), Room(rooms, 0));
    hide AppendFrame;
  }

  lemma FitsExactly(c: Codec, h: Host, body: Body, room: nat)
    requires Good(c) && Represents(c, h.store) && h.store.unwritten == []
    ensures AppendFrame(c, h, body, room).store.unwritten == [] <==> room >= |c.encode(Frame(h.store.sequence + 1, body))|
  {
    var j := Record(h.store, body);
    RecordKeeps(c, h.store, body);
    FlushWrites(c, j, room);
    assert j.unwritten == [Frame(h.store.sequence + 1, body)] && j.unwritten[1..] == [] && j.offset == 0;
    assert EncodeAll(c, j.unwritten) == c.encode(j.unwritten[0]) + "";
    hide Flush; hide Represents;
  }

  /** What a submit that is recorded came to, with the frame's number `n`: handed over if its frame is on
      disk, and otherwise answered as not written. */
  ghost predicate SubmitOutcome(h: Host, k: Host, conn: nat, id: string, line: string, onDisk: bool) {
    var n := h.store.sequence + 1;
    if onDisk then
      && k.receipts == h.receipts[id := Pending(n)] && k.replies == h.replies
      && k.writes == h.writes + [Write(id, n, Some(conn), h.stdinOpen)]
      && k.stdin == (if h.stdinOpen then h.stdin + [StdinLine(id, line, n)] else h.stdin)
    else
      && k.receipts == h.receipts[id := Failed(n, JournalUnavailable)]
      && k.replies == h.replies + [(conn, Reply.Receipt(id, Failed(n, JournalUnavailable)))]
      && k.writes == h.writes && k.stdin == h.stdin
  }

  lemma RecordableActs(c: Codec, h: Host, conn: nat, id: string, line: string, rooms: seq<nat>)
    requires Good(c) && Represents(c, h.store) && h.store.unwritten == []
    ensures SubmitOutcome(h, OnRecordable(c, h, conn, id, line, rooms), conn, id, line,
                          Room(rooms, 0) >= |c.encode(Frame(h.store.sequence + 1, Input(id, line)))|)
  {
    FitsExactly(c, h, Input(id, line), Room(rooms, 0));
    hide Good; hide Represents;
    var recorded := AppendFrame(c, h, Input(id, line), Room(rooms, 0));
    HostAnswers.AppendOnly(c, h, Input(id, line), Room(rooms, 0));
    SequenceAfter(c, h, Input(id, line), Room(rooms, 0));
    var authored := recorded.(authors := h.authors + [Author(recorded.store.sequence, Current(h), conn)]);
    HostAnswers.AppendOnly(c, authored, WriteFailed(id), Room(rooms, 1));
    hide AppendFrame;
  }

  /** A one-line submit with a new id while nothing waits for the disk: if the disk takes its whole frame
      the line is handed to stdin, where that is open, and its answer waits for the pipe; if not, it is
      answered as not written, to whoever sent it, and never handed over. */
  lemma SubmitActsExactly(c: Codec, h: Host, conn: nat, id: string, line: string, delivered: bool, rooms: seq<nat>)
    requires Good(c) && Reachable(c, h) && !h.left && h.attached == Some(conn) && h.store.unwritten == []
    requires id != "" && id !in h.receipts && '\n' !in line
    ensures SubmitOutcome(h, Step(c, h, CommandFrom(conn, Submit(id, Some(line)), delivered, rooms)), conn, id, line,
                          Room(rooms, 0) >= |c.encode(Frame(h.store.sequence + 1, Input(id, line)))|)
  {
    hide Reachable; hide Good; hide Represents; hide HostInv; hide OnRecordable; hide SubmitOutcome;
    ReachableHolds(c, h);
    RecordableActs(c, h, conn, id, line, rooms);
  }

  /** A release with a new id is granted exactly when the exit is recorded and nothing waits for the
      disk: then it is journaled, answered, and the host leaves; otherwise only an answer is given. */
  lemma ReleaseActsExactly(c: Codec, h: Host, conn: nat, id: string, delivered: bool, rooms: seq<nat>)
    requires !h.left && h.attached == Some(conn) && id != "" && id !in h.receipts
    ensures var k := Step(c, h, CommandFrom(conn, Release(id), delivered, rooms));
      && (k.left <==> h.exit != None && h.store.unwritten == [])
      && (k.left ==>
            && k.released && k.replies == h.replies + [(conn, ReleasedReply(id))]
            && k.store.recorded == h.store.recorded
               + [Frame(h.store.sequence + 1, Journal.Released(id))] + [Frame(h.store.sequence + 2, HostExit)])
      && (!k.left ==> exists refusal :: k == h.(replies := h.replies + [(conn, RefusedReply(refusal))]))
  {
    var e := CommandFrom(conn, Release(id), delivered, rooms);
    if h.exit != None && h.store.unwritten == [] {
      ReleaseEffect(c, h, conn, id, rooms);
      hide OnRelease;
      assert Step(c, h, e) == OnRelease(c, h, conn, id, rooms);
    } else {
      hide AppendFrame;
      var refusal := if h.exit == None then StillRunning else NotOnDisk;
      assert Step(c, h, e) == h.(replies := h.replies + [(conn, RefusedReply(refusal))]);
    }
  }

  lemma ReleaseEffect(c: Codec, h: Host, conn: nat, id: string, rooms: seq<nat>)
    requires h.exit != None && h.store.unwritten == []
    ensures var k := OnRelease(c, h, conn, id, rooms);
      && k.left && k.released && k.replies == h.replies + [(conn, ReleasedReply(id))]
      && k.store.recorded == h.store.recorded
         + [Frame(h.store.sequence + 1, Journal.Released(id))] + [Frame(h.store.sequence + 2, HostExit)]
  {
    var after := AppendFrame(c, h, Journal.Released(id), Room(rooms, 0));
    HostAnswers.AppendOnly(c, h, Journal.Released(id), Room(rooms, 0));
    HostPipes.AppendPipes(c, h, Journal.Released(id), Room(rooms, 0));
    SequenceAfter(c, h, Journal.Released(id), Room(rooms, 0));
    var noted := AddReply(after, conn, ReleasedReply(id)).(released := true, authors := By(h, conn));
    HostAnswers.AppendOnly(c, noted, HostExit, Room(rooms, 1));
    HostPipes.AppendPipes(c, noted, HostExit, Room(rooms, 1));
    hide AppendFrame;
  }

  /** A command repeated at any later time, whatever it now asks for, is answered with its id's receipt,
      the first one or what that has settled to, and does nothing else. */
  lemma RepeatsAreAnswered(c: Codec, h: Host, events: seq<Event>, conn: nat, command: Command, delivered: bool, rooms: seq<nat>)
    requires Good(c) && Reachable(c, h) && CommandId(command) in h.receipts && CommandId(command) != ""
    requires !Run(c, h, events).left && Run(c, h, events).attached == Some(conn)
    ensures var m, id := Run(c, h, events), CommandId(command);
      && id in m.receipts && Advances(h.receipts[id], m.receipts[id])
      && Step(c, m, CommandFrom(conn, command, delivered, rooms))
         == m.(replies := m.replies + [(conn, Reply.Receipt(id, m.receipts[id]))])
  {
    var m := Run(c, h, events);
    hide Run; hide Reachable; hide Good;
    ReceiptsSettleOnce(c, h, events);
    hide OnSubmit; hide OnClose; hide OnSignal; hide OnRelease; hide OnAttach;
  }

  /** The callback of an outstanding write settles its receipt as the pipe reported it: `written` exactly
      when the pipe took the line, and otherwise whether the pipe failed or stdin was closed; and the
      coordinator that sent the line is told. */
  lemma PipeDecides(c: Codec, h: Host, n: nat, ok: bool, rooms: seq<nat>)
    requires !h.left && n < |h.writes| && (ok ==> h.writes[n].handed)
    ensures var w, k := h.writes[n], Step(c, h, StdinCallback(n, ok, rooms));
      && w.id in k.receipts && (k.receipts[w.id].Accepted? <==> ok) && k.receipts[w.id].seqNo == w.seqNo
      && (k.receipts[w.id] == Failed(w.seqNo, PipeError) <==> !ok && w.handed)
      && (k.receipts[w.id] == Failed(w.seqNo, StdinClosed) <==> !w.handed)
      && k.replies == h.replies + (if w.conn == None then [] else [(w.conn.value, Reply.Receipt(w.id, k.receipts[w.id]))])
      && k.writes == h.writes[..n] + h.writes[n + 1..]
  {
    var w := h.writes[n];
    HostAnswers.AppendOnly(c, h, if ok then Written(w.id) else WriteFailed(w.id), Room(rooms, 0));
    hide AppendFrame;
    assert h.replies + [] == h.replies;
  }

  // ---- one frame for one id ------------------------------------------------------------------

  /** Every command's frame used up its id, and no id has two. */
  ghost predicate OncePerId(h: Host) {
    var r := h.store.recorded;
    && (forall i :: 0 <= i < |r| && CommandBody(r[i].body) ==> if r[i].body.Released? then h.left else r[i].body.id in h.receipts)
    && (forall i, j :: 0 <= i < j < |r| && CommandBody(r[i].body) && CommandBody(r[j].body) ==> r[i].body.id != r[j].body.id)
  }

  lemma OnceQuiet(h: Host, base: Host, k: Host, bodies: seq<Body>)
    requires OncePerId(h) && Appends(base, k, bodies) && base.store == h.store && NoCommand(bodies)
    requires Grows(h, k)
    ensures OncePerId(k)
  {
    forall i | 0 <= i < |k.store.recorded|
      ensures if i < |h.store.recorded| then k.store.recorded[i] == h.store.recorded[i] else !CommandBody(k.store.recorded[i].body)
    {
      if i >= |h.store.recorded| {
        assert k.store.recorded[|h.store.recorded| + (i - |h.store.recorded|)].body == bodies[i - |h.store.recorded|];
      }
    }
  }

  lemma OnceActing(h: Host, base: Host, k: Host, bodies: seq<Body>)
    requires OncePerId(h) && !h.left && Appends(base, k, bodies) && base.store == h.store && OneCommand(bodies)
    requires Grows(h, k) && bodies[0].id !in h.receipts
    requires if bodies[0].Released? then k.left else bodies[0].id in k.receipts
    ensures OncePerId(k)
  {
    var n := |h.store.recorded|;
    forall i | 0 <= i < |k.store.recorded|
      ensures if i < n then k.store.recorded[i] == h.store.recorded[i]
              else k.store.recorded[i].body == bodies[i - n] && (i > n ==> !CommandBody(k.store.recorded[i].body))
    {
      if i >= n {
        assert k.store.recorded[n + (i - n)].body == bodies[i - n];
        if i > n { assert bodies[1..][i - n - 1] == bodies[i - n]; }
      }
    }
  }

  lemma ActingUsesItsId(h: Host, e: Event)
    requires NeutralBodies(h, e).Some? && e.CommandFrom? && NeutralBodies(h, e).value != []
    ensures var id, b, base := CommandId(e.command), NeutralBodies(h, e).value[0], NeutralBase(h, e);
      && !e.command.Attach? && CommandBody(b) && b.id == id && id !in h.receipts
      && (if b.Released? then base.left else id in base.receipts)
  {}

  lemma NeutralOnce(c: Codec, h: Host, e: Event)
    requires Good(c) && HostInv(c, h) && OncePerId(h) && !h.left && NeutralBodies(h, e).Some?
    ensures OncePerId(Step(c, h, e))
  {
    var base, k, bodies := NeutralBase(h, e), Step(c, h, e), NeutralBodies(h, e).value;
    StepHolds(c, h, e);
    assert Represents(c, h.store);
    NeutralEvent(c, h, e);
    NeutralStore(h, e);
    if e.CommandFrom? && bodies != [] {
      ActingUsesItsId(h, e);
      NeutralCommandAuthor(h, e);
      AppendsFields(base, k, bodies);
      hide Step; hide NeutralBase; hide NeutralBodies; hide HostInv; hide Appends; hide Grows; hide OncePerId; hide OneCommand;
      OnceActing(h, base, k, bodies);
    } else {
      if e.CommandFrom? { NothingIsNoCommand(); } else { NoAuthor(h, e); }
      hide Step; hide NeutralBase; hide NeutralBodies; hide HostInv; hide Appends; hide Grows; hide OncePerId;
      OnceQuiet(h, base, k, bodies);
    }
  }

  lemma NeutralStore(h: Host, e: Event)
    requires NeutralBodies(h, e).Some?
    ensures NeutralBase(h, e).store == h.store
  {
    NeutralBaseUntouched(h, e);
  }

  lemma InvParts(c: Codec, h: Host)
    requires HostInv(c, h)
    ensures Represents(c, h.store) && WritesPending(h) && OPENING_ID in h.receipts
  {
    hide WritesPending;
    LinesPending(h);
    hide Represents; hide LinesInv;
  }

  lemma CallbackOnce(c: Codec, h: Host, n: nat, ok: bool, rooms: seq<nat>)
    requires Good(c) && HostInv(c, h) && OncePerId(h)
    ensures OncePerId(OnStdinCallback(c, h, n, ok, rooms))
  {
    hide HostInv; hide OncePerId; hide Represents; hide Good; hide Appends; hide Grows; hide OnStdinCallback; hide WritesPending;
    InvParts(c, h);
    if n < |h.writes| && (ok ==> h.writes[n].handed) {
      CallbackAppends(c, h, n, ok, rooms);
      CallbackGrows(c, h, n, ok, rooms);
      var w, k := h.writes[n], OnStdinCallback(c, h, n, ok, rooms);
      OnceQuiet(h, k.(store := h.store, attachments := h.attachments, opening := h.opening), k,
                [if ok then Written(w.id) else WriteFailed(w.id)]);
    } else {
      CallbackIgnored(c, h, n, ok, rooms);
    }
  }

  lemma SubmitOnce(c: Codec, h: Host, k: Host, conn: nat, id: string, line: string)
    requires OncePerId(h) && !h.left && Submitted(c, h, k, conn, id, line) && h.replies <= k.replies && OPENING_ID in h.receipts
    ensures OncePerId(k)
  {
    SubmitGrows(c, h, k, conn, id, line);
    hide Represents; hide OncePerId; hide Appends; hide Grows;
    var base := k.(store := h.store, attachments := h.attachments, opening := h.opening);
    var bodies := if Appends(base, k, [Input(id, line)]) then [Input(id, line)] else [Input(id, line), WriteFailed(id)];
    assert [Input(id, line)][1..] == [] && [Input(id, line), WriteFailed(id)][1..] == [WriteFailed(id)];
    assert id in k.receipts.Keys;
    OnceActing(h, base, k, bodies);
  }

  lemma OnceSame(h: Host, k: Host)
    requires OncePerId(h) && k.store == h.store && k.receipts == h.receipts && k.left == h.left
    ensures OncePerId(k)
  {}

  lemma StepOnce(c: Codec, h: Host, e: Event)
    requires Good(c) && HostInv(c, h) && OncePerId(h)
    ensures OncePerId(Step(c, h, e))
  {
    hide WritesPending; hide HostInv; hide OncePerId; hide Represents; hide Good; hide OnStdinCallback; hide OnSubmit; hide Submitted;
    InvParts(c, h);
    if !h.left {
      if NeutralBodies(h, e).Some? {
        NeutralOnce(c, h, e);
      } else {
        match e
        case OpeningTurn => OnceSame(h, OnOpening(h));
        case StdinCallback(n, ok, rooms) => CallbackOnce(c, h, n, ok, rooms);
        case CommandFrom(conn, command, delivered, rooms) =>
          var k := OnSubmit(c, h, conn, command.id, command.line, rooms);
          SubmitAppends(c, h, conn, command.id, command.line, rooms);
          SubmitReplies(c, h, conn, command.id, command.line, rooms);
          if k == h.(replies := k.replies) { OnceSame(h, k); }
          else { SubmitOnce(c, h, k, conn, command.id, command.line.value); }
      }
    }
  }

  // ---- inputs are lines ----------------------------------------------------------------------

  /** Every submitted input in the journal is one line. */
  ghost predicate OneLineInputs(r: seq<Frame>) {
    forall i :: 0 <= i < |r| && r[i].body.Input? && r[i].body.id != OPENING_ID ==> Lines.OneLine(r[i].body.line)
  }

  lemma LinesAppended(base: Host, k: Host, bodies: seq<Body>)
    requires OneLineInputs(base.store.recorded) && Appends(base, k, bodies)
    requires forall i :: 0 <= i < |bodies| && bodies[i].Input? ==> Lines.OneLine(bodies[i].line)
    ensures OneLineInputs(k.store.recorded)
  {
    var n := |base.store.recorded|;
    forall i | 0 <= i < |k.store.recorded|
      ensures if i < n then k.store.recorded[i] == base.store.recorded[i] else k.store.recorded[i].body == bodies[i - n]
    {
      if i >= n { assert k.store.recorded[n + (i - n)].body == bodies[i - n]; }
    }
  }

  lemma SubmitIsOneLine(c: Codec, h: Host, conn: nat, id: string, line: Option<string>, rooms: seq<nat>)
    ensures (line.Some? && Lines.OneLine(line.value)) || OnSubmit(c, h, conn, id, line, rooms).store == h.store
  {
    hide OnRecordable;
  }

  lemma StepLinesOne(c: Codec, h: Host, e: Event)
    requires Good(c) && HostInv(c, h) && OneLineInputs(h.store.recorded)
    ensures OneLineInputs(Step(c, h, e).store.recorded)
  {
    hide HostInv; hide OneLineInputs; hide Represents; hide Good; hide OnStdinCallback; hide OnSubmit; hide Appends;
    hide NeutralBase; hide NeutralBodies; hide WritesPending;
    InvParts(c, h);
    if !h.left {
      if NeutralBodies(h, e).Some? {
        NeutralEvent(c, h, e);
        NeutralStore(h, e);
        NeutralBodiesNeutral(h, e);
        hide Step;
        LinesAppended(NeutralBase(h, e), Step(c, h, e), NeutralBodies(h, e).value);
      } else {
        OtherLinesOne(c, h, e);
      }
    }
  }

  lemma OtherLinesOne(c: Codec, h: Host, e: Event)
    requires Good(c) && Represents(c, h.store) && OneLineInputs(h.store.recorded) && !h.left && NeutralBodies(h, e).None?
    ensures OneLineInputs(Step(c, h, e).store.recorded)
  {
    hide OneLineInputs; hide Represents; hide Good; hide OnStdinCallback; hide OnSubmit; hide Appends;
    match e
    case OpeningTurn =>
    case StdinCallback(n, ok, rooms) =>
      if n < |h.writes| && (ok ==> h.writes[n].handed) {
        CallbackAppends(c, h, n, ok, rooms);
        var w, k := h.writes[n], OnStdinCallback(c, h, n, ok, rooms);
        LinesAppended(k.(store := h.store, attachments := h.attachments, opening := h.opening), k,
                      [if ok then Written(w.id) else WriteFailed(w.id)]);
      } else {
        CallbackIgnored(c, h, n, ok, rooms);
      }
    case CommandFrom(conn, command, delivered, rooms) =>
      var k := OnSubmit(c, h, conn, command.id, command.line, rooms);
      SubmitAppends(c, h, conn, command.id, command.line, rooms);
      SubmitIsOneLine(c, h, conn, command.id, command.line, rooms);
      if k.store != h.store {
        var base := k.(store := h.store, attachments := h.attachments, opening := h.opening);
        var id, line := command.id, command.line.value;
        LinesAppended(base, k, if Appends(base, k, [Input(id, line)]) then [Input(id, line)] else [Input(id, line), WriteFailed(id)]);
      }
  }

  // ---- over runs -----------------------------------------------------------------------------

  lemma {:induction false} RunActs(c: Codec, h: Host, events: seq<Event>)
    requires Good(c) && HostInv(c, h) && OncePerId(h) && OneLineInputs(h.store.recorded)
    ensures OncePerId(Run(c, h, events)) && OneLineInputs(Run(c, h, events).store.recorded)
    decreases |events|
  {
    hide HostInv; hide Good; hide OncePerId; hide OneLineInputs; hide Step;
    if events != [] {
      StepHolds(c, h, events[0]);
      StepOnce(c, h, events[0]);
      StepLinesOne(c, h, events[0]);
      RunActs(c, Step(c, h, events[0]), events[1..]);
    }
  }

  lemma StartActs(c: Codec, openingLine: string, rooms: seq<nat>)
    requires Good(c)
    ensures OncePerId(Start(c, openingLine, rooms)) && OneLineInputs(Start(c, openingLine, rooms).store.recorded)
  {
    StartOpened(c, openingLine, rooms);
    hide Start; hide Represents;
    OpenedActs(Start(c, openingLine, rooms), openingLine);
  }

  lemma OpenedActs(h: Host, openingLine: string)
    requires Opened(h, openingLine)
    ensures OncePerId(h) && OneLineInputs(h.store.recorded)
  {
    forall i | 0 <= i < |h.store.recorded|
      ensures !CommandBody(h.store.recorded[i].body) && (h.store.recorded[i].body.Input? ==> h.store.recorded[i].body.id == OPENING_ID)
    {
      assert h.store.recorded[i].body == LaunchBodies(openingLine)[i];
    }
  }

  lemma ReachableActs(c: Codec, h: Host)
    requires Good(c) && Reachable(c, h)
    ensures OncePerId(h) && OneLineInputs(h.store.recorded)
  {
    ReachableExactly(c, h);
    var openingLine, rooms, events :| h == Run(c, Start(c, openingLine, rooms), events);
    hide Start; hide Run; hide OncePerId; hide OneLineInputs; hide HostInv; hide Reachable;
    StartHolds(c, openingLine, rooms);
    StartActs(c, openingLine, rooms);
    RunActs(c, Start(c, openingLine, rooms), events);
  }

  /** Over every run an id has at most one command's frame in the journal, whichever commands it was sent
      with: one input, close, signal or release, and never two of them. */
  lemma OneFramePerId(c: Codec, h: Host, i: nat, j: nat)
    requires Good(c) && Reachable(c, h) && i < j < |h.store.recorded|
    requires CommandBody(h.store.recorded[i].body) && CommandBody(h.store.recorded[j].body)
    ensures h.store.recorded[i].body.id != h.store.recorded[j].body.id
  {
    hide Reachable; hide Good;
    ReachableActs(c, h);
  }

  function TextOf(stdin: seq<StdinLine>): seq<string> {
    seq(|stdin|, i requires 0 <= i < |stdin| => stdin[i].line)
  }

  /** What the provider reads from stdin, cut at newlines, is exactly the lines handed over: none is cut
      in two and none runs into the next. */
  lemma StdinReadsBack(c: Codec, h: Host)
    requires Good(c) && Reachable(c, h)
    requires forall l :: l in h.stdin && l.id == OPENING_ID ==> Lines.OneLine(l.line)
    ensures Lines.Split(Lines.Unlines(TextOf(h.stdin))) == Lines.Cut(TextOf(h.stdin), "")
  {
    ReachableActs(c, h);
    assert LinesInv(h) by { hide LinesInv; ReachableHolds(c, h); }
    hide Reachable; hide Good;
    forall m | 0 <= m < |h.stdin| ensures Lines.OneLine(TextOf(h.stdin)[m]) {
      var l := h.stdin[m];
      assert Backed(h, l) && l in h.stdin;
      if l.id != OPENING_ID { assert h.store.recorded[l.seqNo - 1].body == Input(l.id, l.line); }
    }
    Lines.SplitUnique(TextOf(h.stdin), "");
    assert Lines.Unlines(TextOf(h.stdin)) + "" == Lines.Unlines(TextOf(h.stdin));
  }

  // ---- output and exit -----------------------------------------------------------------------

  /** What the provider wrote, in these events. */
  function Chunks(events: seq<Event>): string {
    if events == [] then "" else (if events[0].StdoutData? then events[0].chunk else "") + Chunks(events[1..])
  }

  lemma NeutralHeard(c: Codec, h: Host, e: Event)
    requires Good(c) && Represents(c, h.store) && !h.left && NeutralBodies(h, e).Some?
    ensures var k := Step(c, h, e);
      && k.heard == h.heard + (if e.StdoutData? && h.exit == None then e.chunk else "")
      && k.exit == if e.ProviderExit? && h.exit == None then Some(e.code) else h.exit
  {
    NeutralEvent(c, h, e);
    AppendsFields(NeutralBase(h, e), Step(c, h, e), NeutralBodies(h, e).value);
    if !e.StdoutData? && !e.ProviderExit? {
      QuietBase(h, e);
      hide NeutralBase;
    }
    hide Step; hide NeutralBodies; hide Represents; hide Good; hide Appends; hide Lines.Split;
    assert h.heard + "" == h.heard;
  }

  lemma StepHeard(c: Codec, h: Host, e: Event)
    requires Good(c) && HostInv(c, h) && !h.left
    ensures var k := Step(c, h, e);
      && k.heard == h.heard + (if e.StdoutData? && h.exit == None then e.chunk else "")
      && k.exit == if e.ProviderExit? && h.exit == None then Some(e.code) else h.exit
  {
    hide HostInv; hide Represents; hide Good; hide OnStdinCallback; hide OnSubmit; hide WritesPending; hide NeutralBodies;
    InvParts(c, h);
    assert h.heard + "" == h.heard;
    if NeutralBodies(h, e).Some? {
      hide Step;
      NeutralHeard(c, h, e);
    } else {
      OtherHeard(c, h, e);
    }
  }

  lemma OtherHeard(c: Codec, h: Host, e: Event)
    requires Good(c) && Represents(c, h.store) && !h.left && NeutralBodies(h, e).None?
    ensures Step(c, h, e).heard == h.heard && Step(c, h, e).exit == h.exit && !e.StdoutData? && !e.ProviderExit?
  {
    hide Represents; hide Good; hide OnStdinCallback; hide OnSubmit; hide Appends;
    match e
    case OpeningTurn =>
    case StdinCallback(n, ok, rooms) =>
      if n < |h.writes| && (ok ==> h.writes[n].handed) { CallbackAppends(c, h, n, ok, rooms); }
      else { CallbackIgnored(c, h, n, ok, rooms); }
    case CommandFrom(conn, command, delivered, rooms) => SubmitAppends(c, h, conn, command.id, command.line, rooms);
  }

  lemma {:induction false} RunHeard(c: Codec, h: Host, events: seq<Event>)
    requires Good(c) && HostInv(c, h) && h.exit == None && !Run(c, h, events).left
    requires forall e :: e in events ==> !e.ProviderExit?
    ensures Run(c, h, events).exit == None && Run(c, h, events).heard == h.heard + Chunks(events)
    decreases |events|
  {
    hide HostInv; hide Good; hide Step;
    if events == [] {
      assert h.heard + "" == h.heard;
    } else {
      var e, k := events[0], Step(c, h, events[0]);
      if h.left { HostAttach.LeftForever(c, h, events); }
      StepHolds(c, h, e);
      StepHeard(c, h, e);
      RunHeard(c, k, events[1..]);
      assert (h.heard + (if e.StdoutData? then e.chunk else "")) + Chunks(events[1..])
          == h.heard + ((if e.StdoutData? then e.chunk else "") + Chunks(events[1..]));
    }
  }

  lemma {:induction false} RunAfterExit(c: Codec, h: Host, events: seq<Event>)
    requires Good(c) && HostInv(c, h) && h.exit != None
    ensures Run(c, h, events).exit == h.exit && Run(c, h, events).heard == h.heard
    decreases |events|
  {
    hide HostInv; hide Good; hide Step;
    if events != [] {
      StepHolds(c, h, events[0]);
      if h.left { HostAttach.LeftStays(c, h, events[0]); } else { StepHeard(c, h, events[0]); }
      assert h.heard + "" == h.heard;
      RunAfterExit(c, Step(c, h, events[0]), events[1..]);
    }
  }

  lemma OutputBefore(c: Codec, openingLine: string, rooms: seq<nat>, before: seq<Event>)
    requires Good(c) && !Run(c, Start(c, openingLine, rooms), before).left
    requires forall e :: e in before ==> !e.ProviderExit?
    ensures var m := Run(c, Start(c, openingLine, rooms), before);
      HostInv(c, m) && m.exit == None && m.heard == Chunks(before)
  {
    StartHolds(c, openingLine, rooms);
    StartOpened(c, openingLine, rooms);
    hide Start; hide Good; hide Represents; hide Run; hide HostInv; hide Chunks;
    var h := Start(c, openingLine, rooms);
    RunHeard(c, h, before);
    RunHolds(c, h, before);
    assert "" + Chunks(before) == Chunks(before);
  }

  lemma OutputAfter(c: Codec, h: Host, code: int, abandoned: bool, rooms: seq<nat>, after: seq<Event>)
    requires Good(c) && HostInv(c, h) && h.exit == None && !h.left
    ensures var k := Run(c, h, [ProviderExit(code, abandoned, rooms)] + after);
      HostInv(c, k) && k.exit == Some(code) && k.heard == h.heard
  {
    hide Good; hide Run; hide HostInv; hide Step;
    var e := ProviderExit(code, abandoned, rooms);
    var k := Step(c, h, e);
    StepHolds(c, h, e);
    StepHeard(c, h, e);
    RunAfterExit(c, k, after);
    RunHolds(c, k, after);
    HostAnswers.RunAfter(c, h, e, after);
    assert h.heard + "" == h.heard;
  }

  /** The output of a run: every complete line the provider wrote up to its exit, in whatever chunks it
      came, and at the exit the unfinished last one; and the exit that counts is the first. */
  lemma RunOutput(c: Codec, openingLine: string, rooms: seq<nat>, before: seq<Event>, code: int, abandoned: bool,
                  exitRooms: seq<nat>, after: seq<Event>)
    requires Good(c) && !Run(c, Start(c, openingLine, rooms), before).left
    requires forall e :: e in before ==> !e.ProviderExit?
    ensures var m, cut := Run(c, Start(c, openingLine, rooms), before), Lines.Split(Chunks(before));
      var k := Run(c, m, [ProviderExit(code, abandoned, exitRooms)] + after);
      && m.exit == None && OutputLines(BodiesOf(m.store.recorded)) == cut.lines
      && k.exit == Some(code)
      && OutputLines(BodiesOf(k.store.recorded)) == cut.lines + if cut.rest == "" then [] else [cut.rest]
  {
    hide Start; hide Good; hide Run; hide HostInv; hide Lines.Split; hide OutputLines; hide Chunks;
    var m := Run(c, Start(c, openingLine, rooms), before);
    OutputBefore(c, openingLine, rooms, before);
    OutputAfter(c, m, code, abandoned, exitRooms, after);
    InvOutput(c, m);
    InvOutput(c, Run(c, m, [ProviderExit(code, abandoned, exitRooms)] + after));
  }

  lemma InvOutput(c: Codec, h: Host)
    requires HostInv(c, h)
    ensures OutputInv(h)
  {}

  // ---- the opening input ---------------------------------------------------------------------

  ghost predicate Waits(h: Host) {
    h.opening == WaitingForDisk ==> h.store.unwritten != []
  }

  lemma FlushWaits(c: Codec, h: Host, room: nat)
    ensures Waits(FlushHost(c, h, room))
  {
    hide Flush;
  }

  lemma AppendWaits(c: Codec, h: Host, body: Body, room: nat, k: Host)
    requires k.store == AppendFrame(c, h, body, room).store && k.opening == AppendFrame(c, h, body, room).opening
    ensures Waits(k)
  {
    FlushWaits(c, h.(store := Record(h.store, body)), room);
    hide FlushHost;
  }

  lemma {:induction false} OutputsWait(c: Codec, h: Host, lines: seq<string>, rooms: seq<nat>)
    requires Waits(h)
    ensures Waits(AppendOutputs(c, h, lines, rooms))
    decreases |lines|
  {
    hide AppendFrame; hide Waits;
    if lines != [] {
      var k := AppendFrame(c, h, Output(lines[0]), Room(rooms, 0));
      AppendWaits(c, h, Output(lines[0]), Room(rooms, 0), k);
      OutputsWait(c, k, lines[1..], if rooms == [] then [] else rooms[1..]);
    }
  }

  lemma SubmitWaits(c: Codec, h: Host, conn: nat, id: string, line: Option<string>, rooms: seq<nat>)
    requires Waits(h)
    ensures Waits(OnSubmit(c, h, conn, id, line, rooms))
  {
    hide AppendFrame;
    var k := OnSubmit(c, h, conn, id, line, rooms);
    if line != None && '\n' !in line.value && h.store.unwritten == [] {
      var recorded := AppendFrame(c, h, Input(id, line.value), Room(rooms, 0));
      var authored := recorded.(authors := h.authors + [Author(recorded.store.sequence, Current(h), conn)]);
      hide Waits;
      if recorded.store.unwritten != [] { AppendWaits(c, authored, WriteFailed(id), Room(rooms, 1), k); }
      else { AppendWaits(c, h, Input(id, line.value), Room(rooms, 0), k); }
    }
  }

  lemma ReleaseWaits(c: Codec, h: Host, conn: nat, id: string, rooms: seq<nat>)
    requires Waits(h)
    ensures Waits(OnRelease(c, h, conn, id, rooms))
  {
    hide AppendFrame;
    if h.exit != None && h.store.unwritten == [] {
      hide Waits;
      var noted := AddReply(AppendFrame(c, h, Journal.Released(id), Room(rooms, 0)), conn, ReleasedReply(id))
                   .(released := true, authors := By(h, conn));
      AppendWaits(c, noted, HostExit, Room(rooms, 1), OnRelease(c, h, conn, id, rooms));
    }
  }

  lemma SameWaits(h: Host, k: Host)
    requires Waits(h) && k.store == h.store && k.opening == h.opening
    ensures Waits(k)
  {}

  lemma CloseWaits(c: Codec, h: Host, conn: nat, id: string, rooms: seq<nat>)
    ensures Waits(OnClose(c, h, conn, id, rooms))
  {
    hide AppendFrame; hide Waits;
    AppendWaits(c, h, InputClosed(id), Room(rooms, 0), OnClose(c, h, conn, id, rooms));
  }

  lemma SignalWaits(c: Codec, h: Host, conn: nat, id: string, signal: Option<ProcessSignal>, delivered: bool, rooms: seq<nat>)
    requires Waits(h)
    ensures Waits(OnSignal(c, h, conn, id, signal, delivered, rooms))
  {
    hide AppendFrame; hide Waits;
    var k := OnSignal(c, h, conn, id, signal, delivered, rooms);
    if signal == None { SameWaits(h, k); } else { AppendWaits(c, h, Signalled(id, signal.value), Room(rooms, 0), k); }
  }

  lemma QuietCommandWaits(c: Codec, h: Host, conn: nat, command: Command, delivered: bool, rooms: seq<nat>)
    requires Waits(h) && QuietCommand(h, conn, command)
    ensures Waits(OnCommand(c, h, conn, command, delivered, rooms))
  {
    hide OnSubmit; hide OnClose; hide OnSignal; hide OnRelease; hide Waits;
    SameWaits(h, OnCommand(c, h, conn, command, delivered, rooms));
  }

  lemma CommandWaits(c: Codec, h: Host, conn: nat, command: Command, delivered: bool, rooms: seq<nat>)
    requires Waits(h)
    ensures Waits(OnCommand(c, h, conn, command, delivered, rooms))
  {
    hide Waits; hide OnSubmit; hide OnClose; hide OnSignal; hide OnRelease; hide OnAttach;
    var id, k := CommandId(command), OnCommand(c, h, conn, command, delivered, rooms);
    if QuietCommand(h, conn, command) {
      QuietCommandWaits(c, h, conn, command, delivered, rooms);
    } else {
      match command
      case Submit(_, line) => SubmitWaits(c, h, conn, id, line, rooms);
      case CloseInput(_) => CloseWaits(c, h, conn, id, rooms);
      case SendSignal(_, signal) => SignalWaits(c, h, conn, id, signal, delivered, rooms);
      case Release(_) => ReleaseWaits(c, h, conn, id, rooms);
      case _ => SameWaits(h, k);
    }
  }

  lemma ExitWaits(c: Codec, h: Host, code: int, abandoned: bool, rooms: seq<nat>)
    requires Waits(h)
    ensures Waits(OnExit(c, h, code, abandoned, rooms))
  {
    hide AppendFrame; hide Waits;
    if h.exit == None {
      var noted := if abandoned then AppendFrame(c, h, OutputAbandoned, Room(rooms, 2)) else h;
      HostPipes.AppendPipes(c, h, OutputAbandoned, Room(rooms, 2));
      AppendWaits(c, FlushRest(c, noted, Room(rooms, 0)).(exit := Some(code)), Exited(code), Room(rooms, 1),
                  OnExit(c, h, code, abandoned, rooms));
    }
  }

  lemma StepWaits(c: Codec, h: Host, e: Event)
    requires Waits(h)
    ensures Waits(Step(c, h, e))
  {
    hide AppendFrame; hide FlushHost; hide AppendOutputs; hide OnExit; hide OnCommand; hide Lines.Split; hide Waits;
    hide ReplayOne; hide FinishReplay; hide ReplayFrames;
    var k := Step(c, h, e);
    if h.left {
      SameWaits(h, k);
    } else {
      match e
      case DiskRetry(room) => FlushWaits(c, h, room);
      case StdoutData(chunk, rooms) =>
        var cut := Lines.Split(h.stdoutRest + chunk);
        var taken := h.(stdoutRest := cut.rest, heard := h.heard + chunk);
        SameWaits(h, taken);
        OutputsWait(c, taken, cut.lines, rooms);
      case StderrData(chunk, rooms) => AppendWaits(c, h, ErrorText(chunk), Room(rooms, 0), k);
      case ProviderFact(text, gone, rooms) =>
        AppendWaits(c, h.(stdinOpen := h.stdinOpen && !gone), Note(text), Room(rooms, 0), k);
      case ProviderExit(code, abandoned, rooms) => ExitWaits(c, h, code, abandoned, rooms);
      case StdinCallback(n, ok, rooms) =>
        if n < |h.writes| && (ok ==> h.writes[n].handed) {
          AppendWaits(c, h, if ok then Written(h.writes[n].id) else WriteFailed(h.writes[n].id), Room(rooms, 0), k);
        } else {
          SameWaits(h, k);
        }
      case CommandFrom(conn, command, delivered, rooms) => CommandWaits(c, h, conn, command, delivered, rooms);
      case Leave(rooms) => AppendWaits(c, h, HostExit, Room(rooms, 0), k);
      case OpeningTurn => OpeningWaits(h);
      case _ => SameWaits(h, k);
    }
  }

  lemma OpeningWaits(h: Host)
    requires Waits(h)
    ensures Waits(OnOpening(h))
  {}

  ghost predicate Outstanding(h: Host) {
    exists n :: 0 <= n < |h.writes| && h.writes[n].id == OPENING_ID
  }

  /** The opening input waits for the disk only while a frame does, and once handed over its write is
      outstanding or settled. */
  ghost predicate OpeningFollows(h: Host) {
    && h.opening != Unrecorded && Waits(h) && OPENING_ID in h.receipts
    && (h.opening == Handed && h.receipts[OPENING_ID].Pending? ==> Outstanding(h))
  }

  /** What every event but its own turn does to the opening input. */
  ghost predicate OpeningKept(h: Host, k: Host) {
    && (k.opening == h.opening || (h.opening == WaitingForDisk && k.opening == Ready))
    && (Outstanding(h) && OPENING_ID in k.receipts && k.receipts[OPENING_ID].Pending? ==> Outstanding(k))
  }

  lemma SubmitWrites(c: Codec, h: Host, conn: nat, id: string, line: Option<string>, rooms: seq<nat>)
    ensures h.writes <= OnSubmit(c, h, conn, id, line, rooms).writes
  {
    if line != None {
      var recorded := AppendFrame(c, h, Input(id, line.value), Room(rooms, 0));
      HostAnswers.AppendOnly(c, h, Input(id, line.value), Room(rooms, 0));
      var authored := recorded.(authors := h.authors + [Author(recorded.store.sequence, Current(h), conn)]);
      HostAnswers.AppendOnly(c, authored, WriteFailed(id), Room(rooms, 1));
    }
    hide AppendFrame;
  }

  lemma CallbackKept(c: Codec, h: Host, n: nat, ok: bool, rooms: seq<nat>)
    requires Good(c) && Represents(c, h.store)
    ensures OpeningKept(h, OnStdinCallback(c, h, n, ok, rooms))
  {
    hide Represents; hide Good; hide OnStdinCallback;
    if n < |h.writes| && (ok ==> h.writes[n].handed) {
      CallbackAppends(c, h, n, ok, rooms);
      CallbackRemoves(c, h, n, ok, rooms);
      var k := OnStdinCallback(c, h, n, ok, rooms);
      if Outstanding(h) && h.writes[n].id != OPENING_ID {
        var m :| 0 <= m < |h.writes| && h.writes[m].id == OPENING_ID;
        assert k.writes[if m < n then m else m - 1].id == OPENING_ID;
      }
    } else {
      CallbackIgnored(c, h, n, ok, rooms);
    }
  }

  lemma CallbackRemoves(c: Codec, h: Host, n: nat, ok: bool, rooms: seq<nat>)
    requires n < |h.writes| && (ok ==> h.writes[n].handed)
    ensures OnStdinCallback(c, h, n, ok, rooms).writes == h.writes[..n] + h.writes[n + 1..]
  {
    hide AppendFrame;
  }

  lemma NeutralKept(c: Codec, h: Host, e: Event)
    requires Good(c) && Represents(c, h.store) && !h.left && NeutralBodies(h, e).Some?
    ensures OpeningKept(h, Step(c, h, e))
  {
    NeutralEvent(c, h, e);
    NeutralBaseUntouched(h, e);
    AppendsFields(NeutralBase(h, e), Step(c, h, e), NeutralBodies(h, e).value);
    hide Step; hide NeutralBase; hide NeutralBodies; hide Represents; hide Good;
  }

  lemma StepKept(c: Codec, h: Host, e: Event)
    requires Good(c) && Represents(c, h.store) && !e.OpeningTurn?
    ensures OpeningKept(h, Step(c, h, e))
  {
    hide Represents; hide Good; hide OnStdinCallback; hide OnSubmit; hide OpeningKept;
    if h.left {
      SelfKept(h);
    } else if NeutralBodies(h, e).Some? {
      NeutralKept(c, h, e);
    } else {
      match e
      case StdinCallback(n, ok, rooms) => CallbackKept(c, h, n, ok, rooms);
      case CommandFrom(conn, command, delivered, rooms) =>
        SubmitAppends(c, h, conn, command.id, command.line, rooms);
        SubmitWrites(c, h, conn, command.id, command.line, rooms);
        SubmitKept(c, h, OnSubmit(c, h, conn, command.id, command.line, rooms), conn, command.id, command.line);
    }
  }

  lemma SelfKept(h: Host)
    ensures OpeningKept(h, h)
  {}

  lemma SubmitKept(c: Codec, h: Host, k: Host, conn: nat, id: string, line: Option<string>)
    requires h.writes <= k.writes && (k == h.(replies := k.replies) || (line.Some? && Submitted(c, h, k, conn, id, line.value)))
    ensures OpeningKept(h, k)
  {
    hide Represents;
    if Outstanding(h) {
      var m :| 0 <= m < |h.writes| && h.writes[m].id == OPENING_ID;
      assert k.writes[m].id == OPENING_ID;
    }
  }

  lemma OpeningTurnFollows(h: Host)
    requires OpeningFollows(h)
    ensures OpeningFollows(OnOpening(h))
  {
    OpeningWaits(h);
    if h.opening == Ready { assert OnOpening(h).writes[|h.writes|].id == OPENING_ID; }
  }

  lemma StepFollows(c: Codec, h: Host, e: Event)
    requires Good(c) && HostInv(c, h) && OpeningFollows(h)
    ensures OpeningFollows(Step(c, h, e))
  {
    hide HostInv; hide Represents; hide Good; hide WritesPending; hide Waits; hide Outstanding; hide OnOpening;
    InvParts(c, h);
    StepWaits(c, h, e);
    StepHolds(c, h, e);
    if e.OpeningTurn? {
      if !h.left { OpeningTurnFollows(h); }
    } else {
      hide Step;
      StepKept(c, h, e);
    }
  }

  lemma {:induction false} RunFollows(c: Codec, h: Host, events: seq<Event>)
    requires Good(c) && HostInv(c, h) && OpeningFollows(h)
    ensures OpeningFollows(Run(c, h, events))
    decreases |events|
  {
    hide HostInv; hide Good; hide OpeningFollows; hide Step;
    if events != [] {
      StepHolds(c, h, events[0]);
      StepFollows(c, h, events[0]);
      RunFollows(c, Step(c, h, events[0]), events[1..]);
    }
  }

  lemma StartFollows(c: Codec, openingLine: string, rooms: seq<nat>)
    requires Good(c)
    ensures OpeningFollows(Start(c, openingLine, rooms))
  {
    hide Launched;
  }

  lemma ReachableFollows(c: Codec, h: Host)
    requires Good(c) && Reachable(c, h)
    ensures OpeningFollows(h)
  {
    ReachableExactly(c, h);
    var openingLine, rooms, events :| h == Run(c, Start(c, openingLine, rooms), events);
    hide Start; hide Run; hide HostInv; hide Reachable; hide Good; hide OpeningFollows;
    StartHolds(c, openingLine, rooms);
    StartFollows(c, openingLine, rooms);
    RunFollows(c, Start(c, openingLine, rooms), events);
  }

  /** The opening input is never forgotten: whatever happened before, once nothing waits for the disk and
      its write is neither settled nor outstanding, its next turn hands it to stdin, if that is open, with
      the write that will settle it. */
  lemma OpeningGoesOut(c: Codec, h: Host)
    requires Good(c) && Reachable(c, h) && !h.left && h.store.unwritten == []
    requires OPENING_ID in h.receipts && h.receipts[OPENING_ID].Pending?
    requires forall w :: w in h.writes ==> w.id != OPENING_ID
    ensures var k, n := Step(c, h, OpeningTurn), h.receipts[OPENING_ID].seqNo;
      && k.stdin == (if h.stdinOpen then h.stdin + [StdinLine(OPENING_ID, h.openingLine, n)] else h.stdin)
      && k.writes == h.writes + [Write(OPENING_ID, n, None, h.stdinOpen)]
  {
    hide Reachable; hide Good;
    ReachableFollows(c, h);
    assert !Outstanding(h) by {
      forall n | 0 <= n < |h.writes| ensures h.writes[n].id != OPENING_ID { assert h.writes[n] in h.writes; }
    }
  }
}
