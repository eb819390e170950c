/** Who is attached after any run, and what an attach brings its connection: the frames from the one its
    command asked for, all of them once enough turns of its replay have run, and nothing once another
    connection has fenced it. */
module HostAttach {
  import opened Wrappers
  import opened Journal
  import opened HostState
  import opened HostReplay
  import opened HostRuns
  import opened HostTheorems
  import HostPipes
  import Lines

  /** An attach command of this connection that the host accepts. */
  predicate Takes(e: Event, conn: nat) {
    e.CommandFrom? && e.conn == conn && e.command.Attach? && e.command.protocol == PROTOCOL
  }

  /** What makes an attached connection lose the host: its own close, or another's attach. */
  predicate Loses(e: Event, conn: nat) {
    e == Disconnect(conn) || (e.CommandFrom? && e.conn != conn && Takes(e, e.conn))
  }

  // ---- the listeners over one segment --------------------------------------------------------

  /** The same listeners, each with at most more to send, and only the attached connection's. */
  ghost predicate SameListeners(h: Host, k: Host) {
    && k.attached == h.attached && |k.attachments| == |h.attachments|
    && forall i :: 0 <= i < |h.attachments| ==>
         var a, b := h.attachments[i], k.attachments[i];
         b == a.(pending := b.pending, out := b.out) && (h.attached != Some(a.conn) ==> b == a)
  }

  lemma SameListenersChain(h: Host, k: Host, m: Host)
    requires SameListeners(h, k) && SameListeners(k, m)
    ensures SameListeners(h, m)
  {
    forall i | 0 <= i < |h.attachments|
      ensures var a, b := h.attachments[i], m.attachments[i];
        b == a.(pending := b.pending, out := b.out) && (h.attached != Some(a.conn) ==> b == a)
    {
      var b := k.attachments[i];
      assert b == h.attachments[i].(pending := b.pending, out := b.out);
    }
  }

  lemma SameFields(h: Host, k: Host)
    requires k.attachments == h.attachments && k.attached == h.attached
    ensures SameListeners(h, k)
  {}

  lemma FlushListeners(c: Codec, h: Host, room: nat)
    ensures SameListeners(h, FlushHost(c, h, room))
  {
    var frames := Persisted(h.store, Flush(c, h.store, room));
    forall i | 0 <= i < |h.attachments|
      ensures var a, b := h.attachments[i], DeliverAll(h.attached, h.attachments[i], frames);
        b == a.(pending := b.pending, out := b.out) && (h.attached != Some(a.conn) ==> b == a)
    {
      DeliverAllKeeps(h.attached, h.attachments[i], frames);
      if h.attached != Some(h.attachments[i].conn) { DeliverAllElsewhere(h.attached, h.attachments[i], frames); }
    }
    hide Flush; hide Persisted; hide DeliverAll;
  }

  lemma AppendListeners(c: Codec, h: Host, body: Body, room: nat)
    ensures SameListeners(h, AppendFrame(c, h, body, room))
  {
    hide SameListeners; hide FlushHost;
    var k := h.(store := Record(h.store, body));
    SameFields(h, k);
    FlushListeners(c, k, room);
    SameListenersChain(h, k, AppendFrame(c, h, body, room));
  }

  /** One appended frame between two changes of other fields. */
  lemma AppendBetween(c: Codec, h: Host, before: Host, body: Body, room: nat, k: Host)
    requires before.attachments == h.attachments && before.attached == h.attached
    requires var after := AppendFrame(c, before, body, room);
      k.attachments == after.attachments && k.attached == after.attached
    ensures SameListeners(h, k)
  {
    hide SameListeners; hide AppendFrame;
    var after := AppendFrame(c, before, body, room);
    SameFields(h, before);
    AppendListeners(c, before, body, room);
    SameFields(after, k);
    SameListenersChain(h, before, after);
    SameListenersChain(h, after, k);
  }

  lemma {:induction false} OutputsListeners(c: Codec, h: Host, lines: seq<string>, rooms: seq<nat>)
    ensures SameListeners(h, AppendOutputs(c, h, lines, rooms))
    decreases |lines|
  {
    hide AppendFrame; hide SameListeners;
    if lines == [] {
      SameFields(h, h);
    } else {
      var k := AppendFrame(c, h, Output(lines[0]), Room(rooms, 0));
      AppendListeners(c, h, Output(lines[0]), Room(rooms, 0));
      OutputsListeners(c, k, lines[1..], if rooms == [] then [] else rooms[1..]);
      SameListenersChain(h, k, AppendOutputs(c, h, lines, rooms));
    }
  }

  lemma ExitListeners(c: Codec, h: Host, code: int, abandoned: bool, rooms: seq<nat>)
    ensures SameListeners(h, OnExit(c, h, code, abandoned, rooms))
  {
    hide AppendFrame; hide SameListeners;
    SameFields(h, h);
    if h.exit == None {
      var noted := if abandoned then AppendFrame(c, h, OutputAbandoned, Room(rooms, 2)) else h;
      HostPipes.AppendPipes(c, h, OutputAbandoned, Room(rooms, 2));
      if abandoned { AppendListeners(c, h, OutputAbandoned, Room(rooms, 2)); }
      var flushed := FlushRest(c, noted, Room(rooms, 0));
      if noted.stdoutRest != "" { AppendBetween(c, noted, noted, Output(noted.stdoutRest), Room(rooms, 0), flushed); }
      else { SameFields(noted, flushed); }
      AppendBetween(c, flushed, flushed.(exit := Some(code)), Exited(code), Room(rooms, 1), RecordExit(c, noted, code, rooms));
      SameListenersChain(h, noted, flushed);
      SameListenersChain(h, flushed, OnExit(c, h, code, abandoned, rooms));
    }
  }

  lemma CallbackListeners(c: Codec, h: Host, n: nat, ok: bool, rooms: seq<nat>)
    ensures SameListeners(h, OnStdinCallback(c, h, n, ok, rooms))
  {
    hide AppendFrame; hide SameListeners;
    SameFields(h, h);
    if n < |h.writes| && (ok ==> h.writes[n].handed) {
      AppendBetween(c, h, h, if ok then Written(h.writes[n].id) else WriteFailed(h.writes[n].id), Room(rooms, 0),
                    OnStdinCallback(c, h, n, ok, rooms));
    }
  }

  lemma SubmitListeners(c: Codec, h: Host, conn: nat, id: string, line: Option<string>, rooms: seq<nat>)
    ensures SameListeners(h, OnSubmit(c, h, conn, id, line, rooms))
  {
    hide AppendFrame; hide SameListeners;
    var k := OnSubmit(c, h, conn, id, line, rooms);
    if line == None || '\n' in line.value || h.store.unwritten != [] {
      SameFields(h, k);
    } else {
      var recorded := AppendFrame(c, h, Input(id, line.value), Room(rooms, 0));
      AppendListeners(c, h, Input(id, line.value), Room(rooms, 0));
      var authored := recorded.(authors := h.authors + [Author(recorded.store.sequence, Current(h), conn)]);
      if recorded.store.unwritten != [] {
        AppendBetween(c, recorded, authored, WriteFailed(id), Room(rooms, 1), k);
      } else {
        SameFields(recorded, k);
      }
      SameListenersChain(h, recorded, k);
    }
  }

  lemma ReleaseListeners(c: Codec, h: Host, conn: nat, id: string, rooms: seq<nat>)
    ensures SameListeners(h, OnRelease(c, h, conn, id, rooms))
  {
    hide AppendFrame; hide SameListeners;
    var k := OnRelease(c, h, conn, id, rooms);
    if h.exit == None || h.store.unwritten != [] {
      SameFields(h, k);
    } else {
      var noted := AddReply(AppendFrame(c, h, Journal.Released(id), Room(rooms, 0)), conn, ReleasedReply(id))
                   .(released := true, authors := By(h, conn));
      AppendBetween(c, h, h, Journal.Released(id), Room(rooms, 0), noted);
      AppendBetween(c, noted, noted, HostExit, Room(rooms, 1), k);
      SameListenersChain(h, noted, k);
    }
  }

  lemma ActingListeners(c: Codec, h: Host, conn: nat, command: Command, delivered: bool, rooms: seq<nat>)
    requires !command.Attach?
    ensures SameListeners(h, OnCommand(c, h, conn, command, delivered, rooms))
  {
    hide AppendFrame; hide SameListeners; hide OnSubmit; hide OnRelease;
    var id, k := CommandId(command), OnCommand(c, h, conn, command, delivered, rooms);
    if command.Status? || h.attached != Some(conn) || id == "" || id in h.receipts {
      SameFields(h, k);
    } else {
      match command
      case Submit(_, line) => SubmitListeners(c, h, conn, id, line, rooms);
      case CloseInput(_) => AppendBetween(c, h, h, InputClosed(id), Room(rooms, 0), k);
      case SendSignal(_, signal) =>
        if signal == None { SameFields(h, k); }
        else { AppendBetween(c, h, h, Signalled(id, signal.value), Room(rooms, 0), k); }
      case Release(_) => ReleaseListeners(c, h, conn, id, rooms);
      case _ => SameFields(h, k);
    }
  }

  /** The events that change who listens, or move a replay. */
  predicate Listening(e: Event) {
    e.ReplayTurn? || e.ReplayReadError? || e.Disconnect? || (e.CommandFrom? && Takes(e, e.conn))
  }

  /** Every other event leaves the listeners as they are. */
  lemma StepListeners(c: Codec, h: Host, e: Event)
    requires !Listening(e)
    ensures SameListeners(h, Step(c, h, e))
  {
    hide AppendFrame; hide FlushHost; hide AppendOutputs; hide OnExit; hide OnStdinCallback; hide OnCommand; hide Lines.Split;
    hide SameListeners;
    var k := Step(c, h, e);
    if h.left {
      SameFields(h, h);
    } else {
      match e
      case DiskRetry(room) => FlushListeners(c, h, room);
      case StdoutData(chunk, rooms) =>
        var cut := Lines.Split(h.stdoutRest + chunk);
        var taken := h.(stdoutRest := cut.rest, heard := h.heard + chunk);
        SameFields(h, if h.exit != None then h else taken);
        OutputsListeners(c, taken, cut.lines, rooms);
        if h.exit == None { SameListenersChain(h, taken, k); }
      case StderrData(chunk, rooms) => AppendListeners(c, h, ErrorText(chunk), Room(rooms, 0));
      case ProviderFact(text, gone, rooms) =>
        AppendBetween(c, h, h.(stdinOpen := h.stdinOpen && !gone), Note(text), Room(rooms, 0), k);
      case ProviderExit(code, abandoned, rooms) => ExitListeners(c, h, code, abandoned, rooms);
      case StdinCallback(n, ok, rooms) => CallbackListeners(c, h, n, ok, rooms);
      case CommandFrom(conn, command, delivered, rooms) =>
        if command.Attach? { RefusedAttach(c, h, conn, command, delivered, rooms); SameFields(h, k); }
        else { ActingListeners(c, h, conn, command, delivered, rooms); }
      case Leave(rooms) => AppendBetween(c, h, h, HostExit, Room(rooms, 0), k);
      case _ => SameFields(h, k);
    }
  }

  lemma RefusedAttach(c: Codec, h: Host, conn: nat, command: Command, delivered: bool, rooms: seq<nat>)
    requires command.Attach? && command.protocol != PROTOCOL
    ensures OnCommand(c, h, conn, command, delivered, rooms) == AddReply(h, conn, RefusedReply(WrongProtocol))
  {}

  // ---- who is attached -----------------------------------------------------------------------

  /** An accepted attach tells the connection it fences, and no other, and answers its own with the
      durable boundary; beyond that it changes only who is attached and the listeners. */
  lemma AttachAnswers(c: Codec, h: Host, conn: nat, from: int, delivered: bool, rooms: seq<nat>)
    requires !h.left
    ensures var k := Step(c, h, CommandFrom(conn, Attach(PROTOCOL, from), delivered, rooms));
      && k == h.(attached := Some(conn), attachments := k.attachments, replies := k.replies)
      && exists fenced :: k.replies == h.replies + fenced + [(conn, AttachedReply(h.store.persisted))]
           && if h.attached.Some? && h.attached != Some(conn) then fenced == [(h.attached.value, Fenced)] else fenced == []
  {
    var fenced := if h.attached.Some? && h.attached != Some(conn) then [(h.attached.value, Fenced)] else [];
    assert h.replies + [] == h.replies;
    assert OnAttach(h, conn, PROTOCOL, from).replies == h.replies + fenced + [(conn, AttachedReply(h.store.persisted))];
  }

  /** One event: an accepted attach takes the host, a loss ends it, and nothing else touches it. */
  lemma StepAttached(c: Codec, h: Host, e: Event, conn: nat)
    requires !h.left
    ensures var k := Step(c, h, e);
      && (Takes(e, conn) ==> k.attached == Some(conn))
      && (Loses(e, conn) ==> k.attached != Some(conn))
      && (!Takes(e, conn) && !Loses(e, conn) ==> (k.attached == Some(conn) <==> h.attached == Some(conn)))
  {
    if !Listening(e) {
      StepListeners(c, h, e);
      hide Step;
    } else {
      hide ReplayOne; hide FinishReplay; hide ReplayFrames;
    }
  }

  /** After any run a connection is attached exactly when it attached at some point, or was attached at
      the start, and neither closed nor was fenced by another's attach since. So the close of a fenced
      connection changes nothing for the one that fenced it. */
  lemma {:induction false} AttachedExactly(c: Codec, h: Host, events: seq<Event>, conn: nat)
    requires Good(c) && Reachable(c, h) && !Run(c, h, events).left
    ensures Run(c, h, events).attached == Some(conn) <==>
      || (h.attached == Some(conn) && forall e :: e in events ==> !Loses(e, conn))
      || exists n :: 0 <= n < |events| && Takes(events[n], conn) && forall m :: n < m < |events| ==> !Loses(events[m], conn)
    decreases |events|
  {
    hide Step; hide Good; hide Reachable; hide Loses; hide Takes;
    if events != [] {
      var last := |events| - 1;
      var init, e := events[..last], events[last];
      assert events == init + [e];
      RunOneMore(c, h, init, e);
      var k := Run(c, h, init);
      if k.left { LeftStays(c, k, e); }
      AttachedExactly(c, h, init, conn);
      StepAttached(c, k, e, conn);
      TakesNotLoses(e, conn);
      hide Run;
      if k.attached == Some(conn) && !Loses(e, conn) && !(h.attached == Some(conn) && forall x :: x in events ==> !Loses(x, conn)) {
        var n :| 0 <= n < |init| && Takes(init[n], conn) && forall m :: n < m < |init| ==> !Loses(init[m], conn);
        assert Takes(events[n], conn) && forall m :: n < m < |events| ==> !Loses(events[m], conn);
      }
      if Takes(e, conn) { assert Takes(events[last], conn); }
      if n :| 0 <= n < last && Takes(events[n], conn) && forall m :: n < m < |events| ==> !Loses(events[m], conn) {
        assert Takes(init[n], conn) && forall m :: n < m < |init| ==> !Loses(init[m], conn);
      }
    }
  }

  lemma TakesNotLoses(e: Event, conn: nat)
    ensures !(Takes(e, conn) && Loses(e, conn))
  {}

  lemma LeftStays(c: Codec, h: Host, e: Event)
    requires h.left
    ensures Step(c, h, e) == h
  {}

  // ---- what a connection receives ------------------------------------------------------------

  /** What no event but its own read error changes of an attachment, and what its stream only adds to. */
  ghost predicate SameAttachment(a: Attachment, b: Attachment) {
    b == a.(phase := b.phase, pending := b.pending, out := b.out)
  }

  lemma TurnListeners(c: Codec, h: Host, n: nat)
    ensures var k := OnReplayTurn(c, h, n);
      && k.attached == h.attached && |k.attachments| == |h.attachments|
      && forall i :: 0 <= i < |h.attachments| ==>
           && SameAttachment(h.attachments[i], k.attachments[i])
           && (i != n ==> k.attachments[i] == h.attachments[i])
           && (h.attached != Some(h.attachments[i].conn) ==> k.attachments[i].out == h.attachments[i].out)
  {
    hide ReplayFrames;
    if n < |h.attachments| {
      var a := h.attachments[n];
      DeliverAllKeeps(h.attached, a.(phase := Live, pending := []), a.pending);
      if h.attached != Some(a.conn) { DeliverAllElsewhere(h.attached, a.(phase := Live, pending := []), a.pending); }
    }
  }

  lemma ErrorListeners(h: Host, n: nat)
    ensures var k := OnReplayReadError(h, n);
      && k.attached == h.attached && |k.attachments| == |h.attachments|
      && forall i :: 0 <= i < |h.attachments| ==>
           && k.attachments[i].conn == h.attachments[i].conn
           && (i != n ==> k.attachments[i] == h.attachments[i])
           && (h.attached != Some(h.attachments[i].conn) ==> k.attachments[i].out == h.attachments[i].out)
  {
    if n < |h.attachments| {
      var a := h.attachments[n];
      DeliverAllKeeps(h.attached, a.(phase := Live, pending := []), a.pending);
      if h.attached != Some(a.conn) { DeliverAllElsewhere(h.attached, a.(phase := Live, pending := []), a.pending); }
    }
  }

  lemma AttachListeners(h: Host, conn: nat, from: int)
    ensures var k := OnAttach(h, conn, PROTOCOL, from);
      && k.attached == Some(conn) && |k.attachments| == |h.attachments| + 1
      && (forall i :: 0 <= i < |h.attachments| ==> k.attachments[i] == h.attachments[i])
      && k.attachments[|h.attachments|]
         == Attachment(conn, if from > 0 then from as nat else 1, h.store.persisted, |h.store.file|,
                       if (if from > 0 then from as nat else 1) <= h.store.persisted then ScanningOutcomes(0) else Live,
                       [], [], h.store.sequence, false)
  {}

  /** What one event leaves of an attachment: it stays what it is, its connection's only one unless that
      connection attaches again, its replay where it was unless this is its turn, and it is sent nothing
      while its connection is not attached. */
  ghost predicate StaysAttachment(h: Host, k: Host, e: Event, i: nat)
    requires i < |h.attachments|
  {
    && i < |k.attachments| && SameAttachment(h.attachments[i], k.attachments[i])
    && (e != ReplayTurn(i) ==> k.attachments[i].phase == h.attachments[i].phase)
    && (Sole(h, i) && !Takes(e, h.attachments[i].conn) ==> Sole(k, i))
    && (h.attached != Some(h.attachments[i].conn) ==> k.attachments[i].out == h.attachments[i].out)
  }

  lemma ListenersStay(h: Host, k: Host, e: Event, i: nat)
    requires i < |h.attachments| && SameListeners(h, k)
    ensures StaysAttachment(h, k, e, i)
  {
    forall n | 0 <= n < |h.attachments| ensures k.attachments[n].conn == h.attachments[n].conn {
      var b := k.attachments[n];
      assert b == h.attachments[n].(pending := b.pending, out := b.out);
    }
  }

  /** The same listeners but the `n`th, which keeps its connection. */
  lemma OthersStay(h: Host, k: Host, e: Event, i: nat)
    requires i < |h.attachments| && |k.attachments| == |h.attachments|
    requires forall n :: 0 <= n < |h.attachments| ==> k.attachments[n].conn == h.attachments[n].conn
    requires SameAttachment(h.attachments[i], k.attachments[i])
    requires e != ReplayTurn(i) ==> k.attachments[i] == h.attachments[i]
    requires h.attached != Some(h.attachments[i].conn) ==> k.attachments[i].out == h.attachments[i].out
    ensures StaysAttachment(h, k, e, i)
  {}

  lemma AttachStays(h: Host, k: Host, e: Event, i: nat)
    requires i < |h.attachments| && |k.attachments| == |h.attachments| + 1
    requires forall n :: 0 <= n < |h.attachments| ==> k.attachments[n] == h.attachments[n]
    requires Takes(e, k.attachments[|h.attachments|].conn)
    ensures StaysAttachment(h, k, e, i)
  {}

  lemma StepAttachment(c: Codec, h: Host, e: Event, i: nat)
    requires i < |h.attachments| && e != ReplayReadError(i)
    ensures StaysAttachment(h, Step(c, h, e), e, i)
  {
    hide OnReplayTurn; hide OnReplayReadError; hide OnAttach; hide StaysAttachment; hide SameListeners; hide OnStdinCallback;
    var k := Step(c, h, e);
    if !Listening(e) {
      StepListeners(c, h, e);
      ListenersStay(h, k, e, i);
    } else if h.left {
      SameFields(h, h);
      ListenersStay(h, h, e, i);
    } else {
      match e
      case ReplayTurn(n) =>
        TurnListeners(c, h, n);
        OthersStay(h, k, e, i);
      case ReplayReadError(n) =>
        ErrorListeners(h, n);
        OthersStay(h, k, e, i);
      case Disconnect(_) => OthersStay(h, k, e, i);
      case CommandFrom(conn, command, _, _) =>
        AttachListeners(h, conn, command.from);
        AttachStays(h, k, e, i);
    }
  }

  /** Once it is fenced or closed a connection is sent nothing more, neither replayed nor live, until it
      attaches again. */
  lemma {:induction false} FencedReceivesNothing(c: Codec, h: Host, events: seq<Event>, i: nat)
    requires i < |h.attachments| && h.attached != Some(h.attachments[i].conn)
    requires forall e :: e in events ==> !Takes(e, h.attachments[i].conn)
    ensures i < |Run(c, h, events).attachments| && Run(c, h, events).attachments[i].out == h.attachments[i].out
    decreases |events|
  {
    hide Step; hide Takes; hide Loses;
    if events != [] {
      var e, k := events[0], Step(c, h, events[0]);
      StepKeepsQuiet(c, h, e, i);
      assert forall x :: x in events[1..] ==> x in events;
      FencedReceivesNothing(c, k, events[1..], i);
    }
  }

  lemma StepKeepsQuiet(c: Codec, h: Host, e: Event, i: nat)
    requires i < |h.attachments| && h.attached != Some(h.attachments[i].conn) && !Takes(e, h.attachments[i].conn)
    ensures var k := Step(c, h, e);
      && i < |k.attachments| && k.attachments[i].conn == h.attachments[i].conn
      && k.attachments[i].out == h.attachments[i].out && k.attached != Some(h.attachments[i].conn)
  {
    if h.left {
      LeftStays(c, h, e);
    } else {
      StepAttached(c, h, e, h.attachments[i].conn);
      if e == ReplayReadError(i) { ErrorListeners(h, i); hide OnReplayReadError; } else { hide Step; StepAttachment(c, h, e, i); }
    }
  }

  /** How many turns a replay still needs. */
  function Remaining(a: Attachment): int {
    match a.phase
    case Live => 0
    case ScanningOutcomes(pos) => 2 * a.until + 2 - pos
    case SendingFrames(pos) => a.until + 1 - pos
  }

  function Turns(events: seq<Event>, i: nat): nat {
    if events == [] then 0 else (if events[0] == ReplayTurn(i) then 1 else 0) + Turns(events[1..], i)
  }

  /** Each of its own turns brings a replay nearer its end. */
  lemma TurnRemains(c: Codec, h: Host, i: nat)
    requires ReplayInv(c, h) && i < |h.attachments| && Sole(h, i) && !h.attachments[i].failed
    ensures var a, b := h.attachments[i], OnReplayTurn(c, h, i).attachments[i];
      Remaining(b) <= if Remaining(a) > 0 then Remaining(a) - 1 else 0
    ensures Remaining(h.attachments[i]) >= 0 && (Remaining(h.attachments[i]) == 0 ==> h.attachments[i].phase == Live)
  {
    var a := h.attachments[i];
    assert Streams(c, h.store, h.attached, a);
    assert |ReplayFrames(c, h, a)| == a.until;
    hide ReplayInv; hide Streams; hide ReplayFrames;
    DeliverAllKeeps(h.attached, a.(phase := Live, pending := []), a.pending);
  }

  /** The run of one attachment: it stays what it is, and each of its turns counts. */
  lemma {:induction false} RunAttachment(c: Codec, h: Host, events: seq<Event>, i: nat)
    requires Good(c) && HostInv(c, h) && i < |h.attachments| && Sole(h, i) && !h.attachments[i].failed
    requires forall e :: e in events ==> !Takes(e, h.attachments[i].conn) && e != ReplayReadError(i)
    ensures var m := Run(c, h, events);
      && i < |m.attachments| && SameAttachment(h.attachments[i], m.attachments[i]) && Sole(m, i)
      && var r, turns := Remaining(h.attachments[i]), Turns(events, i);
         (m.left || Remaining(m.attachments[i]) <= if r > turns then r - turns else 0)
    decreases |events|
  {
    hide Step; hide HostInv; hide Good; hide Takes; hide Sole; hide Remaining;
    if events == [] {
      RemainingNatural(c, h, i);
    } else {
      var e, k := events[0], Step(c, h, events[0]);
      assert e in events && forall x :: x in events[1..] ==> x in events;
      StepHolds(c, h, e);
      StepAttachment(c, h, e, i);
      StepRemains(c, h, e, i);
      RunAttachment(c, k, events[1..], i);
      if h.left { LeftForever(c, h, events); }
    }
  }

  lemma ReplayOf(c: Codec, h: Host)
    requires HostInv(c, h)
    ensures ReplayInv(c, h)
  {}

  lemma RemainingNatural(c: Codec, h: Host, i: nat)
    requires HostInv(c, h) && i < |h.attachments| && Sole(h, i) && !h.attachments[i].failed
    ensures Remaining(h.attachments[i]) >= 0 && (Remaining(h.attachments[i]) == 0 ==> h.attachments[i].phase == Live)
  {
    hide HostInv;
    ReplayOf(c, h);
    TurnRemains(c, h, i);
  }

  lemma StepRemains(c: Codec, h: Host, e: Event, i: nat)
    requires HostInv(c, h) && i < |h.attachments| && Sole(h, i) && !h.attachments[i].failed && e != ReplayReadError(i)
    ensures var k := Step(c, h, e);
      && i < |k.attachments|
      && var r := Remaining(h.attachments[i]);
         r >= 0 && (!h.left ==> Remaining(k.attachments[i]) <= if e == ReplayTurn(i) then (if r > 0 then r - 1 else 0) else r)
  {
    hide HostInv;
    ReplayOf(c, h);
    TurnRemains(c, h, i);
    StepAttachment(c, h, e, i);
    if e == ReplayTurn(i) { hide OnReplayTurn; } else { hide Step; }
  }

  lemma {:induction false} LeftForever(c: Codec, h: Host, events: seq<Event>)
    requires h.left
    ensures Run(c, h, events) == h
    decreases |events|
  {
    if events != [] {
      LeftStays(c, h, events[0]);
      LeftForever(c, h, events[1..]);
    }
  }

  lemma StreamParts(c: Codec, j: Store, attached: Option<nat>, a: Attachment)
    requires Streams(c, j, attached, a)
    ensures var n := |FramesOf(a.out)|;
      && Base(a) + n <= j.persisted <= |j.recorded| && FramesOf(a.out) == j.recorded[Base(a)..Base(a) + n]
      && (a.phase == Live && attached == Some(a.conn) ==> Base(a) + n == j.persisted)
  {
    hide FramesOf; hide OutcomesOf; hide ReadFrames; hide OutcomesIn; hide OutcomesFirst;
  }

  lemma SoleStreams(c: Codec, h: Host, i: nat)
    requires ReplayInv(c, h) && i < |h.attachments| && Sole(h, i) && !h.attachments[i].failed
    ensures Streams(c, h.store, h.attached, h.attachments[i])
  {
    hide Represents; hide Streams; hide Published; hide Sole;
  }

  lemma SoleStream(c: Codec, h: Host, i: nat)
    requires HostInv(c, h) && i < |h.attachments| && Sole(h, i) && !h.attachments[i].failed
    ensures var a, n := h.attachments[i], |FramesOf(h.attachments[i].out)|;
      && Base(a) + n <= h.store.persisted <= |h.store.recorded|
      && FramesOf(a.out) == h.store.recorded[Base(a)..Base(a) + n]
      && (a.phase == Live && h.attached == Some(a.conn) ==> Base(a) + n == h.store.persisted)
  {
    hide HostInv; hide ReplayInv; hide Streams; hide Sole; hide FramesOf;
    ReplayOf(c, h);
    SoleStreams(c, h, i);
    StreamParts(c, h.store, h.attached, h.attachments[i]);
  }

  /** The attachment this command made, after any later run without a read error of its replay. */
  lemma AttachedRun(c: Codec, h: Host, conn: nat, from: int, delivered: bool, rooms: seq<nat>, events: seq<Event>)
    requires Good(c) && Reachable(c, h) && !h.left && forall a :: a in h.attachments ==> a.conn != conn
    requires forall e :: e in events ==> !Takes(e, conn) && e != ReplayReadError(|h.attachments|)
    ensures var i, k := |h.attachments|, Step(c, h, CommandFrom(conn, Attach(PROTOCOL, from), delivered, rooms));
      var m := Run(c, k, events);
      && HostInv(c, m) && i < |m.attachments| && Sole(m, i) && m.attachments[i].conn == conn
      && m.attachments[i].from == (if from > 0 then from else 1) && m.attachments[i].until == h.store.persisted
      && !m.attachments[i].failed
      && var all, turns := 2 * h.store.persisted + 2, Turns(events, i);
         (m.left || Remaining(m.attachments[i]) <= if all > turns then all - turns else 0)
  {
    hide Reachable; hide HostInv; hide Run; hide Good; hide Takes; hide OnAttach;
    var e := CommandFrom(conn, Attach(PROTOCOL, from), delivered, rooms);
    var i, k := |h.attachments|, Step(c, h, e);
    assert HostInv(c, h) by { ReachableHolds(c, h); }
    StepHolds(c, h, e);
    AttachListeners(h, conn, from);
    assert k == OnAttach(h, conn, PROTOCOL, from);
    hide Step;
    assert Sole(k, i) by {
      forall n | 0 <= n < i ensures k.attachments[n].conn != conn { assert h.attachments[n] in h.attachments; }
    }
    RunAttachment(c, k, events, i);
    RunHolds(c, k, events);
  }

  lemma StepReachable(c: Codec, h: Host, e: Event)
    requires Reachable(c, h)
    ensures Reachable(c, Step(c, h, e))
  {
    hide Step; hide ReachedAt;
    var n :| ReachedAt(c, h, n);
    StepReached(c, h, n, e);
  }

  /** An attach brings its connection, however segments interleave from then on, exactly the frames from
      the one its command asked for (from the first, if it asked for none), in order and one by one;
      asked for one beyond the next durable frame, it brings those that become durable from then on. */
  lemma AttachReceives(c: Codec, h: Host, conn: nat, from: int, delivered: bool, rooms: seq<nat>, events: seq<Event>)
    requires Good(c) && Reachable(c, h) && !h.left && forall a :: a in h.attachments ==> a.conn != conn
    requires forall e :: e in events ==> !Takes(e, conn) && e != ReplayReadError(|h.attachments|)
    ensures var i, asked := |h.attachments|, if from > 0 then from - 1 else 0;
      var start := if asked <= h.store.persisted then asked else h.store.persisted;
      var m := Run(c, Step(c, h, CommandFrom(conn, Attach(PROTOCOL, from), delivered, rooms)), events);
      && i < |m.attachments| && m.attachments[i].conn == conn
      && var n := |FramesOf(m.attachments[i].out)|;
         && start + n <= m.store.persisted <= |m.store.recorded|
         && FramesOf(m.attachments[i].out) == m.store.recorded[start..start + n]
  {
    hide Reachable; hide HostInv; hide Step; hide Run; hide Good; hide Takes; hide Sole; hide FramesOf;
    AttachedRun(c, h, conn, from, delivered, rooms, events);
    SoleStream(c, Run(c, Step(c, h, CommandFrom(conn, Attach(PROTOCOL, from), delivered, rooms)), events), |h.attachments|);
  }

  /** And it brings all of them: after twice as many turns of the replay as frames were durable at the
      attach, and two more, a connection that was neither closed nor fenced has every durable frame. */
  lemma AttachReceivesAll(c: Codec, h: Host, conn: nat, from: int, delivered: bool, rooms: seq<nat>, events: seq<Event>)
    requires Good(c) && Reachable(c, h) && !h.left && forall a :: a in h.attachments ==> a.conn != conn
    requires forall e :: e in events ==> !Takes(e, conn) && !Loses(e, conn) && e != ReplayReadError(|h.attachments|)
    requires Turns(events, |h.attachments|) >= 2 * h.store.persisted + 2
    requires !Run(c, Step(c, h, CommandFrom(conn, Attach(PROTOCOL, from), delivered, rooms)), events).left
    ensures var i, asked := |h.attachments|, if from > 0 then from - 1 else 0;
      var start := if asked <= h.store.persisted then asked else h.store.persisted;
      var m := Run(c, Step(c, h, CommandFrom(conn, Attach(PROTOCOL, from), delivered, rooms)), events);
      && i < |m.attachments| && m.attachments[i].conn == conn && start <= m.store.persisted <= |m.store.recorded|
      && FramesOf(m.attachments[i].out) == m.store.recorded[start..m.store.persisted]
  {
    hide Reachable; hide HostInv; hide Run; hide Good; hide Sole; hide FramesOf; hide Turns;
    var e := CommandFrom(conn, Attach(PROTOCOL, from), delivered, rooms);
    StepAttached(c, h, e, conn);
    hide Step;
    assert Takes(e, conn);
    hide Takes; hide Loses;
    var k := Step(c, h, e);
    var m := Run(c, k, events);
    AttachedRun(c, h, conn, from, delivered, rooms, events);
    StepReachable(c, h, e);
    AttachedExactly(c, k, events, conn);
    RemainingNatural(c, m, |h.attachments|);
    SoleStream(c, m, |h.attachments|);
  }
}
