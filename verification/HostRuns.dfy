/** The execution host over whole runs: the invariant holds at the start, every segment keeps it, and
    so it holds after every sequence of events. */
module HostRuns {
  import opened Wrappers
  import opened Journal
  import opened HostState
  import opened HostCommands
  import opened HostSteps
  import opened HostCustody
  import opened HostFencing
  import opened HostReplay
  import opened HostReplies
  import Lines

  ghost predicate HostInv(c: Codec, h: Host) {
    && Represents(c, h.store)
    && ReplayInv(c, h)
    && LinesInv(h)
    && Fencing(h)
    && SignalsInv(h)
    && OutputInv(h)
    && ReleaseInv(h)
    && RepliesInv(h)
    && OPENING_ID in h.receipts
  }

  // ---- one step ------------------------------------------------------------------------------

  predicate IsAttach(e: Event) {
    e.CommandFrom? && e.command.Attach?
  }

  /** What a command other than attach and submit leaves alone before it journals. */
  ghost predicate CommandShape(h: Host, k: Host) {
    && k.store == h.store && k.attachments == h.attachments && k.attached == h.attached
    && k.heard == h.heard && k.stdoutRest == h.stdoutRest && k.exit == h.exit
  }

  lemma ActingBaseShape(h: Host, conn: nat, id: string, command: Command, delivered: bool)
    ensures CommandShape(h, ActingBase(h, conn, id, command, delivered))
  {}

  lemma CommandBaseShape(h: Host, conn: nat, command: Command, delivered: bool)
    requires !command.Attach?
    ensures CommandShape(h, CommandBase(h, conn, command, delivered))
  {
    hide ActingBase;
    ActingBaseShape(h, conn, CommandId(command), command, delivered);
  }

  lemma NeutralBaseFields(h: Host, e: Event)
    requires NeutralBodies(h, e).Some? && !IsAttach(e)
    ensures var base := NeutralBase(h, e);
      && base.store == h.store && base.attachments == h.attachments
      && (base.attached == h.attached || base.attached == None)
  {
    hide Lines.Split; hide CommandBase; hide CommandBodies;
    if e.CommandFrom? { CommandBaseShape(h, e.conn, e.command, e.delivered); }
  }

  /** What a command other than a submit journals: nothing, or one frame of its own, with its author. */
  ghost predicate Authors(h: Host, base: Host, bodies: seq<Body>, conn: nat) {
    && base.attached == h.attached
    && (if bodies == [] then base.authors == h.authors
        else OneCommand(bodies) && h.attached == Some(conn) && base.authors == By(h, conn))
  }

  lemma FirstIsCommand(b: Body)
    requires CommandBody(b)
    ensures OneCommand([b]) && OneCommand([b, HostExit])
  {
    assert [b][1..] == [] && [b, HostExit][1..] == [HostExit];
  }

  lemma ActingAuthor(h: Host, conn: nat, id: string, command: Command, delivered: bool)
    requires id == CommandId(command) && id != "" && id !in h.receipts && h.attached == Some(conn)
    requires CommandBodies(h, conn, command).Some? && !command.Attach? && !command.Status?
    ensures Authors(h, ActingBase(h, conn, id, command, delivered), CommandBodies(h, conn, command).value, conn)
  {
    hide OneCommand; hide By;
    match command
    case CloseInput(_) => FirstIsCommand(InputClosed(id));
    case SendSignal(_, signal) => if signal != None { FirstIsCommand(Signalled(id, signal.value)); }
    case Release(_) => FirstIsCommand(Journal.Released(id));
    case _ =>
  }

  lemma CommandAuthor(h: Host, conn: nat, command: Command, delivered: bool)
    requires CommandBodies(h, conn, command).Some? && !command.Attach?
    ensures Authors(h, CommandBase(h, conn, command, delivered), CommandBodies(h, conn, command).value, conn)
  {
    hide ActingBase; hide OneCommand; hide By;
    if !QuietCommand(h, conn, command) {
      hide Authors;
      ActingAuthor(h, conn, CommandId(command), command, delivered);
    }
  }

  /** Every other neutral event journals no command's frame. */
  lemma NoAuthor(h: Host, e: Event)
    requires NeutralBodies(h, e).Some? && !e.CommandFrom?
    ensures NeutralBase(h, e).authors == h.authors && NoCommand(NeutralBodies(h, e).value)
  {
    hide Lines.Split;
  }

  lemma NeutralCommandAuthor(h: Host, e: Event)
    requires NeutralBodies(h, e).Some? && e.CommandFrom? && !e.command.Attach?
    ensures Authors(h, NeutralBase(h, e), NeutralBodies(h, e).value, e.conn)
  {
    hide CommandBase; hide CommandBodies; hide Authors;
    CommandAuthor(h, e.conn, e.command, e.delivered);
  }

  lemma NeutralFencing(c: Codec, h: Host, e: Event)
    requires Good(c) && Represents(c, h.store) && Fencing(h) && !h.left && NeutralBodies(h, e).Some? && !IsAttach(e)
    ensures Fencing(Step(c, h, e))
  {
    WithinRecord(c, h.store);
    hide Step; hide Represents; hide Good; hide Fencing; hide Appends; hide NeutralBase; hide NeutralBodies; hide NoCommand;
    hide OneCommand;
    var base, k, bodies := NeutralBase(h, e), Step(c, h, e), NeutralBodies(h, e).value;
    NeutralEvent(c, h, e);
    NeutralBaseFields(h, e);
    AppendsFields(base, k, bodies);
    if e.CommandFrom? { NeutralCommandAuthor(h, e); } else { NoAuthor(h, e); }
    if e.CommandFrom? && bodies != [] {
      FencingCommand(h, base, k, bodies, e.conn);
    } else {
      NothingIsNoCommand();
      FencingQuiet(h, base, k, bodies);
    }
  }

  lemma NothingIsNoCommand()
    ensures NoCommand([])
  {}

  lemma CallbackFencing(c: Codec, h: Host, n: nat, ok: bool, rooms: seq<nat>)
    requires Good(c) && Represents(c, h.store) && Fencing(h)
    ensures Fencing(OnStdinCallback(c, h, n, ok, rooms))
  {
    hide Represents; hide Good; hide Fencing; hide Appends;
    if n < |h.writes| && (ok ==> h.writes[n].handed) {
      CallbackAppends(c, h, n, ok, rooms);
      var w, k := h.writes[n], OnStdinCallback(c, h, n, ok, rooms);
      FencingQuiet(h, k.(store := h.store, attachments := h.attachments, opening := h.opening), k,
                   [if ok then Written(w.id) else WriteFailed(w.id)]);
    }
  }

  lemma SubmitFencing(c: Codec, h: Host, conn: nat, id: string, line: Option<string>, rooms: seq<nat>)
    requires Good(c) && Represents(c, h.store) && Fencing(h) && h.attached == Some(conn)
    requires id !in h.receipts && id != "" && OPENING_ID in h.receipts
    ensures Fencing(OnSubmit(c, h, conn, id, line, rooms))
  {
    hide Represents; hide Good; hide Fencing; hide OnSubmit; hide Submitted;
    SubmitAppends(c, h, conn, id, line, rooms);
    var k := OnSubmit(c, h, conn, id, line, rooms);
    if k == h.(replies := k.replies) {
      FencingSame(h, k);
    } else {
      FencingSubmit(c, h, k, conn, id, line.value);
    }
  }

  lemma StepFencing(c: Codec, h: Host, e: Event)
    requires Good(c) && Represents(c, h.store) && Fencing(h) && OPENING_ID in h.receipts
    ensures Fencing(Step(c, h, e))
  {
    hide Represents; hide Good; hide Fencing; hide OnSubmit; hide OnStdinCallback; hide OnAttach;
    if !h.left {
      if IsAttach(e) {
        FencingAttach(c, h, e.conn, e.command.protocol, e.command.from);
      } else if NeutralBodies(h, e).Some? {
        NeutralFencing(c, h, e);
      } else {
        match e
        case OpeningTurn => FencingSame(h, OnOpening(h));
        case StdinCallback(w, ok, rooms) => CallbackFencing(c, h, w, ok, rooms);
        case CommandFrom(conn, command, delivered, rooms) =>
          SubmitFencing(c, h, conn, command.id, command.line, rooms);
      }
    }
  }

  lemma NeutralSignals(c: Codec, h: Host, e: Event)
    requires Good(c) && Represents(c, h.store) && SignalsInv(h) && !h.left && NeutralBodies(h, e).Some?
    ensures SignalsInv(Step(c, h, e))
  {
    NeutralEvent(c, h, e);
    var base := NeutralBase(h, e);
    AppendsFields(base, Step(c, h, e), NeutralBodies(h, e).value);
    BaseSignals(h, e);
    hide Step; hide NeutralBase; hide NeutralBodies; hide Represents; hide Good; hide Appends;
    SignalsKeep(base, Step(c, h, e));
  }

  lemma ActingSignals(h: Host, conn: nat, id: string, command: Command, delivered: bool)
    requires SignalsInv(h) && id !in h.receipts && id == CommandId(command)
    ensures SignalsInv(ActingBase(h, conn, id, command, delivered))
  {
    hide SignalsInv; hide By;
    var k := ActingBase(h, conn, id, command, delivered);
    if command.SendSignal? && command.signal != None && h.exit == None {
      SignalsOneMore(h, k, id, command.signal.value, SignalReceipt(h.store.sequence + 1, delivered));
    } else {
      SignalsKeep(h, k);
    }
  }

  lemma CommandSignals(h: Host, conn: nat, command: Command, delivered: bool)
    requires SignalsInv(h)
    ensures SignalsInv(CommandBase(h, conn, command, delivered))
  {
    hide SignalsInv; hide ActingBase; hide OnAttach;
    var id, k := CommandId(command), CommandBase(h, conn, command, delivered);
    if command.Attach? {
      AttachSignals(h, conn, command.protocol, command.from);
    } else if !command.Status? && h.attached == Some(conn) && id != "" && id !in h.receipts {
      ActingSignals(h, conn, id, command, delivered);
    } else {
      SignalsKeep(h, k);
    }
  }

  lemma AttachSignals(h: Host, conn: nat, protocol: int, from: int)
    requires SignalsInv(h)
    ensures SignalsInv(OnAttach(h, conn, protocol, from))
  {}

  lemma BaseSignals(h: Host, e: Event)
    requires SignalsInv(h) && NeutralBodies(h, e).Some?
    ensures SignalsInv(NeutralBase(h, e))
  {
    hide SignalsInv; hide Lines.Split; hide CommandBase; hide CommandBodies;
    if e.CommandFrom? {
      CommandSignals(h, e.conn, e.command, e.delivered);
    } else {
      SignalsKeep(h, NeutralBase(h, e));
    }
  }

  lemma StepSignals(c: Codec, h: Host, e: Event)
    requires Good(c) && Represents(c, h.store) && SignalsInv(h) && WritesPending(h)
    ensures SignalsInv(Step(c, h, e))
  {
    hide Represents; hide Good; hide SignalsInv; hide OnStdinCallback; hide OnSubmit;
    if !h.left {
      if NeutralBodies(h, e).Some? {
        NeutralSignals(c, h, e);
      } else {
        match e
        case OpeningTurn => SignalsKeep(h, OnOpening(h));
        case StdinCallback(w, ok, rooms) =>
          if w < |h.writes| && (ok ==> h.writes[w].handed) {
            CallbackAppends(c, h, w, ok, rooms);
            SignalsKeep(h, OnStdinCallback(c, h, w, ok, rooms));
          } else {
            CallbackIgnored(c, h, w, ok, rooms);
          }
        case CommandFrom(conn, command, delivered, rooms) =>
          SubmitAppends(c, h, conn, command.id, command.line, rooms);
          SignalsKeep(h, OnSubmit(c, h, conn, command.id, command.line, rooms));
      }
    }
  }

  lemma CallbackIgnored(c: Codec, h: Host, n: nat, ok: bool, rooms: seq<nat>)
    requires n >= |h.writes| || (ok && !h.writes[n].handed)
    ensures OnStdinCallback(c, h, n, ok, rooms) == h
  {}

  lemma NeutralOutputInv(c: Codec, h: Host, e: Event)
    requires Good(c) && Represents(c, h.store) && OutputInv(h) && !h.left && NeutralBodies(h, e).Some?
    requires !e.StdoutData? && !e.ProviderExit?
    ensures OutputInv(Step(c, h, e))
  {
    hide Step; hide Represents; hide Good; hide OutputInv; hide Appends; hide NeutralBase; hide NeutralBodies; hide NoOutput;
    NeutralEvent(c, h, e);
    QuietBase(h, e);
    OutputQuiet(h, NeutralBase(h, e), Step(c, h, e), NeutralBodies(h, e).value);
  }

  /** Apart from stdout and the exit, neutral events leave the output alone. */
  lemma QuietBase(h: Host, e: Event)
    requires NeutralBodies(h, e).Some? && !e.StdoutData? && !e.ProviderExit?
    ensures var base := NeutralBase(h, e);
      base.store == h.store && base.heard == h.heard && base.stdoutRest == h.stdoutRest && base.exit == h.exit
    ensures NoOutput(NeutralBodies(h, e).value)
    ensures !(e.CommandFrom? && e.command.Release?) ==> NeutralBase(h, e).released == h.released
  {
    hide CommandBase; hide ActingBase;
    if e.CommandFrom? {
      if e.command.Attach? { AttachQuiet(h, e.conn, e.command.protocol, e.command.from, e.delivered); }
      else { CommandBaseShape(h, e.conn, e.command, e.delivered); }
      NotReleased(h, e.conn, e.command, e.delivered);
    }
  }

  lemma AttachQuiet(h: Host, conn: nat, protocol: int, from: int, delivered: bool)
    ensures var k := CommandBase(h, conn, Attach(protocol, from), delivered);
      k.store == h.store && k.heard == h.heard && k.stdoutRest == h.stdoutRest && k.exit == h.exit
  {
    var k := OnAttach(h, conn, protocol, from);
    if protocol == PROTOCOL {
      AttachShape(h, conn, from);
      hide OnAttach;
    }
  }

  lemma NotReleased(h: Host, conn: nat, command: Command, delivered: bool)
    ensures !command.Release? ==> CommandBase(h, conn, command, delivered).released == h.released
  {}

  lemma StdoutOutput(c: Codec, h: Host, chunk: string, rooms: seq<nat>)
    requires Good(c) && Represents(c, h.store) && OutputInv(h) && !h.left
    ensures OutputInv(Step(c, h, StdoutData(chunk, rooms)))
  {
    hide Represents; hide Good; hide OutputInv; hide Appends; hide Lines.Split; hide AppendOutputs;
    if h.exit == None {
      NeutralEvent(c, h, StdoutData(chunk, rooms));
      OutputStdout(h, Step(c, h, StdoutData(chunk, rooms)), chunk);
    }
  }

  lemma ExitOutput(c: Codec, h: Host, code: int, abandoned: bool, rooms: seq<nat>)
    requires Good(c) && Represents(c, h.store) && OutputInv(h) && !h.left
    ensures OutputInv(Step(c, h, ProviderExit(code, abandoned, rooms)))
  {
    hide Represents; hide Good; hide OutputInv; hide Appends; hide OnExit;
    if h.exit == None {
      ExitAppends(c, h, code, abandoned, rooms);
      OutputExit(h, Step(c, h, ProviderExit(code, abandoned, rooms)), code, if abandoned then [OutputAbandoned] else []);
    } else {
      ExitedNothing(c, h, code, abandoned, rooms);
    }
  }

  lemma CallbackOutput(c: Codec, h: Host, n: nat, ok: bool, rooms: seq<nat>)
    requires Good(c) && Represents(c, h.store) && OutputInv(h) && ReleaseInv(h)
    ensures OutputInv(OnStdinCallback(c, h, n, ok, rooms)) && ReleaseInv(OnStdinCallback(c, h, n, ok, rooms))
  {
    hide Represents; hide Good; hide OutputInv; hide ReleaseInv; hide Appends; hide OnStdinCallback;
    if n < |h.writes| && (ok ==> h.writes[n].handed) {
      CallbackAppends(c, h, n, ok, rooms);
      var w, k := h.writes[n], OnStdinCallback(c, h, n, ok, rooms);
      var base := k.(store := h.store, attachments := h.attachments, opening := h.opening);
      OutputQuiet(h, base, k, [if ok then Written(w.id) else WriteFailed(w.id)]);
      ReleaseQuiet(h, base, k, [if ok then Written(w.id) else WriteFailed(w.id)]);
    } else {
      CallbackIgnored(c, h, n, ok, rooms);
    }
  }

  lemma SubmittedOutput(c: Codec, h: Host, k: Host, conn: nat, id: string, line: string)
    requires Submitted(c, h, k, conn, id, line) && OutputInv(h) && ReleaseInv(h)
    ensures OutputInv(k) && ReleaseInv(k)
  {
    hide Represents; hide OutputInv; hide ReleaseInv; hide Appends;
    var base := k.(store := h.store, attachments := h.attachments, opening := h.opening);
    var bodies := if Appends(base, k, [Input(id, line)]) then [Input(id, line)] else [Input(id, line), WriteFailed(id)];
    OutputQuiet(h, base, k, bodies);
    ReleaseQuiet(h, base, k, bodies);
  }

  lemma SameOutput(h: Host, k: Host)
    requires OutputInv(h) && ReleaseInv(h) && k.store == h.store && k.heard == h.heard
    requires k.stdoutRest == h.stdoutRest && k.exit == h.exit && k.released == h.released
    ensures OutputInv(k) && ReleaseInv(k)
  {}

  lemma SubmitOutput(c: Codec, h: Host, conn: nat, id: string, line: Option<string>, rooms: seq<nat>)
    requires Good(c) && Represents(c, h.store) && OutputInv(h) && ReleaseInv(h) && id !in h.receipts && id != ""
    ensures OutputInv(OnSubmit(c, h, conn, id, line, rooms)) && ReleaseInv(OnSubmit(c, h, conn, id, line, rooms))
  {
    hide Represents; hide Good; hide OutputInv; hide ReleaseInv; hide OnSubmit; hide Submitted;
    SubmitAppends(c, h, conn, id, line, rooms);
    var k := OnSubmit(c, h, conn, id, line, rooms);
    if k == h.(replies := k.replies) {
      SameOutput(h, k);
    } else {
      SubmittedOutput(c, h, k, conn, id, line.value);
    }
  }

  lemma NeutralReleaseInv(c: Codec, h: Host, e: Event)
    requires Good(c) && Represents(c, h.store) && ReleaseInv(h) && !h.left && NeutralBodies(h, e).Some?
    requires !e.StdoutData? && !e.ProviderExit? && !(e.CommandFrom? && e.command.Release?)
    ensures ReleaseInv(Step(c, h, e))
  {
    hide Step; hide Represents; hide Good; hide ReleaseInv; hide Appends; hide NeutralBase; hide NeutralBodies; hide NoOutput;
    NeutralEvent(c, h, e);
    QuietBase(h, e);
    ReleaseQuiet(h, NeutralBase(h, e), Step(c, h, e), NeutralBodies(h, e).value);
  }

  /** Output and exits come only before release. */
  lemma OutputReleaseInv(c: Codec, h: Host, e: Event)
    requires Good(c) && Represents(c, h.store) && ReleaseInv(h) && !h.left && (e.StdoutData? || e.ProviderExit?)
    ensures ReleaseInv(Step(c, h, e))
  {
    if h.exit == None {
      NeutralEvent(c, h, e);
      hide Represents; hide Good; hide Appends;
      NotReleasedByOutput(c, h, e);
    } else if e.ProviderExit? {
      ExitedNothing(c, h, e.code, e.abandoned, e.rooms);
    }
  }

  lemma NotReleasedByOutput(c: Codec, h: Host, e: Event)
    requires (e.StdoutData? || e.ProviderExit?) && h.exit == None && !h.left
    requires Appends(NeutralBase(h, e), Step(c, h, e), NeutralBodies(h, e).value)
    ensures Step(c, h, e).released == h.released
  {
    AppendsFields(NeutralBase(h, e), Step(c, h, e), NeutralBodies(h, e).value);
    hide Step; hide Appends; hide Lines.Split;
  }

  lemma ReleaseCommandInv(c: Codec, h: Host, conn: nat, id: string, rooms: seq<nat>)
    requires Good(c) && Represents(c, h.store) && OutputInv(h) && ReleaseInv(h)
    ensures ReleaseInv(OnRelease(c, h, conn, id, rooms))
  {
    hide Good; hide OutputInv; hide ReleaseInv; hide Appends; hide OnLeave; hide AppendFrame;
    if h.exit != None && h.store.unwritten == [] {
      ReleaseAppends(c, h, conn, id, rooms);
      ReleaseDurable(c, h, AddReply(h, conn, ReleasedReply(id)).(released := true, left := true, authors := By(h, conn)),
                     OnRelease(c, h, conn, id, rooms), id);
    } else {
      SameOutputRelease(h, OnRelease(c, h, conn, id, rooms));
    }
  }

  lemma SameOutputRelease(h: Host, k: Host)
    requires ReleaseInv(h) && k.store == h.store && k.exit == h.exit && k.released == h.released
    ensures ReleaseInv(k)
  {}

  lemma StepOutput(c: Codec, h: Host, e: Event)
    requires Good(c) && Represents(c, h.store) && OutputInv(h) && ReleaseInv(h)
    ensures OutputInv(Step(c, h, e))
  {
    hide Represents; hide Good; hide OutputInv; hide ReleaseInv; hide OnStdinCallback; hide OnSubmit;
    if !h.left {
      if e.StdoutData? {
        StdoutOutput(c, h, e.chunk, e.rooms);
      } else if e.ProviderExit? {
        ExitOutput(c, h, e.code, e.abandoned, e.rooms);
      } else if NeutralBodies(h, e).Some? {
        NeutralOutputInv(c, h, e);
      } else {
        match e
        case OpeningTurn => SameOutput(h, OnOpening(h));
        case StdinCallback(w, ok, rooms) => CallbackOutput(c, h, w, ok, rooms);
        case CommandFrom(conn, command, delivered, rooms) =>
          SubmitOutput(c, h, conn, command.id, command.line, rooms);
      }
    }
  }

  lemma StepRelease(c: Codec, h: Host, e: Event)
    requires Good(c) && Represents(c, h.store) && OutputInv(h) && ReleaseInv(h)
    ensures ReleaseInv(Step(c, h, e))
  {
    hide Represents; hide Good; hide OutputInv; hide ReleaseInv; hide OnStdinCallback; hide OnSubmit; hide OnRelease;
    if !h.left {
      if e.StdoutData? || e.ProviderExit? {
        OutputReleaseInv(c, h, e);
      } else if e.CommandFrom? && e.command.Release? {
        ReleaseCommandInv(c, h, e.conn, e.command.id, e.rooms);
        RefusedRelease(c, h, e);
      } else if NeutralBodies(h, e).Some? {
        NeutralReleaseInv(c, h, e);
      } else {
        match e
        case OpeningTurn => SameOutput(h, OnOpening(h));
        case StdinCallback(w, ok, rooms) => CallbackOutput(c, h, w, ok, rooms);
        case CommandFrom(conn, command, delivered, rooms) =>
          SubmitOutput(c, h, conn, command.id, command.line, rooms);
      }
    }
  }

  lemma RefusedRelease(c: Codec, h: Host, e: Event)
    requires e.CommandFrom? && e.command.Release? && ReleaseInv(h) && !h.left
    ensures Step(c, h, e) == OnRelease(c, h, e.conn, e.command.id, e.rooms) || ReleaseInv(Step(c, h, e))
  {
    hide OnRelease; hide ReleaseInv;
    if h.attached != Some(e.conn) || e.command.id == "" || e.command.id in h.receipts {
      SameOutputRelease(h, Step(c, h, e));
    }
  }

  lemma StepGrows(c: Codec, h: Host, e: Event)
    requires Good(c) && Represents(c, h.store) && WritesPending(h)
    ensures Grows(h, Step(c, h, e))
  {
    hide Represents; hide Good; hide Grows; hide OnStdinCallback; hide OnSubmit; hide WritesPending;
    if h.left {
      NothingGrows(h);
    } else if NeutralBodies(h, e).Some? {
      NeutralGrows(c, h, e);
    } else {
      match e
      case OpeningTurn => OpeningGrows(h);
      case StdinCallback(w, ok, rooms) => CallbackGrows(c, h, w, ok, rooms);
      case CommandFrom(conn, command, delivered, rooms) =>
        SubmitAppends(c, h, conn, command.id, command.line, rooms);
        SubmitReplies(c, h, conn, command.id, command.line, rooms);
        var k := OnSubmit(c, h, conn, command.id, command.line, rooms);
        if k == h.(replies := k.replies) { NothingGrowsButReplies(h, k); }
        else { SubmitGrows(c, h, k, conn, command.id, command.line.value); }
    }
  }

  lemma NothingGrows(h: Host)
    ensures Grows(h, h)
  {}

  lemma NothingGrowsButReplies(h: Host, k: Host)
    requires k == h.(replies := k.replies) && h.replies <= k.replies
    ensures Grows(h, k)
  {}

  lemma OpeningGrows(h: Host)
    ensures Grows(h, OnOpening(h))
  {}

  // ---- whole runs ----------------------------------------------------------------------------

  lemma StepHolds(c: Codec, h: Host, e: Event)
    requires Good(c) && HostInv(c, h)
    ensures HostInv(c, Step(c, h, e)) && Grows(h, Step(c, h, e))
  {
    hide Step; hide Good; hide Represents; hide LinesInv; hide Fencing; hide SignalsInv; hide OutputInv; hide ReleaseInv; hide RepliesInv;
    LinesPending(h);
    StepReplay(c, h, e);
    StepLines(c, h, e);
    StepFencing(c, h, e);
    StepSignals(c, h, e);
    StepOutput(c, h, e);
    StepRelease(c, h, e);
    StepGrows(c, h, e);
    StepReplies(c, h, e);
  }

  lemma LinesPending(h: Host)
    requires LinesInv(h)
    ensures WritesPending(h)
  {}

  function LaunchBodies(openingLine: string): seq<Body> {
    [HostStarted, ProviderStarted, Input(OPENING_ID, openingLine)]
  }

  lemma BlankStore(c: Codec)
    ensures Represents(c, Blank.store) && Blank.store.recorded == []
  {}

  lemma LaunchAppends(c: Codec, openingLine: string, rooms: seq<nat>)
    requires Good(c)
    ensures Appends(Blank.(openingLine := openingLine), Launched(c, openingLine, rooms), LaunchBodies(openingLine))
    ensures Represents(c, Launched(c, openingLine, rooms).store)
  {
    hide AppendFrame; hide Appends; hide Represents; hide Good;
    BlankStore(c);
    var h0 := Blank.(openingLine := openingLine);
    var h1 := AppendFrame(c, h0, HostStarted, Room(rooms, 0));
    var h2 := AppendFrame(c, h1, ProviderStarted, Room(rooms, 1));
    var h3 := AppendFrame(c, h2, Input(OPENING_ID, openingLine), Room(rooms, 2));
    AppendsOne(c, h0, HostStarted, Room(rooms, 0));
    AppendsOne(c, h1, ProviderStarted, Room(rooms, 1));
    AppendsOne(c, h2, Input(OPENING_ID, openingLine), Room(rooms, 2));
    AppendsChain(h0, h1, h2, [HostStarted], [ProviderStarted]);
    AppendsChain(h0, h2, h3, [HostStarted] + [ProviderStarted], [Input(OPENING_ID, openingLine)]);
    assert [HostStarted] + [ProviderStarted] + [Input(OPENING_ID, openingLine)] == LaunchBodies(openingLine);
  }

  /** What the invariants need to know of the host when its program reaches the first await. */
  ghost predicate Opened(h: Host, openingLine: string) {
    && h.attachments == [] && h.writes == [] && h.stdin == [] && h.signals == [] && h.replies == [] && h.authors == []
    && h.attached == None && h.exit == None && h.stdoutRest == "" && h.heard == "" && !h.released
    && h.receipts == map[OPENING_ID := Pending(3)] && h.openingLine == openingLine
    && (h.opening == WaitingForDisk || (h.opening == Ready && h.store.persisted == 3))
    && |h.store.recorded| == 3
    && (forall i :: 0 <= i < 3 ==> h.store.recorded[i].body == LaunchBodies(openingLine)[i])
  }

  lemma LaunchOpens(c: Codec, launched: Host, openingLine: string)
    requires Appends(Blank.(openingLine := openingLine), launched, LaunchBodies(openingLine)) && Represents(c, launched.store)
    ensures Opened(launched.(receipts := map[OPENING_ID := Pending(launched.store.sequence)],
                             opening := if launched.store.unwritten == [] then Ready else WaitingForDisk), openingLine)
  {
    WithinRecord(c, launched.store);
    if launched.store.unwritten == [] { AllPersisted(c, launched.store); }
    hide Represents; hide HostReplay.SameAttachments;
    forall i | 0 <= i < 3 ensures launched.store.recorded[0 + i].body == LaunchBodies(openingLine)[i] {}
  }

  lemma StartOpened(c: Codec, openingLine: string, rooms: seq<nat>)
    requires Good(c)
    ensures Represents(c, Start(c, openingLine, rooms).store) && Opened(Start(c, openingLine, rooms), openingLine)
  {
    LaunchAppends(c, openingLine, rooms);
    LaunchOpens(c, Launched(c, openingLine, rooms), openingLine);
    hide Represents; hide AppendFrame; hide Opened;
  }

  /** The state the host reaches before its first event. */
  lemma StartHolds(c: Codec, openingLine: string, rooms: seq<nat>)
    requires Good(c)
    ensures HostInv(c, Start(c, openingLine, rooms))
  {
    StartOpened(c, openingLine, rooms);
    hide Start; hide Represents;
    OpenedHolds(c, Start(c, openingLine, rooms), openingLine);
  }

  lemma OpenedHolds(c: Codec, h: Host, openingLine: string)
    requires Represents(c, h.store) && Opened(h, openingLine)
    ensures HostInv(c, h)
  {
    hide Represents;
    assert ReplayInv(c, h);
    OpenedLines(h, openingLine);
    StartOutput(h);
    hide LinesInv; hide Fencing; hide OutputInv;
  }

  lemma OpenedLines(h: Host, openingLine: string)
    requires Opened(h, openingLine)
    ensures LinesInv(h) && Fencing(h) && SignalsInv(h)
  {
    var rec := h.store.recorded;
    forall i | 0 <= i < |rec| ensures InputNamed(h, rec[i].body, i + 1) {}
    assert InputsMatch(h);
    assert OutcomesMatch(h);
    assert OpeningOwed(h);
  }

  lemma StartOutput(h: Host)
    requires NoOutput(BodiesOf(h.store.recorded)) && |h.store.recorded| == 3
    requires h.exit == None && h.heard == "" && h.stdoutRest == "" && !h.released
    ensures OutputInv(h) && ReleaseInv(h)
  {
    NoOutputLines(BodiesOf(h.store.recorded));
  }

  /** After any sequence of events the invariant holds, and nothing of the earlier state was undone. */
  lemma {:induction false} RunHolds(c: Codec, h: Host, events: seq<Event>)
    requires Good(c) && HostInv(c, h)
    ensures HostInv(c, Run(c, h, events)) && Grows(h, Run(c, h, events))
    decreases |events|
  {
    hide HostInv; hide Grows; hide Step; hide Good;
    if events == [] {
      NothingGrows(h);
    } else {
      StepHolds(c, h, events[0]);
      RunHolds(c, Step(c, h, events[0]), events[1..]);
      GrowsChain(h, Step(c, h, events[0]), Run(c, h, events));
    }
  }
}
