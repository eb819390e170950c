/** What the answers to one id say together. A submit refused because frames wait for the disk is
    answered `written: false` and forgotten; exactly then can the answers to its id contradict each
    other, and exactly with an open stdin can the refused line still be written. */
module HostAnswers {
  import opened Wrappers
  import opened Journal
  import opened HostState
  import opened HostCommands
  import opened HostSteps
  import opened HostCustody
  import opened HostFencing
  import opened HostReplies
  import opened HostRuns
  import opened HostTheorems
  import HostPipes
  import HostReplay
  import Lines

  /** A final answer to this id: a receipt that is no longer pending, kept or not. */
  predicate FinalFor(reply: Reply, id: string) {
    reply == NotRecorded(id) || (reply.Receipt? && reply.id == id && !reply.receipt.Pending?)
  }

  /** From the `n`th reply on, every final answer to this id is the same one. */
  ghost predicate OneAnswer(replies: seq<(nat, Reply)>, n: nat, id: string) {
    forall i, j | n <= i < |replies| && n <= j < |replies| ::
      FinalFor(replies[i].1, id) && FinalFor(replies[j].1, id) ==> replies[i].1 == replies[j].1
  }

  // ---- a used id is never refused ------------------------------------------------------------

  /** None of the replies `k` adds to `h` refuses this id unrecorded. */
  ghost predicate NoRefusal(h: Host, k: Host, id: string) {
    && h.replies <= k.replies
    && forall n :: |h.replies| <= n < |k.replies| ==> k.replies[n].1 != NotRecorded(id)
  }

  lemma NeutralNoRefusal(c: Codec, h: Host, e: Event, id: string)
    requires Good(c) && Represents(c, h.store) && !h.left && NeutralBodies(h, e).Some?
    ensures NoRefusal(h, Step(c, h, e), id)
  {
    hide Step; hide Represents; hide Good; hide Appends; hide NoRefusal;
    NeutralEvent(c, h, e);
    AppendsFields(NeutralBase(h, e), Step(c, h, e), NeutralBodies(h, e).value);
    BaseNoRefusal(h, e, id);
    SameRefusals(h, NeutralBase(h, e), Step(c, h, e), id);
  }

  lemma SameRefusals(h: Host, base: Host, k: Host, id: string)
    requires NoRefusal(h, base, id) && k.replies == base.replies
    ensures NoRefusal(h, k, id)
  {}

  lemma OneMoreReply(h: Host, k: Host, reply: (nat, Reply), id: string)
    requires k.replies == h.replies || k.replies == h.replies + [reply]
    requires reply.1 != NotRecorded(id)
    ensures NoRefusal(h, k, id)
  {}

  lemma ActingNoRefusal(h: Host, conn: nat, own: string, command: Command, delivered: bool, id: string)
    ensures NoRefusal(h, ActingBase(h, conn, own, command, delivered), id)
  {
    hide NoRefusal;
    var k := ActingBase(h, conn, own, command, delivered);
    var reply :=
      match command
      case CloseInput(_) => Reply.Receipt(own, Done(h.store.sequence + 1))
      case SendSignal(_, signal) =>
        if signal == None then RefusedReply(NotASignal)
        else Reply.Receipt(own, SignalReceipt(h.store.sequence + 1, h.exit == None && delivered))
      case Release(_) =>
        if h.exit == None then RefusedReply(StillRunning)
        else if h.store.unwritten != [] then RefusedReply(NotOnDisk) else ReleasedReply(own)
      case _ => RefusedReply(UnknownOperation);
    OneMoreReply(h, k, (conn, reply), id);
  }

  lemma AttachNoRefusal(h: Host, conn: nat, protocol: int, from: int, id: string)
    ensures NoRefusal(h, OnAttach(h, conn, protocol, from), id)
  {}

  lemma CommandNoRefusal(h: Host, conn: nat, command: Command, delivered: bool, id: string)
    ensures NoRefusal(h, CommandBase(h, conn, command, delivered), id)
  {
    hide ActingBase; hide OnAttach; hide NoRefusal;
    var k, own := CommandBase(h, conn, command, delivered), CommandId(command);
    if command.Attach? {
      AttachNoRefusal(h, conn, command.protocol, command.from, id);
    } else if command.Status? || h.attached != Some(conn) || own == "" || own in h.receipts {
      OneMoreReply(h, k, k.replies[|k.replies| - 1], id);
    } else {
      ActingNoRefusal(h, conn, own, command, delivered, id);
    }
  }

  lemma BaseNoRefusal(h: Host, e: Event, id: string)
    requires NeutralBodies(h, e).Some?
    ensures NoRefusal(h, NeutralBase(h, e), id)
  {
    hide Lines.Split; hide CommandBase; hide CommandBodies; hide NoRefusal;
    if e.CommandFrom? {
      CommandNoRefusal(h, e.conn, e.command, e.delivered, id);
    } else {
      OneMoreReply(h, NeutralBase(h, e), (0, Fenced), id);
    }
  }

  lemma SubmitNoRefusal(c: Codec, h: Host, conn: nat, other: string, line: Option<string>, rooms: seq<nat>, id: string)
    requires Good(c) && Represents(c, h.store) && other != id
    ensures NoRefusal(h, OnSubmit(c, h, conn, other, line, rooms), id)
  {
    hide OnRecordable; hide NoRefusal; hide Represents; hide Good;
    var k := OnSubmit(c, h, conn, other, line, rooms);
    if line.Some? { RecordableReplies(c, h, conn, other, line.value, rooms); }
    OneMoreReply(h, k, if k.replies == h.replies then (0, Fenced) else k.replies[|k.replies| - 1], id);
  }

  /** Journaling leaves receipts, replies and the pipes alone. */
  lemma AppendOnly(c: Codec, h: Host, body: Body, room: nat)
    ensures var k := AppendFrame(c, h, body, room);
      k == h.(store := k.store, attachments := k.attachments, opening := k.opening)
  {
    hide Flush;
  }

  lemma RecordableReplies(c: Codec, h: Host, conn: nat, id: string, line: string, rooms: seq<nat>)
    ensures var k := OnRecordable(c, h, conn, id, line, rooms);
      && id in k.receipts
      && (k.replies == h.replies || exists r :: k.replies == h.replies + [(conn, Reply.Receipt(id, r))])
  {
    hide AppendFrame;
    var recorded := AppendFrame(c, h, Input(id, line), Room(rooms, 0));
    AppendOnly(c, h, Input(id, line), Room(rooms, 0));
    var authored := recorded.(authors := h.authors + [Author(recorded.store.sequence, Current(h), conn)]);
    AppendOnly(c, authored, WriteFailed(id), Room(rooms, 1));
  }

  lemma CallbackNoRefusal(c: Codec, h: Host, n: nat, ok: bool, rooms: seq<nat>, id: string)
    ensures NoRefusal(h, OnStdinCallback(c, h, n, ok, rooms), id)
  {
    hide AppendFrame;
    if n < |h.writes| {
      AppendOnly(c, h, if ok then Written(h.writes[n].id) else WriteFailed(h.writes[n].id), Room(rooms, 0));
    }
  }

  lemma StepNoRefusal(c: Codec, h: Host, e: Event, id: string)
    requires Good(c) && Represents(c, h.store) && id in h.receipts
    ensures NoRefusal(h, Step(c, h, e), id)
  {
    hide Represents; hide Good; hide OnStdinCallback; hide OnSubmit;
    if !h.left {
      if NeutralBodies(h, e).Some? {
        NeutralNoRefusal(c, h, e, id);
      } else {
        match e
        case OpeningTurn =>
        case StdinCallback(w, ok, rooms) => CallbackNoRefusal(c, h, w, ok, rooms, id);
        case CommandFrom(conn, command, delivered, rooms) =>
          SubmitNoRefusal(c, h, conn, command.id, command.line, rooms, id);
      }
    }
  }

  lemma NoRefusalChain(h: Host, k: Host, m: Host, id: string)
    requires NoRefusal(h, k, id) && NoRefusal(k, m, id)
    ensures NoRefusal(h, m, id)
  {}

  /** Once an id has a receipt, no run ever answers it with the unrecorded refusal again. */
  lemma {:induction false} RunNoRefusal(c: Codec, h: Host, events: seq<Event>, id: string)
    requires Good(c) && HostInv(c, h) && id in h.receipts
    ensures NoRefusal(h, Run(c, h, events), id)
    decreases |events|
  {
    hide HostInv; hide Step; hide Good; hide NoRefusal;
    if events == [] {
      SelfNoRefusal(h, id);
    } else {
      var k := Step(c, h, events[0]);
      StepHolds(c, h, events[0]);
      StoreOf(c, h);
      StepNoRefusal(c, h, events[0], id);
      RunNoRefusal(c, k, events[1..], id);
      NoRefusalChain(h, k, Run(c, h, events), id);
    }
  }

  lemma SelfNoRefusal(h: Host, id: string)
    ensures NoRefusal(h, h, id)
  {}

  lemma StoreOf(c: Codec, h: Host)
    requires HostInv(c, h)
    ensures Represents(c, h.store) && RepliesInv(h) && LinesInv(h)
  {}

  /** So from there on all its final answers agree. */
  lemma UsedIdHasOneAnswer(c: Codec, h: Host, k: Host, events: seq<Event>, id: string)
    requires Good(c) && HostInv(c, k) && id in k.receipts && NoRefusal(h, k, id)
    ensures OneAnswer(Run(c, k, events).replies, |h.replies|, id)
  {
    hide HostInv; hide Run; hide Good; hide Grows;
    var m := Run(c, k, events);
    RunHolds(c, k, events);
    RunNoRefusal(c, k, events, id);
    NoRefusalChain(h, k, m, id);
    StoreOf(c, m);
    hide LinesInv; hide Represents;
    forall i, j | |h.replies| <= i < |m.replies| && |h.replies| <= j < |m.replies|
      && FinalFor(m.replies[i].1, id) && FinalFor(m.replies[j].1, id)
      ensures m.replies[i].1 == m.replies[j].1
    {
      assert ReplyTrue(m.receipts, m.replies[i].1) && ReplyTrue(m.receipts, m.replies[j].1);
    }
  }

  // ---- short runs ----------------------------------------------------------------------------

  lemma {:induction false} RunJoin(c: Codec, h: Host, a: seq<Event>, b: seq<Event>)
    ensures Run(c, h, a + b) == Run(c, Run(c, h, a), b)
    decreases |a|
  {
    hide Step;
    if a == [] {
      assert a + b == b;
    } else {
      RunJoin(c, Step(c, h, a[0]), a[1..], b);
      assert (a + b)[1..] == a[1..] + b;
    }
  }

  lemma RunAfter(c: Codec, h: Host, e: Event, events: seq<Event>)
    ensures Run(c, h, [e] + events) == Run(c, Step(c, h, e), events)
  {
    hide Step;
    assert ([e] + events)[1..] == events;
  }

  lemma RunTwo(c: Codec, h: Host, a: Event, b: Event)
    ensures Run(c, h, [a, b]) == Step(c, Step(c, h, a), b)
  {
    hide Step;
    assert [a, b] == [a] + [b] && [b] == [b] + [];
    RunAfter(c, h, a, [b]);
    RunAfter(c, Step(c, h, a), b, []);
  }

  lemma RunFour(c: Codec, h: Host, a: Event, b: Event, d: Event, e: Event)
    ensures Run(c, h, [a, b] + [d, e]) == Step(c, Step(c, Step(c, Step(c, h, a), b), d), e)
  {
    hide Step; hide Run;
    RunJoin(c, h, [a, b], [d, e]);
    RunTwo(c, h, a, b);
    RunTwo(c, Step(c, Step(c, h, a), b), d, e);
  }

  // ---- the run that answers twice ------------------------------------------------------------

  /** The disk has room again: one retry writes everything owed. */
  lemma Retried(c: Codec, h: Host) returns (retry: Event)
    requires Good(c) && Represents(c, h.store) && !h.left
    ensures retry.DiskRetry?
    ensures var k := Step(c, h, retry);
      && k == h.(store := k.store, attachments := k.attachments,
                 opening := if h.opening == WaitingForDisk then Ready else h.opening)
      && k.store.unwritten == [] && k.store.sequence == h.store.sequence && Represents(c, k.store)
  {
    var room := |Owed(c, h.store)|;
    retry := DiskRetry(room);
    FlushWrites(c, h.store, room);
    FlushKeeps(c, h.store, room);
    hide Flush; hide Represents; hide Owed;
  }

  /** A submit with nothing waiting and room for its frame: recorded, handed over, not yet answered. */
  lemma SubmittedWhole(c: Codec, h: Host, conn: nat, id: string, line: string, delivered: bool) returns (submit: Event)
    requires Good(c) && Represents(c, h.store) && !h.left && h.attached == Some(conn) && h.store.unwritten == []
    requires id != "" && id !in h.receipts && '\n' !in line
    ensures submit.CommandFrom? && submit == CommandFrom(conn, Submit(id, Some(line)), delivered, submit.rooms)
    ensures var k, n := Step(c, h, submit), h.store.sequence + 1;
      && k.writes == h.writes + [Write(id, n, Some(conn), h.stdinOpen)] && k.replies == h.replies && !k.left
      && k.stdin == (if h.stdinOpen then h.stdin + [StdinLine(id, line, n)] else h.stdin)
  {
    var j := Record(h.store, Input(id, line));
    var room := |Owed(c, j)|;
    submit := CommandFrom(conn, Submit(id, Some(line)), delivered, [room]);
    RecordKeeps(c, h.store, Input(id, line));
    FlushWrites(c, j, room);
    FlushKeeps(c, j, room);
    hide Represents; hide Owed;
    var recorded := AppendFrame(c, h, Input(id, line), room);
    AppendOnly(c, h, Input(id, line), room);
    assert recorded.store == Flush(c, j, room) by { hide Flush; }
    hide AppendFrame;
    assert Room([room], 0) == room;
  }

  /** The callback of a line handed to an open stdin, or the rejection of one that found it closed. */
  function Settlement(w: Write): Receipt {
    if w.handed then Accepted(w.seqNo) else Failed(w.seqNo, StdinClosed)
  }

  lemma Answered(c: Codec, h: Host, n: nat)
    requires !h.left && n < |h.writes| && h.writes[n].conn.Some?
    ensures var w, k := h.writes[n], Step(c, h, StdinCallback(n, h.writes[n].handed, []));
      k.replies == h.replies + [(w.conn.value, Reply.Receipt(w.id, Settlement(w)))] && k.stdin == h.stdin
  {
    var w := h.writes[n];
    AppendOnly(c, h, if w.handed then Written(w.id) else WriteFailed(w.id), Room([], 0));
    hide AppendFrame;
  }

  /** With frames waiting: the submit is answered as not written; the disk recovers; the same id,
      submitted again, is written to an open stdin and answered as written. */
  lemma RefusedThenAnswered(c: Codec, h: Host, conn: nat, id: string, line: string, delivered: bool)
    returns (events: seq<Event>)
    requires Good(c) && Represents(c, h.store) && !h.left && h.attached == Some(conn) && h.store.unwritten != []
    requires id != "" && id !in h.receipts && '\n' !in line
    ensures var n := h.store.sequence + 1;
      var m := Run(c, h, [CommandFrom(conn, Submit(id, Some(line)), delivered, [])] + events);
      && m.replies == h.replies
           + [(conn, NotRecorded(id)), (conn, Reply.Receipt(id, Settlement(Write(id, n, Some(conn), h.stdinOpen))))]
      && m.stdin == if h.stdinOpen then h.stdin + [StdinLine(id, line, n)] else h.stdin
  {
    hide Step; hide Represents; hide Good; hide Run; hide Settlement;
    var first := CommandFrom(conn, Submit(id, Some(line)), delivered, []);
    SubmitUsesItsIdExactly(c, h, conn, id, line, delivered, []);
    var k := Step(c, h, first);
    var retry := Retried(c, k);
    var again := SubmittedWhole(c, Step(c, k, retry), conn, id, line, delivered);
    var q := Step(c, Step(c, k, retry), again);
    var settled := StdinCallback(|h.writes|, h.stdinOpen, []);
    assert q.writes[|h.writes|] == Write(id, h.store.sequence + 1, Some(conn), h.stdinOpen);
    Answered(c, q, |h.writes|);
    events := [retry, again, settled];
    assert [first] + events == [first, retry] + [again, settled];
    RunFour(c, h, first, retry, again, settled);
  }

  /** The submit that finds nothing waiting uses its id: recorded or failed, it has a receipt. */
  lemma UsesItsId(c: Codec, h: Host, conn: nat, id: string, line: string, delivered: bool, rooms: seq<nat>)
    requires !h.left && h.attached == Some(conn) && h.store.unwritten == []
    requires id != "" && id !in h.receipts && '\n' !in line
    ensures var k := Step(c, h, CommandFrom(conn, Submit(id, Some(line)), delivered, rooms));
      id in k.receipts && NoRefusal(h, k, id)
  {
    RecordableReplies(c, h, conn, id, line, rooms);
    hide OnRecordable; hide NoRefusal;
    var k := OnRecordable(c, h, conn, id, line, rooms);
    OneMoreReply(h, k, if k.replies == h.replies then (0, Fenced) else k.replies[|k.replies| - 1], id);
  }

  lemma TwoAnswers(h: Host, m: Host, conn: nat, id: string, w: Write)
    requires m.replies == h.replies + [(conn, NotRecorded(id)), (conn, Reply.Receipt(id, Settlement(w)))]
    ensures !OneAnswer(m.replies, |h.replies|, id)
  {
    assert m.replies[|h.replies|].1 == NotRecorded(id) && FinalFor(m.replies[|h.replies|].1, id);
    assert FinalFor(m.replies[|h.replies| + 1].1, id);
  }

  /** The first final answer to a new id's one-line submit is its answer in every later run, whatever
      coordinators repeat it, exactly when no frame waited for the disk at that submit. */
  lemma FirstAnswerStandsExactly(c: Codec, h: Host, conn: nat, id: string, line: string,
                                 delivered: bool, rooms: seq<nat>)
    requires Good(c) && Reachable(c, h) && !h.left && h.attached == Some(conn)
    requires id != "" && id !in h.receipts && '\n' !in line
    ensures var k := Step(c, h, CommandFrom(conn, Submit(id, Some(line)), delivered, rooms));
      h.store.unwritten == [] <==> forall events :: OneAnswer(Run(c, k, events).replies, |h.replies|, id)
  {
    hide Reachable; hide HostInv; hide Step; hide Run; hide OneAnswer; hide NoRefusal; hide Good;
    hide Represents; hide HostReplay.ReplayInv; hide LinesInv; hide Fencing;
    hide SignalsInv; hide OutputInv; hide ReleaseInv; hide RepliesInv;
    ReachableHolds(c, h);
    var e := CommandFrom(conn, Submit(id, Some(line)), delivered, rooms);
    var k := Step(c, h, e);
    if h.store.unwritten == [] {
      StepHolds(c, h, e);
      UsesItsId(c, h, conn, id, line, delivered, rooms);
      forall events ensures OneAnswer(Run(c, k, events).replies, |h.replies|, id) {
        UsedIdHasOneAnswer(c, h, k, events, id);
      }
    } else {
      var events := RefusedThenAnswered(c, h, conn, id, line, delivered);
      RefusedAlike(c, h, conn, id, line, delivered, rooms, events);
      TwoAnswers(h, Run(c, k, events), conn, id, Write(id, h.store.sequence + 1, Some(conn), h.stdinOpen));
    }
  }

  /** A refused submit asks nothing of the disk. */
  lemma RefusedAlike(c: Codec, h: Host, conn: nat, id: string, line: string,
                     delivered: bool, rooms: seq<nat>, events: seq<Event>)
    requires !h.left && h.attached == Some(conn) && h.store.unwritten != []
    requires id != "" && id !in h.receipts && '\n' !in line
    ensures Run(c, h, [CommandFrom(conn, Submit(id, Some(line)), delivered, [])] + events)
         == Run(c, Step(c, h, CommandFrom(conn, Submit(id, Some(line)), delivered, rooms)), events)
  {
    SubmitUsesItsIdExactly(c, h, conn, id, line, delivered, []);
    SubmitUsesItsIdExactly(c, h, conn, id, line, delivered, rooms);
    hide Step;
    var first := CommandFrom(conn, Submit(id, Some(line)), delivered, []);
    assert ([first] + events)[0] == first && ([first] + events)[1..] == events;
  }

  /** A submit answered as not written, because frames waited, can still be written in some later run
      exactly when stdin is open. */
  lemma RefusedLineReachesStdinExactly(c: Codec, h: Host, conn: nat, id: string, line: string,
                                       delivered: bool, rooms: seq<nat>)
    requires Good(c) && Reachable(c, h) && !h.left && h.attached == Some(conn) && h.store.unwritten != []
    requires id != "" && id !in h.receipts && '\n' !in line
    ensures var k := Step(c, h, CommandFrom(conn, Submit(id, Some(line)), delivered, rooms));
      && k.replies == h.replies + [(conn, NotRecorded(id))]
      && (h.stdinOpen <==> exists events :: InStdin(Run(c, k, events).stdin, id))
  {
    hide Reachable; hide HostInv; hide Step; hide Run; hide Good; hide Represents; hide HostReplay.ReplayInv;
    hide LinesInv; hide Fencing; hide SignalsInv; hide OutputInv; hide ReleaseInv; hide RepliesInv;
    ReachableHolds(c, h);
    SubmitUsesItsIdExactly(c, h, conn, id, line, delivered, rooms);
    var k := Step(c, h, CommandFrom(conn, Submit(id, Some(line)), delivered, rooms));
    if h.stdinOpen {
      var events := RefusedThenAnswered(c, h, conn, id, line, delivered);
      RefusedAlike(c, h, conn, id, line, delivered, rooms, events);
      assert Run(c, k, events).stdin[|h.stdin|].id == id;
    } else {
      FreeIdNotInStdin(h, id);
      forall events ensures !InStdin(Run(c, k, events).stdin, id) {
        HostPipes.OverStaysOver(c, k, events);
      }
    }
  }

  lemma FreeIdNotInStdin(h: Host, id: string)
    requires LinesInv(h) && id !in h.receipts
    ensures !InStdin(h.stdin, id)
  {
    forall m | 0 <= m < |h.stdin| ensures h.stdin[m].id != id {
      assert Backed(h, h.stdin[m]);
    }
  }

  // ---- the failing run, from the launch on ---------------------------------------------------

  /** Without room the first waiting frame stays where it is. */
  lemma NoRoom(c: Codec, j: Store)
    requires Good(c) && j.unwritten != [] && j.offset == 0
    ensures Flush(c, j, 0) == j
  {
    var left := Drop(c.encode(j.unwritten[0]), 0);
    assert 0 < |c.encode(j.unwritten[0])| == |left|;
    assert j.file + left[..0] == j.file;
  }

  /** The host launched on a full disk: its three frames recorded and none written. */
  ghost predicate FullDisk(c: Codec, h: Host, openingLine: string) {
    && Represents(c, h.store) && h.store.unwritten != [] && h.store.sequence == 3 && h.store.persisted == 0
    && h.stdinOpen && !h.left && h.attached == None && h.stdin == [] && h.replies == [] && h.writes == []
    && h.receipts == map[OPENING_ID := Pending(3)] && h.opening == WaitingForDisk && h.openingLine == openingLine
  }

  lemma LaunchedWithoutRoom(c: Codec, openingLine: string)
    requires Good(c)
    ensures FullDisk(c, Start(c, openingLine, []), openingLine)
  {
    StartHolds(c, openingLine, []);
    StoreOf(c, Start(c, openingLine, []));
    hide Represents; hide HostInv; hide LinesInv; hide RepliesInv;
    var s1 := Record(EmptyStore, HostStarted);
    var s2 := Record(s1, ProviderStarted);
    NoRoom(c, s1);
    NoRoom(c, s2);
    NoRoom(c, Record(s2, Input(OPENING_ID, openingLine)));
    hide Flush;
  }

  /** After the refusal of one submit, the retry and the opening input: an attached host with nothing
      waiting, where the refused id is still free. */
  ghost predicate Recovered(c: Codec, h: Host, openingLine: string, conn: nat, id: string) {
    && Represents(c, h.store) && h.store.unwritten == [] && h.store.sequence == 3 && !h.left
    && h.attached == Some(conn) && h.stdinOpen && h.receipts == map[OPENING_ID := Pending(3)]
    && h.writes == [Write(OPENING_ID, 3, None, true)] && h.stdin == [StdinLine(OPENING_ID, openingLine, 3)]
    && h.replies == [(conn, AttachedReply(0)), (conn, NotRecorded(id))]
  }

  /** The launched host with its first connection, whose submit was just refused. */
  ghost predicate Waiting(c: Codec, h: Host, openingLine: string, conn: nat, id: string) {
    && Represents(c, h.store) && h.store.unwritten != [] && h.store.sequence == 3 && !h.left
    && h.attached == Some(conn) && h.stdinOpen && h.receipts == map[OPENING_ID := Pending(3)]
    && h.writes == [] && h.stdin == [] && h.opening == WaitingForDisk && h.openingLine == openingLine
    && h.replies == [(conn, AttachedReply(0)), (conn, NotRecorded(id))]
  }

  lemma UpToRefusal(c: Codec, h: Host, openingLine: string, conn: nat, id: string, line: string)
    requires Good(c) && id != "" && id != OPENING_ID && '\n' !in line && FullDisk(c, h, openingLine)
    ensures var attach := CommandFrom(conn, Attach(PROTOCOL, 1), true, []);
      var submit := CommandFrom(conn, Submit(id, Some(line)), true, []);
      Waiting(c, Step(c, Step(c, h, attach), submit), openingLine, conn, id)
  {
    hide Represents; hide Good; hide Step;
    AttachedFirst(c, h, conn);
    SubmitUsesItsIdExactly(c, Step(c, h, CommandFrom(conn, Attach(PROTOCOL, 1), true, [])), conn, id, line, true, []);
  }

  lemma FromRefusal(c: Codec, h: Host, openingLine: string, conn: nat, id: string) returns (retry: Event)
    requires Good(c) && Waiting(c, h, openingLine, conn, id)
    ensures Recovered(c, Step(c, Step(c, h, retry), OpeningTurn), openingLine, conn, id)
  {
    hide Represents; hide Good; hide Step;
    retry := Retried(c, h);
    OpeningWritten(c, Step(c, h, retry));
  }

  lemma UpToRecovery(c: Codec, h: Host, openingLine: string, conn: nat, id: string, line: string)
    returns (events: seq<Event>)
    requires Good(c) && id != "" && id != OPENING_ID && '\n' !in line && h == Start(c, openingLine, [])
    ensures Recovered(c, Run(c, h, events), openingLine, conn, id)
  {
    hide Good; hide Step; hide Start; hide Run; hide Waiting; hide Recovered; hide FullDisk;
    LaunchedWithoutRoom(c, openingLine);
    UpToRefusal(c, h, openingLine, conn, id, line);
    var attach := CommandFrom(conn, Attach(PROTOCOL, 1), true, []);
    var submit := CommandFrom(conn, Submit(id, Some(line)), true, []);
    var retry := FromRefusal(c, Step(c, Step(c, h, attach), submit), openingLine, conn, id);
    events := [attach, submit] + [retry, OpeningTurn];
    RunFour(c, h, attach, submit, retry, OpeningTurn);
  }

  lemma AfterRecovery(c: Codec, h: Host, openingLine: string, conn: nat, id: string, line: string)
    returns (events: seq<Event>)
    requires Good(c) && id != "" && id != OPENING_ID && '\n' !in line && Recovered(c, h, openingLine, conn, id)
    ensures var m := Run(c, h, events);
      && m.replies == [(conn, AttachedReply(0)), (conn, NotRecorded(id)), (conn, Reply.Receipt(id, Accepted(4)))]
      && m.stdin == [StdinLine(OPENING_ID, openingLine, 3), StdinLine(id, line, 4)]
  {
    hide Represents; hide Good; hide Run; hide Step;
    var again := SubmittedWhole(c, h, conn, id, line, true);
    var settled := StdinCallback(1, true, []);
    var k := Step(c, h, again);
    Answered(c, k, 1);
    events := [again, settled];
    RunTwo(c, h, again, settled);
  }

  /** The promise that a repeated id returns the first receipt and never writes again fails from such a
      launch on: attached, refused as not written, the disk recovers, the opening input goes out, and
      the same submit is written and answered as written. */
  lemma RefusedThenWritten(c: Codec, openingLine: string, conn: nat, id: string, line: string)
    returns (events: seq<Event>)
    requires Good(c) && id != "" && id != OPENING_ID && '\n' !in line
    ensures var m := Run(c, Start(c, openingLine, []), events);
      && m.replies == [(conn, AttachedReply(0)), (conn, NotRecorded(id)), (conn, Reply.Receipt(id, Accepted(4)))]
      && m.stdin == [StdinLine(OPENING_ID, openingLine, 3), StdinLine(id, line, 4)]
  {
    hide Start; hide Run; hide Good; hide Recovered;
    var h := Start(c, openingLine, []);
    var before := UpToRecovery(c, h, openingLine, conn, id, line);
    var after := AfterRecovery(c, Run(c, h, before), openingLine, conn, id, line);
    events := before + after;
    RunJoin(c, h, before, after);
  }

  lemma AttachedFirst(c: Codec, h: Host, conn: nat)
    requires !h.left && h.attached == None && h.store.persisted == 0 && h.replies == []
    ensures var k := Step(c, h, CommandFrom(conn, Attach(PROTOCOL, 1), true, []));
      && k == h.(attached := Some(conn), attachments := k.attachments, replies := [(conn, AttachedReply(0))])
  {}

  lemma OpeningWritten(c: Codec, h: Host)
    requires !h.left && h.opening == Ready && OPENING_ID in h.receipts && h.stdinOpen
    ensures var n := h.receipts[OPENING_ID].seqNo;
      Step(c, h, OpeningTurn) == h.(opening := Handed, stdin := h.stdin + [StdinLine(OPENING_ID, h.openingLine, n)],
                                    writes := h.writes + [Write(OPENING_ID, n, None, true)])
  {}

  // ---- the opening input ---------------------------------------------------------------------

  /** When the journal could be written at launch, the promise the opening input waits for is already
      kept, so its turn comes before anything else; and then, in every such run, the opening line is the
      first line in stdin. */
  lemma OpeningFirst(c: Codec, openingLine: string, rooms: seq<nat>, events: seq<Event>)
    requires Good(c) && Start(c, openingLine, rooms).opening == Ready
    ensures var m := Run(c, Start(c, openingLine, rooms), [OpeningTurn] + events);
      m.stdin != [] && m.stdin[0] == StdinLine(OPENING_ID, openingLine, 3)
  {
    var h := Start(c, openingLine, rooms);
    StartHolds(c, openingLine, rooms);
    StartsOpen(c, openingLine, rooms);
    hide Start; hide HostInv; hide Good; hide Step; hide Run;
    OpeningWritten(c, h);
    StepHolds(c, h, OpeningTurn);
    RunHolds(c, Step(c, h, OpeningTurn), events);
    RunAfter(c, h, OpeningTurn, events);
  }

  lemma StartsOpen(c: Codec, openingLine: string, rooms: seq<nat>)
    requires Good(c)
    ensures var h := Start(c, openingLine, rooms);
      h.stdinOpen && !h.left && h.stdin == [] && h.openingLine == openingLine
      && h.receipts == map[OPENING_ID := Pending(3)]
  {
    LaunchAppends(c, openingLine, rooms);
    AppendsFields(Blank.(openingLine := openingLine), Launched(c, openingLine, rooms), LaunchBodies(openingLine));
    WithinRecord(c, Launched(c, openingLine, rooms).store);
    hide Launched; hide Represents;
  }
}
