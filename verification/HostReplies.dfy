/** Every receipt the host has sent stays true: it is the id's receipt now, or it said `pending` and
    the id has since settled. */
module HostReplies {
  import opened Wrappers
  import opened Journal
  import opened HostState
  import opened HostSteps
  import opened HostFencing
  import Lines

  ghost predicate ReplyTrue(receipts: map<string, Receipt>, reply: Reply) {
    reply.Receipt? ==> reply.id in receipts && Advances(reply.receipt, receipts[reply.id])
  }

  ghost predicate RepliesInv(h: Host) {
    forall n :: 0 <= n < |h.replies| ==> ReplyTrue(h.receipts, h.replies[n].1)
  }

  /** The replies `k` adds to `h` are `k`'s own receipts. */
  ghost predicate NewRepliesTrue(h: Host, k: Host) {
    && h.replies <= k.replies
    && forall n :: |h.replies| <= n < |k.replies| && k.replies[n].1.Receipt? ==>
         k.replies[n].1.id in k.receipts && k.receipts[k.replies[n].1.id] == k.replies[n].1.receipt
  }

  lemma RepliesStep(h: Host, k: Host)
    requires RepliesInv(h) && Grows(h, k) && NewRepliesTrue(h, k)
    ensures RepliesInv(k)
  {
    forall n | 0 <= n < |k.replies| ensures ReplyTrue(k.receipts, k.replies[n].1) {
      if n < |h.replies| { assert ReplyTrue(h.receipts, h.replies[n].1); }
    }
  }

  lemma CloseReplies(h: Host, conn: nat, id: string)
    ensures NewRepliesTrue(h, ActingBase(h, conn, id, CloseInput(id), false))
  {
    hide NewRepliesTrue;
    var r := Done(h.store.sequence + 1);
    OneReplyTrue(h, ActingBase(h, conn, id, CloseInput(id), false), (conn, Reply.Receipt(id, r)));
  }

  lemma SignalReplies(h: Host, conn: nat, id: string, signal: ProcessSignal, delivered: bool)
    ensures NewRepliesTrue(h, ActingBase(h, conn, id, SendSignal(id, Some(signal)), delivered))
  {
    hide NewRepliesTrue;
    var r := SignalReceipt(h.store.sequence + 1, h.exit == None && delivered);
    OneReplyTrue(h, ActingBase(h, conn, id, SendSignal(id, Some(signal)), delivered), (conn, Reply.Receipt(id, r)));
  }

  lemma ReceiptlessReplies(h: Host, conn: nat, reply: Reply)
    requires !reply.Receipt?
    ensures NewRepliesTrue(h, AddReply(h, conn, reply))
    ensures NewRepliesTrue(h, AddReply(h, conn, reply).(released := true, left := true, authors := By(h, conn)))
  {
    hide NewRepliesTrue;
    OneReplyTrue(h, AddReply(h, conn, reply), (conn, reply));
    OneReplyTrue(h, AddReply(h, conn, reply).(released := true, left := true, authors := By(h, conn)), (conn, reply));
  }

  lemma ActingReplies(h: Host, conn: nat, id: string, command: Command, delivered: bool)
    requires id == CommandId(command)
    ensures NewRepliesTrue(h, ActingBase(h, conn, id, command, delivered))
  {
    hide NewRepliesTrue; hide AddReply;
    ReceiptlessReplies(h, conn, RefusedReply(UnknownOperation));
    match command
    case CloseInput(_) => CloseReplies(h, conn, id);
    case SendSignal(_, signal) =>
      if signal == None { ReceiptlessReplies(h, conn, RefusedReply(NotASignal)); }
      else { SignalReplies(h, conn, id, signal.value, delivered); }
    case Release(_) =>
      ReceiptlessReplies(h, conn, RefusedReply(StillRunning));
      ReceiptlessReplies(h, conn, RefusedReply(NotOnDisk));
      ReceiptlessReplies(h, conn, ReleasedReply(id));
    case _ =>
  }

  lemma OneReplyTrue(h: Host, k: Host, reply: (nat, Reply))
    requires k.replies == h.replies + [reply]
    requires reply.1.Receipt? ==> reply.1.id in k.receipts && k.receipts[reply.1.id] == reply.1.receipt
    ensures NewRepliesTrue(h, k)
  {}

  lemma AttachReplies(h: Host, conn: nat, protocol: int, from: int)
    ensures NewRepliesTrue(h, OnAttach(h, conn, protocol, from))
  {}

  lemma CommandReplies(h: Host, conn: nat, command: Command, delivered: bool)
    ensures NewRepliesTrue(h, CommandBase(h, conn, command, delivered))
  {
    hide ActingBase; hide OnAttach;
    var id := CommandId(command);
    if command.Attach? { AttachReplies(h, conn, command.protocol, command.from); }
    ActingReplies(h, conn, id, command, delivered);
  }

  lemma BaseReplies(h: Host, e: Event)
    requires NeutralBodies(h, e).Some?
    ensures NewRepliesTrue(h, NeutralBase(h, e))
  {
    hide CommandBase; hide CommandBodies; hide Lines.Split;
    if e.CommandFrom? { CommandReplies(h, e.conn, e.command, e.delivered); }
  }

  lemma NeutralReplies(c: Codec, h: Host, e: Event)
    requires Good(c) && Represents(c, h.store) && !h.left && NeutralBodies(h, e).Some?
    ensures NewRepliesTrue(h, Step(c, h, e))
  {
    hide Step; hide NeutralBase; hide NeutralBodies; hide Represents; hide Good; hide Appends;
    NeutralEvent(c, h, e);
    BaseReplies(h, e);
    AppendsFields(NeutralBase(h, e), Step(c, h, e), NeutralBodies(h, e).value);
  }

  lemma CallbackNewReplies(c: Codec, h: Host, n: nat, ok: bool, rooms: seq<nat>)
    requires Good(c) && Represents(c, h.store)
    ensures NewRepliesTrue(h, OnStdinCallback(c, h, n, ok, rooms))
  {
    hide AppendFrame; hide Represents; hide Good; hide Appends;
    if n < |h.writes| {
      var body := if ok then Written(h.writes[n].id) else WriteFailed(h.writes[n].id);
      AppendsOne(c, h, body, Room(rooms, 0));
      AppendsFields(h, AppendFrame(c, h, body, Room(rooms, 0)), [body]);
    }
  }

  lemma SubmitNewReplies(c: Codec, h: Host, conn: nat, id: string, line: Option<string>, rooms: seq<nat>)
    requires Good(c) && Represents(c, h.store)
    ensures NewRepliesTrue(h, OnSubmit(c, h, conn, id, line, rooms))
  {
    hide AppendFrame; hide Represents; hide Good; hide Appends;
    if line != None && '\n' !in line.value {
      AppendsOne(c, h, Input(id, line.value), Room(rooms, 0));
      var recorded := AppendFrame(c, h, Input(id, line.value), Room(rooms, 0));
      AppendsFields(h, recorded, [Input(id, line.value)]);
      var authored := recorded.(authors := h.authors + [Author(recorded.store.sequence, Current(h), conn)]);
      AppendsOne(c, authored, WriteFailed(id), Room(rooms, 1));
      AppendsFields(authored, AppendFrame(c, authored, WriteFailed(id), Room(rooms, 1)), [WriteFailed(id)]);
    }
    hide NewRepliesTrue;
    var k := OnSubmit(c, h, conn, id, line, rooms);
    if k.replies == h.replies { SilentTrue(h, k); } else { OneReplyTrue(h, k, k.replies[|k.replies| - 1]); }
  }

  lemma SilentTrue(h: Host, k: Host)
    requires k.replies == h.replies
    ensures NewRepliesTrue(h, k)
  {}

  lemma StepReplies(c: Codec, h: Host, e: Event)
    requires Good(c) && Represents(c, h.store) && RepliesInv(h) && Grows(h, Step(c, h, e))
    ensures RepliesInv(Step(c, h, e))
  {
    hide Represents; hide Good; hide Grows; hide RepliesInv; hide OnStdinCallback; hide OnSubmit; hide NeutralBodies;
    if !h.left {
      if NeutralBodies(h, e).Some? {
        NeutralReplies(c, h, e);
      } else {
        OtherReplies(c, h, e);
      }
      RepliesStep(h, Step(c, h, e));
    }
  }

  lemma OtherReplies(c: Codec, h: Host, e: Event)
    requires Good(c) && Represents(c, h.store) && !h.left && NeutralBodies(h, e).None?
    ensures NewRepliesTrue(h, Step(c, h, e))
  {
    hide Represents; hide Good; hide OnStdinCallback; hide OnSubmit;
    match e
    case OpeningTurn =>
    case StdinCallback(w, ok, rooms) => CallbackNewReplies(c, h, w, ok, rooms);
    case CommandFrom(conn, command, delivered, rooms) =>
      SubmitNewReplies(c, h, conn, command.id, command.line, rooms);
  }
}
