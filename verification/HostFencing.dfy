/** Fencing between coordinators, signals, and what only ever grows, as invariants of every step. */
module HostFencing {
  import opened Wrappers
  import opened Journal
  import opened HostState
  import opened HostCommands
  import opened HostSteps
  import opened HostCustody

  // ---- fencing -------------------------------------------------------------------------------

  /** The author's attachment was the newest one, and its connection the attached one, when its
      command's frame was journaled. */
  ghost predicate AuthorOk(h: Host, a: Author) {
    && a.attachment < |h.attachments| && h.attachments[a.attachment].conn == a.conn
    && h.attachments[a.attachment].since < a.seqNo <= |h.store.recorded|
    && (a.attachment + 1 < |h.attachments| ==> a.seqNo <= h.attachments[a.attachment + 1].since)
    && CommandBody(h.store.recorded[a.seqNo - 1].body)
  }

  ghost predicate AuthorsOrdered(authors: seq<Author>) {
    forall m, n :: 0 <= m < n < |authors| ==>
      authors[m].seqNo < authors[n].seqNo && authors[m].attachment <= authors[n].attachment
  }

  ghost predicate AttachmentsOrdered(h: Host) {
    && (forall i :: 0 <= i < |h.attachments| ==> h.attachments[i].since <= |h.store.recorded|)
    && (forall i, j :: 0 <= i < j < |h.attachments| ==> h.attachments[i].since <= h.attachments[j].since)
    && (h.attached != None ==>
          h.attachments != [] && h.attachments[|h.attachments| - 1].conn == h.attached.value)
  }

  ghost predicate Authored(authors: seq<Author>, n: nat) {
    exists m :: 0 <= m < |authors| && authors[m].seqNo == n
  }

  /** The frames a coordinator's command journals: every input but the opening one, every close of
      stdin, signal and release. */
  predicate CommandBody(b: Body) {
    (b.Input? && b.id != OPENING_ID) || b.InputClosed? || b.Signalled? || b.Released?
  }

  /** Every such frame in the journal has its author. */
  ghost predicate CommandsAuthored(h: Host) {
    forall i :: 0 <= i < |h.store.recorded| && CommandBody(h.store.recorded[i].body) ==> Authored(h.authors, i + 1)
  }

  ghost predicate Fencing(h: Host) {
    && (forall n :: 0 <= n < |h.authors| ==> AuthorOk(h, h.authors[n]))
    && AuthorsOrdered(h.authors)
    && AttachmentsOrdered(h)
    && CommandsAuthored(h)
  }

  ghost predicate NoCommand(bodies: seq<Body>) {
    forall i :: 0 <= i < |bodies| ==> !CommandBody(bodies[i])
  }

  /** The first of these frames is a command's, and no other. */
  ghost predicate OneCommand(bodies: seq<Body>) {
    bodies != [] && CommandBody(bodies[0]) && NoCommand(bodies[1..])
  }

  lemma FencingQuiet(h: Host, base: Host, k: Host, bodies: seq<Body>)
    requires Fencing(h) && Appends(base, k, bodies) && NoCommand(bodies)
    requires base.store == h.store && base.authors == h.authors && base.attachments == h.attachments
    requires base.attached == h.attached || base.attached == None
    ensures Fencing(k)
  {
    forall n | 0 <= n < |k.authors| ensures AuthorOk(k, k.authors[n]) { AuthorStays(h, base, k, bodies, h.authors[n]); }
    OrderStays(h, base, k, bodies);
    forall i | 0 <= i < |k.store.recorded|
      ensures if i < |h.store.recorded| then k.store.recorded[i] == h.store.recorded[i]
              else !CommandBody(k.store.recorded[i].body)
    {
      if i >= |h.store.recorded| {
        assert k.store.recorded[|h.store.recorded| + (i - |h.store.recorded|)].body == bodies[i - |h.store.recorded|];
      }
    }
  }

  lemma AuthorStays(h: Host, base: Host, k: Host, bodies: seq<Body>, a: Author)
    requires AuthorOk(h, a) && Appends(base, k, bodies) && base.store == h.store && base.attachments == h.attachments
    ensures AuthorOk(k, a)
  {
    assert k.attachments[a.attachment].conn == h.attachments[a.attachment].conn;
  }

  lemma OrderStays(h: Host, base: Host, k: Host, bodies: seq<Body>)
    requires AttachmentsOrdered(h) && Appends(base, k, bodies)
    requires base.store == h.store && base.attachments == h.attachments
    requires base.attached == h.attached || base.attached == None
    ensures AttachmentsOrdered(k)
  {
    forall i | 0 <= i < |h.attachments|
      ensures k.attachments[i].conn == h.attachments[i].conn && k.attachments[i].since == h.attachments[i].since
    {}
  }

  /** What an accepted attach changes. */
  lemma AttachShape(h: Host, conn: nat, from: int)
    ensures var k := OnAttach(h, conn, PROTOCOL, from);
      && |k.attachments| == |h.attachments| + 1 && k.attachments[..|h.attachments|] == h.attachments
      && k == h.(attached := Some(conn), attachments := k.attachments, replies := k.replies)
      && k.attachments[|h.attachments|].since == h.store.sequence && k.attachments[|h.attachments|].conn == conn
      && h.replies <= k.replies
  {}

  lemma FencingAttach(c: Codec, h: Host, conn: nat, protocol: int, from: int)
    requires Fencing(h) && Represents(c, h.store)
    ensures Fencing(OnAttach(h, conn, protocol, from))
  {
    var k := OnAttach(h, conn, protocol, from);
    WithinRecord(c, h.store);
    hide Represents; hide Fencing;
    if protocol == PROTOCOL {
      AttachShape(h, conn, from);
      hide OnAttach;
      assert forall i :: 0 <= i < |h.attachments| ==> k.attachments[i] == k.attachments[..|h.attachments|][i];
      FencingAttached(h, k);
    } else {
      FencingSame(h, k);
    }
  }

  lemma FencingSame(h: Host, k: Host)
    requires Fencing(h) && k.store == h.store && k.attachments == h.attachments && k.authors == h.authors
    requires k.attached == h.attached || k.attached == None
    ensures Fencing(k)
  {}

  /** A new attachment starts a new block: everything journaled so far belongs to earlier ones. */
  lemma FencingAttached(h: Host, k: Host)
    requires Fencing(h) && k.store == h.store && k.authors == h.authors && k.attached.Some?
    requires |k.attachments| == |h.attachments| + 1
    requires forall i :: 0 <= i < |h.attachments| ==> k.attachments[i] == h.attachments[i]
    requires k.attachments[|h.attachments|].since == |h.store.recorded|
    requires k.attachments[|h.attachments|].conn == k.attached.value
    ensures Fencing(k)
  {
    forall n | 0 <= n < |k.authors| ensures AuthorOk(k, k.authors[n]) {
      assert AuthorOk(h, h.authors[n]);
    }
  }

  /** A command's author is the newest attachment, which is the attached connection's. */
  lemma FencingCommand(h: Host, base: Host, k: Host, bodies: seq<Body>, conn: nat)
    requires Fencing(h) && Appends(base, k, bodies) && OneCommand(bodies) && h.attached == Some(conn)
    requires base.store == h.store && base.attachments == h.attachments && base.attached == h.attached
    requires k.authors == h.authors + [Author(|h.store.recorded| + 1, Current(h), conn)]
    ensures Fencing(k)
  {
    var n := |h.store.recorded|;
    CommandAuthors(h, base, k, bodies, conn);
    OrderStays(h, base, k, bodies);
    assert k.authors[|h.authors|].seqNo == n + 1;
    forall i | 0 <= i < |k.store.recorded| && CommandBody(k.store.recorded[i].body)
      ensures Authored(k.authors, i + 1)
    {
      if i < n {
        assert k.store.recorded[i] == h.store.recorded[i];
        var m :| 0 <= m < |h.authors| && h.authors[m].seqNo == i + 1;
        assert k.authors[m].seqNo == i + 1;
      } else {
        assert k.store.recorded[n + (i - n)].body == bodies[i - n];
      }
    }
  }

  lemma FencingSubmit(c: Codec, h: Host, k: Host, conn: nat, id: string, line: string)
    requires Fencing(h) && Submitted(c, h, k, conn, id, line) && h.attached == Some(conn) && id != OPENING_ID
    ensures Fencing(k)
  {
    hide Represents; hide Fencing;
    var base := k.(store := h.store, attachments := h.attachments, opening := h.opening);
    var bodies := if Appends(base, k, [Input(id, line)]) then [Input(id, line)] else [Input(id, line), WriteFailed(id)];
    FencingCommand(h, base, k, bodies, conn);
  }

  lemma CommandAuthors(h: Host, base: Host, k: Host, bodies: seq<Body>, conn: nat)
    requires Fencing(h) && Appends(base, k, bodies) && base.store == h.store && base.attachments == h.attachments
    requires bodies != [] && CommandBody(bodies[0]) && h.attached == Some(conn)
    requires k.authors == h.authors + [Author(|h.store.recorded| + 1, Current(h), conn)]
    ensures forall n :: 0 <= n < |k.authors| ==> AuthorOk(k, k.authors[n])
    ensures AuthorsOrdered(k.authors)
  {
    forall n | 0 <= n < |k.authors| ensures AuthorOk(k, k.authors[n]) {
      if n < |h.authors| {
        AuthorStays(h, base, k, bodies, h.authors[n]);
      } else {
        assert k.store.recorded[|h.store.recorded| + 0].body == bodies[0];
        assert k.attachments[Current(h)].conn == h.attachments[Current(h)].conn;
      }
    }
    forall n | 0 <= n < |h.authors|
      ensures h.authors[n].seqNo <= |h.store.recorded| && h.authors[n].attachment <= Current(h)
    {
      assert AuthorOk(h, h.authors[n]);
    }
  }

  // ---- signals -------------------------------------------------------------------------------

  /** Each signal a command caused is its id's own, and no id signals twice. */
  ghost predicate SignalsInv(h: Host) {
    && (forall n :: 0 <= n < |h.signals| ==>
          h.signals[n].id in h.receipts && h.receipts[h.signals[n].id].SignalReceipt?)
    && (forall m, n :: 0 <= m < n < |h.signals| ==> h.signals[m].id != h.signals[n].id)
  }

  lemma SignalsKeep(h: Host, k: Host)
    requires SignalsInv(h) && k.signals == h.signals
    requires forall id :: id in h.receipts && h.receipts[id].SignalReceipt? ==> id in k.receipts && k.receipts[id] == h.receipts[id]
    ensures SignalsInv(k)
  {}

  lemma SignalsOneMore(h: Host, k: Host, id: string, signal: ProcessSignal, r: Receipt)
    requires SignalsInv(h) && id !in h.receipts && r.SignalReceipt?
    requires k.receipts == h.receipts[id := r] && k.signals == h.signals + [SentSignal(id, signal)]
    ensures SignalsInv(k)
  {}

  // ---- what only grows -----------------------------------------------------------------------

  /** A receipt settles once: pending to one final answer, and no other change. */
  predicate Advances(a: Receipt, b: Receipt) {
    a == b || (a.Pending? && (b.Accepted? || b.Failed?) && b.seqNo == a.seqNo)
  }

  ghost predicate ReceiptsAdvance(a: map<string, Receipt>, b: map<string, Receipt>) {
    forall id :: id in a ==> id in b && Advances(a[id], b[id])
  }

  ghost predicate AttachmentsGrow(h: Host, k: Host) {
    && |h.attachments| <= |k.attachments|
    && forall i :: 0 <= i < |h.attachments| ==>
         var x, z := h.attachments[i], k.attachments[i];
         z == x.(phase := z.phase, pending := z.pending, out := z.out, failed := z.failed) && x.out <= z.out
  }

  /** Nothing recorded, handed over, signalled, answered or streamed is ever taken back. */
  ghost predicate Grows(h: Host, k: Host) {
    && Extends(h.store, k.store) && ReceiptsAdvance(h.receipts, k.receipts) && AttachmentsGrow(h, k)
    && h.stdin <= k.stdin && h.signals <= k.signals && h.authors <= k.authors && h.replies <= k.replies
    && (h.exit != None ==> k.exit == h.exit) && (h.released ==> k.released) && (h.left ==> k.left)
  }

  lemma GrowsChain(h: Host, k: Host, m: Host)
    requires Grows(h, k) && Grows(k, m)
    ensures Grows(h, m)
  {
    assert AttachmentsGrow(h, m) by {
      forall i | 0 <= i < |h.attachments|
        ensures var x, z := h.attachments[i], m.attachments[i];
          z == x.(phase := z.phase, pending := z.pending, out := z.out, failed := z.failed) && x.out <= z.out
      {
        var x, y := h.attachments[i], k.attachments[i];
        assert y == x.(phase := y.phase, pending := y.pending, out := y.out, failed := y.failed);
      }
    }
    assert ReceiptsAdvance(h.receipts, m.receipts);
  }

  lemma AppendsGrow(base: Host, k: Host, bodies: seq<Body>)
    requires Appends(base, k, bodies)
    ensures Grows(base, k)
  {}

  /** Steps that leave the journal, the listeners and stdin alone. */
  lemma FieldsGrow(h: Host, k: Host)
    requires k.store == h.store && k.attachments == h.attachments && h.authors <= k.authors && k.stdin == h.stdin
    requires k.exit == h.exit && (h.released ==> k.released) && (h.left ==> k.left)
    requires h.signals <= k.signals && h.replies <= k.replies && ReceiptsAdvance(h.receipts, k.receipts)
    ensures Grows(h, k)
  {}

  lemma ReceiptAdded(a: map<string, Receipt>, id: string, r: Receipt)
    requires id !in a
    ensures ReceiptsAdvance(a, a) && ReceiptsAdvance(a, a[id := r])
  {}

  lemma CloseBaseGrows(h: Host, conn: nat, id: string)
    requires id !in h.receipts
    ensures Grows(h, ActingBase(h, conn, id, CloseInput(id), false))
  {
    hide Grows; hide ReceiptsAdvance;
    ReceiptAdded(h.receipts, id, Done(h.store.sequence + 1));
    FieldsGrow(h, ActingBase(h, conn, id, CloseInput(id), false));
  }

  lemma SignalBaseGrows(h: Host, conn: nat, id: string, signal: Option<ProcessSignal>, delivered: bool)
    requires id !in h.receipts
    ensures Grows(h, ActingBase(h, conn, id, SendSignal(id, signal), delivered))
  {
    hide Grows; hide ReceiptsAdvance;
    ReceiptAdded(h.receipts, id, SignalReceipt(h.store.sequence + 1, h.exit == None && delivered));
    FieldsGrow(h, ActingBase(h, conn, id, SendSignal(id, signal), delivered));
  }

  lemma ActingBaseGrows(h: Host, conn: nat, id: string, command: Command, delivered: bool)
    requires id !in h.receipts && id == CommandId(command)
    ensures Grows(h, ActingBase(h, conn, id, command, delivered))
  {
    hide Grows;
    match command
    case CloseInput(_) => CloseBaseGrows(h, conn, id);
    case SendSignal(_, signal) => SignalBaseGrows(h, conn, id, signal, delivered);
    case _ => FieldsGrow(h, ActingBase(h, conn, id, command, delivered));
  }

  lemma AttachGrows(h: Host, conn: nat, protocol: int, from: int)
    ensures Grows(h, OnAttach(h, conn, protocol, from))
  {
    hide Grows;
    var k := OnAttach(h, conn, protocol, from);
    if protocol == PROTOCOL {
      AttachShape(h, conn, from);
      hide OnAttach;
      FieldsGrow(h, k.(attachments := h.attachments));
      assert forall i :: 0 <= i < |h.attachments| ==> k.attachments[i] == k.attachments[..|h.attachments|][i];
      AttachmentsOnly(h, k.(attachments := h.attachments), k);
    } else {
      FieldsGrow(h, k);
    }
  }

  lemma AttachmentsOnly(h: Host, k: Host, m: Host)
    requires Grows(h, k) && m == k.(attachments := m.attachments) && AttachmentsGrow(h, m)
    ensures Grows(h, m)
  {}

  lemma RepliesGrow(h: Host, conn: nat)
    ensures forall reply :: Grows(h, AddReply(h, conn, reply))
  {}

  lemma CommandBaseGrows(h: Host, conn: nat, command: Command, delivered: bool)
    ensures Grows(h, CommandBase(h, conn, command, delivered))
  {
    hide ActingBase; hide Grows; hide AddReply; hide OnAttach;
    var id := CommandId(command);
    RepliesGrow(h, conn);
    if command.Attach? { AttachGrows(h, conn, command.protocol, command.from); }
    if id !in h.receipts { ActingBaseGrows(h, conn, id, command, delivered); }
  }

  lemma NeutralBaseGrows(h: Host, e: Event)
    requires NeutralBodies(h, e).Some?
    ensures Grows(h, NeutralBase(h, e))
  {
    hide CommandBase; hide CommandBodies;
    if e.CommandFrom? { CommandBaseGrows(h, e.conn, e.command, e.delivered); }
  }

  lemma NeutralGrows(c: Codec, h: Host, e: Event)
    requires Good(c) && Represents(c, h.store) && !h.left && NeutralBodies(h, e).Some?
    ensures Grows(h, Step(c, h, e))
  {
    hide Grows; hide Appends; hide Step; hide NeutralBase; hide NeutralBodies;
    NeutralEvent(c, h, e);
    NeutralBaseGrows(h, e);
    AppendsGrow(NeutralBase(h, e), Step(c, h, e), NeutralBodies(h, e).value);
    GrowsChain(h, NeutralBase(h, e), Step(c, h, e));
  }

  lemma CallbackGrows(c: Codec, h: Host, n: nat, ok: bool, rooms: seq<nat>)
    requires Good(c) && Represents(c, h.store) && WritesPending(h)
    ensures Grows(h, OnStdinCallback(c, h, n, ok, rooms))
  {
    if n < |h.writes| && (ok ==> h.writes[n].handed) {
      var w, k := h.writes[n], OnStdinCallback(c, h, n, ok, rooms);
      CallbackAppends(c, h, n, ok, rooms);
      CallbackReplies(c, h, n, ok, rooms);
      hide OnStdinCallback;
      var base := k.(store := h.store, attachments := h.attachments, opening := h.opening);
      AppendsGrow(base, k, [if ok then Written(w.id) else WriteFailed(w.id)]);
      GrowsChain(h, base, k);
    }
  }

  lemma CallbackReplies(c: Codec, h: Host, n: nat, ok: bool, rooms: seq<nat>)
    requires Good(c) && Represents(c, h.store)
    ensures h.replies <= OnStdinCallback(c, h, n, ok, rooms).replies
  {
    hide AppendFrame; hide Represents; hide Good; hide Appends;
    if n < |h.writes| {
      var body := if ok then Written(h.writes[n].id) else WriteFailed(h.writes[n].id);
      AppendsOne(c, h, body, Room(rooms, 0));
      AppendsFields(h, AppendFrame(c, h, body, Room(rooms, 0)), [body]);
    }
  }

  lemma SubmitGrows(c: Codec, h: Host, k: Host, conn: nat, id: string, line: string)
    requires Submitted(c, h, k, conn, id, line) && h.replies <= k.replies
    ensures Grows(h, k)
  {
    hide Represents;
    var base := k.(store := h.store, attachments := h.attachments, opening := h.opening);
    var bodies := if Appends(base, k, [Input(id, line)]) then [Input(id, line)] else [Input(id, line), WriteFailed(id)];
    AppendsGrow(base, k, bodies);
    GrowsChain(h, base, k);
  }

  lemma SubmitReplies(c: Codec, h: Host, conn: nat, id: string, line: Option<string>, rooms: seq<nat>)
    requires Good(c) && Represents(c, h.store)
    ensures h.replies <= OnSubmit(c, h, conn, id, line, rooms).replies
  {
    hide AppendFrame; hide Represents; hide Good; hide Appends;
    if line != None {
      AppendsOne(c, h, Input(id, line.value), Room(rooms, 0));
      var recorded := AppendFrame(c, h, Input(id, line.value), Room(rooms, 0));
      AppendsFields(h, recorded, [Input(id, line.value)]);
      var authored := recorded.(authors := h.authors + [Author(recorded.store.sequence, Current(h), conn)]);
      AppendsOne(c, authored, WriteFailed(id), Room(rooms, 1));
      AppendsFields(authored, AppendFrame(c, authored, WriteFailed(id), Room(rooms, 1)), [WriteFailed(id)]);
    }
  }
}
