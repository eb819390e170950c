/** What the execution host promises, for every run: any codec, any opening line, any sequence of
    events, and any amount of disk space at each write. */
module HostTheorems {
  import opened Wrappers
  import opened Journal
  import opened HostState
  import opened HostCommands
  import opened HostCustody
  import opened HostFencing
  import opened HostReplay
  import opened HostReplies
  import opened HostRuns
  import ExecutionHost
  import Lines

  /** The state after `n` events of some run: it was reached from a state one event earlier, or it is
      the state at the first await. */
  ghost predicate ReachedAt(c: Codec, h: Host, n: nat)
    decreases n, 1
  {
    exists g :: ReachedFrom(c, g, h, n)
  }

  ghost predicate ReachedFrom(c: Codec, g: Host, h: Host, n: nat)
    decreases n, 0
  {
    if n == 0 then exists openingLine, rooms :: h == Start(c, openingLine, rooms)
    else ReachedAt(c, g, n - 1) && exists e :: h == Step(c, g, e)
  }

  /** A state some run of the host reaches. */
  ghost predicate Reachable(c: Codec, h: Host) {
    exists n :: ReachedAt(c, h, n)
  }

  /** Reachable are exactly the states at the end of a run: any opening line, any disk, any events. */
  lemma ReachableExactly(c: Codec, h: Host)
    ensures Reachable(c, h) <==> exists openingLine, rooms, events :: h == Run(c, Start(c, openingLine, rooms), events)
  {
    hide Step; hide Start; hide Run;
    if Reachable(c, h) {
      var n :| ReachedAt(c, h, n);
      var openingLine, rooms, events := RunThatReaches(c, h, n);
    }
    if openingLine, rooms, events :| h == Run(c, Start(c, openingLine, rooms), events) {
      StartReached(c, openingLine, rooms);
      RunReaches(c, Start(c, openingLine, rooms), 0, events);
    }
  }

  lemma {:induction false} RunThatReaches(c: Codec, h: Host, n: nat)
    returns (openingLine: string, rooms: seq<nat>, events: seq<Event>)
    requires ReachedAt(c, h, n)
    ensures h == Run(c, Start(c, openingLine, rooms), events)
    decreases n
  {
    hide Step; hide Start;
    var g :| ReachedFrom(c, g, h, n);
    if n == 0 {
      openingLine, rooms :| h == Start(c, openingLine, rooms);
      events := [];
    } else {
      var before;
      openingLine, rooms, before := RunThatReaches(c, g, n - 1);
      var e :| h == Step(c, g, e);
      events := before + [e];
      RunOneMore(c, Start(c, openingLine, rooms), before, e);
    }
  }

  lemma {:induction false} RunOneMore(c: Codec, h: Host, events: seq<Event>, e: Event)
    ensures Run(c, h, events + [e]) == Step(c, Run(c, h, events), e)
    decreases |events|
  {
    hide Step;
    if events == [] {
      assert [] + [e] == [e] && [e][1..] == [];
    } else {
      RunOneMore(c, Step(c, h, events[0]), events[1..], e);
      assert (events + [e])[1..] == events[1..] + [e];
    }
  }

  lemma StartReached(c: Codec, openingLine: string, rooms: seq<nat>)
    ensures ReachedAt(c, Start(c, openingLine, rooms), 0)
  {
    hide Start; hide Step;
    var h := Start(c, openingLine, rooms);
    assert ReachedFrom(c, h, h, 0);
  }

  lemma {:induction false} RunReaches(c: Codec, h: Host, n: nat, events: seq<Event>)
    requires ReachedAt(c, h, n)
    ensures ReachedAt(c, Run(c, h, events), n + |events|)
    decreases |events|
  {
    hide Start; hide Step; hide ReachedAt;
    if events != [] {
      StepReached(c, h, n, events[0]);
      RunReaches(c, Step(c, h, events[0]), n + 1, events[1..]);
    }
  }

  lemma StepReached(c: Codec, h: Host, n: nat, e: Event)
    requires ReachedAt(c, h, n)
    ensures ReachedAt(c, Step(c, h, e), n + 1)
  {
    hide Start; hide Step;
    assert ReachedFrom(c, h, Step(c, h, e), n + 1);
  }

  lemma ReachableHolds(c: Codec, h: Host)
    requires Good(c) && Reachable(c, h)
    ensures Represents(c, h.store) && ReplayInv(c, h) && LinesInv(h) && Fencing(h) && SignalsInv(h)
    ensures OutputInv(h) && ReleaseInv(h) && RepliesInv(h) && HostInv(c, h)
  {
    ReachableExactly(c, h);
    var openingLine, rooms, events :| h == Run(c, Start(c, openingLine, rooms), events);
    hide Start; hide Run;
    StartHolds(c, openingLine, rooms);
    RunHolds(c, Start(c, openingLine, rooms), events);
    hide Represents; hide ReplayInv; hide LinesInv; hide Fencing; hide SignalsInv; hide OutputInv; hide ReleaseInv; hide RepliesInv;
  }

  // ---- the journal ---------------------------------------------------------------------------

  /** At any moment the file holds exactly frames 1..persisted and the torn start of the next one,
      and a crash that keeps any prefix of its bytes reads back as some frames 1..p. */
  lemma JournalAlwaysReadable(c: Codec, h: Host, n: nat)
    requires Good(c) && Reachable(c, h) && n <= |h.store.file|
    ensures h.store.persisted <= |h.store.recorded| == h.store.sequence
    ensures h.store.file == EncodeAll(c, h.store.recorded[..h.store.persisted]) + Torn(c, h.store)
    ensures h.store.unwritten == h.store.recorded[h.store.persisted..]
    ensures ReadFrames(c, h.store.file) == h.store.recorded[..h.store.persisted]
    ensures ReadFrames(c, h.store.file[..n]) <= h.store.recorded[..h.store.persisted]
  {
    hide HostInv; hide Reachable; hide Good; hide ReplayInv; hide LinesInv; hide Fencing; hide SignalsInv;
    hide OutputInv; hide ReleaseInv; hide RepliesInv;
    ReachableHolds(c, h);
    ReadsPersisted(c, h.store);
    CrashReadsPrefix(c, h.store, n);
  }

  /** No frame was ever published, to any connection, before it was whole on disk. */
  lemma PublishedOnlyDurable(c: Codec, h: Host, i: nat, m: Msg)
    requires Good(c) && Reachable(c, h) && i < |h.attachments|
    requires m in h.attachments[i].out && m.FrameMsg?
    ensures m.frame in ReadFrames(c, h.store.file) && 1 <= m.frame.s <= h.store.persisted <= |h.store.recorded|
    ensures h.store.recorded[m.frame.s - 1] == m.frame
  {
    hide HostInv; hide Reachable; hide Good; hide LinesInv; hide Fencing; hide SignalsInv; hide OutputInv;
    hide ReleaseInv; hide RepliesInv;
    ReachableHolds(c, h);
    assert Published(h.store, h.attachments[i]);
    ReadsPersisted(c, h.store);
    assert h.store.recorded[..h.store.persisted][m.frame.s - 1] == m.frame;
  }

  lemma RecordNumbered(c: Codec, j: Store)
    requires Represents(c, j)
    ensures Numbered(j)
  {}

  // ---- replay and live delivery --------------------------------------------------------------

  /** A connection that attached once from a frame no later than the next durable one receives
      exactly that frame and the ones after it, without a gap, a duplicate or a reorder; and once its
      replay is over, while it stays attached, it has everything that is on disk. */
  lemma ConnectionReceivesConsecutiveFrames(c: Codec, h: Host, i: nat)
    requires Good(c) && Reachable(c, h)
    requires i < |h.attachments| && Sole(h, i) && !h.attachments[i].failed
    requires h.attachments[i].from <= h.attachments[i].until + 1
    ensures var a, got := h.attachments[i], FramesOf(h.attachments[i].out);
      && 1 <= a.from && a.from + |got| <= h.store.persisted + 1 <= |h.store.recorded| + 1
      && got == h.store.recorded[a.from - 1..a.from - 1 + |got|]
      && (forall k :: 0 <= k < |got| ==> got[k].s == a.from + k)
      && (a.phase == Live && h.attached == Some(a.conn) ==> a.from + |got| == h.store.persisted + 1)
  {
    hide HostInv; hide Reachable; hide Good; hide Represents; hide LinesInv; hide Fencing; hide SignalsInv;
    hide OutputInv; hide ReleaseInv; hide RepliesInv; hide FramesOf; hide OutcomesOf; hide ReadFrames;
    hide OutcomesIn; hide OutcomesFirst;
    ReachableHolds(c, h);
    assert Streams(c, h.store, h.attached, h.attachments[i]);
    RecordNumbered(c, h.store);
  }

  /** The first frame received is the one asked for exactly when that one was not beyond the next
      durable frame at the attach; asking for a later one starts at the first live frame instead. */
  lemma FirstFrameReceived(c: Codec, h: Host, i: nat)
    requires Good(c) && Reachable(c, h)
    requires i < |h.attachments| && Sole(h, i) && !h.attachments[i].failed && FramesOf(h.attachments[i].out) != []
    ensures var a, got := h.attachments[i], FramesOf(h.attachments[i].out);
      && (got[0].s == a.from <==> a.from <= a.until + 1)
      && got[0].s == if a.from <= a.until then a.from else a.until + 1
  {
    hide HostInv; hide Reachable; hide Good; hide Represents; hide LinesInv; hide Fencing; hide SignalsInv;
    hide OutputInv; hide ReleaseInv; hide RepliesInv; hide FramesOf; hide OutcomesOf; hide ReadFrames;
    hide OutcomesIn; hide OutcomesFirst;
    ReachableHolds(c, h);
    var a := h.attachments[i];
    assert Streams(c, h.store, h.attached, a);
    RecordNumbered(c, h.store);
    assert FramesOf(a.out)[0] == h.store.recorded[Base(a)];
  }

  /** Every replayed input whose outcome was durable at the attach is preceded on the connection by
      that outcome, although the outcome's own frame comes later in the journal. */
  lemma OutcomePrecedesReplayedInput(c: Codec, h: Host, i: nat, k: nat, o: nat)
    requires Good(c) && Reachable(c, h)
    requires i < |h.attachments| && Sole(h, i) && !h.attachments[i].failed
    requires var a := h.attachments[i];
      && k < |a.out| && a.out[k].FrameMsg? && a.out[k].frame.body.Input? && a.out[k].frame.s <= a.until
      && o < a.until && a.until <= |h.store.recorded| && OutcomeBody(h.store.recorded[o].body)
      && h.store.recorded[o].body.id == a.out[k].frame.body.id
    ensures Outcome(h.attachments[i].out[k].frame.body.id, h.store.recorded[o].body.Written?) in h.attachments[i].out[..k]
  {
    ReachableHolds(c, h);
    var a := h.attachments[i];
    assert Streams(c, h.store, h.attached, a);
    RecordNumbered(c, h.store);
    hide HostInv; hide Reachable; hide Good; hide Represents; hide ReplayInv; hide LinesInv; hide Fencing;
    hide SignalsInv; hide OutputInv; hide ReleaseInv; hide RepliesInv; hide ReadFrames; hide OutcomesIn; hide FramesOf;
    OutcomeBefore(h.store, a, k, o);
  }

  lemma OutcomeBefore(j: Store, a: Attachment, k: nat, o: nat)
    requires Numbered(j) && 1 <= a.from && a.until <= j.persisted <= |j.recorded| && Ordered(j, a)
    requires k < |a.out| && a.out[k].FrameMsg? && a.out[k].frame.body.Input? && a.out[k].frame.s <= a.until
    requires o < a.until && OutcomeBody(j.recorded[o].body) && j.recorded[o].body.id == a.out[k].frame.body.id
    ensures Outcome(a.out[k].frame.body.id, j.recorded[o].body.Written?) in a.out[..k]
  {
    hide OutcomesIn; hide FramesOf; hide OutcomesOf; hide Numbered;
    var told, got := OutcomesOf(a.out), FramesOf(a.out);
    ToldAreOutcomes(a.out);
    assert a.out == told + Sent(got);
    assert k >= |told| && got[k - |told|] == a.out[k].frame;
    assert got[k - |told|] == j.recorded[Base(a) + (k - |told|)];
    NumberedAt(j, Base(a) + (k - |told|));
    var m := OutcomeListed(j.recorded[..a.until], o);
    assert a.out[..k][m] == told[m];
  }

  lemma NumberedAt(j: Store, i: nat)
    requires Numbered(j) && i < |j.recorded|
    ensures j.recorded[i].s == i + 1
  {}

  lemma {:induction false} ToldAreOutcomes(out: seq<Msg>)
    ensures forall m :: 0 <= m < |OutcomesOf(out)| ==> OutcomesOf(out)[m].Outcome?
  {
    if out != [] { ToldAreOutcomes(out[..|out| - 1]); }
  }

  lemma {:induction false} OutcomeListed(frames: seq<Frame>, o: nat) returns (m: nat)
    requires o < |frames| && OutcomeBody(frames[o].body)
    ensures m < |OutcomesIn(frames)|
    ensures OutcomesIn(frames)[m] == Outcome(frames[o].body.id, frames[o].body.Written?)
  {
    var last := |frames| - 1;
    if o == last {
      m := |OutcomesIn(frames[..last])|;
    } else {
      m := OutcomeListed(frames[..last], o);
    }
  }

  // ---- commands ------------------------------------------------------------------------------

  ghost predicate OneInputPerId(r: seq<Frame>) {
    forall i, j :: 0 <= i < j < |r| && r[i].body.Input? && r[j].body.Input? ==> r[i].body.id != r[j].body.id
  }

  ghost predicate OneOutcomePerId(r: seq<Frame>) {
    forall i, j :: 0 <= i < j < |r| && OutcomeBody(r[i].body) && OutcomeBody(r[j].body) ==> r[i].body.id != r[j].body.id
  }

  /** However often and from however many coordinators an id is sent, the journal holds at most one
      input and at most one outcome for it, stdin at most one line, and at most one signal is sent. */
  lemma EachIdActsAtMostOnce(c: Codec, h: Host)
    requires Good(c) && Reachable(c, h)
    ensures OneInputPerId(h.store.recorded) && OneOutcomePerId(h.store.recorded)
    ensures forall a, b :: 0 <= a < b < |h.stdin| ==> h.stdin[a].id != h.stdin[b].id
    ensures forall a, b :: 0 <= a < b < |h.signals| ==> h.signals[a].id != h.signals[b].id
  {
    hide HostInv; hide Reachable; hide Good; hide Represents; hide ReplayInv; hide Fencing; hide OutputInv;
    hide ReleaseInv; hide RepliesInv;
    ReachableHolds(c, h);
    forall i, j | 0 <= i < j < |h.store.recorded| && h.store.recorded[i].body.Input? && h.store.recorded[j].body.Input?
      ensures h.store.recorded[i].body.id != h.store.recorded[j].body.id
    {
      assert InputNamed(h, h.store.recorded[i].body, i + 1) && InputNamed(h, h.store.recorded[j].body, j + 1);
    }
  }

  /** A line reaches stdin only after its input frame is wholly in the journal file, and submitted
      lines reach stdin in journal order. */
  lemma StdinIsWriteAhead(c: Codec, h: Host)
    requires Good(c) && Reachable(c, h)
    ensures forall m :: 0 <= m < |h.stdin| ==>
              Frame(h.stdin[m].seqNo, Input(h.stdin[m].id, h.stdin[m].line)) in ReadFrames(c, h.store.file)
    ensures StdinOrdered(h.stdin)
  {
    hide HostInv; hide Reachable; hide Good; hide ReplayInv; hide Fencing; hide SignalsInv; hide OutputInv;
    hide ReleaseInv; hide RepliesInv;
    ReachableHolds(c, h);
    ReadsPersisted(c, h.store);
    forall m | 0 <= m < |h.stdin|
      ensures Frame(h.stdin[m].seqNo, Input(h.stdin[m].id, h.stdin[m].line)) in ReadFrames(c, h.store.file)
    {
      var l := h.stdin[m];
      assert Backed(h, l);
      assert h.store.recorded[..h.store.persisted][l.seqNo - 1] == Frame(l.seqNo, Input(l.id, l.line));
    }
  }

  /** `written: true` is answered only for a line the pipe was given; a receipt that blames the
      journal or a closed stdin proves the line was not, then or ever after. */
  lemma ReceiptsTellTheTruth(c: Codec, h: Host, events: seq<Event>, id: string)
    requires Good(c) && Reachable(c, h) && id in h.receipts
    ensures h.receipts[id].Accepted? ==> InStdin(h.stdin, id)
    ensures h.receipts[id].Failed? && h.receipts[id].why != PipeError ==> !InStdin(Run(c, h, events).stdin, id)
  {
    hide HostInv; hide Reachable; hide Good; hide Represents; hide ReplayInv; hide Fencing; hide SignalsInv;
    hide OutputInv; hide ReleaseInv; hide RepliesInv;
    ReachableHolds(c, h);
    RunHolds(c, h, events);
    var k := Run(c, h, events);
    RunLines(c, k);
    hide Run;
    if h.receipts[id].Failed? && h.receipts[id].why != PipeError {
      assert Advances(h.receipts[id], k.receipts[id]);
      forall m | 0 <= m < |k.stdin| ensures k.stdin[m].id != id { assert Backed(k, k.stdin[m]); }
    }
  }

  lemma RunLines(c: Codec, h: Host)
    requires HostInv(c, h)
    ensures LinesInv(h)
  {}

  /** Two final receipts kept for one id are the same receipt. The answer of a submit that was refused
      unrecorded is kept nowhere; `HostAnswers` counts it among the final ones. */
  predicate SameAnswer(a: Reply, b: Reply) {
    a.Receipt? && b.Receipt? && a.id == b.id && !a.receipt.Pending? && !b.receipt.Pending? ==> a.receipt == b.receipt
  }

  /** A kept receipt goes from pending to one final answer and never changes again; every final one ever
      sent for an id, to whichever coordinator, is the same. */
  lemma ReceiptsSettleOnce(c: Codec, h: Host, events: seq<Event>)
    requires Good(c) && Reachable(c, h)
    ensures ReceiptsAdvance(h.receipts, Run(c, h, events).receipts)
    ensures forall m, n :: 0 <= m < |h.replies| && 0 <= n < |h.replies| ==> SameAnswer(h.replies[m].1, h.replies[n].1)
  {
    hide HostInv; hide Reachable; hide Good; hide Represents; hide ReplayInv; hide LinesInv; hide Fencing;
    hide SignalsInv; hide OutputInv; hide ReleaseInv;
    ReachableHolds(c, h);
    RunHolds(c, h, events);
    forall m | 0 <= m < |h.replies| ensures ReplyTrue(h.receipts, h.replies[m].1) {}
  }

  /** The journal never says both `written` and `write-failed` for one id, and what it says is the
      receipt. */
  lemma JournalAgreesWithReceipts(c: Codec, h: Host, i: nat)
    requires Good(c) && Reachable(c, h) && i < |h.store.recorded| && OutcomeBody(h.store.recorded[i].body)
    ensures h.store.recorded[i].body.id in h.receipts
    ensures h.store.recorded[i].body.Written? <==> h.receipts[h.store.recorded[i].body.id].Accepted?
    ensures h.store.recorded[i].body.WriteFailed? <==> h.receipts[h.store.recorded[i].body.id].Failed?
  {
    hide HostInv; hide Reachable; hide Good; hide Represents; hide ReplayInv; hide Fencing; hide SignalsInv;
    hide OutputInv; hide ReleaseInv; hide RepliesInv;
    ReachableHolds(c, h);
  }

  /** One step of a one-line submit of a new id: it keeps a receipt exactly when nothing waits for the
      disk; otherwise its answer, `written: false`, is not kept and nothing else changes. */
  lemma SubmitUsesItsIdExactly(c: Codec, h: Host, conn: nat, id: string, line: string, delivered: bool, rooms: seq<nat>)
    requires !h.left && h.attached == Some(conn) && id != "" && id !in h.receipts && '\n' !in line
    ensures var k := Step(c, h, CommandFrom(conn, Submit(id, Some(line)), delivered, rooms));
      && (id in k.receipts <==> h.store.unwritten == [])
      && (h.store.unwritten != [] ==> k == h.(replies := h.replies + [(conn, NotRecorded(id))]))
  {
    hide AppendFrame; hide OnRecordable;
    RecordableUsesItsId(c, h, conn, id, line, rooms);
  }

  lemma RecordableUsesItsId(c: Codec, h: Host, conn: nat, id: string, line: string, rooms: seq<nat>)
    ensures id in OnRecordable(c, h, conn, id, line, rooms).receipts
  {
    hide AppendFrame;
  }

  // ---- fencing -------------------------------------------------------------------------------

  /** A connection that is not the attached one gets at most one answer, which goes to itself, and causes
      nothing else. */
  lemma UnattachedCommandsDoNothing(c: Codec, h: Host, conn: nat, command: Command, delivered: bool, rooms: seq<nat>)
    requires h.attached != Some(conn) && !command.Attach?
    ensures var k := Step(c, h, CommandFrom(conn, command, delivered, rooms));
      && k == h.(replies := k.replies)
      && (k.replies == h.replies || exists reply :: k.replies == h.replies + [(conn, reply)])
  {}

  /** The frames of commands fall into contiguous blocks, one per attachment: nobody else's command
      comes between two of the same attachment's, and each was sent by that attachment's connection
      while it was the newest. */
  lemma CommandsComeInBlocks(c: Codec, h: Host, m: nat, n: nat, o: nat)
    requires Good(c) && Reachable(c, h) && m <= n <= o < |h.authors|
    requires h.authors[m].attachment == h.authors[o].attachment
    ensures h.authors[n].attachment == h.authors[m].attachment && h.authors[n].conn == h.authors[m].conn
    ensures h.authors[m].attachment < |h.attachments|
    ensures h.attachments[h.authors[m].attachment].since < h.authors[m].seqNo
    ensures h.authors[m].attachment + 1 < |h.attachments| ==>
              h.authors[o].seqNo <= h.attachments[h.authors[m].attachment + 1].since
  {
    hide HostInv; hide Reachable; hide Good; hide Represents; hide ReplayInv; hide LinesInv; hide SignalsInv;
    hide OutputInv; hide ReleaseInv; hide RepliesInv;
    ReachableHolds(c, h);
    assert AuthorOk(h, h.authors[m]) && AuthorOk(h, h.authors[n]) && AuthorOk(h, h.authors[o]);
  }

  /** Exactly the frames of commands have such an author: every input in the journal but the opening one,
      every close of stdin, every signal and every release; and the authors follow the journal. */
  lemma EveryCommandHasItsAuthor(c: Codec, h: Host, i: nat)
    requires Good(c) && Reachable(c, h) && i < |h.store.recorded|
    ensures CommandBody(h.store.recorded[i].body) <==> exists m :: 0 <= m < |h.authors| && h.authors[m].seqNo == i + 1
    ensures AuthorsOrdered(h.authors)
  {
    hide HostInv; hide Reachable; hide Good; hide Represents; hide ReplayInv; hide LinesInv; hide SignalsInv;
    hide OutputInv; hide ReleaseInv; hide RepliesInv;
    ReachableHolds(c, h);
    if CommandBody(h.store.recorded[i].body) { assert Authored(h.authors, i + 1); }
    if m :| 0 <= m < |h.authors| && h.authors[m].seqNo == i + 1 { assert AuthorOk(h, h.authors[m]); }
  }

  // ---- output and release --------------------------------------------------------------------

  /** The journaled output depends only on the text the provider wrote, not on how it was cut into
      chunks or interleaved with anything else; the exit adds the unfinished last line. */
  lemma OutputIgnoresChunks(c: Codec, h: Host, k: Host)
    requires Good(c) && Reachable(c, h) && Reachable(c, k)
    requires h.heard == k.heard && (h.exit == None <==> k.exit == None)
    ensures OutputLines(BodiesOf(h.store.recorded)) == OutputLines(BodiesOf(k.store.recorded))
    ensures var cut := Lines.Split(h.heard);
      OutputLines(BodiesOf(h.store.recorded))
      == cut.lines + (if h.exit == None || cut.rest == "" then [] else [cut.rest])
  {
    hide HostInv; hide Reachable; hide Good; hide Represents; hide ReplayInv; hide LinesInv; hide Fencing;
    hide SignalsInv; hide ReleaseInv; hide RepliesInv; hide Lines.Split; hide OutputLines;
    ReachableHolds(c, h);
    ReachableHolds(c, k);
    assert Lines.Split(h.heard).lines + [] == Lines.Split(h.heard).lines;
  }

  /** A released host has its exit, and every line of output before it, readable from the disk. */
  lemma ReleasedHostIsOnDisk(c: Codec, h: Host)
    requires Good(c) && Reachable(c, h) && h.released
    ensures h.exit != None
    ensures exists x: nat :: ExitAt(BodiesOf(ReadFrames(c, h.store.file)), x, h.exit.value)
    ensures OutputLines(BodiesOf(ReadFrames(c, h.store.file))) == OutputLines(BodiesOf(h.store.recorded))
  {
    ReachableHolds(c, h);
    ReadsPersisted(c, h.store);
    WithinStore(c, h.store);
    hide HostInv; hide Reachable; hide Good; hide Represents; hide ReplayInv; hide LinesInv; hide Fencing;
    hide SignalsInv; hide OutputInv; hide RepliesInv; hide ReadFrames;
    var x: nat :| x < h.store.persisted && ExitAt(BodiesOf(h.store.recorded), x, h.exit.value);
    ExitOnDisk(h.store.recorded, h.store.persisted, x, h.exit.value);
  }

  lemma WithinStore(c: Codec, j: Store)
    requires Represents(c, j)
    ensures j.persisted <= |j.recorded|
  {}

  lemma ExitOnDisk(frames: seq<Frame>, p: nat, x: nat, code: int)
    requires x < p <= |frames| && ExitAt(BodiesOf(frames), x, code)
    ensures ExitAt(BodiesOf(frames[..p]), x, code)
    ensures OutputLines(BodiesOf(frames[..p])) == OutputLines(BodiesOf(frames))
  {
    var all := BodiesOf(frames);
    assert BodiesOf(frames[..p]) == all[..p];
    assert all == all[..p] + all[p..];
    OutputLinesJoin(all[..p], all[p..]);
    NoOutputLines(all[p..]);
    assert OutputLines(all[..p]) + [] == OutputLines(all[..p]);
  }

  // ---- the program ---------------------------------------------------------------------------

  /** The program, run through any events, is in a reachable state: everything above holds of its
      variables. */
  method RunProgram(c: Codec, openingLine: string, rooms: seq<nat>, events: seq<Event>)
    returns (host: ExecutionHost.ExecutionHost)
    requires Good(c)
    ensures fresh(host) && Reachable(c, host.Abs())
    ensures host.persistedSequence <= |host.recorded|
    ensures ReadFrames(c, host.journal) == host.recorded[..host.persistedSequence]
  {
    hide Start; hide Run; hide Good;
    host := new ExecutionHost.ExecutionHost(c, openingLine, rooms);
    host.HandleAll(events);
    ReachesHere(c, openingLine, rooms, events, host.Abs());
    hide Reachable; hide ReadFrames;
    JournalAlwaysReadable(c, host.Abs(), 0);
  }

  lemma ReachesHere(c: Codec, openingLine: string, rooms: seq<nat>, events: seq<Event>, h: Host)
    requires h == Run(c, Start(c, openingLine, rooms), events)
    ensures Reachable(c, h)
  {
    hide Run; hide Start; hide Reachable;
    ReachableExactly(c, h);
  }
}
