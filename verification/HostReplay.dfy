/** Replay and live delivery: what one connection receives, for every interleaving of replay turns
    with newly persisted frames, fencing, disconnections and disk errors. */
module HostReplay {
  import opened Wrappers
  import opened Journal
  import opened HostState
  import Lines

  // ---- what a stream holds -------------------------------------------------------------------

  function FramesOf(out: seq<Msg>): seq<Frame> {
    if out == [] then []
    else
      var m := out[|out| - 1];
      FramesOf(out[..|out| - 1]) + if m.FrameMsg? then [m.frame] else []
  }

  function OutcomesOf(out: seq<Msg>): seq<Msg> {
    if out == [] then []
    else
      var m := out[|out| - 1];
      OutcomesOf(out[..|out| - 1]) + if m.Outcome? then [m] else []
  }

  function Sent(frames: seq<Frame>): seq<Msg> {
    seq(|frames|, i requires 0 <= i < |frames| => FrameMsg(frames[i]))
  }

  /** The outcome facts of a journal prefix, in order. */
  function OutcomesIn(frames: seq<Frame>): seq<Msg> {
    if frames == [] then [] else OutcomesIn(frames[..|frames| - 1]) + OutcomeOf(frames[|frames| - 1])
  }

  /** How many frames precede the first one the attachment sends: those before the frame it asked
      for, or all the durable ones when it asked for a frame that was not durable yet. */
  function Base(a: Attachment): nat {
    if 1 <= a.from <= a.until then a.from - 1 else a.until
  }

  /** Every outcome message precedes every frame. */
  ghost predicate OutcomesFirst(out: seq<Msg>) {
    out == OutcomesOf(out) + Sent(FramesOf(out))
  }

  /** The attachment has sent exactly frames Base(a)+1, Base(a)+2, ..., in order. */
  ghost predicate Consecutive(j: Store, a: Attachment) {
    var n := |FramesOf(a.out)|;
    && Base(a) + n <= j.persisted <= |j.recorded|
    && FramesOf(a.out) == j.recorded[Base(a)..Base(a) + n]
  }

  ghost predicate Numbered(j: Store) {
    forall i :: 0 <= i < |j.recorded| ==> j.recorded[i].s == i + 1
  }

  ghost predicate PhaseHolds(j: Store, attached: Option<nat>, a: Attachment)
    requires a.until <= j.persisted <= |j.recorded|
  {
    match a.phase
    case ScanningOutcomes(pos) =>
      a.from <= a.until && pos <= a.until && FramesOf(a.out) == [] && OutcomesOf(a.out) == OutcomesIn(j.recorded[..pos])
    case SendingFrames(pos) =>
      && a.from <= a.until && pos <= a.until
      && OutcomesOf(a.out) == OutcomesIn(j.recorded[..a.until])
      && |FramesOf(a.out)| == if pos < a.from then 0 else pos - (a.from - 1)
    case Live =>
      a.pending == [] && (attached == Some(a.conn) ==> Base(a) + |FramesOf(a.out)| == j.persisted)
  }

  /** What the attachment fixed when it was made: its boundary, and a prefix of the file that will
      always read back as the frames up to it. */
  ghost predicate Anchored(c: Codec, j: Store, a: Attachment) {
    && 1 <= a.from && a.until <= j.persisted <= |j.recorded|
    && a.bytes <= |j.file| && ReadFrames(c, j.file[..a.bytes]) == j.recorded[..a.until]
  }

  /** The shape of what it has sent: outcome facts first, then consecutive frames. */
  ghost predicate Ordered(j: Store, a: Attachment)
    requires a.until <= |j.recorded|
  {
    && OutcomesFirst(a.out) && Consecutive(j, a)
    && (FramesOf(a.out) != [] && a.from <= a.until ==> OutcomesOf(a.out) == OutcomesIn(j.recorded[..a.until]))
  }

  ghost predicate KeptBack(j: Store, attached: Option<nat>, a: Attachment)
    requires a.until <= j.persisted <= |j.recorded|
  {
    a.phase != Live && attached == Some(a.conn) ==> a.pending == j.recorded[a.until..j.persisted]
  }

  /** Everything a connection's only attachment owes it. */
  ghost predicate Streams(c: Codec, j: Store, attached: Option<nat>, a: Attachment) {
    && Anchored(c, j, a)
    && Ordered(j, a)
    && PhaseHolds(j, attached, a)
    && KeptBack(j, attached, a)
  }

  /** The connection of attachment `i` attached exactly once. */
  ghost predicate Sole(h: Host, i: nat)
    requires i < |h.attachments|
  {
    forall k :: 0 <= k < |h.attachments| && k != i ==> h.attachments[k].conn != h.attachments[i].conn
  }

  ghost predicate Durable(j: Store, f: Frame) {
    1 <= f.s <= j.persisted <= |j.recorded| && j.recorded[f.s - 1] == f
  }

  /** Nothing is sent, or kept back to be sent, before it is on disk. */
  ghost predicate Published(j: Store, a: Attachment) {
    && (forall m :: m in a.out && m.FrameMsg? ==> Durable(j, m.frame))
    && (forall f :: f in a.pending ==> Durable(j, f))
  }

  ghost predicate ReplayInv(c: Codec, h: Host) {
    && Represents(c, h.store)
    && (forall i :: 0 <= i < |h.attachments| ==> Published(h.store, h.attachments[i]))
    && (forall i :: 0 <= i < |h.attachments| && Sole(h, i) && !h.attachments[i].failed ==>
          Streams(c, h.store, h.attached, h.attachments[i]))
  }

  // ---- delivery ------------------------------------------------------------------------------

  lemma OutGrows(out: seq<Msg>, frame: Frame)
    ensures FramesOf(out + [FrameMsg(frame)]) == FramesOf(out) + [frame]
    ensures OutcomesOf(out + [FrameMsg(frame)]) == OutcomesOf(out)
    ensures OutcomesFirst(out) ==> OutcomesFirst(out + [FrameMsg(frame)])
  {
    assert (out + [FrameMsg(frame)])[..|out|] == out;
    assert Sent(FramesOf(out) + [frame]) == Sent(FramesOf(out)) + [FrameMsg(frame)];
    assert OutcomesOf(out) + (Sent(FramesOf(out)) + [FrameMsg(frame)])
        == (OutcomesOf(out) + Sent(FramesOf(out))) + [FrameMsg(frame)];
  }

  /** Delivering later frames to the attached connection's listener adds them all, in order: to
      what it keeps back during a replay. */
  lemma {:induction false} DeliverAllHeld(a: Attachment, frames: seq<Frame>)
    requires a.phase != Live && forall i :: 0 <= i < |frames| ==> frames[i].s > a.until
    ensures DeliverAll(Some(a.conn), a, frames) == a.(pending := a.pending + frames)
    decreases |frames|
  {
    if frames == [] {
      assert a.pending + frames == a.pending;
    } else {
      DeliverAllHeld(Deliver(Some(a.conn), a, frames[0]), frames[1..]);
      assert a.pending + [frames[0]] + frames[1..] == a.pending + frames;
    }
  }

  /** ... and to the wire afterwards. */
  lemma {:induction false} DeliverAllLive(a: Attachment, frames: seq<Frame>)
    requires a.phase == Live && forall i :: 0 <= i < |frames| ==> frames[i].s > a.until
    ensures var r := DeliverAll(Some(a.conn), a, frames);
      && r == a.(out := r.out)
      && FramesOf(r.out) == FramesOf(a.out) + frames
      && OutcomesOf(r.out) == OutcomesOf(a.out)
      && (OutcomesFirst(a.out) ==> OutcomesFirst(r.out))
    decreases |frames|
  {
    hide FramesOf; hide OutcomesOf; hide OutcomesFirst;
    if frames == [] {
      assert FramesOf(a.out) + frames == FramesOf(a.out);
    } else {
      DeliverAllLive(Deliver(Some(a.conn), a, frames[0]), frames[1..]);
      OutGrows(a.out, frames[0]);
      assert FramesOf(a.out) + [frames[0]] + frames[1..] == FramesOf(a.out) + frames;
    }
  }

  lemma DeliverAllAttached(a: Attachment, frames: seq<Frame>)
    requires forall i :: 0 <= i < |frames| ==> frames[i].s > a.until
    ensures a.phase != Live ==> DeliverAll(Some(a.conn), a, frames) == a.(pending := a.pending + frames)
    ensures a.phase == Live ==>
      var r := DeliverAll(Some(a.conn), a, frames);
      && r == a.(out := r.out)
      && FramesOf(r.out) == FramesOf(a.out) + frames
      && OutcomesOf(r.out) == OutcomesOf(a.out)
      && (OutcomesFirst(a.out) ==> OutcomesFirst(r.out))
  {
    hide FramesOf; hide OutcomesOf; hide OutcomesFirst; hide DeliverAll;
    if a.phase == Live { DeliverAllLive(a, frames); } else { DeliverAllHeld(a, frames); }
  }

  lemma {:induction false} DeliverAllElsewhere(attached: Option<nat>, a: Attachment, frames: seq<Frame>)
    requires attached != Some(a.conn)
    ensures DeliverAll(attached, a, frames) == a
    decreases |frames|
  {
    if frames != [] { DeliverAllElsewhere(attached, a, frames[1..]); }
  }

  /** Whatever is delivered, an attachment keeps its identity and only adds to its stream. */
  lemma {:induction false} DeliverAllKeeps(attached: Option<nat>, a: Attachment, frames: seq<Frame>)
    ensures var r := DeliverAll(attached, a, frames);
      r == a.(pending := r.pending, out := r.out) && a.out <= r.out
    decreases |frames|
  {
    if frames != [] { DeliverAllKeeps(attached, Deliver(attached, a, frames[0]), frames[1..]); }
  }

  lemma {:induction false} DeliverAllPublished(j: Store, attached: Option<nat>, a: Attachment, frames: seq<Frame>)
    requires Published(j, a) && forall f :: f in frames ==> Durable(j, f)
    ensures Published(j, DeliverAll(attached, a, frames))
    decreases |frames|
  {
    if frames != [] {
      var b := Deliver(attached, a, frames[0]);
      assert frames[0] in frames;
      assert Published(j, b);
      DeliverAllPublished(j, attached, b, frames[1..]);
    }
  }

  lemma PublishedLater(j: Store, k: Store, a: Attachment)
    requires Published(j, a) && Extends(j, k) && k.persisted <= |k.recorded|
    ensures Published(k, a)
  {
    forall f | Durable(j, f) ensures Durable(k, f) {}
  }

  lemma SlicesDurable(j: Store, from: nat, to: nat)
    requires Numbered(j) && from <= to <= j.persisted <= |j.recorded|
    ensures forall f :: f in j.recorded[from..to] ==> Durable(j, f)
  {
    forall f | f in j.recorded[from..to] ensures Durable(j, f) {
      var i :| 0 <= i < to - from && j.recorded[from..to][i] == f;
      assert j.recorded[from + i] == f;
    }
  }

  /** Whatever prefix of the file a replay reads, the frames it finds are durable ones. */
  lemma ReplayPublished(c: Codec, h: Host, a: Attachment)
    requires Good(c) && Represents(c, h.store) && Published(h.store, a)
    ensures Published(h.store, ReplayOne(h.attached, a, ReplayFrames(c, h, a)))
  {
    var n := if a.bytes <= |h.store.file| then a.bytes else |h.store.file|;
    assert Take(h.store.file, a.bytes) == h.store.file[..n];
    CrashReadsPrefix(c, h.store, n);
    var frames := ReplayFrames(c, h, a);
    assert frames == h.store.recorded[..|frames|];
    RepresentsNumbered(c, h.store);
    hide Represents; hide Good; hide ReplayFrames; hide ReplayOne; hide ReadFrames; hide Published;
    PublishedTurn(h.store, h.attached, a, frames);
  }

  lemma RepresentsNumbered(c: Codec, j: Store)
    requires Represents(c, j)
    ensures j.persisted <= |j.recorded| && Numbered(j)
  {}

  lemma PublishedTurn(j: Store, attached: Option<nat>, a: Attachment, frames: seq<Frame>)
    requires Published(j, a) && Numbered(j) && j.persisted <= |j.recorded|
    requires |frames| <= j.persisted && frames == j.recorded[..|frames|]
    ensures Published(j, ReplayOne(attached, a, frames))
  {
    hide FinishReplay;
    FinishPublished(j, attached, a);
    match a.phase
    case Live =>
    case ScanningOutcomes(pos) =>
    case SendingFrames(pos) =>
      if pos < |frames| { assert frames[pos] == j.recorded[pos]; }
  }

  lemma FinishPublished(j: Store, attached: Option<nat>, a: Attachment)
    requires Published(j, a)
    ensures Published(j, FinishReplay(attached, a))
  {
    DeliverAllPublished(j, attached, a.(phase := Live, pending := []), a.pending);
  }

  // ---- each kind of step keeps what a sole attachment is owed --------------------------------

  lemma PrefixSlices(j: Store, k: Store, a: nat, b: nat)
    requires Extends(j, k) && a <= b <= |j.recorded|
    ensures b <= |k.recorded| && k.recorded[a..b] == j.recorded[a..b] && k.recorded[..b] == j.recorded[..b]
  {
    assert j.recorded == k.recorded[..|j.recorded|];
  }

  lemma AnchorSurvives(c: Codec, j: Store, k: Store, a: Attachment)
    requires Anchored(c, j, a) && Extends(j, k) && k.persisted <= |k.recorded|
    ensures Anchored(c, k, a)
  {
    assert k.file[..a.bytes] == j.file[..a.bytes];
    PrefixSlices(j, k, 0, a.until);
  }

  lemma ConsecutiveSurvives(j: Store, k: Store, a: Attachment)
    requires Consecutive(j, a) && Extends(j, k) && k.persisted <= |k.recorded|
    ensures Consecutive(k, a)
  {
    PrefixSlices(j, k, Base(a), Base(a) + |FramesOf(a.out)|);
  }

  /** The journal only grows, so what an attachment has already streamed stays right. */
  lemma StreamsSurvives(c: Codec, j: Store, k: Store, attached: Option<nat>, a: Attachment)
    requires Numbered(k) && k.persisted <= |k.recorded| && Extends(j, k) && Streams(c, j, attached, a)
    requires k.persisted == j.persisted || attached != Some(a.conn)
    ensures Streams(c, k, attached, a)
  {
    hide ReadFrames; hide OutcomesIn; hide OutcomesOf; hide FramesOf; hide OutcomeOf; hide OutcomesFirst;
    AnchorSurvives(c, j, k, a);
    ConsecutiveSurvives(j, k, a);
    PrefixSlices(j, k, 0, a.until);
    if a.phase.ScanningOutcomes? { PrefixSlices(j, k, 0, a.phase.pos); }
    if k.persisted == j.persisted { PrefixSlices(j, k, a.until, j.persisted); }
  }

  /** The stream `r` carries on from `a` with exactly the next journal frames. */
  ghost predicate Continues(a: Attachment, r: Attachment, frames: seq<Frame>) {
    && r.conn == a.conn && r.from == a.from && r.until == a.until && r.bytes == a.bytes
    && FramesOf(r.out) == FramesOf(a.out) + frames
    && OutcomesOf(r.out) == OutcomesOf(a.out)
    && OutcomesFirst(r.out)
  }

  lemma ConsecutiveContinues(j: Store, a: Attachment, r: Attachment, frames: seq<Frame>)
    requires Consecutive(j, a) && Continues(a, r, frames)
    requires var e := Base(a) + |FramesOf(a.out)|;
      e + |frames| <= j.persisted && frames == j.recorded[e..e + |frames|]
    ensures Consecutive(j, r)
  {
    hide ReadFrames; hide OutcomesIn; hide OutcomesOf; hide FramesOf; hide OutcomeOf; hide OutcomesFirst;
    var e := Base(a) + |FramesOf(a.out)|;
    Joined(j.recorded, Base(a), e, e + |frames|);
  }

  /** Publishing the frames a flush persisted. */
  lemma StreamsPublished(c: Codec, j: Store, k: Store, attached: Option<nat>, a: Attachment)
    requires Numbered(k) && k.persisted <= |k.recorded| && Extends(j, k) && Streams(c, j, attached, a)
    ensures Streams(c, k, attached, DeliverAll(attached, a, k.recorded[j.persisted..k.persisted]))
  {
    var frames := k.recorded[j.persisted..k.persisted];
    if attached != Some(a.conn) {
      DeliverAllElsewhere(attached, a, frames);
      StreamsSurvives(c, j, k, attached, a);
    } else if a.phase == Live {
      PublishedLive(c, j, k, a);
    } else {
      PublishedKept(c, j, k, a);
    }
  }

  lemma LaterFrames(j: Store, until: nat, from: nat, to: nat)
    requires Numbered(j) && until <= from <= to <= |j.recorded|
    ensures forall i :: 0 <= i < to - from ==> j.recorded[from..to][i].s > until
  {}

  lemma PublishedLive(c: Codec, j: Store, k: Store, a: Attachment)
    requires Numbered(k) && k.persisted <= |k.recorded| && Extends(j, k) && Streams(c, j, Some(a.conn), a)
    requires a.phase == Live
    ensures Streams(c, k, Some(a.conn), DeliverAll(Some(a.conn), a, k.recorded[j.persisted..k.persisted]))
  {
    hide ReadFrames; hide OutcomesIn; hide OutcomesOf; hide FramesOf; hide OutcomeOf; hide OutcomesFirst; hide DeliverAll; hide Numbered;
    var frames := k.recorded[j.persisted..k.persisted];
    LaterFrames(k, a.until, j.persisted, k.persisted);
    var r := DeliverAll(Some(a.conn), a, frames);
    DeliverAllAttached(a, frames);
    AnchorSurvives(c, j, k, a);
    ConsecutiveSurvives(j, k, a);
    ConsecutiveContinues(k, a, r, frames);
    assert Base(a) + |FramesOf(a.out)| == j.persisted;
    assert a.from <= a.until ==> |FramesOf(a.out)| > 0;
    LiveOrdered(j, k, a, r, frames);
  }

  lemma LiveOrdered(j: Store, k: Store, a: Attachment, r: Attachment, frames: seq<Frame>)
    requires a.until <= j.persisted <= |j.recorded| && Extends(j, k)
    requires Ordered(j, a) && Continues(a, r, frames) && Consecutive(k, r)
    requires a.from <= a.until && FramesOf(a.out) == [] ==> OutcomesOf(a.out) == OutcomesIn(j.recorded[..a.until])
    ensures Ordered(k, r)
  {
    hide ReadFrames; hide OutcomesIn; hide OutcomesOf; hide FramesOf; hide OutcomeOf; hide OutcomesFirst;
    PrefixSlices(j, k, 0, a.until);
  }

  lemma PublishedKept(c: Codec, j: Store, k: Store, a: Attachment)
    requires Numbered(k) && k.persisted <= |k.recorded| && Extends(j, k) && Streams(c, j, Some(a.conn), a)
    requires a.phase != Live
    ensures Streams(c, k, Some(a.conn), DeliverAll(Some(a.conn), a, k.recorded[j.persisted..k.persisted]))
  {
    hide ReadFrames; hide OutcomesIn; hide OutcomesOf; hide FramesOf; hide OutcomeOf; hide OutcomesFirst; hide DeliverAll; hide Numbered;
    var frames := k.recorded[j.persisted..k.persisted];
    LaterFrames(k, a.until, j.persisted, k.persisted);
    DeliverAllAttached(a, frames);
    AnchorSurvives(c, j, k, a);
    ConsecutiveSurvives(j, k, a);
    PrefixSlices(j, k, a.until, j.persisted);
    Joined(k.recorded, a.until, j.persisted, k.persisted);
    PrefixSlices(j, k, 0, a.until);
    if a.phase.ScanningOutcomes? { PrefixSlices(j, k, 0, a.phase.pos); }
  }

  lemma Joined<T>(s: seq<T>, a: nat, b: nat, d: nat)
    requires a <= b <= d <= |s|
    ensures s[a..b] + s[b..d] == s[a..d]
  {}

  /** A connection that is no longer the attached one is owed only what it already has. */
  lemma StreamsDetached(c: Codec, j: Store, before: Option<nat>, after: Option<nat>, a: Attachment)
    requires Streams(c, j, before, a) && after != Some(a.conn)
    ensures Streams(c, j, after, a)
  {}

  /** A fresh attachment owes nothing yet: what the file holds now is frames 1..persisted. */
  lemma StreamsStart(c: Codec, j: Store, attached: Option<nat>, a: Attachment)
    requires Good(c) && Represents(c, j)
    requires 1 <= a.from && a.until == j.persisted && a.bytes == |j.file| && a.pending == [] && a.out == []
    requires a.phase == if a.from <= a.until then ScanningOutcomes(0) else Live
    ensures Streams(c, j, attached, a)
  {
    ReadsPersisted(c, j);
    assert j.file[..a.bytes] == j.file;
    assert j.recorded[..0] == [];
    assert Sent([]) == [];
  }

  /** The end of a replay hands over to live delivery without a gap: what was kept back is exactly
      what was persisted since the attach. */
  lemma StreamsFinish(c: Codec, j: Store, a: Attachment)
    requires Numbered(j) && Streams(c, j, Some(a.conn), a) && a.phase == SendingFrames(a.until)
    ensures Streams(c, j, Some(a.conn), FinishReplay(Some(a.conn), a))
  {
    hide ReadFrames; hide OutcomesIn; hide OutcomesOf; hide FramesOf; hide OutcomeOf; hide OutcomesFirst; hide DeliverAll; hide Numbered;
    var b := a.(phase := Live, pending := []);
    var r := FinishReplay(Some(a.conn), a);
    LaterFrames(j, a.until, a.until, j.persisted);
    DeliverAllAttached(b, a.pending);
    assert Continues(a, r, a.pending);
    assert Base(a) + |FramesOf(a.out)| == a.until;
    ConsecutiveContinues(j, a, r, a.pending);
    LiveOrdered(j, j, a, r, a.pending);
  }

  /** A replay cut short by a newer coordinator or a closed connection sends nothing more. */
  lemma StreamsCutShort(c: Codec, j: Store, attached: Option<nat>, a: Attachment)
    requires Streams(c, j, attached, a) && attached != Some(a.conn)
    ensures Streams(c, j, attached, FinishReplay(attached, a))
  {
    DeliverAllElsewhere(attached, a.(phase := Live, pending := []), a.pending);
  }

  /** Before any frame has been sent, outcome facts simply accumulate. */
  lemma OutcomesGrow(out: seq<Msg>, frame: Frame)
    requires OutcomesFirst(out) && FramesOf(out) == []
    ensures FramesOf(out + OutcomeOf(frame)) == [] && OutcomesFirst(out + OutcomeOf(frame))
    ensures OutcomesOf(out + OutcomeOf(frame)) == OutcomesOf(out) + OutcomeOf(frame)
  {
    assert Sent([]) == [];
    var m := OutcomeOf(frame);
    if m == [] {
      assert out + m == out && OutcomesOf(out) + m == OutcomesOf(out);
    } else {
      assert (out + m)[..|out|] == out;
    }
  }

  lemma OutcomesInStep(frames: seq<Frame>, pos: nat)
    requires pos < |frames|
    ensures OutcomesIn(frames[..pos + 1]) == OutcomesIn(frames[..pos]) + OutcomeOf(frames[pos])
  {
    assert frames[..pos + 1][..pos] == frames[..pos];
  }

  /** The first pass, one journal frame at a time. */
  lemma StreamsScan(c: Codec, j: Store, attached: Option<nat>, a: Attachment, pos: nat)
    requires Numbered(j) && Streams(c, j, attached, a) && a.phase == ScanningOutcomes(pos) && pos < a.until
    ensures Streams(c, j, attached, a.(phase := ScanningOutcomes(pos + 1), out := a.out + OutcomeOf(j.recorded[pos])))
  {
    hide ReadFrames; hide OutcomesIn; hide OutcomesOf; hide FramesOf; hide OutcomeOf; hide OutcomesFirst; hide Numbered;
    OutcomesInStep(j.recorded, pos);
    OutcomesGrow(a.out, j.recorded[pos]);
  }

  /** The second pass, one journal frame at a time: the ones before `from` are skipped. */
  lemma StreamsSkip(c: Codec, j: Store, a: Attachment, pos: nat)
    requires Streams(c, j, Some(a.conn), a) && a.phase == SendingFrames(pos) && pos + 1 < a.from && pos < a.until
    ensures Streams(c, j, Some(a.conn), a.(phase := SendingFrames(pos + 1)))
  {}

  lemma StreamsSend(c: Codec, j: Store, a: Attachment, pos: nat)
    requires Streams(c, j, Some(a.conn), a) && a.phase == SendingFrames(pos) && a.from - 1 <= pos < a.until
    ensures Streams(c, j, Some(a.conn),
              a.(phase := SendingFrames(pos + 1), out := a.out + [FrameMsg(j.recorded[pos])]))
  {
    hide ReadFrames; hide OutcomesIn; hide OutcomesOf; hide FramesOf; hide OutcomeOf; hide OutcomesFirst;
    var r := a.(phase := SendingFrames(pos + 1), out := a.out + [FrameMsg(j.recorded[pos])]);
    OutGrows(a.out, j.recorded[pos]);
    assert Continues(a, r, [j.recorded[pos]]);
    ConsecutiveContinues(j, a, r, [j.recorded[pos]]);
    LiveOrdered(j, j, a, r, [j.recorded[pos]]);
  }

  /** Between the passes. */
  lemma StreamsTurn(c: Codec, j: Store, a: Attachment)
    requires Streams(c, j, Some(a.conn), a) && a.phase == ScanningOutcomes(a.until)
    ensures Streams(c, j, Some(a.conn), a.(phase := SendingFrames(0)))
  {}

  /** One turn of a replay, whatever happened since the last one. */
  lemma StreamsReplayOne(c: Codec, j: Store, attached: Option<nat>, a: Attachment)
    requires Numbered(j) && Streams(c, j, attached, a)
    ensures Streams(c, j, attached, ReplayOne(attached, a, j.recorded[..a.until]))
  {
    if a.phase != Live {
      if attached != Some(a.conn) {
        StreamsCutShort(c, j, attached, a);
      } else if a.phase.ScanningOutcomes? {
        ScanningTurn(c, j, a);
      } else {
        SendingTurn(c, j, a);
      }
    }
  }

  lemma ScanningTurn(c: Codec, j: Store, a: Attachment)
    requires Numbered(j) && Streams(c, j, Some(a.conn), a) && a.phase.ScanningOutcomes?
    ensures Streams(c, j, Some(a.conn), ReplayOne(Some(a.conn), a, j.recorded[..a.until]))
  {
    if a.phase.pos < a.until {
      StreamsScan(c, j, Some(a.conn), a, a.phase.pos);
    } else {
      StreamsTurn(c, j, a);
    }
  }

  /** What one iteration of the second pass does, frame by frame. */
  lemma SendingStep(a: Attachment, frames: seq<Frame>, pos: nat)
    requires a.phase == SendingFrames(pos) && |frames| == a.until
    requires pos < |frames| ==> frames[pos].s == pos + 1
    ensures var r := ReplayOne(Some(a.conn), a, frames);
      if pos >= a.until then r == FinishReplay(Some(a.conn), a)
      else if pos + 1 < a.from then r == a.(phase := SendingFrames(pos + 1))
      else r == a.(phase := SendingFrames(pos + 1), out := a.out + [FrameMsg(frames[pos])])
  {}

  lemma SendingTurn(c: Codec, j: Store, a: Attachment)
    requires Numbered(j) && Streams(c, j, Some(a.conn), a) && a.phase.SendingFrames?
    ensures Streams(c, j, Some(a.conn), ReplayOne(Some(a.conn), a, j.recorded[..a.until]))
  {
    var pos := a.phase.pos;
    SendingStep(a, j.recorded[..a.until], pos);
    if pos >= a.until { StreamsFinish(c, j, a); }
    else if pos + 1 < a.from { StreamsSkip(c, j, a, pos); }
    else { StreamsSend(c, j, a, pos); }
  }

  // ---- every step of the host ----------------------------------------------------------------

  /** The attachments are the same ones, each with at least what it had sent. */
  ghost predicate SameAttachments(h: Host, k: Host) {
    && |k.attachments| == |h.attachments|
    && forall i :: 0 <= i < |h.attachments| ==>
         var a, b := h.attachments[i], k.attachments[i];
         b == a.(phase := b.phase, pending := b.pending, out := b.out, failed := b.failed) && a.out <= b.out
  }

  /** What `flush` does to the host: only the journal, the listeners and the opening input move. */
  lemma FlushEffect(c: Codec, h: Host, room: nat)
    requires Good(c) && Represents(c, h.store)
    ensures var k := FlushHost(c, h, room);
      && k == h.(store := k.store, attachments := k.attachments, opening := k.opening)
      && Represents(c, k.store) && Extends(h.store, k.store) && k.store.recorded == h.store.recorded
      && SameAttachments(h, k)
      && (k.opening == h.opening || (h.opening == WaitingForDisk && k.opening == Ready && k.store.unwritten == []))
      && (k.store.unwritten == [] && h.opening == WaitingForDisk ==> k.opening == Ready)
  {
    FlushKeeps(c, h.store, room);
    var k := FlushHost(c, h, room);
    forall i | 0 <= i < |h.attachments|
      ensures var a, b := h.attachments[i], k.attachments[i];
        b == a.(phase := b.phase, pending := b.pending, out := b.out, failed := b.failed) && a.out <= b.out
    {
      DeliverAllKeeps(h.attached, h.attachments[i], Persisted(h.store, k.store));
    }
  }

  /** What `append` does to the host: exactly one more recorded frame, with the next sequence. */
  lemma AppendEffect(c: Codec, h: Host, body: Body, room: nat)
    requires Good(c) && Represents(c, h.store)
    ensures var k := AppendFrame(c, h, body, room);
      && k == h.(store := k.store, attachments := k.attachments, opening := k.opening)
      && Represents(c, k.store) && Extends(h.store, k.store)
      && k.store.recorded == h.store.recorded + [Frame(|h.store.recorded| + 1, body)]
      && SameAttachments(h, k)
      && (k.opening == h.opening || (h.opening == WaitingForDisk && k.opening == Ready && k.store.unwritten == []))
      && (k.store.unwritten == [] && h.opening == WaitingForDisk ==> k.opening == Ready)
  {
    RecordKeeps(c, h.store, body);
    FlushEffect(c, h.(store := Record(h.store, body)), room);
  }

  lemma FlushReplay(c: Codec, h: Host, room: nat)
    requires Good(c) && ReplayInv(c, h)
    ensures ReplayInv(c, FlushHost(c, h, room))
  {
    var k := FlushHost(c, h, room);
    FlushEffect(c, h, room);
    FlushKeeps(c, h.store, room);
    forall i | 0 <= i < |k.attachments| ensures Published(k.store, k.attachments[i]) {
      PublishedLater(h.store, k.store, h.attachments[i]);
      SlicesDurable(k.store, h.store.persisted, k.store.persisted);
      DeliverAllPublished(k.store, h.attached, h.attachments[i], Persisted(h.store, k.store));
    }
    forall i | 0 <= i < |k.attachments| && Sole(k, i) && !k.attachments[i].failed
      ensures Streams(c, k.store, k.attached, k.attachments[i])
    {
      assert k.attachments[i] == DeliverAll(h.attached, h.attachments[i], Persisted(h.store, k.store));
      DeliverAllKeeps(h.attached, h.attachments[i], Persisted(h.store, k.store));
      assert Sole(h, i);
      StreamsPublished(c, h.store, k.store, h.attached, h.attachments[i]);
    }
  }

  lemma AppendReplay(c: Codec, h: Host, body: Body, room: nat)
    requires Good(c) && ReplayInv(c, h)
    ensures ReplayInv(c, AppendFrame(c, h, body, room))
  {
    var k := h.(store := Record(h.store, body));
    RecordKeeps(c, h.store, body);
    forall i | 0 <= i < |k.attachments| ensures Published(k.store, k.attachments[i]) {
      PublishedLater(h.store, k.store, h.attachments[i]);
    }
    forall i | 0 <= i < |k.attachments| && Sole(k, i) && !k.attachments[i].failed
      ensures Streams(c, k.store, k.attached, k.attachments[i])
    {
      assert Sole(h, i);
      StreamsSurvives(c, h.store, k.store, h.attached, h.attachments[i]);
    }
    FlushReplay(c, k, room);
  }

  /** Steps that touch neither the journal nor the listeners. */
  lemma SameReplay(c: Codec, h: Host, k: Host)
    requires ReplayInv(c, h)
    requires k.store == h.store && k.attachments == h.attachments
    requires k.attached == h.attached || k.attached == None
    ensures ReplayInv(c, k)
  {
    forall i | 0 <= i < |k.attachments| && Sole(k, i) && !k.attachments[i].failed
      ensures Streams(c, k.store, k.attached, k.attachments[i])
    {
      assert Sole(h, i);
    }
  }

  lemma {:induction false} OutputsReplay(c: Codec, h: Host, lines: seq<string>, rooms: seq<nat>)
    requires Good(c) && ReplayInv(c, h)
    ensures ReplayInv(c, AppendOutputs(c, h, lines, rooms))
    decreases |lines|
  {
    if lines != [] {
      AppendReplay(c, h, Output(lines[0]), Room(rooms, 0));
      OutputsReplay(c, AppendFrame(c, h, Output(lines[0]), Room(rooms, 0)), lines[1..],
                    if rooms == [] then [] else rooms[1..]);
    }
  }

  lemma AttachReplay(c: Codec, h: Host, conn: nat, protocol: int, from: int)
    requires Good(c) && ReplayInv(c, h)
    ensures ReplayInv(c, OnAttach(h, conn, protocol, from))
  {
    hide Represents; hide Good; hide Streams;
    var k := OnAttach(h, conn, protocol, from);
    if protocol == PROTOCOL {
      forall i | 0 <= i < |k.attachments| && Sole(k, i) && !k.attachments[i].failed
        ensures Streams(c, k.store, k.attached, k.attachments[i])
      {
        if i == |h.attachments| {
          StreamsStart(c, k.store, k.attached, k.attachments[i]);
        } else {
          assert k.attachments[|h.attachments|].conn == conn;
          assert forall m :: 0 <= m < |h.attachments| ==> k.attachments[m] == h.attachments[m];
          assert Sole(h, i);
          StreamsDetached(c, h.store, h.attached, k.attached, h.attachments[i]);
        }
      }
    } else {
      SameReplay(c, h, k);
    }
  }

  lemma ReplayTurnReplay(c: Codec, h: Host, i: nat)
    requires Good(c) && ReplayInv(c, h) && i < |h.attachments|
    ensures ReplayInv(c, OnReplayTurn(c, h, i))
  {
    var k := OnReplayTurn(c, h, i);
    var a := h.attachments[i];
    DeliverAllKeeps(h.attached, a.(phase := Live, pending := []), a.pending);
    ReplayPublished(c, h, a);
    forall n | 0 <= n < |k.attachments| && Sole(k, n) && !k.attachments[n].failed
      ensures Streams(c, k.store, k.attached, k.attachments[n])
    {
      assert forall m :: 0 <= m < |k.attachments| ==> k.attachments[m].conn == h.attachments[m].conn;
      assert Sole(h, n);
      if n == i {
        assert ReplayFrames(c, h, a) == h.store.recorded[..a.until];
        StreamsReplayOne(c, h.store, h.attached, a);
      }
    }
  }

  lemma ReadErrorReplay(c: Codec, h: Host, i: nat)
    requires ReplayInv(c, h)
    ensures ReplayInv(c, OnReplayReadError(h, i))
  {
    var k := OnReplayReadError(h, i);
    if i < |h.attachments| {
      var a := h.attachments[i];
      DeliverAllKeeps(h.attached, a.(phase := Live, pending := []), a.pending);
      FinishPublished(h.store, h.attached, a);
    }
    forall n | 0 <= n < |k.attachments| && Sole(k, n) && !k.attachments[n].failed
      ensures Streams(c, k.store, k.attached, k.attachments[n])
    {
      assert forall m :: 0 <= m < |k.attachments| ==> k.attachments[m].conn == h.attachments[m].conn;
      assert Sole(h, n);
    }
  }

  lemma ExitReplay(c: Codec, h: Host, code: int, rooms: seq<nat>)
    requires Good(c) && ReplayInv(c, h)
    ensures ReplayInv(c, RecordExit(c, h, code, rooms))
  {
    if h.exit == None {
      var k := h;
      if h.stdoutRest != "" {
        AppendReplay(c, h, Output(h.stdoutRest), Room(rooms, 0));
        var after := AppendFrame(c, h, Output(h.stdoutRest), Room(rooms, 0));
        k := after.(stdoutRest := "");
        SameReplay(c, after, k);
      }
      SameReplay(c, k, k.(exit := Some(code)));
      AppendReplay(c, k.(exit := Some(code)), Exited(code), Room(rooms, 1));
    }
  }

  lemma SubmitReplay(c: Codec, h: Host, conn: nat, id: string, line: Option<string>, rooms: seq<nat>)
    requires Good(c) && ReplayInv(c, h)
    ensures ReplayInv(c, OnSubmit(c, h, conn, id, line, rooms))
  {
    var k := OnSubmit(c, h, conn, id, line, rooms);
    if line == None || '\n' in line.value || h.store.unwritten != [] {
      SameReplay(c, h, k);
    } else {
      var recorded := AppendFrame(c, h, Input(id, line.value), Room(rooms, 0));
      AppendReplay(c, h, Input(id, line.value), Room(rooms, 0));
      var authored := recorded.(authors := h.authors + [Author(recorded.store.sequence, Current(h), conn)]);
      SameReplay(c, recorded, authored);
      if recorded.store.unwritten != [] {
        AppendReplay(c, authored, WriteFailed(id), Room(rooms, 1));
        SameReplay(c, AppendFrame(c, authored, WriteFailed(id), Room(rooms, 1)), k);
      } else {
        SameReplay(c, authored, k);
      }
    }
  }

  lemma CloseReplay(c: Codec, h: Host, conn: nat, id: string, rooms: seq<nat>)
    requires Good(c) && ReplayInv(c, h)
    ensures ReplayInv(c, OnClose(c, h, conn, id, rooms))
  {
    AppendReplay(c, h, InputClosed(id), Room(rooms, 0));
    SameReplay(c, AppendFrame(c, h, InputClosed(id), Room(rooms, 0)), OnClose(c, h, conn, id, rooms));
  }

  lemma SignalReplay(c: Codec, h: Host, conn: nat, id: string, signal: Option<ProcessSignal>, delivered: bool,
                     rooms: seq<nat>)
    requires Good(c) && ReplayInv(c, h)
    ensures ReplayInv(c, OnSignal(c, h, conn, id, signal, delivered, rooms))
  {
    var k := OnSignal(c, h, conn, id, signal, delivered, rooms);
    if signal == None { SameReplay(c, h, k); } else {
      AppendReplay(c, h, Signalled(id, signal.value), Room(rooms, 0));
      SameReplay(c, AppendFrame(c, h, Signalled(id, signal.value), Room(rooms, 0)), k);
    }
  }

  lemma CommandReplay(c: Codec, h: Host, conn: nat, command: Command, delivered: bool, rooms: seq<nat>)
    requires Good(c) && ReplayInv(c, h)
    ensures ReplayInv(c, OnCommand(c, h, conn, command, delivered, rooms))
  {
    hide ReplayInv; hide Good; hide OnAttach; hide OnSubmit; hide OnClose; hide OnSignal; hide OnRelease;
    var id := CommandId(command);
    var k := OnCommand(c, h, conn, command, delivered, rooms);
    if command.Attach? {
      AttachReplay(c, h, conn, command.protocol, command.from);
    } else if command.Status? || h.attached != Some(conn) || id == "" || id in h.receipts {
      SameReplay(c, h, k);
    } else {
      match command
      case Submit(_, line) => SubmitReplay(c, h, conn, id, line, rooms);
      case CloseInput(_) => CloseReplay(c, h, conn, id, rooms);
      case SendSignal(_, signal) => SignalReplay(c, h, conn, id, signal, delivered, rooms);
      case Release(_) => ReleaseReplay(c, h, conn, id, rooms);
      case Unknown(_) => SameReplay(c, h, k);
    }
  }

  lemma ReleaseReplay(c: Codec, h: Host, conn: nat, id: string, rooms: seq<nat>)
    requires Good(c) && ReplayInv(c, h)
    ensures ReplayInv(c, OnRelease(c, h, conn, id, rooms))
  {
    var k := OnRelease(c, h, conn, id, rooms);
    if h.exit == None || h.store.unwritten != [] { SameReplay(c, h, k); } else {
      var after := AppendFrame(c, h, Journal.Released(id), Room(rooms, 0));
      AppendReplay(c, h, Journal.Released(id), Room(rooms, 0));
      var noted := AddReply(after, conn, ReleasedReply(id)).(released := true, authors := By(h, conn));
      SameReplay(c, after, noted);
      AppendReplay(c, noted, HostExit, Room(rooms, 1));
      SameReplay(c, AppendFrame(c, noted, HostExit, Room(rooms, 1)), k);
    }
  }

  /** Every segment of the event loop keeps every sole attachment's stream right. */
  lemma StepReplay(c: Codec, h: Host, e: Event)
    requires Good(c) && ReplayInv(c, h)
    ensures ReplayInv(c, Step(c, h, e))
  {
    hide ReplayInv; hide Good; hide AppendFrame; hide AppendOutputs; hide RecordExit; hide OnCommand; hide Publish;
    if !h.left {
      var k := Step(c, h, e);
      match e
      case DiskRetry(room) => FlushReplay(c, h, room);
      case StdoutData(chunk, rooms) =>
        if h.exit == None {
          var cut := Lines.Split(h.stdoutRest + chunk);
          var taken := h.(stdoutRest := cut.rest, heard := h.heard + chunk);
          SameReplay(c, h, taken);
          OutputsReplay(c, taken, cut.lines, rooms);
        }
      case StderrData(chunk, rooms) => AppendReplay(c, h, ErrorText(chunk), Room(rooms, 0));
      case ProviderFact(text, gone, rooms) =>
        SameReplay(c, h, h.(stdinOpen := h.stdinOpen && !gone));
        AppendReplay(c, h.(stdinOpen := h.stdinOpen && !gone), Note(text), Room(rooms, 0));
      case StdinGone => SameReplay(c, h, k);
      case ProviderExit(code, abandoned, rooms) =>
        AppendReplay(c, h, OutputAbandoned, Room(rooms, 2));
        if abandoned { ExitReplay(c, AppendFrame(c, h, OutputAbandoned, Room(rooms, 2)), code, rooms); }
        else { ExitReplay(c, h, code, rooms); }
      case OpeningTurn => SameReplay(c, h, k);
      case StdinCallback(w, ok, rooms) =>
        if w >= |h.writes| || (ok && !h.writes[w].handed) { SameReplay(c, h, k); } else {
          var body := if ok then Written(h.writes[w].id) else WriteFailed(h.writes[w].id);
          AppendReplay(c, h, body, Room(rooms, 0));
          SameReplay(c, AppendFrame(c, h, body, Room(rooms, 0)), k);
        }
      case CommandFrom(conn, command, delivered, rooms) => CommandReplay(c, h, conn, command, delivered, rooms);
      case ReplayTurn(i) => if i < |h.attachments| { ReplayTurnReplay(c, h, i); }
      case ReplayReadError(i) => ReadErrorReplay(c, h, i);
      case Disconnect(conn) => SameReplay(c, h, k);
      case Leave(rooms) =>
        AppendReplay(c, h, HostExit, Room(rooms, 0));
        SameReplay(c, AppendFrame(c, h, HostExit, Room(rooms, 0)), k);
    }
  }
}
