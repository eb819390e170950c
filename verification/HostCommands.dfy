/** Commands act at most once, every stdin line is recorded first, receipts settle once, and only
    the attached coordinator acts: the invariants behind the host's command handling. */
module HostCommands {
  import opened Wrappers
  import opened Journal
  import opened HostState

  // ---- the invariant -------------------------------------------------------------------------

  /** The receipt of a line written, or to be written, to the provider. */
  predicate LineReceipt(r: Receipt) {
    r.Pending? || r.Accepted? || r.Failed?
  }

  /** Whether a line with this receipt may have been handed to stdin. */
  predicate MayHaveReached(r: Receipt) {
    r.Pending? || r.Accepted? || (r.Failed? && r.why == PipeError)
  }

  predicate OutcomeBody(b: Body) {
    b.Written? || b.WriteFailed?
  }

  predicate NeutralBody(b: Body) {
    !b.Input? && !OutcomeBody(b)
  }

  ghost predicate InputNamed(h: Host, body: Body, n: nat) {
    body.Input? ==>
      body.id in h.receipts && LineReceipt(h.receipts[body.id]) && h.receipts[body.id].seqNo == n
  }

  ghost predicate ReceiptNamed(h: Host, id: string, r: Receipt) {
    LineReceipt(r) ==>
      1 <= r.seqNo <= |h.store.recorded| && h.store.recorded[r.seqNo - 1].body.Input?
      && h.store.recorded[r.seqNo - 1].body.id == id
  }

  /** Inputs in the journal and line receipts name each other, so one id is journaled at most once. */
  ghost predicate InputsMatch(h: Host) {
    && (forall i :: 0 <= i < |h.store.recorded| ==> InputNamed(h, h.store.recorded[i].body, i + 1))
    && (forall id :: id in h.receipts ==> ReceiptNamed(h, id, h.receipts[id]))
  }

  /** An outcome in the journal is the receipt's final answer, and there is one outcome per id. */
  ghost predicate OutcomesMatch(h: Host) {
    var rec := h.store.recorded;
    && (forall i :: 0 <= i < |rec| && OutcomeBody(rec[i].body) ==>
          && rec[i].body.id in h.receipts
          && (if rec[i].body.Written? then h.receipts[rec[i].body.id].Accepted? else h.receipts[rec[i].body.id].Failed?))
    && (forall i, j :: 0 <= i < j < |rec| && OutcomeBody(rec[i].body) && OutcomeBody(rec[j].body) ==>
          rec[i].body.id != rec[j].body.id)
  }

  /** Each outstanding write is one pending receipt's. */
  ghost predicate WritesPending(h: Host) {
    && (forall k :: 0 <= k < |h.writes| ==>
          h.writes[k].id in h.receipts && h.receipts[h.writes[k].id] == Pending(h.writes[k].seqNo))
    && (forall a, b :: 0 <= a < b < |h.writes| ==> h.writes[a].id != h.writes[b].id)
    && (forall k, m :: 0 <= k < |h.writes| && 0 <= m < |h.stdin| && !h.writes[k].handed ==>
          h.stdin[m].id != h.writes[k].id)
    && (forall k :: 0 <= k < |h.writes| && h.writes[k].handed ==> InStdin(h.stdin, h.writes[k].id))
  }

  ghost predicate InStdin(stdin: seq<StdinLine>, id: string) {
    exists m :: 0 <= m < |stdin| && stdin[m].id == id
  }

  ghost predicate Backed(h: Host, l: StdinLine) {
    && 1 <= l.seqNo <= h.store.persisted <= |h.store.recorded|
    && h.store.recorded[l.seqNo - 1].body == Input(l.id, l.line)
    && l.id in h.receipts && MayHaveReached(h.receipts[l.id]) && h.receipts[l.id].seqNo == l.seqNo
  }

  /** Every line in stdin was recorded first, and the whole record was already in the journal. */
  ghost predicate StdinBacked(h: Host) {
    forall m :: 0 <= m < |h.stdin| ==> Backed(h, h.stdin[m])
  }

  /** No id reaches stdin twice, and submitted lines reach it in journal order. */
  ghost predicate StdinOrdered(stdin: seq<StdinLine>) {
    && (forall a, b :: 0 <= a < b < |stdin| ==> stdin[a].id != stdin[b].id)
    && (forall a, b :: 0 <= a < b < |stdin| && stdin[a].id != OPENING_ID && stdin[b].id != OPENING_ID ==>
          stdin[a].seqNo < stdin[b].seqNo)
  }

  ghost predicate StdinRecorded(h: Host) {
    && StdinBacked(h)
    && StdinOrdered(h.stdin)
    && (forall id :: id in h.receipts && h.receipts[id].Accepted? ==> InStdin(h.stdin, id))
  }

  /** The opening input is still owed, and its record is on disk before it is ready. */
  ghost predicate OpeningOwed(h: Host) {
    h.opening == WaitingForDisk || h.opening == Ready ==>
      && OPENING_ID in h.receipts && h.receipts[OPENING_ID].Pending?
      && (forall m :: 0 <= m < |h.stdin| ==> h.stdin[m].id != OPENING_ID)
      && (forall k :: 0 <= k < |h.writes| ==> h.writes[k].id != OPENING_ID)
      && h.store.recorded != []
      && (h.opening == Ready ==> h.receipts[OPENING_ID].seqNo <= h.store.persisted)
      && 1 <= h.receipts[OPENING_ID].seqNo <= |h.store.recorded|
      && h.store.recorded[h.receipts[OPENING_ID].seqNo - 1].body == Input(OPENING_ID, h.openingLine)
  }

  ghost predicate LinesInv(h: Host) {
    InputsMatch(h) && OutcomesMatch(h) && WritesPending(h) && StdinRecorded(h) && OpeningOwed(h)
  }

  // ---- neutral steps -------------------------------------------------------------------------

  /** A step that journals no input and no outcome, writes no line, and settles no receipt. */
  ghost predicate Neutral(h: Host, k: Host) {
    && h.store.recorded <= k.store.recorded && h.store.persisted <= k.store.persisted <= |k.store.recorded|
    && (forall i :: |h.store.recorded| <= i < |k.store.recorded| ==> NeutralBody(k.store.recorded[i].body))
    && (forall id :: id in h.receipts ==> id in k.receipts && k.receipts[id] == h.receipts[id])
    && (forall id :: id in k.receipts && id !in h.receipts ==> !LineReceipt(k.receipts[id]))
    && k.writes == h.writes && k.stdin == h.stdin && k.authors == h.authors && k.openingLine == h.openingLine
    && (k.opening == h.opening ||
        (h.opening == WaitingForDisk && k.opening == Ready && |h.store.recorded| <= k.store.persisted))
  }

  lemma NeutralKeepsInputs(h: Host, k: Host)
    requires Neutral(h, k) && InputsMatch(h)
    ensures InputsMatch(k)
  {
    forall i | 0 <= i < |k.store.recorded| ensures InputNamed(k, k.store.recorded[i].body, i + 1) {
      if i < |h.store.recorded| {
        assert k.store.recorded[i] == h.store.recorded[i] && InputNamed(h, h.store.recorded[i].body, i + 1);
      }
    }
    forall id | id in k.receipts ensures ReceiptNamed(k, id, k.receipts[id]) {
      if id in h.receipts { assert ReceiptNamed(h, id, h.receipts[id]); }
    }
  }

  lemma NeutralKeepsOutcomes(h: Host, k: Host)
    requires Neutral(h, k) && OutcomesMatch(h)
    ensures OutcomesMatch(k)
  {
    forall i | 0 <= i < |k.store.recorded| && OutcomeBody(k.store.recorded[i].body)
      ensures i < |h.store.recorded| && k.store.recorded[i] == h.store.recorded[i]
    {}
  }

  lemma NeutralKeepsWrites(h: Host, k: Host)
    requires Neutral(h, k) && WritesPending(h)
    ensures WritesPending(k)
  {}

  lemma NeutralKeepsStdin(h: Host, k: Host)
    requires Neutral(h, k) && StdinRecorded(h)
    ensures StdinRecorded(k)
  {
    forall m | 0 <= m < |k.stdin| ensures Backed(k, k.stdin[m]) {
      assert Backed(h, h.stdin[m]);
    }
  }

  lemma NeutralKeepsOpening(h: Host, k: Host)
    requires Neutral(h, k) && OpeningOwed(h)
    ensures OpeningOwed(k)
  {}

  lemma NeutralKeepsLines(h: Host, k: Host)
    requires Neutral(h, k) && LinesInv(h)
    ensures LinesInv(k)
  {
    NeutralKeepsInputs(h, k);
    NeutralKeepsOutcomes(h, k);
    NeutralKeepsWrites(h, k);
    NeutralKeepsStdin(h, k);
    NeutralKeepsOpening(h, k);
  }

  // ---- the three steps that are not neutral --------------------------------------------------

  /** What every step keeps, besides the frames it adds and the receipt of `id`. */
  ghost predicate Carries(h: Host, k: Host, tail: seq<Body>, id: string, r: Receipt) {
    var n := |h.store.recorded|;
    && |k.store.recorded| == n + |tail|
    && (forall i :: 0 <= i < n ==> k.store.recorded[i] == h.store.recorded[i])
    && (forall i :: 0 <= i < |tail| ==> k.store.recorded[n + i].body == tail[i])
    && h.store.persisted <= k.store.persisted <= |k.store.recorded|
    && k.receipts == h.receipts[id := r]
    && k.openingLine == h.openingLine
    && (k.opening == h.opening || (h.opening == WaitingForDisk && k.opening == Ready && n <= k.store.persisted))
  }

  /** A submitted line whose record could not be persisted: journaled, answered, never handed over. */
  ghost predicate UnrecordedSubmit(h: Host, k: Host, id: string, line: string) {
    && Carries(h, k, [Input(id, line), WriteFailed(id)], id, Failed(|h.store.recorded| + 1, JournalUnavailable))
    && id !in h.receipts && k.writes == h.writes && k.stdin == h.stdin
  }

  lemma UnrecordedInputs(h: Host, k: Host, id: string, line: string)
    requires InputsMatch(h) && UnrecordedSubmit(h, k, id, line)
    ensures InputsMatch(k)
  {
    assert k.store.recorded[|h.store.recorded| + 1].body == [Input(id, line), WriteFailed(id)][1];
    assert k.store.recorded[|h.store.recorded| + 0].body == [Input(id, line), WriteFailed(id)][0];
    forall i | 0 <= i < |k.store.recorded| ensures InputNamed(k, k.store.recorded[i].body, i + 1) {
      if i < |h.store.recorded| { assert InputNamed(h, h.store.recorded[i].body, i + 1); }
    }
    forall x | x in k.receipts ensures ReceiptNamed(k, x, k.receipts[x]) {
      if x != id { assert ReceiptNamed(h, x, h.receipts[x]); }
    }
  }

  lemma UnrecordedOutcomes(h: Host, k: Host, id: string, line: string)
    requires OutcomesMatch(h) && UnrecordedSubmit(h, k, id, line)
    ensures OutcomesMatch(k)
  {
    assert k.store.recorded[|h.store.recorded| + 1].body == [Input(id, line), WriteFailed(id)][1];
    assert k.store.recorded[|h.store.recorded| + 0].body == [Input(id, line), WriteFailed(id)][0];
  }

  lemma UnrecordedWrites(h: Host, k: Host, id: string, line: string)
    requires WritesPending(h) && UnrecordedSubmit(h, k, id, line)
    ensures WritesPending(k)
  {}

  lemma UnrecordedStdin(h: Host, k: Host, id: string, line: string)
    requires StdinRecorded(h) && UnrecordedSubmit(h, k, id, line)
    ensures StdinRecorded(k)
  {}

  lemma UnrecordedOpening(h: Host, k: Host, id: string, line: string)
    requires OpeningOwed(h) && UnrecordedSubmit(h, k, id, line)
    ensures OpeningOwed(k)
  {}

  lemma UnrecordedLines(h: Host, k: Host, id: string, line: string)
    requires LinesInv(h) && UnrecordedSubmit(h, k, id, line)
    ensures LinesInv(k)
  {
    UnrecordedInputs(h, k, id, line);
    UnrecordedOutcomes(h, k, id, line);
    UnrecordedWrites(h, k, id, line);
    UnrecordedStdin(h, k, id, line);
    UnrecordedOpening(h, k, id, line);
  }

  /** A submitted line whose record is on disk: handed to stdin if that is open. */
  ghost predicate RecordedSubmit(h: Host, k: Host, id: string, line: string, conn: nat) {
    var n := |h.store.recorded| + 1;
    && Carries(h, k, [Input(id, line)], id, Pending(n))
    && id !in h.receipts && k.store.persisted == n
    && k.writes == h.writes + [Write(id, n, Some(conn), h.stdinOpen)]
    && k.stdin == if h.stdinOpen then h.stdin + [StdinLine(id, line, n)] else h.stdin
  }

  lemma RecordedInputs(h: Host, k: Host, id: string, line: string, conn: nat)
    requires InputsMatch(h) && RecordedSubmit(h, k, id, line, conn)
    ensures InputsMatch(k)
  {
    assert k.store.recorded[|h.store.recorded| + 0].body == [Input(id, line)][0];
    forall i | 0 <= i < |k.store.recorded| ensures InputNamed(k, k.store.recorded[i].body, i + 1) {
      if i < |h.store.recorded| { assert InputNamed(h, h.store.recorded[i].body, i + 1); }
    }
    forall x | x in k.receipts ensures ReceiptNamed(k, x, k.receipts[x]) {
      if x != id { assert ReceiptNamed(h, x, h.receipts[x]); }
    }
  }

  lemma RecordedOutcomes(h: Host, k: Host, id: string, line: string, conn: nat)
    requires OutcomesMatch(h) && RecordedSubmit(h, k, id, line, conn)
    ensures OutcomesMatch(k)
  {
    assert k.store.recorded[|h.store.recorded| + 0].body == [Input(id, line)][0];
  }

  lemma StdinGrows(a: seq<StdinLine>, b: seq<StdinLine>)
    requires a <= b
    ensures forall id :: InStdin(a, id) ==> InStdin(b, id)
    ensures |b| > |a| ==> InStdin(b, b[|a|].id)
  {
    forall id | InStdin(a, id) ensures InStdin(b, id) {
      var m :| 0 <= m < |a| && a[m].id == id;
      assert b[m].id == id;
    }
  }

  lemma RecordedWrites(h: Host, k: Host, id: string, line: string, conn: nat)
    requires WritesPending(h) && StdinRecorded(h) && RecordedSubmit(h, k, id, line, conn)
    ensures WritesPending(k)
  {
    StdinGrows(h.stdin, k.stdin);
  }

  lemma RecordedBacked(h: Host, k: Host, id: string, line: string, conn: nat)
    requires StdinBacked(h) && RecordedSubmit(h, k, id, line, conn)
    ensures StdinBacked(k)
  {
    forall m | 0 <= m < |k.stdin| ensures Backed(k, k.stdin[m]) {
      if m < |h.stdin| {
        assert Backed(h, h.stdin[m]) && k.stdin[m] == h.stdin[m];
      } else {
        assert k.store.recorded[|h.store.recorded| + 0].body == [Input(id, line)][0];
      }
    }
  }

  lemma RecordedStdin(h: Host, k: Host, id: string, line: string, conn: nat)
    requires StdinRecorded(h) && RecordedSubmit(h, k, id, line, conn)
    ensures StdinRecorded(k)
  {
    hide InStdin;
    RecordedBacked(h, k, id, line, conn);
    StdinGrows(h.stdin, k.stdin);
    assert StdinOrdered(k.stdin) by {
      assert forall m :: 0 <= m < |h.stdin| ==> h.stdin[m].seqNo <= |h.store.recorded| && h.stdin[m].id in h.receipts;
    }
  }

  lemma RecordedOpening(h: Host, k: Host, id: string, line: string, conn: nat)
    requires OpeningOwed(h) && RecordedSubmit(h, k, id, line, conn)
    ensures OpeningOwed(k)
  {}

  lemma RecordedLines(h: Host, k: Host, id: string, line: string, conn: nat)
    requires LinesInv(h) && RecordedSubmit(h, k, id, line, conn)
    ensures LinesInv(k)
  {
    RecordedInputs(h, k, id, line, conn);
    RecordedOutcomes(h, k, id, line, conn);
    RecordedWrites(h, k, id, line, conn);
    RecordedStdin(h, k, id, line, conn);
    RecordedOpening(h, k, id, line, conn);
  }

  /** The opening input is handed over, once. */
  lemma OpeningWrites(h: Host)
    requires LinesInv(h) && h.opening == Ready
    ensures WritesPending(OnOpening(h))
  {
    StdinGrows(h.stdin, OnOpening(h).stdin);
  }

  lemma OpeningBacked(h: Host)
    requires LinesInv(h) && h.opening == Ready && h.store.persisted <= |h.store.recorded|
    ensures StdinBacked(OnOpening(h))
  {
    var k := OnOpening(h);
    forall m | 0 <= m < |k.stdin| ensures Backed(k, k.stdin[m]) {
      if m < |h.stdin| { assert Backed(h, h.stdin[m]) && k.stdin[m] == h.stdin[m]; }
    }
  }

  lemma OpeningStdin(h: Host)
    requires LinesInv(h) && h.opening == Ready && h.store.persisted <= |h.store.recorded|
    ensures StdinRecorded(OnOpening(h))
  {
    OpeningBacked(h);
    StdinGrows(h.stdin, OnOpening(h).stdin);
    assert StdinOrdered(OnOpening(h).stdin);
  }

  lemma OpeningLines(h: Host)
    requires LinesInv(h) && h.store.persisted <= |h.store.recorded|
    ensures LinesInv(OnOpening(h))
  {
    if h.opening == Ready {
      OpeningWrites(h);
      OpeningStdin(h);
    }
  }

  /** A write's callback: one outcome frame, one final receipt. */
  ghost predicate Settles(h: Host, k: Host, n: nat, ok: bool)
    requires n < |h.writes|
  {
    var w := h.writes[n];
    && Carries(h, k, [if ok then Written(w.id) else WriteFailed(w.id)], w.id,
               if ok then Accepted(w.seqNo) else Failed(w.seqNo, if w.handed then PipeError else StdinClosed))
    && k.writes == h.writes[..n] + h.writes[n + 1..] && k.stdin == h.stdin && (ok ==> w.handed)
  }

  lemma SettlesInputs(h: Host, k: Host, n: nat, ok: bool)
    requires n < |h.writes| && InputsMatch(h) && WritesPending(h) && Settles(h, k, n, ok)
    ensures InputsMatch(k)
  {
    var w := h.writes[n];
    assert k.store.recorded[|h.store.recorded| + 0].body == [if ok then Written(w.id) else WriteFailed(w.id)][0];
    forall i | 0 <= i < |k.store.recorded| ensures InputNamed(k, k.store.recorded[i].body, i + 1) {
      if i < |h.store.recorded| { assert InputNamed(h, h.store.recorded[i].body, i + 1); }
    }
    forall id | id in k.receipts ensures ReceiptNamed(k, id, k.receipts[id]) {
      assert ReceiptNamed(h, id, h.receipts[id]);
    }
  }

  lemma SettlesOutcomes(h: Host, k: Host, n: nat, ok: bool)
    requires n < |h.writes| && OutcomesMatch(h) && WritesPending(h) && Settles(h, k, n, ok)
    ensures OutcomesMatch(k)
  {
    assert k.store.recorded[|h.store.recorded| + 0].body == [if ok then Written(h.writes[n].id) else WriteFailed(h.writes[n].id)][0];
  }

  lemma SettlesWrites(h: Host, k: Host, n: nat, ok: bool)
    requires n < |h.writes| && WritesPending(h) && Settles(h, k, n, ok)
    ensures WritesPending(k)
  {
    forall m | 0 <= m < |k.writes| ensures k.writes[m] == h.writes[if m < n then m else m + 1] {}
  }

  lemma SettlesStdin(h: Host, k: Host, n: nat, ok: bool)
    requires n < |h.writes| && WritesPending(h) && StdinRecorded(h) && Settles(h, k, n, ok)
    ensures StdinRecorded(k)
  {}

  lemma SettlesOpening(h: Host, k: Host, n: nat, ok: bool)
    requires n < |h.writes| && OpeningOwed(h) && Settles(h, k, n, ok)
    ensures OpeningOwed(k)
  {
    forall m | 0 <= m < |k.writes| ensures k.writes[m] == h.writes[if m < n then m else m + 1] {}
  }

  lemma SettlesLines(h: Host, k: Host, n: nat, ok: bool)
    requires n < |h.writes| && LinesInv(h) && Settles(h, k, n, ok)
    ensures LinesInv(k)
  {
    SettlesInputs(h, k, n, ok);
    SettlesOutcomes(h, k, n, ok);
    SettlesWrites(h, k, n, ok);
    SettlesStdin(h, k, n, ok);
    SettlesOpening(h, k, n, ok);
  }
}
