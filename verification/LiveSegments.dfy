/** A recording followed while it is made: the timed words of a fast transcriber, pruned as the final
    segments of an accurate one overtake them; and the slices and drains around them. Times are integers
    in one time scale, and a midpoint is compared exactly. */
module LiveSegments {

  datatype Word = Word(start: int, duration: nat, text: string)

  function End(w: Word): int {
    w.start + w.duration
  }

  /** How long two stretches overlap. */
  function Overlap(a: Word, b: Word): int {
    (if End(a) < End(b) then End(a) else End(b)) - (if a.start > b.start then a.start else b.start)
  }

  /** `w` gives way to a newer word: they overlap, or `w` starts inside the newer stretch. */
  predicate GivesWay(w: Word, newer: Word) {
    Overlap(w, newer) > 0 || newer.start <= w.start < End(newer)
  }

  /** The words that stay when `newer` is heard. */
  function Staying(words: seq<Word>, newer: Word): seq<Word> {
    if words == [] then []
    else
      var w := words[|words| - 1];
      if GivesWay(w, newer) then Staying(words[..|words| - 1], newer) else Staying(words[..|words| - 1], newer) + [w]
  }

  /** A word put in its place by start, after those that start with it. */
  function Inserted(words: seq<Word>, w: Word): seq<Word> {
    if words == [] || words[|words| - 1].start <= w.start then words + [w]
    else Inserted(words[..|words| - 1], w) + [words[|words| - 1]]
  }

  function AfterHearing(words: seq<Word>, w: Word): seq<Word> {
    Inserted(Staying(words, w), w)
  }

  /** The words that end after the last final segment. */
  function Unpruned(words: seq<Word>, finalEnd: int): seq<Word> {
    if words == [] then []
    else
      var w := words[|words| - 1];
      Unpruned(words[..|words| - 1], finalEnd) + if End(w) <= finalEnd then [] else [w]
  }

  /** The text of the words whose middle lies after the last final segment. */
  function Shown(words: seq<Word>, finalEnd: int): string {
    if words == [] then ""
    else
      var w := words[|words| - 1];
      Shown(words[..|words| - 1], finalEnd) + if 2 * w.start + w.duration > 2 * finalEnd then w.text else ""
  }

  // ---- order -----------------------------------------------------------------------------------

  /** Sorted by start, and no two stretches overlap by more than nothing. */
  ghost predicate InOrder(words: seq<Word>) {
    && (forall i, j :: 0 <= i < j < |words| ==> words[i].start <= words[j].start)
    && (forall i, j :: 0 <= i < j < |words| ==> Overlap(words[i], words[j]) <= 0)
  }

  lemma InOrderParts(words: seq<Word>)
    requires words != [] && InOrder(words)
    ensures InOrder(words[..|words| - 1])
  {}

  lemma InOrderLast(words: seq<Word>, w: Word)
    requires InOrder(words) && forall x :: x in words ==> x.start <= w.start && Overlap(x, w) <= 0
    ensures InOrder(words + [w])
  {}

  lemma {:induction false} StayingKeeps(words: seq<Word>, newer: Word)
    requires InOrder(words)
    ensures InOrder(Staying(words, newer))
    ensures forall x :: x in Staying(words, newer) <==> x in words && !GivesWay(x, newer)
  {
    if words != [] {
      var init, w := words[..|words| - 1], words[|words| - 1];
      assert words == init + [w];
      InOrderParts(words);
      StayingKeeps(init, newer);
      forall x | x in init ensures x.start <= w.start && Overlap(x, w) <= 0 {
        var i :| 0 <= i < |init| && init[i] == x;
        assert words[i] == x && words[|init|] == w;
      }
      if !GivesWay(w, newer) { InOrderLast(Staying(init, newer), w); }
    }
  }

  lemma OverlapSymmetric(a: Word, b: Word)
    ensures Overlap(a, b) == Overlap(b, a)
  {}

  lemma {:induction false} InsertedKeeps(words: seq<Word>, w: Word)
    requires InOrder(words) && forall x :: x in words ==> Overlap(x, w) <= 0
    ensures InOrder(Inserted(words, w))
    ensures forall x :: x in Inserted(words, w) <==> x in words || x == w
  {
    if words == [] || words[|words| - 1].start <= w.start {
      forall x | x in words ensures x.start <= w.start {
        var i :| 0 <= i < |words| && words[i] == x;
        assert i < |words| - 1 ==> words[i].start <= words[|words| - 1].start;
      }
      InOrderLast(words, w);
    } else {
      var init, last := words[..|words| - 1], words[|words| - 1];
      assert words == init + [last];
      InOrderParts(words);
      InsertedKeeps(init, w);
      forall x | x in Inserted(init, w) ensures x.start <= last.start && Overlap(x, last) <= 0 {
        if x == w {
          assert last in words;
          OverlapSymmetric(w, last);
        } else {
          var i :| 0 <= i < |init| && init[i] == x;
          assert words[i] == x && words[|init|] == last;
        }
      }
      InOrderLast(Inserted(init, w), last);
    }
  }

  /** Hearing a word keeps the order; the newer word is there, and of the older ones exactly those that
      do not give way. */
  lemma HearingKeepsOrder(words: seq<Word>, w: Word)
    requires InOrder(words)
    ensures InOrder(AfterHearing(words, w))
    ensures forall x :: x in AfterHearing(words, w) <==> x == w || (x in words && !GivesWay(x, w))
  {
    StayingKeeps(words, w);
    InsertedKeeps(Staying(words, w), w);
  }

  /** Whether an older word stays when `w` is heard: it does if the newer word has no length, and otherwise
      if their stretches do not overlap, a word of no length counting as inside a stretch from its first
      instant until before its last. */
  predicate Apart(x: Word, w: Word) {
    || w.duration == 0
    || x.start >= w.start + w.duration
    || (if x.duration > 0 then x.start + x.duration <= w.start else x.start < w.start)
  }

  lemma ApartStays(x: Word, w: Word)
    ensures Apart(x, w) <==> !GivesWay(x, w)
  {}

  lemma {:induction false} StayingCounts(words: seq<Word>, w: Word, x: Word)
    ensures multiset(Staying(words, w))[x] == if Apart(x, w) then multiset(words)[x] else 0
  {
    if words != [] {
      var init, last := words[..|words| - 1], words[|words| - 1];
      ApartStays(last, w);
      StayingCounts(init, w, x);
      assert words == init + [last];
    }
  }

  lemma {:induction false} InsertedCounts(words: seq<Word>, w: Word)
    ensures multiset(Inserted(words, w)) == multiset(words) + multiset{w}
  {
    if words != [] && words[|words| - 1].start > w.start {
      InsertedCounts(words[..|words| - 1], w);
      assert words == words[..|words| - 1] + [words[|words| - 1]];
    }
  }

  /** After a word is heard it is there once more, every older word whose stretch it leaves alone as often
      as before, and every other not at all. */
  lemma HeardExactly(words: seq<Word>, w: Word, x: Word)
    ensures multiset(AfterHearing(words, w))[x]
      == (if Apart(x, w) then multiset(words)[x] else 0) + (if x == w then 1 else 0)
    ensures x.duration > 0 && w.duration > 0 ==> (Apart(x, w) <==> End(x) <= w.start || End(w) <= x.start)
  {
    StayingCounts(words, w, x);
    InsertedCounts(Staying(words, w), w);
  }

  lemma {:induction false} PruningKeepsOrder(words: seq<Word>, finalEnd: int)
    requires InOrder(words)
    ensures InOrder(Unpruned(words, finalEnd))
    ensures forall x :: x in Unpruned(words, finalEnd) <==> x in words && End(x) > finalEnd
  {
    if words != [] {
      var init, w := words[..|words| - 1], words[|words| - 1];
      assert words == init + [w];
      InOrderParts(words);
      PruningKeepsOrder(init, finalEnd);
      forall x | x in init ensures x.start <= w.start && Overlap(x, w) <= 0 {
        var i :| 0 <= i < |init| && init[i] == x;
        assert words[i] == x && words[|init|] == w;
      }
      if End(w) > finalEnd { InOrderLast(Unpruned(init, finalEnd), w); }
    }
  }

  // ---- pruning is invisible --------------------------------------------------------------------

  lemma {:induction false} UnprunedJoin(a: seq<Word>, b: seq<Word>, f: int)
    ensures Unpruned(a + b, f) == Unpruned(a, f) + Unpruned(b, f)
  {
    if b == [] {
      assert a + b == a;
    } else {
      UnprunedJoin(a, b[..|b| - 1], f);
      assert (a + b)[..|a + b| - 1] == a + b[..|b| - 1];
    }
  }

  /** Pruning twice is pruning to the later end. */
  lemma {:induction false} UnprunedTwice(words: seq<Word>, f: int, g: int)
    requires f <= g
    ensures Unpruned(Unpruned(words, f), g) == Unpruned(words, g)
  {
    if words != [] {
      var init, w := words[..|words| - 1], words[|words| - 1];
      UnprunedTwice(init, f, g);
      UnprunedJoin(Unpruned(init, f), if End(w) <= f then [] else [w], g);
    }
  }

  lemma UnprunedLast(words: seq<Word>, w: Word, f: int)
    ensures Unpruned(words + [w], f) == if End(w) <= f then Unpruned(words, f) else Unpruned(words, f) + [w]
  {
    assert (words + [w])[..|words|] == words;
  }

  lemma StayingLast(words: seq<Word>, w: Word, newer: Word)
    ensures Staying(words + [w], newer) == if GivesWay(w, newer) then Staying(words, newer) else Staying(words, newer) + [w]
  {
    assert (words + [w])[..|words|] == words;
  }

  lemma InsertedLast(words: seq<Word>, last: Word, w: Word)
    ensures Inserted(words + [last], w) == if last.start <= w.start then words + [last] + [w] else Inserted(words, w) + [last]
  {
    assert (words + [last])[..|words|] == words;
  }

  lemma {:induction false} StayingUnpruned(words: seq<Word>, newer: Word, f: int, stayed: seq<Word>)
    requires stayed == Staying(words, newer)
    ensures Unpruned(stayed, f) == Staying(Unpruned(words, f), newer)
    decreases |words|
  {
    hide *;
    if words == [] {
      NothingStays(newer, f);
    } else {
      var init, w := words[..|words| - 1], words[|words| - 1];
      StayingUnpruned(init, newer, f, Staying(init, newer));
      assert words == init + [w];
      StayingUnprunedStep(init, w, newer, f);
    }
  }

  lemma NothingStays(newer: Word, f: int)
    ensures Staying([], newer) == [] && Unpruned([], f) == []
  {}

  lemma StayingUnprunedStep(init: seq<Word>, w: Word, newer: Word, f: int)
    requires Unpruned(Staying(init, newer), f) == Staying(Unpruned(init, f), newer)
    ensures Unpruned(Staying(init + [w], newer), f) == Staying(Unpruned(init + [w], f), newer)
  {
    hide *;
    UnprunedLast(init, w, f);
    StayingLast(init, w, newer);
    UnprunedLast(Staying(init, newer), w, f);
    StayingLast(Unpruned(init, f), w, newer);
  }

  /** A word's place among those that remain does not depend on those that were pruned. */
  lemma {:induction false} InsertedUnpruned(words: seq<Word>, w: Word, f: int)
    requires InOrder(words)
    ensures Unpruned(Inserted(words, w), f) == if End(w) <= f then Unpruned(words, f) else Inserted(Unpruned(words, f), w)
  {
    if words == [] || words[|words| - 1].start <= w.start {
      InsertedAtEnd(words, w, f);
    } else {
      var init, last := words[..|words| - 1], words[|words| - 1];
      InOrderParts(words);
      InsertedUnpruned(init, w, f);
      assert words == init + [last];
      InsertedUnprunedStep(init, last, w, f);
    }
  }

  lemma InsertedAtEnd(words: seq<Word>, w: Word, f: int)
    requires InOrder(words) && (words == [] || words[|words| - 1].start <= w.start)
    ensures Unpruned(Inserted(words, w), f) == if End(w) <= f then Unpruned(words, f) else Inserted(Unpruned(words, f), w)
  {
    hide Unpruned; hide InOrder;
    UnprunedLast(words, w, f);
    UnprunedStarts(words, f);
  }

  lemma InsertedUnprunedStep(init: seq<Word>, last: Word, w: Word, f: int)
    requires last.start > w.start
    requires Unpruned(Inserted(init, w), f) == if End(w) <= f then Unpruned(init, f) else Inserted(Unpruned(init, f), w)
    ensures Unpruned(Inserted(init + [last], w), f)
      == if End(w) <= f then Unpruned(init + [last], f) else Inserted(Unpruned(init + [last], f), w)
  {
    hide *;
    InsertedLast(init, last, w);
    InsertedLast(Unpruned(init, f), last, w);
    UnprunedLast(Inserted(init, w), last, f);
    UnprunedLast(init, last, f);
  }

  lemma UnprunedStarts(words: seq<Word>, f: int)
    requires InOrder(words)
    ensures words == [] ==> Unpruned(words, f) == []
    ensures words != [] ==> var kept := Unpruned(words, f); (kept != [] ==> kept[|kept| - 1].start <= words[|words| - 1].start)
  {
    PruningKeepsOrder(words, f);
    hide Unpruned;
    var kept := Unpruned(words, f);
    if kept != [] {
      assert kept[|kept| - 1] in kept;
      var i :| 0 <= i < |words| && words[i] == kept[|kept| - 1];
      assert i < |words| - 1 ==> words[i].start <= words[|words| - 1].start;
    }
  }

  /** What is heard next depends on the pruned words in nothing. */
  lemma HearingUnpruned(a: seq<Word>, b: seq<Word>, w: Word, f: int)
    requires InOrder(a) && InOrder(b) && Unpruned(a, f) == Unpruned(b, f)
    ensures Unpruned(AfterHearing(a, w), f) == Unpruned(AfterHearing(b, w), f)
  {
    StayingKeeps(a, w);
    StayingKeeps(b, w);
    StayingUnpruned(a, w, f, Staying(a, w));
    StayingUnpruned(b, w, f, Staying(b, w));
    InsertedUnpruned(Staying(a, w), w, f);
    InsertedUnpruned(Staying(b, w), w, f);
  }

  /** Nor does what is shown. */
  lemma {:induction false} ShownUnpruned(words: seq<Word>, f: int)
    ensures Shown(Unpruned(words, f), f) == Shown(words, f)
  {
    if words != [] {
      var init, w := words[..|words| - 1], words[|words| - 1];
      ShownUnpruned(init, f);
      UnprunedLast(init, w, f);
      assert words == init + [w];
      if End(w) > f { assert (Unpruned(init, f) + [w])[..|Unpruned(init, f)|] == Unpruned(init, f); }
      assert Shown(init, f) + "" == Shown(init, f);
    }
  }

  // ---- the object ------------------------------------------------------------------------------

  datatype Event = Heard(word: Word) | FinalResult(text: string, end: int) | PartialRead

  /** The words, the end of the last final segment, and every partial text read so far. */
  datatype Track = Track(words: seq<Word>, finalEnd: int, final: seq<string>, shown: seq<string>)

  const Silence := Track([], 0, [], [])

  /** The program: reading the partial text prunes. */
  function Next(t: Track, e: Event): Track {
    match e
    case Heard(w) => t.(words := AfterHearing(t.words, w))
    case FinalResult(text, end) => t.(finalEnd := end, final := t.final + [text])
    case PartialRead =>
      var kept := Unpruned(t.words, t.finalEnd);
      t.(words := kept, shown := t.shown + [Shown(kept, t.finalEnd)])
  }

  /** The same without pruning. */
  function NextKeeping(t: Track, e: Event): Track {
    if e.PartialRead? then t.(shown := t.shown + [Shown(t.words, t.finalEnd)]) else Next(t, e)
  }

  function Play(t: Track, events: seq<Event>): Track
    decreases |events|
  {
    if events == [] then t else Play(Next(t, events[0]), events[1..])
  }

  function PlayKeeping(t: Track, events: seq<Event>): Track
    decreases |events|
  {
    if events == [] then t else PlayKeeping(NextKeeping(t, events[0]), events[1..])
  }

  /** Final segments come in order. */
  predicate EndsAdvance(finalEnd: int, events: seq<Event>)
    decreases |events|
  {
    events != [] ==>
      && (events[0].FinalResult? ==> finalEnd <= events[0].end)
      && EndsAdvance(if events[0].FinalResult? then events[0].end else finalEnd, events[1..])
  }

  /** After any run the words are sorted by start and none overlaps another. */
  lemma {:induction false} AlwaysInOrder(t: Track, events: seq<Event>)
    requires InOrder(t.words)
    ensures InOrder(Play(t, events).words)
    decreases |events|
  {
    hide InOrder; hide AfterHearing; hide Unpruned; hide Shown;
    if events != [] {
      NextInOrder(t, events[0]);
      AlwaysInOrder(Next(t, events[0]), events[1..]);
    }
  }

  lemma NextInOrder(t: Track, e: Event)
    requires InOrder(t.words)
    ensures InOrder(Next(t, e).words) && InOrder(NextKeeping(t, e).words)
  {
    hide InOrder; hide AfterHearing; hide Unpruned; hide Shown;
    PruningKeepsOrder(t.words, t.finalEnd);
    if e.Heard? { HearingKeepsOrder(t.words, e.word); }
  }

  /** Two tracks a reader cannot tell apart, now or at any later final end. */
  ghost predicate Alike(a: Track, b: Track) {
    && InOrder(a.words) && InOrder(b.words) && Unpruned(a.words, a.finalEnd) == Unpruned(b.words, a.finalEnd)
    && a == b.(words := a.words)
  }

  lemma NextAlike(a: Track, b: Track, e: Event)
    requires Alike(a, b) && (e.FinalResult? ==> a.finalEnd <= e.end)
    ensures Alike(Next(a, e), NextKeeping(b, e))
  {
    NextInOrder(a, e);
    NextInOrder(b, e);
    hide InOrder; hide AfterHearing; hide Unpruned; hide Shown;
    match e
    case Heard(w) => HearingUnpruned(a.words, b.words, w, a.finalEnd);
    case FinalResult(_, end) =>
      UnprunedTwice(a.words, a.finalEnd, end);
      UnprunedTwice(b.words, a.finalEnd, end);
    case PartialRead =>
      UnprunedTwice(a.words, a.finalEnd, a.finalEnd);
      ShownUnpruned(b.words, b.finalEnd);
  }

  /** Pruning is invisible: while final segments come in order, every partial text read is the one a
      track that never prunes would give. */
  lemma {:induction false} PruningInvisible(a: Track, b: Track, events: seq<Event>)
    requires Alike(a, b) && EndsAdvance(a.finalEnd, events)
    ensures Play(a, events).shown == PlayKeeping(b, events).shown
    decreases |events|
  {
    hide Next; hide NextKeeping; hide Alike;
    if events != [] {
      NextAlike(a, b, events[0]);
      assert Next(a, events[0]).finalEnd == if events[0].FinalResult? then events[0].end else a.finalEnd by { EndAfter(a, events[0]); }
      PruningInvisible(Next(a, events[0]), NextKeeping(b, events[0]), events[1..]);
    } else {
      AlikeReads(a, b);
    }
  }

  lemma EndAfter(t: Track, e: Event)
    ensures Next(t, e).finalEnd == if e.FinalResult? then e.end else t.finalEnd
  {}

  lemma AlikeReads(a: Track, b: Track)
    requires Alike(a, b)
    ensures a.shown == b.shown
  {}

  /** The ends of the final segments in a run. */
  function Ends(events: seq<Event>): seq<int> {
    if events == [] then [] else (if events[0].FinalResult? then [events[0].end] else []) + Ends(events[1..])
  }

  predicate NonDecreasing(first: int, ends: seq<int>)
    decreases |ends|
  {
    ends != [] ==> first <= ends[0] && NonDecreasing(ends[0], ends[1..])
  }

  lemma {:induction false} EndsInOrder(f: int, events: seq<Event>)
    ensures EndsAdvance(f, events) <==> NonDecreasing(f, Ends(events))
    decreases |events|
  {
    if events != [] {
      EndsInOrder(if events[0].FinalResult? then events[0].end else f, events[1..]);
      if events[0].FinalResult? {
        assert Ends(events)[1..] == Ends(events[1..]);
      } else {
        assert Ends(events) == Ends(events[1..]);
      }
    }
  }

  /** Exactly when the final segments' ends never step back is pruning invisible in every run that
      has those ends, whatever words are heard and however often the partial text is read. */
  lemma InvisibleExactlyInOrder(ends: seq<int>)
    ensures NonDecreasing(0, ends) <==>
      (forall events :: Ends(events) == ends ==> Play(Silence, events).shown == PlayKeeping(Silence, events).shown)
  {
    hide Next; hide NextKeeping; hide Play; hide PlayKeeping;
    if NonDecreasing(0, ends) {
      forall events | Ends(events) == ends ensures Play(Silence, events).shown == PlayKeeping(Silence, events).shown {
        EndsInOrder(0, events);
        PruningInvisible(Silence, Silence, events);
      }
    } else {
      var events := StepBackShows(Silence, ends);
      assert Ends(events) == ends;
    }
  }

  function Finals(ends: seq<int>): seq<Event> {
    if ends == [] then [] else [FinalResult("", ends[0])] + Finals(ends[1..])
  }

  lemma {:induction false} EndsOfFinals(ends: seq<int>)
    ensures Ends(Finals(ends)) == ends
  {
    if ends != [] {
      EndsOfFinals(ends[1..]);
      assert Finals(ends)[1..] == Finals(ends[1..]);
    }
  }

  lemma {:induction false} ShownGrows(t: Track, events: seq<Event>)
    ensures t.shown <= Play(t, events).shown && t.shown <= PlayKeeping(t, events).shown
    decreases |events|
  {
    hide Unpruned; hide Shown; hide AfterHearing;
    if events != [] {
      ShownGrows(Next(t, events[0]), events[1..]);
      ShownGrows(NextKeeping(t, events[0]), events[1..]);
    }
  }

  /** The first step back shows: a word heard before it, and pruned at the later end, should be shown
      again at the earlier one. */
  lemma {:induction false} StepBackShows(t: Track, ends: seq<int>) returns (events: seq<Event>)
    requires t.words == [] && t.shown == [] && !NonDecreasing(t.finalEnd, ends)
    ensures Ends(events) == ends && Play(t, events).shown != PlayKeeping(t, events).shown
    decreases |ends|
  {
    if t.finalEnd <= ends[0] {
      var e := FinalResult("", ends[0]);
      var rest := StepBackShows(Next(t, e), ends[1..]);
      events := [e] + rest;
      assert events[1..] == rest && [ends[0]] + ends[1..] == ends;
    } else {
      var w := Word(ends[0], t.finalEnd - ends[0], "w");
      var rest := Finals(ends[1..]);
      events := [Heard(w), PartialRead] + ([FinalResult("", ends[0]), PartialRead] + rest);
      EndsOfFinals(ends[1..]);
      StepBackEnds(w, ends[0], rest);
      StepBackRun(t, w, ends[0], rest);
      assert [ends[0]] + ends[1..] == ends;
    }
  }

  lemma StepBackEnds(w: Word, end: int, rest: seq<Event>)
    ensures Ends([Heard(w), PartialRead] + ([FinalResult("", end), PartialRead] + rest)) == [end] + Ends(rest)
  {
    var tail := [FinalResult("", end)] + ([PartialRead] + rest);
    EndsFirst(PartialRead, rest);
    EndsFirst(FinalResult("", end), [PartialRead] + rest);
    EndsFirst(PartialRead, tail);
    EndsFirst(Heard(w), [PartialRead] + tail);
    hide Ends;
    assert [Heard(w), PartialRead] + ([FinalResult("", end), PartialRead] + rest) == [Heard(w)] + ([PartialRead] + tail);
  }

  lemma EndsFirst(e: Event, rest: seq<Event>)
    ensures Ends([e] + rest) == (if e.FinalResult? then [e.end] else []) + Ends(rest)
    ensures !e.FinalResult? ==> Ends([e] + rest) == Ends(rest)
  {
    assert ([e] + rest)[1..] == rest;
    assert [] + Ends(rest) == Ends(rest);
  }

  lemma StepBackRun(t: Track, w: Word, end: int, rest: seq<Event>)
    requires t.words == [] && t.shown == [] && end < t.finalEnd && w == Word(end, t.finalEnd - end, "w")
    ensures var events := [Heard(w), PartialRead] + ([FinalResult("", end), PartialRead] + rest);
      Play(t, events).shown != PlayKeeping(t, events).shown
  {
    hide AfterHearing; hide Unpruned; hide Shown; hide Play; hide PlayKeeping;
    StepBackFacts(t.finalEnd, end);
    var tail := [FinalResult("", end), PartialRead] + rest;
    var events := [Heard(w), PartialRead] + tail;
    FirstTwo(t, events);
    var one := t.(words := [w]);
    assert Next(t, Heard(w)) == one == NextKeeping(t, Heard(w));
    var pruned, kept := t.(shown := [""]), one.(shown := [""]);
    assert Next(one, PartialRead) == pruned && NextKeeping(one, PartialRead) == kept;
    assert events[2..] == tail && tail[2..] == rest;
    FirstTwo(pruned, tail);
    FirstTwo(kept, tail);
    var a, b := Next(Next(pruned, tail[0]), PartialRead), NextKeeping(NextKeeping(kept, tail[0]), PartialRead);
    assert a.shown == ["", ""] && b.shown == ["", "w"];
    ShownGrows(a, rest);
    ShownGrows(b, rest);
    assert a.shown[1] != b.shown[1];
  }

  lemma StepBackFacts(later: int, earlier: int)
    requires earlier < later
    ensures var w := Word(earlier, later - earlier, "w");
      && AfterHearing([], w) == [w] && Unpruned([w], later) == [] && Unpruned([], earlier) == []
      && Shown([], later) == "" && Shown([], earlier) == "" && Shown([w], later) == "" && Shown([w], earlier) == "w"
  {
    var w := Word(earlier, later - earlier, "w");
    assert Staying([], w) == [] && [w][..0] == [];
  }

  lemma FirstTwo(t: Track, e: seq<Event>)
    requires |e| >= 2
    ensures Play(t, e) == Play(Next(Next(t, e[0]), e[1]), e[2..])
    ensures PlayKeeping(t, e) == PlayKeeping(NextKeeping(NextKeeping(t, e[0]), e[1]), e[2..])
  {
    hide Next; hide NextKeeping;
    assert e[1..][1..] == e[2..];
  }

  // ---- what is shown -----------------------------------------------------------------------------

  /** Some places of a sequence of this length, in order. */
  predicate Places(length: nat, places: seq<nat>) {
    && (forall m :: 0 <= m < |places| ==> places[m] < length)
    && (forall m, n :: 0 <= m < n < |places| ==> places[m] < places[n])
  }

  /** The texts of the words at these places. */
  function TextsAt(words: seq<Word>, places: seq<nat>): string
    requires Places(|words|, places)
  {
    if places == [] then "" else TextsAt(words, places[..|places| - 1]) + words[places[|places| - 1]].text
  }

  lemma {:induction false} TextsAtMore(words: seq<Word>, w: Word, places: seq<nat>)
    requires Places(|words|, places)
    ensures Places(|words| + 1, places) && TextsAt(words + [w], places) == TextsAt(words, places)
  {
    if places != [] {
      assert Places(|words|, places[..|places| - 1]);
      TextsAtMore(words, w, places[..|places| - 1]);
    }
  }

  /** The word lies for longer after this instant than before it. */
  predicate MostlyAfter(w: Word, f: int) {
    End(w) - f > f - w.start
  }

  /** The partial text is the texts of certain words in their order: exactly of those that lie for longer
      after the last final segment's end than before it. */
  lemma {:induction false} ShownExactly(words: seq<Word>, f: int) returns (places: seq<nat>)
    ensures Places(|words|, places)
    ensures forall n: nat :: n < |words| ==> (n in places <==> MostlyAfter(words[n], f))
    ensures Shown(words, f) == TextsAt(words, places)
  {
    hide Shown; hide TextsAt;
    if words == [] {
      places := [];
      ShownFirst(f);
      TextsAtNone(words);
    } else {
      var init, w := words[..|words| - 1], words[|words| - 1];
      var before := ShownExactly(init, f);
      assert words == init + [w];
      TextsAtMore(init, w, before);
      ShownLast(init, w, f);
      places := if MostlyAfter(w, f) then before + [|init|] else before;
      if MostlyAfter(w, f) { TextsAtLast(words, before, |init|); }
    }
  }

  lemma TextsAtNone(words: seq<Word>)
    ensures TextsAt(words, []) == ""
  {}

  lemma TextsAtLast(words: seq<Word>, places: seq<nat>, n: nat)
    requires Places(|words|, places) && n < |words| && forall m :: 0 <= m < |places| ==> places[m] < n
    ensures Places(|words|, places + [n]) && TextsAt(words, places + [n]) == TextsAt(words, places) + words[n].text
  {
    assert (places + [n])[..|places|] == places;
  }

  function Hearings(words: seq<Word>): seq<Event> {
    seq(|words|, i requires 0 <= i < |words| => Heard(words[i]))
  }

  function Texts(words: seq<Word>): string {
    if words == [] then "" else Texts(words[..|words| - 1]) + words[|words| - 1].text
  }

  /** Words one after the other, each of some length and none before the start of the recording. */
  ghost predicate InTime(words: seq<Word>) {
    && (forall i :: 0 <= i < |words| ==> 0 <= words[i].start && words[i].duration > 0)
    && (forall i, j :: 0 <= i < j < |words| ==> End(words[i]) <= words[j].start)
  }

  lemma {:induction false} AllStay(words: seq<Word>, w: Word)
    requires forall i :: 0 <= i < |words| ==> Apart(words[i], w)
    ensures Staying(words, w) == words
  {
    if words != [] {
      var init, last := words[..|words| - 1], words[|words| - 1];
      AllStay(init, w);
      ApartStays(last, w);
      assert words == init + [last];
    }
  }

  lemma {:induction false} PlayJoin(t: Track, a: seq<Event>, b: seq<Event>)
    ensures Play(t, a + b) == Play(Play(t, a), b)
    decreases |a|
  {
    hide Next;
    if a == [] {
      assert a + b == b;
    } else {
      PlayJoin(Next(t, a[0]), a[1..], b);
      assert (a + b)[1..] == a[1..] + b;
    }
  }

  lemma {:induction false} HeardInTime(words: seq<Word>)
    requires InTime(words)
    ensures Play(Silence, Hearings(words)) == Silence.(words := words) && Shown(words, 0) == Texts(words)
  {
    hide Play; hide Shown; hide AfterHearing;
    if words == [] {
      ShownFirst(0);
      assert Hearings(words) == [];
      PlayNothing(Silence);
    } else {
      var init, w := words[..|words| - 1], words[|words| - 1];
      HeardInTime(init);
      assert Hearings(words) == Hearings(init) + [Heard(w)] && words == init + [w];
      PlayJoin(Silence, Hearings(init), [Heard(w)]);
      HeardLast(init, w);
      ShownLast(init, w, 0);
      PlayOne(Silence.(words := init), Heard(w));
    }
  }

  lemma HeardLast(words: seq<Word>, w: Word)
    requires InTime(words + [w])
    ensures AfterHearing(words, w) == words + [w]
  {
    assert forall i :: 0 <= i < |words| ==> (words + [w])[i] == words[i];
    assert (words + [w])[|words|] == w;
    AllStay(words, w);
    InsertedHere(words, w);
  }

  lemma PlayNothing(t: Track)
    ensures Play(t, []) == t
  {}

  lemma PlayOne(t: Track, e: Event)
    ensures Play(t, [e]) == Next(t, e)
  {}

  /** Words heard one after the other are all shown, in that order, until a final segment comes. */
  lemma InTimeShowsAll(words: seq<Word>)
    requires InTime(words)
    ensures Play(Silence, Hearings(words) + [PartialRead]).shown == [Texts(words)]
  {
    HeardInTime(words);
    PlayJoin(Silence, Hearings(words), [PartialRead]);
    PlayOne(Silence.(words := words), PartialRead);
    ShownUnpruned(words, 0);
    hide Shown; hide Unpruned; hide Texts; hide Play;
    assert [] + [Texts(words)] == [Texts(words)];
  }

  // ---- the object, its slices and its drains ---------------------------------------------------

  class Segments {
    var final: seq<string>
    var finalEnd: int
    var ahead: seq<Word>

    constructor ()
      ensures final == [] && finalEnd == 0 && ahead == []
    {
      final, finalEnd, ahead := [], 0, [];
    }

    method Heard(w: Word)
      requires InOrder(ahead)
      modifies this`ahead
      ensures ahead == AfterHearing(old(ahead), w) && InOrder(ahead)
    {
      hide Staying; hide Inserted; hide InOrder; hide GivesWay; hide Unpruned;
      HearingOrders(ahead, w);
      NothingStays(w, 0);
      var words, kept, i := ahead, [], 0;
      while i < |words|
        invariant 0 <= i <= |words| && kept == Staying(words[..i], w)
      {
        assert words[..i + 1] == words[..i] + [words[i]];
        StayingLast(words[..i], words[i], w);
        if !GivesWay(words[i], w) { kept := kept + [words[i]]; }
        i := i + 1;
      }
      assert words[..i] == words;
      ahead := SortIn(kept, w);
    }

    /** The sort after an append to a sorted list: move the last word to its place. */
    method SortIn(kept: seq<Word>, w: Word) returns (sorted: seq<Word>)
      ensures sorted == Inserted(kept, w)
    {
      hide Inserted;
      var i := |kept|;
      assert kept[..i] == kept && Inserted(kept, w) + [] == Inserted(kept, w);
      while i > 0 && kept[i - 1].start > w.start
        invariant 0 <= i <= |kept| && Inserted(kept, w) == Inserted(kept[..i], w) + kept[i..]
      {
        ghost var head, last, tail := Inserted(kept[..i - 1], w), kept[i - 1], kept[i..];
        InsertedLast(kept[..i - 1], last, w);
        assert kept[..i] == kept[..i - 1] + [last] && [last] + tail == kept[i - 1..];
        assert (head + [last]) + tail == head + ([last] + tail);
        i := i - 1;
      }
      InsertedHere(kept[..i], w);
      sorted := kept[..i] + [w] + kept[i..];
    }

    method FinalSegment(text: string, end: int)
      modifies this`final, this`finalEnd
      ensures final == old(final) + [text] && finalEnd == end
    {
      final := final + [text];
      finalEnd := end;
    }

    /** The getter that prunes. */
    method Partial() returns (text: string)
      requires InOrder(ahead)
      modifies this`ahead
      ensures ahead == Unpruned(old(ahead), finalEnd) && InOrder(ahead)
      ensures text == Shown(old(ahead), finalEnd)
    {
      ShownUnpruned(ahead, finalEnd);
      Prune();
      text := Spoken(ahead);
    }

    /** The text of the words whose middle lies after the last final segment. */
    method Spoken(words: seq<Word>) returns (text: string)
      ensures text == Shown(words, finalEnd)
    {
      hide Shown;
      text := "";
      var i := 0;
      ShownFirst(finalEnd);
      while i < |words|
        invariant 0 <= i <= |words| && text == Shown(words[..i], finalEnd)
      {
        assert words[..i + 1] == words[..i] + [words[i]];
        ShownLast(words[..i], words[i], finalEnd);
        if 2 * words[i].start + words[i].duration > 2 * finalEnd { text := text + words[i].text; }
        i := i + 1;
      }
      assert words[..i] == words;
    }

    method Prune()
      requires InOrder(ahead)
      modifies this`ahead
      ensures ahead == Unpruned(old(ahead), finalEnd) && InOrder(ahead)
    {
      NothingStays(Word(0, 0, ""), finalEnd);
      hide Unpruned; hide InOrder; hide End;
      var words, kept, i := ahead, [], 0;
      while i < |words|
        invariant 0 <= i <= |words| && kept == Unpruned(words[..i], finalEnd)
      {
        assert words[..i + 1] == words[..i] + [words[i]];
        UnprunedLast(words[..i], words[i], finalEnd);
        if End(words[i]) > finalEnd { kept := kept + [words[i]]; }
        i := i + 1;
      }
      assert words[..i] == words;
      PruningKeepsOrder(words, finalEnd);
      ahead := kept;
    }

    /** What a drain answers to a client that has received `cursor` segments. */
    method Drain(cursor: int) returns (next: seq<string>)
      ensures next == if cursor <= 0 then final else if cursor <= |final| then final[cursor..] else []
      ensures 0 <= cursor <= |final| ==> final[..cursor] + next == final
    {
      var at := if cursor > 0 then cursor else 0;
      next := if at <= |final| then final[at..] else [];
    }
  }

  lemma HearingOrders(words: seq<Word>, w: Word)
    requires InOrder(words)
    ensures InOrder(AfterHearing(words, w))
  {
    HearingKeepsOrder(words, w);
  }

  lemma InsertedHere(words: seq<Word>, w: Word)
    requires words == [] || words[|words| - 1].start <= w.start
    ensures Inserted(words, w) == words + [w]
  {}

  lemma ShownFirst(f: int)
    ensures Shown([], f) == ""
  {}

  lemma ShownLast(words: seq<Word>, w: Word, f: int)
    ensures Shown(words + [w], f) == if 2 * w.start + w.duration > 2 * f then Shown(words, f) + w.text else Shown(words, f)
  {
    assert (words + [w])[..|words|] == words;
    assert Shown(words, f) + "" == Shown(words, f);
  }

  /** A whole run of the object reads what the track says, so with final segments in order it reads
      what would be read if nothing were ever pruned. */
  method Listen(events: seq<Event>) returns (shown: seq<string>)
    ensures shown == Play(Silence, events).shown
    ensures EndsAdvance(0, events) ==> shown == PlayKeeping(Silence, events).shown
  {
    var s := new Segments();
    shown := [];
    var k := 0;
    ghost var t := Silence;
    assert events[0..] == events;
    while k < |events|
      invariant 0 <= k <= |events| && Play(Silence, events) == Play(t, events[k..])
      invariant t == Track(s.ahead, s.finalEnd, s.final, shown) && InOrder(s.ahead)
    {
      assert events[k..][0] == events[k] && events[k..][1..] == events[k + 1..];
      t := Next(t, events[k]);
      hide AfterHearing; hide Unpruned; hide Shown; hide InOrder;
      ghost var words := s.ahead;
      match events[k] {
        case Heard(w) => s.Heard(w);
        case FinalResult(text, end) => s.FinalSegment(text, end);
        case PartialRead =>
          var text := s.Partial();
          ShownUnpruned(words, s.finalEnd);
          shown := shown + [text];
      }
      k := k + 1;
    }
    if EndsAdvance(0, events) { PruningInvisible(Silence, Silence, events); }
  }

  /** A client's whole session: final segments arrive in batches, and after each batch it drains with
      the number of segments it has received. It receives every segment once, in order. */
  method Follow(batches: seq<seq<string>>) returns (received: seq<string>)
    ensures received == Flat(batches)
  {
    var segments := new Segments();
    received := [];
    var k := 0;
    assert batches[..0] == [];
    while k < |batches|
      invariant 0 <= k <= |batches| && segments.final == received == Flat(batches[..k])
    {
      ghost var before := segments.final;
      var i := 0;
      while i < |batches[k]|
        invariant 0 <= i <= |batches[k]| && segments.final == before + batches[k][..i]
      {
        segments.FinalSegment(batches[k][i], 0);
        assert batches[k][..i] + [batches[k][i]] == batches[k][..i + 1];
        i := i + 1;
      }
      assert batches[k][..i] == batches[k];
      var next := segments.Drain(|received|);
      received := received + next;
      assert batches[..k + 1][..k] == batches[..k];
      k := k + 1;
    }
    assert batches[..k] == batches;
  }

  function Flat<T>(parts: seq<seq<T>>): seq<T> {
    if parts == [] then [] else Flat(parts[..|parts| - 1]) + parts[|parts| - 1]
  }

  /** `slices`: a buffer in pieces of one step, the last one shorter if need be. A piece that cannot be
      allocated ends the slicing; nothing before it is lost. */
  method Slices<T>(buffer: seq<T>, step: nat, memory: nat) returns (pieces: seq<seq<T>>)
    requires step > 0
    ensures Flat(pieces) <= buffer && |pieces| <= memory
    ensures |pieces| < memory ==> Flat(pieces) == buffer
    ensures forall i :: 0 <= i < |pieces| ==> 0 < |pieces[i]| <= step
    ensures forall i :: 0 <= i < |pieces| - 1 ==> |pieces[i]| == step
  {
    pieces := [];
    var offset := 0;
    while offset < |buffer|
      invariant 0 <= offset <= |buffer| && Flat(pieces) == buffer[..offset] && |pieces| <= memory
      invariant forall i :: 0 <= i < |pieces| ==> 0 < |pieces[i]| <= step
      invariant offset < |buffer| ==> forall i :: 0 <= i < |pieces| ==> |pieces[i]| == step
      invariant forall i :: 0 <= i < |pieces| - 1 ==> |pieces[i]| == step
    {
      var count := if step < |buffer| - offset then step else |buffer| - offset;
      if |pieces| == memory { break; }
      ghost var before := pieces;
      pieces := pieces + [buffer[offset..offset + count]];
      assert pieces[..|pieces| - 1] == before;
      assert buffer[..offset] + buffer[offset..offset + count] == buffer[..offset + count];
      offset := offset + count;
    }
  }
}
