/** The Parakeet transcriber: where it cuts a long recording, how it joins the words of the pieces,
    and how it prints them as one line of JSON. Sample energies are real numbers here. */
module Parakeet {
  import opened Wrappers

  // ---- cutting a recording -------------------------------------------------------------------

  // At 16000 samples a second: 45 seconds, 5 seconds, and a tenth of one.
  const MAX_CHUNK: nat := 720000
  const SEARCH_SPAN: nat := 80000
  const FRAME: nat := 1600

  /** The frames compared: one every half frame, as long as it ends inside the window. */
  const CANDIDATES: nat := 99

  function Energy(pcm: seq<real>, lo: nat, hi: nat): real
    requires lo <= hi <= |pcm|
    decreases hi - lo
  {
    if lo == hi then 0.0 else Energy(pcm, lo, hi - 1) + pcm[hi - 1] * pcm[hi - 1]
  }

  /** A frame's energy is its samples' one by one, squared: that of its parts together. */
  lemma {:induction false} EnergyAdds(pcm: seq<real>, lo: nat, mid: nat, hi: nat)
    requires lo <= mid <= hi <= |pcm|
    ensures Energy(pcm, lo, hi) == Energy(pcm, lo, mid) + Energy(pcm, mid, hi)
    ensures lo < |pcm| ==> Energy(pcm, lo, lo + 1) == pcm[lo] * pcm[lo]
    decreases hi - mid
  {
    if mid < hi { EnergyAdds(pcm, lo, mid, hi - 1); }
  }

  /** How loud a sample is, whichever way it swings. */
  function Loudness(x: real): real {
    if x < 0.0 then -x else x
  }

  function Square(x: real): real {
    x * x
  }

  lemma ProductSign(x: real, y: real, product: real)
    requires 0.0 <= x && 0.0 <= y && product == x * y
    ensures 0.0 <= product && (0.0 < x && 0.0 < y ==> 0.0 < product)
  {}

  lemma SquareOfLoudness(x: real)
    ensures Square(x) == Square(Loudness(x)) && 0.0 <= Square(x) && (Square(x) == 0.0 <==> x == 0.0)
  {
    ProductSign(Loudness(x), Loudness(x), Square(Loudness(x)));
    if x < 0.0 { assert (-x) * (-x) == x * x; }
  }

  lemma SquaresDiffer(a: real, b: real)
    ensures Square(b) - Square(a) == (b - a) * (b + a)
  {}

  lemma SquareGrows(x: real, y: real)
    requires Loudness(x) <= Loudness(y)
    ensures 0.0 <= Square(x) <= Square(y) && (Loudness(x) < Loudness(y) ==> Square(x) < Square(y))
    ensures Square(x) == 0.0 <==> x == 0.0
  {
    var a, b := Loudness(x), Loudness(y);
    SquareOfLoudness(x);
    SquareOfLoudness(y);
    SquaresDiffer(a, b);
    hide Square;
    ProductSign(b - a, b + a, (b - a) * (b + a));
  }

  lemma EnergyLast(pcm: seq<real>, lo: nat, hi: nat)
    requires lo < hi <= |pcm|
    ensures Energy(pcm, lo, hi) == Energy(pcm, lo, hi - 1) + Square(pcm[hi - 1])
  {}

  lemma {:induction false} OnlySilenceHasNone(pcm: seq<real>, lo: nat, hi: nat)
    requires lo <= hi <= |pcm|
    ensures 0.0 <= Energy(pcm, lo, hi)
    ensures Energy(pcm, lo, hi) == 0.0 <==> forall i :: lo <= i < hi ==> pcm[i] == 0.0
    decreases hi - lo
  {
    if lo < hi {
      OnlySilenceHasNone(pcm, lo, hi - 1);
      EnergyLast(pcm, lo, hi);
      SquareGrows(pcm[hi - 1], pcm[hi - 1]);
      hide Energy; hide Square;
    }
  }

  /** A frame in which no sample is louder than its like in another has no more energy, and less if some
      sample is quieter. So quietest is what it says, for frames whose samples compare. */
  lemma {:induction false} QuieterHasLess(pcm: seq<real>, a: nat, b: nat, n: nat)
    requires a + n <= |pcm| && b + n <= |pcm|
    requires forall i :: a <= i < a + n ==> Loudness(pcm[i]) <= Loudness(pcm[i - a + b])
    ensures Energy(pcm, a, a + n) <= Energy(pcm, b, b + n)
    ensures (exists i :: a <= i < a + n && Loudness(pcm[i]) < Loudness(pcm[i - a + b])) ==>
              Energy(pcm, a, a + n) < Energy(pcm, b, b + n)
    decreases n
  {
    if n == 0 {
      assert Energy(pcm, a, a) == Energy(pcm, b, b) == 0.0;
    } else {
      var last := a + n - 1;
      QuieterHasLess(pcm, a, b, n - 1);
      EnergyLast(pcm, a, a + n);
      EnergyLast(pcm, b, b + n);
      SquareGrows(pcm[last], pcm[last - a + b]);
      hide Energy; hide Square;
    }
  }

  /** Where the k-th candidate frame of the piece that starts at `start` begins. */
  function Candidate(start: nat, k: nat): nat {
    start + MAX_CHUNK - SEARCH_SPAN + 800 * k
  }

  /** Candidates are half a frame apart, and exactly the first 99 end inside the window. */
  lemma CandidateSteps(start: nat, k: nat)
    ensures Candidate(start, 0) == start + MAX_CHUNK - SEARCH_SPAN
    ensures Candidate(start, k + 1) == Candidate(start, k) + FRAME / 2
    ensures Candidate(start, k) + FRAME <= start + MAX_CHUNK <==> k < CANDIDATES
  {}

  function CandidateEnergy(pcm: seq<real>, start: nat, k: nat): real
    requires start + MAX_CHUNK <= |pcm| && k < CANDIDATES
  {
    Energy(pcm, Candidate(start, k), Candidate(start, k) + FRAME)
  }

  /** Candidate k is the first of the least energy. */
  ghost predicate FirstQuietest(pcm: seq<real>, start: nat, k: nat)
    requires start + MAX_CHUNK <= |pcm|
  {
    && k < CANDIDATES
    && (forall j :: 0 <= j < CANDIDATES ==> CandidateEnergy(pcm, start, k) <= CandidateEnergy(pcm, start, j))
    && (forall j :: 0 <= j < k ==> CandidateEnergy(pcm, start, k) < CandidateEnergy(pcm, start, j))
  }

  /** Where a piece that starts at `start` must end: with the recording if the rest fits, otherwise at
      the centre of the first quietest frame. */
  ghost predicate CutAt(pcm: seq<real>, start: nat, cut: nat) {
    if |pcm| - start <= MAX_CHUNK then cut == |pcm|
    else exists k: nat :: FirstQuietest(pcm, start, k) && cut == Candidate(start, k) + FRAME / 2
  }

  lemma CutUnique(pcm: seq<real>, start: nat, a: nat, b: nat)
    requires CutAt(pcm, start, a) && CutAt(pcm, start, b)
    ensures a == b
  {
    hide CandidateEnergy; hide Candidate;
    if |pcm| - start > MAX_CHUNK {
      var j: nat :| FirstQuietest(pcm, start, j) && a == Candidate(start, j) + FRAME / 2;
      var k: nat :| FirstQuietest(pcm, start, k) && b == Candidate(start, k) + FRAME / 2;
      assert CandidateEnergy(pcm, start, j) == CandidateEnergy(pcm, start, k);
      assert !(j < k) && !(k < j);
    }
  }

  ghost predicate SilentFrame(pcm: seq<real>, start: nat, k: nat)
    requires start + MAX_CHUNK <= |pcm| && k < CANDIDATES
  {
    forall i :: Candidate(start, k) <= i < Candidate(start, k) + FRAME ==> pcm[i] == 0.0
  }

  lemma SilentCandidate(pcm: seq<real>, start: nat, k: nat)
    requires start + MAX_CHUNK <= |pcm| && k < CANDIDATES
    ensures CandidateEnergy(pcm, start, k) >= 0.0 && (CandidateEnergy(pcm, start, k) == 0.0 <==> SilentFrame(pcm, start, k))
  {
    OnlySilenceHasNone(pcm, Candidate(start, k), Candidate(start, k) + FRAME);
  }

  /** Where there is a silent frame the cut is in silence: at the centre of the first one. */
  lemma CutsInSilence(pcm: seq<real>, start: nat, cut: nat, k: nat)
    requires |pcm| - start > MAX_CHUNK && CutAt(pcm, start, cut) && k < CANDIDATES && SilentFrame(pcm, start, k)
    requires forall j :: 0 <= j < k ==> !SilentFrame(pcm, start, j)
    ensures cut == Candidate(start, k) + FRAME / 2
  {
    hide CandidateEnergy; hide Candidate; hide SilentFrame;
    var b: nat :| FirstQuietest(pcm, start, b) && cut == Candidate(start, b) + FRAME / 2;
    SilentCandidate(pcm, start, k);
    SilentCandidate(pcm, start, b);
    assert CandidateEnergy(pcm, start, b) <= CandidateEnergy(pcm, start, k);
  }

  /** A cut inside the recording leaves a piece within these bounds. */
  lemma CutBounds(pcm: seq<real>, start: nat, cut: nat)
    requires start < |pcm| && CutAt(pcm, start, cut)
    ensures start < cut <= |pcm| && cut - start <= MAX_CHUNK
    ensures cut < |pcm| ==> cut - start > MAX_CHUNK - SEARCH_SPAN
  {
    hide CandidateEnergy;
  }

  method NextCut(pcm: seq<real>, start: nat) returns (best: nat)
    requires start < |pcm|
    ensures CutAt(pcm, start, best)
  {
    var remaining := |pcm| - start;
    if remaining <= MAX_CHUNK { return |pcm|; }
    hide CandidateEnergy; hide Candidate;
    var windowEnd := start + MAX_CHUNK;
    var frame := windowEnd - SEARCH_SPAN;
    best := windowEnd;
    var bestEnergy: Option<real> := None;
    ghost var k: nat, b: nat := 0, 0;
    CandidateSteps(start, 0);
    while frame + FRAME <= windowEnd
      invariant frame == Candidate(start, k) && k <= CANDIDATES
      invariant k == 0 <==> bestEnergy == None
      invariant bestEnergy.Some? ==> b < k && best == Candidate(start, b) + FRAME / 2
      invariant bestEnergy.Some? ==> QuietestOf(pcm, start, k, b, bestEnergy.value)
      decreases windowEnd - frame
    {
      CandidateSteps(start, k);
      var energy := FrameEnergy(pcm, frame);
      assert energy == CandidateEnergy(pcm, start, k) by { CandidateIs(pcm, start, k); }
      if bestEnergy == None || energy < bestEnergy.value {
        bestEnergy, best := Some(energy), frame + FRAME / 2;
        b := k;
      }
      frame, k := frame + FRAME / 2, k + 1;
    }
    CandidateSteps(start, k);
    assert FirstQuietest(pcm, start, b);
  }

  method FrameEnergy(pcm: seq<real>, frame: nat) returns (energy: real)
    requires frame + FRAME <= |pcm|
    ensures energy == Energy(pcm, frame, frame + FRAME)
  {
    energy := 0.0;
    var i := frame;
    while i < frame + FRAME
      invariant frame <= i <= frame + FRAME
      invariant energy == Energy(pcm, frame, i)
    {
      energy := energy + pcm[i] * pcm[i];
      i := i + 1;
    }
  }

  lemma CandidateIs(pcm: seq<real>, start: nat, k: nat)
    requires start + MAX_CHUNK <= |pcm| && k < CANDIDATES
    ensures Candidate(start, k) + FRAME <= |pcm|
    ensures CandidateEnergy(pcm, start, k) == Energy(pcm, Candidate(start, k), Candidate(start, k) + FRAME)
  {}

  /** Among the first `k` candidates, b is the first of the least energy. */
  ghost predicate QuietestOf(pcm: seq<real>, start: nat, k: nat, b: nat, energy: real)
    requires start + MAX_CHUNK <= |pcm| && b < k <= CANDIDATES
  {
    && energy == CandidateEnergy(pcm, start, b)
    && (forall j :: 0 <= j < k ==> energy <= CandidateEnergy(pcm, start, j))
    && (forall j :: 0 <= j < b ==> energy < CandidateEnergy(pcm, start, j))
  }

  /** Cut points from 0 to the end, each where it must be. */
  ghost predicate Cutting(pcm: seq<real>, cuts: seq<nat>) {
    && |cuts| > 0 && cuts[0] == 0
    && (forall i :: 0 <= i < |cuts| ==> cuts[i] <= |pcm|)
    && (forall i :: 0 <= i < |cuts| - 1 ==> cuts[i] < |pcm| && CutAt(pcm, cuts[i], cuts[i + 1]))
  }

  function Pieces(pcm: seq<real>, cuts: seq<nat>): seq<seq<real>>
    requires Increasing(cuts) && forall i :: 0 <= i < |cuts| ==> cuts[i] <= |pcm|
  {
    if |cuts| <= 1 then [] else Pieces(pcm, cuts[..|cuts| - 1]) + [pcm[cuts[|cuts| - 2]..cuts[|cuts| - 1]]]
  }

  function Joined(pieces: seq<seq<real>>): seq<real> {
    if pieces == [] then [] else Joined(pieces[..|pieces| - 1]) + pieces[|pieces| - 1]
  }

  /** Every piece is as long as the cuts allow. */
  lemma CuttingSteps(pcm: seq<real>, cuts: seq<nat>)
    requires Cutting(pcm, cuts)
    ensures forall i :: 0 <= i < |cuts| - 1 ==> cuts[i] < cuts[i + 1] <= cuts[i] + MAX_CHUNK
    ensures forall i :: 0 <= i < |cuts| - 1 && cuts[i + 1] < |pcm| ==> cuts[i + 1] > cuts[i] + MAX_CHUNK - SEARCH_SPAN
  {
    hide CutAt;
    forall i | 0 <= i < |cuts| - 1
      ensures cuts[i] < cuts[i + 1] <= cuts[i] + MAX_CHUNK
      ensures cuts[i + 1] < |pcm| ==> cuts[i + 1] > cuts[i] + MAX_CHUNK - SEARCH_SPAN
    {
      CutBounds(pcm, cuts[i], cuts[i + 1]);
    }
  }

  /** So their number is bounded on both sides: n samples make at least n / 720000 pieces, and at most
      one more than n / 640000. */
  lemma {:induction false} CuttingBounds(pcm: seq<real>, cuts: seq<nat>)
    requires Cutting(pcm, cuts)
    ensures cuts[|cuts| - 1] <= 720000 * (|cuts| - 1)
    ensures |cuts| >= 2 ==> 640000 * (|cuts| - 2) < cuts[|cuts| - 1]
    ensures cuts[|cuts| - 1] < |pcm| && |cuts| >= 2 ==> 640000 * (|cuts| - 1) < cuts[|cuts| - 1]
  {
    hide CutAt;
    if |cuts| > 1 {
      var n := |cuts| - 1;
      assert Cutting(pcm, cuts[..n]);
      CuttingBounds(pcm, cuts[..n]);
      CutBounds(pcm, cuts[n - 1], cuts[n]);
    }
  }

  ghost predicate Increasing(cuts: seq<nat>) {
    forall i :: 0 <= i < |cuts| - 1 ==> cuts[i] < cuts[i + 1]
  }

  /** The pieces, in order, are the recording up to the last cut. */
  lemma {:induction false} PiecesPartition(pcm: seq<real>, cuts: seq<nat>)
    requires |cuts| > 0 && cuts[0] == 0 && Increasing(cuts) && forall i :: 0 <= i < |cuts| ==> cuts[i] <= |pcm|
    ensures Joined(Pieces(pcm, cuts)) == pcm[..cuts[|cuts| - 1]]
    ensures |Pieces(pcm, cuts)| == |cuts| - 1
  {
    if |cuts| > 1 {
      var n := |cuts| - 1;
      PiecesPartition(pcm, cuts[..n]);
      var pieces := Pieces(pcm, cuts);
      assert pieces[..|pieces| - 1] == Pieces(pcm, cuts[..n]);
      assert pcm[..cuts[n - 1]] + pcm[cuts[n - 1]..cuts[n]] == pcm[..cuts[n]];
    }
  }

  // ---- joining the words ---------------------------------------------------------------------

  type Byte = b: int | 0 <= b < 256

  const SPACE: Byte := 32
  const TAB: Byte := 9
  const NEWLINE: Byte := 10

  predicate Blank(b: Byte) {
    b == SPACE || b == TAB || b == NEWLINE
  }

  /** A text without the blanks around it. */
  function Trim(s: seq<Byte>): seq<Byte> {
    if s == [] then []
    else if Blank(s[0]) then Trim(s[1..])
    else if Blank(s[|s| - 1]) then Trim(s[..|s| - 1])
    else s
  }

  /** The texts that are not blank, trimmed. */
  function Words(texts: seq<seq<Byte>>): seq<seq<Byte>> {
    if texts == [] then []
    else
      var before, piece := Words(texts[..|texts| - 1]), Trim(texts[|texts| - 1]);
      if piece == [] then before else before + [piece]
  }

  /** Joined with single spaces. */
  function Join(words: seq<seq<Byte>>): seq<Byte> {
    if words == [] then []
    else if |words| == 1 then words[0]
    else words[0] + [SPACE] + Join(words[1..])
  }

  lemma {:induction false} JoinOneMore(words: seq<seq<Byte>>, word: seq<Byte>)
    requires word != [] && forall w :: w in words ==> w != []
    ensures Join(words + [word]) == if words == [] then word else Join(words) + [SPACE] + word
    ensures words != [] ==> Join(words) != []
  {
    if |words| > 1 {
      assert forall w :: w in words[1..] ==> w in words;
      JoinOneMore(words[1..], word);
      assert (words + [word])[1..] == words[1..] + [word];
      JoinShift(words[0] + [SPACE], Join(words[1..]), [SPACE], word);
    } else if |words| == 1 {
      assert words[0] in words;
      assert (words + [word])[1..] == [word];
    }
  }

  lemma JoinShift(a: seq<Byte>, b: seq<Byte>, c: seq<Byte>, d: seq<Byte>)
    ensures a + (b + c + d) == (a + b) + c + d
  {}

  /** Appending one more text to the words joined so far. */
  lemma AppendJoins(texts: seq<seq<Byte>>, text: seq<Byte>)
    ensures Join(Words(texts + [text]))
      == if Trim(text) == [] then Join(Words(texts))
         else if Join(Words(texts)) == [] then Trim(text)
         else Join(Words(texts)) + [SPACE] + Trim(text)
  {
    assert (texts + [text])[..|texts|] == texts;
    WordsNonBlank(texts);
    if Trim(text) != [] { JoinOneMore(Words(texts), Trim(text)); }
  }

  lemma {:induction false} WordsNonBlank(texts: seq<seq<Byte>>)
    ensures forall w :: w in Words(texts) ==> w != [] && !Blank(w[0]) && !Blank(w[|w| - 1])
  {
    if texts != [] {
      WordsNonBlank(texts[..|texts| - 1]);
      TrimIsTrimmed(texts[|texts| - 1]);
    }
  }

  lemma {:induction false} TrimIsTrimmed(s: seq<Byte>)
    ensures Trim(s) != [] ==> !Blank(Trim(s)[0]) && !Blank(Trim(s)[|Trim(s)| - 1])
    decreases |s|
  {
    if s != [] {
      if Blank(s[0]) { TrimIsTrimmed(s[1..]); }
      else if Blank(s[|s| - 1]) { TrimIsTrimmed(s[..|s| - 1]); }
    }
  }

  /** Blanks around a text that starts and ends with something else are all that trimming removes. */
  lemma {:induction false} TrimKeeps(a: seq<Byte>, mid: seq<Byte>, b: seq<Byte>)
    requires (forall i :: 0 <= i < |a| ==> Blank(a[i])) && (forall i :: 0 <= i < |b| ==> Blank(b[i]))
    requires mid != [] ==> !Blank(mid[0]) && !Blank(mid[|mid| - 1])
    ensures Trim(a + mid + b) == mid
    decreases |a| + |b|
  {
    var s := a + mid + b;
    if a != [] {
      assert s[1..] == a[1..] + mid + b;
      TrimKeeps(a[1..], mid, b);
    } else if b != [] {
      if mid == [] {
        assert s[1..] == [] + mid + b[1..];
        TrimKeeps([], mid, b[1..]);
      } else {
        assert s[..|s| - 1] == [] + mid + b[..|b| - 1];
        TrimKeeps([], mid, b[..|b| - 1]);
      }
    } else {
      assert s == mid;
    }
  }

  /** `append_text`: find the first and the last non-blank, and append what lies between. */
  method AppendText(prior: seq<Byte>, text: seq<Byte>) returns (out: seq<Byte>)
    ensures out == if Trim(text) == [] then prior else if prior == [] then Trim(text) else prior + [SPACE] + Trim(text)
  {
    var first := 0;
    while first < |text| && Blank(text[first])
      invariant first <= |text| && forall i :: 0 <= i < first ==> Blank(text[i])
    {
      first := first + 1;
    }
    if first == |text| {
      TrimKeeps(text, [], []);
      assert text + [] + [] == text;
      return prior;
    }
    var last := |text| - 1;
    while Blank(text[last])
      invariant first <= last < |text| && forall i :: last < i < |text| ==> Blank(text[i])
      decreases last
    {
      last := last - 1;
    }
    TrimKeeps(text[..first], text[first..last + 1], text[last + 1..]);
    assert text[..first] + text[first..last + 1] + text[last + 1..] == text;
    out := if prior != [] then prior + [SPACE] else prior;
    out := out + text[first..last + 1];
  }

  /** What the model heard in the pieces cut so far. */
  ghost predicate Transcribed(pcm: seq<real>, model: seq<real> -> Option<seq<seq<Byte>>>, cuts: seq<nat>, text: seq<Byte>) {
    && Cutting(pcm, cuts) && Increasing(cuts)
    && (forall p :: p in Pieces(pcm, cuts) ==> model(p).Some? && |p| <= MAX_CHUNK)
    && text == Join(Words(Segments(Pieces(pcm, cuts), model)))
  }

  lemma PieceTranscribed(pcm: seq<real>, model: seq<real> -> Option<seq<seq<Byte>>>, cuts: seq<nat>, text: seq<Byte>, end: nat, longer: seq<Byte>)
    requires Transcribed(pcm, model, cuts, text)
    requires var at := cuts[|cuts| - 1];
      at < |pcm| && CutAt(pcm, at, end) && at < end <= |pcm| && end - at <= MAX_CHUNK && model(pcm[at..end]).Some?
      && longer == Join(Words(Segments(Pieces(pcm, cuts), model) + model(pcm[at..end]).value))
    ensures Transcribed(pcm, model, cuts + [end], longer)
  {
    hide Join; hide Words; hide Segments;
    var piece := pcm[cuts[|cuts| - 1]..end];
    CuttingOneMore(pcm, cuts, end);
    PiecesOneMore(pcm, cuts, end);
    SegmentsOneMore(Pieces(pcm, cuts), piece, model);
    hide Cutting; hide Pieces; hide Increasing;
    forall p | p in Pieces(pcm, cuts + [end]) ensures model(p).Some? && |p| <= MAX_CHUNK {
      assert p in Pieces(pcm, cuts) || p == piece;
    }
  }

  lemma CuttingOneMore(pcm: seq<real>, cuts: seq<nat>, end: nat)
    requires Cutting(pcm, cuts) && Increasing(cuts)
    requires var at := cuts[|cuts| - 1]; at < |pcm| && CutAt(pcm, at, end) && at < end <= |pcm|
    ensures Cutting(pcm, cuts + [end]) && Increasing(cuts + [end])
  {
    hide CutAt;
    var more := cuts + [end];
    forall i | 0 <= i < |more| - 1 ensures more[i] < |pcm| && CutAt(pcm, more[i], more[i + 1]) {
      if i < |cuts| - 1 { assert more[i] == cuts[i] && more[i + 1] == cuts[i + 1]; }
    }
  }

  lemma PiecesOneMore(pcm: seq<real>, cuts: seq<nat>, end: nat)
    requires |cuts| > 0 && Increasing(cuts) && Increasing(cuts + [end]) && end <= |pcm|
    requires (forall i :: 0 <= i < |cuts| ==> cuts[i] <= |pcm|) && cuts[|cuts| - 1] <= end
    ensures Pieces(pcm, cuts + [end]) == Pieces(pcm, cuts) + [pcm[cuts[|cuts| - 1]..end]]
  {
    assert (cuts + [end])[..|cuts|] == cuts;
  }

  /** A whole recording: cut, transcribe and append, piece by piece. The model is any function from
      samples to segment texts, and may fail on a piece; then the loop stops there. */
  method Transcribe(pcm: seq<real>, model: seq<real> -> Option<seq<seq<Byte>>>)
    returns (failed: bool, text: seq<Byte>, ghost cuts: seq<nat>, chunks: nat)
    ensures Transcribed(pcm, model, cuts, text) && chunks == |cuts| - 1
    ensures !failed ==> Joined(Pieces(pcm, cuts)) == pcm
    ensures !failed && pcm != [] ==> 640000 * (chunks - 1) < |pcm| <= 720000 * chunks
    ensures failed ==> cuts[chunks] < |pcm|
    ensures failed ==> exists next: nat ::
              cuts[chunks] < next <= |pcm| && CutAt(pcm, cuts[chunks], next) && model(pcm[cuts[chunks]..next]) == None
  {
    hide CutAt; hide Join; hide Words; hide Segments; hide Pieces; hide Joined;
    var at := 0;
    failed, text, cuts, chunks := false, [], [0], 0;
    NothingTranscribed(pcm, model);
    while at < |pcm|
      invariant Transcribed(pcm, model, cuts, text) && chunks == |cuts| - 1 && at == cuts[chunks]
      decreases |pcm| - at
    {
      hide Transcribed;
      var end := NextCut(pcm, at);
      CutBounds(pcm, at, end);
      var heard := model(pcm[at..end]);
      if heard == None { return true, text, cuts, chunks; }
      TranscribedText(pcm, model, cuts, text);
      var longer := AppendAll(text, heard.value, Segments(Pieces(pcm, cuts), model));
      PieceTranscribed(pcm, model, cuts, text, end, longer);
      text, cuts, chunks, at := longer, cuts + [end], chunks + 1, end;
    }
    CuttingBounds(pcm, cuts);
    PiecesPartition(pcm, cuts);
    assert pcm[..at] == pcm;
  }

  lemma NothingTranscribed(pcm: seq<real>, model: seq<real> -> Option<seq<seq<Byte>>>)
    ensures Transcribed(pcm, model, [0], [])
  {}

  lemma TranscribedText(pcm: seq<real>, model: seq<real> -> Option<seq<seq<Byte>>>, cuts: seq<nat>, text: seq<Byte>)
    requires Transcribed(pcm, model, cuts, text)
    ensures Increasing(cuts) && forall i :: 0 <= i < |cuts| ==> cuts[i] <= |pcm|
    ensures text == Join(Words(Segments(Pieces(pcm, cuts), model)))
  {}

  method AppendAll(prior: seq<Byte>, segments: seq<seq<Byte>>, ghost before: seq<seq<Byte>>) returns (text: seq<Byte>)
    requires prior == Join(Words(before))
    ensures text == Join(Words(before + segments))
  {
    hide Join; hide Words; hide Trim;
    text := prior;
    var s := 0;
    assert before + segments[..0] == before;
    while s < |segments|
      invariant 0 <= s <= |segments|
      invariant text == Join(Words(before + segments[..s]))
    {
      text := AppendText(text, segments[s]);
      AppendJoins(before + segments[..s], segments[s]);
      assert before + segments[..s] + [segments[s]] == before + segments[..s + 1];
      s := s + 1;
    }
    assert segments[..s] == segments;
  }

  function Segments(pieces: seq<seq<real>>, model: seq<real> -> Option<seq<seq<Byte>>>): seq<seq<Byte>> {
    if pieces == [] then []
    else
      var last := model(pieces[|pieces| - 1]);
      Segments(pieces[..|pieces| - 1], model) + if last.Some? then last.value else []
  }

  lemma SegmentsOneMore(pieces: seq<seq<real>>, piece: seq<real>, model: seq<real> -> Option<seq<seq<Byte>>>)
    requires model(piece).Some?
    ensures Segments(pieces + [piece], model) == Segments(pieces, model) + model(piece).value
  {
    assert (pieces + [piece])[..|pieces|] == pieces;
  }

  // ---- printing it ---------------------------------------------------------------------------

  const QUOTE: Byte := 34
  const BACKSLASH: Byte := 92

  function HexDigit(d: nat): Byte
    requires d < 16
  {
    if d < 10 then 48 + d else 87 + d
  }

  function HexValue(b: Byte): Option<nat> {
    if 48 <= b <= 57 then Some(b - 48)
    else if 97 <= b <= 102 then Some(b - 87)
    else if 65 <= b <= 70 then Some(b - 55)
    else None
  }

  function EscapeByte(c: Byte): seq<Byte> {
    if c == QUOTE then [BACKSLASH, QUOTE]
    else if c == BACKSLASH then [BACKSLASH, BACKSLASH]
    else if c == NEWLINE then [BACKSLASH, 110]
    else if c == 13 then [BACKSLASH, 114]
    else if c == TAB then [BACKSLASH, 116]
    else if c < 32 then [BACKSLASH, 117, 48, 48, HexDigit(c / 16), HexDigit(c % 16)]
    else [c]
  }

  function Escape(text: seq<Byte>): seq<Byte> {
    if text == [] then [] else EscapeByte(text[0]) + Escape(text[1..])
  }

  method JsonEscape(text: seq<Byte>) returns (out: seq<Byte>)
    ensures out == Escape(text)
  {
    hide Escape; hide EscapeByte;
    out := [];
    var i := 0;
    assert text[0..] == text;
    while i < |text|
      invariant 0 <= i <= |text| && out + Escape(text[i..]) == Escape(text)
    {
      var c := text[i];
      EscapeStep(out, text, i);
      out := AppendEscaped(out, c);
      i := i + 1;
    }
    EscapeNothing();
    assert text[i..] == [] && out + [] == out;
  }

  method AppendEscaped(before: seq<Byte>, c: Byte) returns (out: seq<Byte>)
    ensures out == before + EscapeByte(c)
  {
    if c == QUOTE { out := before + [BACKSLASH, QUOTE]; }
    else if c == BACKSLASH { out := before + [BACKSLASH, BACKSLASH]; }
    else if c == NEWLINE { out := before + [BACKSLASH, 110]; }
    else if c == 13 { out := before + [BACKSLASH, 114]; }
    else if c == TAB { out := before + [BACKSLASH, 116]; }
    else if c < 32 { out := before + [BACKSLASH, 117, 48, 48, HexDigit(c / 16), HexDigit(c % 16)]; }
    else { out := before + [c]; }
  }

  lemma EscapeNothing()
    ensures Escape([]) == []
  {}

  lemma EscapeStep(before: seq<Byte>, text: seq<Byte>, i: nat)
    requires i < |text|
    ensures before + Escape(text[i..]) == (before + EscapeByte(text[i])) + Escape(text[i + 1..])
  {
    assert text[i..][1..] == text[i + 1..];
    assert before + (EscapeByte(text[i]) + Escape(text[i + 1..])) == (before + EscapeByte(text[i])) + Escape(text[i + 1..]);
  }

  /** One character of a JSON string (section 7 of RFC 8259): its value and its length, if `s` starts
      with one. `\u` escapes are read for ASCII only, which is all the printer writes. */
  function ReadChar(s: seq<Byte>): Option<(Byte, nat)> {
    if s == [] || s[0] == QUOTE || s[0] < 32 then None
    else if s[0] != BACKSLASH then Some((s[0], 1))
    else if |s| < 2 then None
    else if s[1] == QUOTE || s[1] == BACKSLASH || s[1] == 47 then Some((s[1], 2))
    else if s[1] == 98 then Some((8, 2))
    else if s[1] == 102 then Some((12, 2))
    else if s[1] == 110 then Some((NEWLINE, 2))
    else if s[1] == 114 then Some((13, 2))
    else if s[1] == 116 then Some((TAB, 2))
    else if s[1] == 117 && |s| >= 6 && s[2] == 48 && s[3] == 48 && HexValue(s[4]).Some? && HexValue(s[5]).Some?
      && HexValue(s[4]).value < 8 then
      Some((16 * HexValue(s[4]).value + HexValue(s[5]).value, 6))
    else None
  }

  /** A JSON string up to its closing quote: the text it stands for, and what follows. */
  function ReadString(s: seq<Byte>): Option<(seq<Byte>, seq<Byte>)>
    decreases |s|
  {
    if s == [] then None
    else if s[0] == QUOTE then Some(([], s[1..]))
    else
      match ReadChar(s)
      case None => None
      case Some((c, n)) =>
        if n > |s| then None
        else
          match ReadString(s[n..])
          case None => None
          case Some((text, rest)) => Some(([c] + text, rest))
  }

  /** Escaping one byte is undone by reading one character, whatever follows. */
  lemma EscapeByteReadsBack(c: Byte, tail: seq<Byte>)
    ensures ReadChar(EscapeByte(c) + tail) == Some((c, |EscapeByte(c)|))
    ensures |EscapeByte(c)| > 0 && EscapeByte(c)[0] != QUOTE
  {
    if c < 32 {
      assert HexValue(HexDigit(c / 16)) == Some(c / 16) && HexValue(HexDigit(c % 16)) == Some(c % 16);
    }
  }

  /** A printed text, in its quotes, reads back as exactly that text, whatever follows: so no
      character of it can end the string early, and what follows is read from the right place. */
  lemma {:induction false} EscapeReadsBack(text: seq<Byte>, rest: seq<Byte>)
    ensures ReadString(Escape(text) + [QUOTE] + rest) == Some((text, rest))
  {
    var s := Escape(text) + [QUOTE] + rest;
    if text == [] {
      assert s[1..] == rest;
    } else {
      var head, tail := EscapeByte(text[0]), Escape(text[1..]) + [QUOTE] + rest;
      EscapeReadsBack(text[1..], rest);
      EscapeByteReadsBack(text[0], tail);
      assert s == head + tail;
      assert s[|head|..] == tail;
      assert [text[0]] + text[1..] == text;
    }
  }

  /** No control character, so no newline, is ever printed raw. */
  lemma {:induction false} EscapePrintable(text: seq<Byte>)
    ensures forall b :: b in Escape(text) ==> b >= 32
  {
    if text != [] { EscapePrintable(text[1..]); }
  }

  /** Two texts that print alike are the same text. */
  lemma EscapeInjective(a: seq<Byte>, b: seq<Byte>)
    requires Escape(a) == Escape(b)
    ensures a == b
  {
    EscapeReadsBack(a, []);
    EscapeReadsBack(b, []);
  }

  function Decimal(n: nat): (digits: seq<Byte>)
    ensures |digits| > 0 && forall b :: b in digits ==> 48 <= b <= 57
  {
    if n < 10 then [48 + n] else Decimal(n / 10) + [48 + n % 10]
  }

  // {"id":"   ","text":"   ","audioMs":   ,"chunks":   ,"computeMs":   }
  const OPEN: seq<Byte> := [123, 34, 105, 100, 34, 58, 34]
  const TEXT: seq<Byte> := [34, 44, 34, 116, 101, 120, 116, 34, 58, 34]
  const AUDIO: seq<Byte> := [34, 44, 34, 97, 117, 100, 105, 111, 77, 115, 34, 58]
  const CHUNKS: seq<Byte> := [44, 34, 99, 104, 117, 110, 107, 115, 34, 58]
  const COMPUTE: seq<Byte> := [44, 34, 99, 111, 109, 112, 117, 116, 101, 77, 115, 34, 58]

  /** The end of an answer, from the quote that closes its text. */
  function Numbers(audioMs: nat, chunks: nat, computeMs: nat): (r: seq<Byte>)
    ensures |r| > 1 && r[0] == QUOTE && r[|r| - 1] == NEWLINE && NEWLINE !in r[..|r| - 1]
  {
    var body := NumbersBody(Decimal(audioMs), Decimal(chunks), Decimal(computeMs));
    assert (body + [NEWLINE])[..|body|] == body;
    body + [NEWLINE]
  }

  function NumbersBody(audioMs: seq<Byte>, chunks: seq<Byte>, computeMs: seq<Byte>): (r: seq<Byte>)
    requires NEWLINE !in audioMs && NEWLINE !in chunks && NEWLINE !in computeMs
    ensures |r| > 0 && r[0] == QUOTE && NEWLINE !in r
  {
    var r := AUDIO + audioMs + CHUNKS + chunks + COMPUTE + computeMs + [125];
    assert r[0] == AUDIO[0];
    r
  }

  /** The answer to one request. */
  function Response(id: seq<Byte>, text: seq<Byte>, audioMs: nat, chunks: nat, computeMs: nat): seq<Byte> {
    OPEN + Escape(id) + TEXT + Escape(text) + Numbers(audioMs, chunks, computeMs)
  }

  /** One answer is one line, whatever the identifier and the words hold. */
  lemma ResponseIsOneLine(id: seq<Byte>, text: seq<Byte>, audioMs: nat, chunks: nat, computeMs: nat)
    ensures var line := Response(id, text, audioMs, chunks, computeMs);
      line != [] && line[|line| - 1] == NEWLINE && NEWLINE !in line[..|line| - 1]
  {
    EscapePrintable(id);
    EscapePrintable(text);
    hide Escape; hide Numbers;
    var head, tail := OPEN + Escape(id) + TEXT + Escape(text), Numbers(audioMs, chunks, computeMs);
    assert (head + tail)[..|head + tail| - 1] == head + tail[..|tail| - 1];
    assert NEWLINE !in OPEN && NEWLINE !in TEXT;
  }

  /** And both the identifier and the words read back from where they stand in it. */
  lemma ResponseReadsBack(id: seq<Byte>, text: seq<Byte>, audioMs: nat, chunks: nat, computeMs: nat)
    ensures OPEN <= Response(id, text, audioMs, chunks, computeMs)
    ensures var rest := ReadString(Response(id, text, audioMs, chunks, computeMs)[|OPEN|..]);
      && rest.Some? && rest.value.0 == id && TEXT[1..] <= rest.value.1
      && var last := ReadString(rest.value.1[|TEXT| - 1..]);
         last.Some? && last.value.0 == text && last.value.1 == Numbers(audioMs, chunks, computeMs)[1..]
  {
    var numbers := Numbers(audioMs, chunks, computeMs);
    var afterId := TEXT[1..] + Escape(text) + [QUOTE] + numbers[1..];
    EscapeReadsBack(id, afterId);
    EscapeReadsBack(text, numbers[1..]);
    assert TEXT[0] == QUOTE;
    hide Escape; hide ReadString; hide Numbers;
    Regrouped(OPEN, Escape(id), TEXT, Escape(text), numbers);
  }

  /** The number at the start of a text, read on from `n`, and what follows its digits. */
  function ReadNumber(s: seq<Byte>, n: nat): (nat, seq<Byte>) {
    if s != [] && 48 <= s[0] <= 57 then ReadNumber(s[1..], 10 * n + (s[0] - 48)) else (n, s)
  }

  lemma {:induction false} DecimalReadsOn(n: nat, rest: seq<Byte>)
    ensures ReadNumber(Decimal(n) + rest, 0) == ReadNumber(rest, n)
    decreases n
  {
    if n < 10 {
      assert ([48 + n] + rest)[1..] == rest;
    } else {
      var digit := 48 + n % 10;
      DecimalReadsOn(n / 10, [digit] + rest);
      assert Decimal(n) + rest == Decimal(n / 10) + ([digit] + rest);
      assert ([digit] + rest)[1..] == rest;
    }
  }

  /** A printed number reads back, up to whatever follows that is no digit. */
  lemma DecimalReadsBack(n: nat, rest: seq<Byte>)
    requires rest == [] || !(48 <= rest[0] <= 57)
    ensures ReadNumber(Decimal(n) + rest, 0) == (n, rest)
  {
    DecimalReadsOn(n, rest);
  }

  lemma NumbersAre(audioMs: nat, chunks: nat, computeMs: nat)
    ensures Numbers(audioMs, chunks, computeMs)
      == AUDIO + (Decimal(audioMs) + (CHUNKS + (Decimal(chunks) + (COMPUTE + (Decimal(computeMs) + [125, NEWLINE])))))
  {
    var a, b, m := Decimal(audioMs), Decimal(chunks), Decimal(computeMs);
    RegroupedNumbers(AUDIO, a, CHUNKS, b, COMPUTE, m, [125], [NEWLINE]);
    hide Decimal;
    assert [125] + [NEWLINE] == [125, NEWLINE];
  }

  lemma RegroupedNumbers(p: seq<Byte>, a: seq<Byte>, q: seq<Byte>, b: seq<Byte>, r: seq<Byte>, m: seq<Byte>, x: seq<Byte>, y: seq<Byte>)
    ensures (p + a + q + b + r + m + x) + y == p + (a + (q + (b + (r + (m + (x + y))))))
  {}

  /** What stands behind a name. */
  lemma Behind(name: seq<Byte>, rest: seq<Byte>)
    requires name != []
    ensures name <= name + rest && (name + rest)[|name|..] == rest
    ensures var tail := (name + rest)[1..]; name[1..] <= tail && tail[|name| - 1..] == rest
  {}

  /** After the words come the three numbers, each behind its own name. */
  lemma NumbersReadBack(audioMs: nat, chunks: nat, computeMs: nat)
    ensures var rest := Numbers(audioMs, chunks, computeMs)[1..];
      && AUDIO[1..] <= rest
      && var audio := ReadNumber(rest[|AUDIO| - 1..], 0);
         && audio.0 == audioMs && CHUNKS <= audio.1
         && var count := ReadNumber(audio.1[|CHUNKS|..], 0);
            && count.0 == chunks && COMPUTE <= count.1
            && ReadNumber(count.1[|COMPUTE|..], 0) == (computeMs, [125, NEWLINE])
  {
    var last := Decimal(computeMs) + [125, NEWLINE];
    var middle := Decimal(chunks) + (COMPUTE + last);
    NumbersAre(audioMs, chunks, computeMs);
    assert (CHUNKS + middle)[0] == 44 && (COMPUTE + last)[0] == 44;
    DecimalReadsBack(audioMs, CHUNKS + middle);
    DecimalReadsBack(chunks, COMPUTE + last);
    DecimalReadsBack(computeMs, [125, NEWLINE]);
    Behind(AUDIO, Decimal(audioMs) + (CHUNKS + middle));
    Behind(CHUNKS, middle);
    Behind(COMPUTE, last);
    hide Decimal; hide ReadNumber; hide Numbers;
  }

  lemma Regrouped(open: seq<Byte>, a: seq<Byte>, mid: seq<Byte>, b: seq<Byte>, end: seq<Byte>)
    requires mid != [] && mid[0] == QUOTE && end != [] && end[0] == QUOTE
    ensures var line, rest := open + a + mid + b + end, mid[1..] + b + [QUOTE] + end[1..];
      && open <= line && line[|open|..] == a + [QUOTE] + rest
      && mid[1..] <= rest && rest[|mid| - 1..] == b + [QUOTE] + end[1..]
  {
    var line, rest := open + a + mid + b + end, mid[1..] + b + [QUOTE] + end[1..];
    assert mid == [QUOTE] + mid[1..] && end == [QUOTE] + end[1..];
    assert line == open + (a + [QUOTE] + rest);
  }
}
