/** The execution host's append-only journal: frames waiting for the disk, partial writes that
    resume where they stopped, and what a reader finds in the file at any moment. */
module Journal {
  import opened Wrappers
  import Lines

  datatype ProcessSignal = SIGINT | SIGTERM | SIGKILL

  /** What a frame records. `Note` stands for the other control facts
      that carry no command id. */
  datatype Body =
    | HostStarted
    | ProviderStarted
    | Input(id: string, line: string)
    | Output(line: string)
    | ErrorText(chunk: string)
    | Exited(code: int)
    | Written(id: string)
    | WriteFailed(id: string)
    | InputClosed(id: string)
    | Signalled(id: string, signal: ProcessSignal)
    | Released(id: string)
    | OutputAbandoned
    | HostExit
    | Note(text: string)

  datatype Frame = Frame(s: nat, body: Body)

  /** The frame encoding. The proofs need only `Good`: one line per frame, and parsing undoes it. */
  datatype Codec = Codec(encode: Frame -> string, decode: string -> Option<Frame>)

  ghost predicate Good(c: Codec) {
    forall f: Frame {:trigger c.encode(f)} ::
      && |c.encode(f)| > 1
      && c.encode(f)[|c.encode(f)| - 1] == '\n'
      && Lines.OneLine(c.encode(f)[..|c.encode(f)| - 1])
      && c.decode(c.encode(f)[..|c.encode(f)| - 1]) == Some(f)
  }

  function Take(s: string, n: nat): string {
    if n <= |s| then s[..n] else s
  }

  function Drop(s: string, n: nat): string {
    if n <= |s| then s[n..] else ""
  }

  /** `sequence`, `persisted`, `unwritten` and `offset` are the host's variables; `recorded` is the
      history of every frame ever appended. */
  datatype Store = Store(
    file: string, sequence: nat, persisted: nat, unwritten: seq<Frame>, offset: nat, recorded: seq<Frame>)

  const EmptyStore := Store("", 0, 0, [], 0, [])

  function EncodeAll(c: Codec, frames: seq<Frame>): string {
    if frames == [] then "" else c.encode(frames[0]) + EncodeAll(c, frames[1..])
  }

  /** The flush loop against a disk that accepts `room` more bytes before it reports an error. */
  function Flush(c: Codec, j: Store, room: nat): (r: Store)
    ensures |r.unwritten| <= |j.unwritten|
    decreases |j.unwritten|
  {
    if j.unwritten == [] then j
    else
      var bytes := c.encode(j.unwritten[0]);
      var left := Drop(bytes, j.offset);
      if room < |left| then j.(file := j.file + left[..room], offset := j.offset + room)
      else Flush(c, PersistHead(c, j), room - |left|)
  }

  /** The first waiting frame's remaining bytes reach the file. */
  function PersistHead(c: Codec, j: Store): Store
    requires j.unwritten != []
  {
    j.(file := j.file + Drop(c.encode(j.unwritten[0]), j.offset), unwritten := j.unwritten[1..], offset := 0,
       persisted := j.unwritten[0].s)
  }

  /** Records a frame as the next sequence, before any flush. */
  function Record(j: Store, body: Body): Store {
    var frame := Frame(j.sequence + 1, body);
    j.(sequence := j.sequence + 1, unwritten := j.unwritten + [frame], recorded := j.recorded + [frame])
  }

  /** The frames `Flush` persists on its way, in order: what the host publishes. */
  function Persisted(before: Store, after: Store): seq<Frame>
    requires |after.unwritten| <= |before.unwritten|
  {
    before.unwritten[..|before.unwritten| - |after.unwritten|]
  }

  /** The bytes of the first waiting frame already in the file. */
  function Torn(c: Codec, j: Store): string {
    if j.unwritten == [] then "" else Take(c.encode(j.unwritten[0]), j.offset)
  }

  /** The journal's representation: the file holds frames 1..persisted whole, then the first
      `offset` bytes of the next one, and `unwritten` is exactly the frames after `persisted`. */
  ghost predicate Represents(c: Codec, j: Store) {
    && j.sequence == |j.recorded|
    && j.persisted <= j.sequence
    && (forall i :: 0 <= i < |j.recorded| ==> j.recorded[i].s == i + 1)
    && j.unwritten == j.recorded[j.persisted..]
    && (if j.unwritten == [] then j.offset == 0 else j.offset < |c.encode(j.unwritten[0])|)
    && j.file == EncodeAll(c, j.recorded[..j.persisted]) + Torn(c, j)
  }

  /** What a later store keeps of an earlier one. */
  ghost predicate Extends(earlier: Store, later: Store) {
    && earlier.file <= later.file
    && earlier.recorded <= later.recorded
    && earlier.persisted <= later.persisted
  }

  lemma {:induction false} EncodeAppend(c: Codec, a: seq<Frame>, b: seq<Frame>)
    ensures EncodeAll(c, a + b) == EncodeAll(c, a) + EncodeAll(c, b)
  {
    if a == [] {
      assert a + b == b;
    } else {
      EncodeAppend(c, a[1..], b);
      assert (a + b)[1..] == a[1..] + b;
    }
  }

  lemma RecordKeeps(c: Codec, j: Store, body: Body)
    requires Good(c) && Represents(c, j)
    ensures Represents(c, Record(j, body)) && Extends(j, Record(j, body))
  {
    var r := Record(j, body);
    assert r.recorded[r.persisted..] == j.recorded[j.persisted..] + [r.recorded[|j.recorded|]];
    assert r.recorded[..r.persisted] == j.recorded[..j.persisted];
    assert |c.encode(r.unwritten[0])| > 1;
  }

  /** Writing the first waiting frame whole moves it from `unwritten` to the persisted prefix. */
  lemma PersistHeadKeeps(c: Codec, j: Store)
    requires Good(c) && Represents(c, j) && j.unwritten != []
    ensures Represents(c, PersistHead(c, j)) && Extends(j, PersistHead(c, j))
    ensures PersistHead(c, j).persisted == j.persisted + 1
  {
    var p := j.persisted;
    var bytes := c.encode(j.unwritten[0]);
    assert j.recorded[..p + 1] == j.recorded[..p] + [j.recorded[p]];
    EncodeAppend(c, j.recorded[..p], [j.recorded[p]]);
    assert EncodeAll(c, [j.recorded[p]]) == bytes;
    Rejoin(EncodeAll(c, j.recorded[..p]), bytes, j.offset, |bytes|);
    if p + 1 < |j.recorded| {
      assert |c.encode(j.recorded[p + 1])| > 1;
    }
  }

  /** Bytes already in the file and the next ones written make one longer prefix. */
  lemma Rejoin(file: string, bytes: string, from: nat, to: nat)
    requires from <= to <= |bytes|
    ensures (file + bytes[..from]) + Drop(bytes, from)[..to - from] == file + bytes[..to]
    ensures (file + bytes[..from]) + Drop(bytes, from) == file + bytes
  {
    assert bytes[..from] + Drop(bytes, from)[..to - from] == bytes[..to];
    assert bytes[..from] + Drop(bytes, from) == bytes;
  }

  /** A write error after `room` more bytes of the first waiting frame leaves it torn there. */
  lemma TearKeeps(c: Codec, j: Store, room: nat)
    requires Represents(c, j) && j.unwritten != []
    requires room < |Drop(c.encode(j.unwritten[0]), j.offset)|
    ensures var torn := j.(file := j.file + Drop(c.encode(j.unwritten[0]), j.offset)[..room],
                           offset := j.offset + room);
            Represents(c, torn) && Extends(j, torn)
  {
    Rejoin(EncodeAll(c, j.recorded[..j.persisted]), c.encode(j.unwritten[0]), j.offset, j.offset + room);
  }

  /** A flush keeps the representation, publishes exactly the frames it persisted, and leaves
      nothing waiting only when everything recorded is on disk. */
  lemma {:induction false} FlushKeeps(c: Codec, j: Store, room: nat)
    requires Good(c) && Represents(c, j)
    ensures Represents(c, Flush(c, j, room)) && Extends(j, Flush(c, j, room))
    ensures Flush(c, j, room).recorded == j.recorded && Flush(c, j, room).sequence == j.sequence
    ensures Persisted(j, Flush(c, j, room)) == j.recorded[j.persisted..Flush(c, j, room).persisted]
    decreases |j.unwritten|
  {
    if j.unwritten != [] {
      var bytes := c.encode(j.unwritten[0]);
      var left := Drop(bytes, j.offset);
      if room < |left| {
        TearKeeps(c, j, room);
      } else {
        PersistHeadKeeps(c, j);
        var next := PersistHead(c, j);
        FlushKeeps(c, next, room - |left|);
        PersistedStep(j, next, Flush(c, next, room - |left|));
      }
    }
  }

  lemma PersistedStep(j: Store, next: Store, after: Store)
    requires j.persisted < |j.recorded| && next.persisted == j.persisted + 1 <= after.persisted <= |j.recorded|
    requires j.unwritten == j.recorded[j.persisted..] && next.unwritten == j.unwritten[1..]
    requires |after.unwritten| <= |next.unwritten|
    requires Persisted(next, after) == j.recorded[next.persisted..after.persisted]
    ensures Persisted(j, after) == j.recorded[j.persisted..after.persisted]
  {
    assert Persisted(j, after) == [j.unwritten[0]] + Persisted(next, after);
  }

  /** The bytes still owed to the file. */
  function Owed(c: Codec, j: Store): string {
    Drop(EncodeAll(c, j.unwritten), j.offset)
  }

  /** A flush adds exactly the next `room` owed bytes, wherever they fall inside frames, and
      empties the queue exactly when the disk has room for all of them. */
  lemma {:induction false} FlushWrites(c: Codec, j: Store, room: nat)
    requires Good(c) && Represents(c, j)
    ensures Flush(c, j, room).file == j.file + Take(Owed(c, j), room)
    ensures Owed(c, Flush(c, j, room)) == Drop(Owed(c, j), room)
    ensures Flush(c, j, room).unwritten == [] <==> room >= |Owed(c, j)|
    decreases |j.unwritten|
  {
    if j.unwritten != [] {
      var left := Drop(c.encode(j.unwritten[0]), j.offset);
      OwedSplits(c, j);
      if room < |left| {
        TearWrites(c, j, room);
      } else {
        PersistHeadKeeps(c, j);
        var next := PersistHead(c, j);
        FlushWrites(c, next, room - |left|);
        TakeJoin(left, Owed(c, next), room);
        assert (j.file + left) + Take(Owed(c, next), room - |left|) == j.file + (left + Take(Owed(c, next), room - |left|));
      }
    }
  }

  lemma OwedSplits(c: Codec, j: Store)
    requires Represents(c, j) && j.unwritten != []
    ensures Owed(c, j) == Drop(c.encode(j.unwritten[0]), j.offset) + Owed(c, PersistHead(c, j))
  {
    DropJoin(c.encode(j.unwritten[0]), EncodeAll(c, j.unwritten[1..]), j.offset);
  }

  lemma TearWrites(c: Codec, j: Store, room: nat)
    requires Represents(c, j) && j.unwritten != []
    requires room < |Drop(c.encode(j.unwritten[0]), j.offset)|
    ensures Flush(c, j, room).file == j.file + Take(Owed(c, j), room)
    ensures Owed(c, Flush(c, j, room)) == Drop(Owed(c, j), room)
    ensures Flush(c, j, room).unwritten != [] && room < |Owed(c, j)|
  {
    var bytes := c.encode(j.unwritten[0]);
    var left := Drop(bytes, j.offset);
    var rest := EncodeAll(c, j.unwritten[1..]);
    DropJoin(bytes, rest, j.offset);
    DropJoin(bytes, rest, j.offset + room);
    DropTwice(bytes, j.offset, room);
    DropJoin(left, rest, room);
  }

  lemma DropJoin(a: string, b: string, n: nat)
    requires n <= |a|
    ensures Drop(a + b, n) == Drop(a, n) + b && Take(a + b, n) == Take(a, n)
  {}

  lemma DropTwice(a: string, m: nat, n: nat)
    requires m + n <= |a|
    ensures Drop(Drop(a, m), n) == Drop(a, m + n)
  {}

  lemma TakeJoin(a: string, b: string, n: nat)
    requires |a| <= n
    ensures Take(a + b, n) == a + Take(b, n - |a|) && Drop(a + b, n) == Drop(b, n - |a|)
  {}

  // ---- reading the journal back --------------------------------------------------------------

  /** The journal reader's treatment of each line: blank lines are skipped, and so is a torn one. */
  function DecodeLines(c: Codec, lines: seq<string>): seq<Frame> {
    if lines == [] then []
    else
      (if lines[0] == "" || c.decode(lines[0]) == None then [] else [c.decode(lines[0]).value])
      + DecodeLines(c, lines[1..])
  }

  /** Every frame a reader finds in a prefix of the journal. */
  function ReadFrames(c: Codec, text: string): seq<Frame> {
    DecodeLines(c, Lines.Split(text).lines)
  }

  function LinesOf(c: Codec, frames: seq<Frame>): seq<string>
    requires forall i :: 0 <= i < |frames| ==> |c.encode(frames[i])| > 0
  {
    seq(|frames|, i requires 0 <= i < |frames| => c.encode(frames[i])[..|c.encode(frames[i])| - 1])
  }

  lemma {:induction false} EncodedLines(c: Codec, frames: seq<Frame>)
    requires Good(c)
    ensures Lines.Unlines(LinesOf(c, frames)) == EncodeAll(c, frames)
    ensures forall i :: 0 <= i < |frames| ==> Lines.OneLine(LinesOf(c, frames)[i])
    ensures DecodeLines(c, LinesOf(c, frames)) == frames
  {
    if frames != [] {
      EncodedLines(c, frames[1..]);
      var lines := LinesOf(c, frames);
      assert lines[1..] == LinesOf(c, frames[1..]);
      var head := c.encode(frames[0]);
      assert head == lines[0] + "\n";
      assert c.decode(lines[0]) == Some(frames[0]);
      assert [frames[0]] + frames[1..] == frames;
    }
  }

  /** Whole frames followed by a torn tail read back as the whole frames. */
  lemma ReadsWhole(c: Codec, frames: seq<Frame>, torn: string)
    requires Good(c) && Lines.OneLine(torn)
    ensures ReadFrames(c, EncodeAll(c, frames) + torn) == frames
  {
    EncodedLines(c, frames);
    Lines.SplitUnique(LinesOf(c, frames), torn);
  }

  /** The journal as it stands at any moment reads back as exactly the persisted frames. */
  lemma ReadsPersisted(c: Codec, j: Store)
    requires Good(c) && Represents(c, j)
    ensures ReadFrames(c, j.file) == j.recorded[..j.persisted]
  {
    TornIsPartial(c, j, |Torn(c, j)|);
    ReadsWhole(c, j.recorded[..j.persisted], Torn(c, j));
  }

  lemma TornIsPartial(c: Codec, j: Store, n: nat)
    requires Good(c) && Represents(c, j) && n <= |Torn(c, j)|
    ensures Lines.OneLine(Torn(c, j)[..n])
    ensures n == |Torn(c, j)| ==> Torn(c, j)[..n] == Torn(c, j)
  {
    if j.unwritten != [] {
      var head := c.encode(j.unwritten[0]);
      assert Torn(c, j)[..n] <= head[..|head| - 1];
    }
  }

  /** The first `n` bytes of an encoding hold some number of whole frames and a torn tail. */
  lemma {:induction false} CutEncoding(c: Codec, frames: seq<Frame>, n: nat) returns (p: nat, torn: string)
    requires Good(c) && n <= |EncodeAll(c, frames)|
    ensures p <= |frames| && Lines.OneLine(torn)
    ensures EncodeAll(c, frames)[..n] == EncodeAll(c, frames[..p]) + torn
    ensures p < |frames| ==> torn < c.encode(frames[p])
    ensures p == |frames| ==> torn == ""
  {
    if frames == [] {
      p, torn := 0, "";
    } else {
      var head := c.encode(frames[0]);
      if n < |head| {
        p, torn := 0, head[..n];
        assert torn <= head[..|head| - 1];
        assert frames[..0] == [];
        assert EncodeAll(c, frames)[..n] == torn;
      } else {
        var q, t := CutEncoding(c, frames[1..], n - |head|);
        p, torn := q + 1, t;
        assert frames[..p][1..] == frames[1..][..q];
        assert EncodeAll(c, frames)[..n] == head + EncodeAll(c, frames[1..])[..n - |head|];
      }
    }
  }

  /** A crash that leaves only the first `n` bytes, at any byte, loses only whole frames from the
      end: the reader finds frames 1..p for some p, never a corrupted or skipped one. */
  lemma CrashReadsPrefix(c: Codec, j: Store, n: nat)
    requires Good(c) && Represents(c, j) && n <= |j.file|
    ensures ReadFrames(c, j.file[..n]) <= j.recorded[..j.persisted]
    ensures n == |j.file| ==> ReadFrames(c, j.file[..n]) == j.recorded[..j.persisted]
  {
    var whole := EncodeAll(c, j.recorded[..j.persisted]);
    if n == |j.file| {
      assert j.file[..n] == j.file;
      ReadsPersisted(c, j);
    } else if n <= |whole| {
      var p, torn := CutEncoding(c, j.recorded[..j.persisted], n);
      ReadsWhole(c, j.recorded[..j.persisted][..p], torn);
      assert j.file[..n] == whole[..n];
    } else {
      TornIsPartial(c, j, n - |whole|);
      assert j.file[..n] == whole + Torn(c, j)[..n - |whole|];
      ReadsWhole(c, j.recorded[..j.persisted], Torn(c, j)[..n - |whole|]);
    }
  }
}
