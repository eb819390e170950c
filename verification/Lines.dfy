/** Cutting a text stream into newline-terminated lines, whatever the chunks it arrives in.

    Three readers of the execution host do this: the provider's stdout handler, the journal
    reader and the socket's command parser. `Split` is what they agree on: JavaScript's
    `text.split("\n")`, with the last piece kept back as the unfinished rest. */
module Lines {

  datatype Cut = Cut(lines: seq<string>, rest: string)

  /** The complete lines of `text`, and what follows its last newline. */
  function Split(text: string): Cut {
    if text == "" then Cut([], "")
    else
      var before := Split(text[..|text| - 1]);
      var c := text[|text| - 1];
      if c == '\n' then Cut(before.lines + [before.rest], "")
      else Cut(before.lines, before.rest + [c])
  }

  ghost predicate OneLine(s: string) {
    '\n' !in s
  }

  /** Lines glued back together, each with its newline. */
  function Unlines(lines: seq<string>): string {
    if lines == [] then "" else lines[0] + "\n" + Unlines(lines[1..])
  }

  function Concat(chunks: seq<string>): string {
    if chunks == [] then "" else chunks[0] + Concat(chunks[1..])
  }

  lemma {:induction false} UnlinesAppend(a: seq<string>, b: seq<string>)
    ensures Unlines(a + b) == Unlines(a) + Unlines(b)
  {
    if a == [] {
      assert a + b == b;
    } else {
      UnlinesAppend(a[1..], b);
      assert (a + b)[1..] == a[1..] + b;
    }
  }

  /** Nothing is lost or invented, and no line holds a newline. */
  lemma {:induction false} SplitJoins(text: string)
    ensures Unlines(Split(text).lines) + Split(text).rest == text
    ensures OneLine(Split(text).rest)
    ensures forall i :: 0 <= i < |Split(text).lines| ==> OneLine(Split(text).lines[i])
  {
    if text != "" {
      var init := text[..|text| - 1];
      SplitJoins(init);
      var before := Split(init);
      var c := text[|text| - 1];
      assert text == init + [c];
      if c == '\n' {
        UnlinesAppend(before.lines, [before.rest]);
        UnlinesOne(before.rest);
        hide Unlines;
        Associate(Unlines(before.lines), before.rest, "\n");
      } else {
        Associate(Unlines(before.lines), before.rest, [c]);
        hide Unlines;
        assert Unlines(before.lines) + (before.rest + [c]) == init + [c];
      }
    }
  }

  lemma SplitNothing()
    ensures Split("") == Cut([], "")
  {}

  /** One more line extends the cut by exactly that line. */
  lemma {:induction false} SplitOneMore(a: string, line: string)
    requires OneLine(line)
    ensures Split(a + line) == Cut(Split(a).lines, Split(a).rest + line)
    ensures Split(a + line + "\n") == Cut(Split(a).lines + [Split(a).rest + line], "")
  {
    if line == "" {
      assert a + line == a;
      assert Split(a).rest + line == Split(a).rest;
    } else {
      var init := line[..|line| - 1];
      SplitOneMore(a, init);
      assert (a + line)[..|a + line| - 1] == a + init;
      assert Split(a).rest + line == (Split(a).rest + init) + [line[|line| - 1]];
    }
    assert (a + line + "\n")[..|a + line|] == a + line;
  }

  /** The cut is the only decomposition into newline-free lines and a newline-free rest. */
  lemma {:induction false} SplitUnique(lines: seq<string>, rest: string)
    requires OneLine(rest)
    requires forall i :: 0 <= i < |lines| ==> OneLine(lines[i])
    ensures Split(Unlines(lines) + rest) == Cut(lines, rest)
  {
    SplitWhole(lines);
    SplitOneMore(Unlines(lines), rest);
    assert "" + rest == rest;
  }

  lemma {:induction false} SplitWhole(lines: seq<string>)
    requires forall i :: 0 <= i < |lines| ==> OneLine(lines[i])
    ensures Split(Unlines(lines)) == Cut(lines, "")
  {
    if lines != [] {
      var k := |lines| - 1;
      SplitWhole(lines[..k]);
      assert lines == lines[..k] + [lines[k]];
      UnlinesAppend(lines[..k], [lines[k]]);
      assert Unlines(lines) == Unlines(lines[..k]) + lines[k] + "\n";
      SplitOneMore(Unlines(lines[..k]), lines[k]);
      assert "" + lines[k] == lines[k];
    }
  }

  lemma Regroup(a: string, r: string, b: string, c: string, d: string)
    requires r + b == c + d
    ensures (a + r) + b == (a + c) + d
  {
    assert (a + r) + b == a + (r + b);
    assert (a + c) + d == a + (c + d);
  }

  /** Cutting resumes from the rest alone: the heart of chunk independence. */
  lemma {:induction false} SplitResumes(a: string, b: string)
    ensures Split(a + b).lines == Split(a).lines + Split(Split(a).rest + b).lines
    ensures Split(a + b).rest == Split(Split(a).rest + b).rest
  {
    var ca := Split(a);
    var cb := Split(ca.rest + b);
    SplitJoins(a);
    SplitJoins(ca.rest + b);
    UnlinesAppend(ca.lines, cb.lines);
    assert a + b == Unlines(ca.lines + cb.lines) + cb.rest by {
      Regroup(Unlines(ca.lines), ca.rest, b, Unlines(cb.lines), cb.rest);
    }
    SplitUnique(ca.lines + cb.lines, cb.rest);
  }

  /** The stdout and journal readers' loop over chunks: append to the rest, split, keep the last
      piece back. Its result does not depend on how the text was cut into chunks. */
  method ReadChunks(chunks: seq<string>) returns (lines: seq<string>, rest: string)
    ensures Cut(lines, rest) == Split(Concat(chunks))
  {
    lines, rest := [], "";
    var i := 0;
    assert chunks[..0] == [];
    while i < |chunks|
      invariant 0 <= i <= |chunks|
      invariant Cut(lines, rest) == Split(Concat(chunks[..i]))
    {
      ConcatStep(chunks, i);
      SplitResumes(Concat(chunks[..i]), chunks[i]);
      var pieces := Split(rest + chunks[i]);
      lines, rest := lines + pieces.lines, pieces.rest;
      i := i + 1;
    }
    assert chunks[..|chunks|] == chunks;
  }

  lemma {:induction false} ConcatAppend(a: seq<string>, b: seq<string>)
    ensures Concat(a + b) == Concat(a) + Concat(b)
  {
    if a == [] {
      assert a + b == b;
    } else {
      ConcatAppend(a[1..], b);
      assert (a + b)[1..] == a[1..] + b;
    }
  }

  lemma ConcatStep(chunks: seq<string>, i: nat)
    requires i < |chunks|
    ensures Concat(chunks[..i + 1]) == Concat(chunks[..i]) + chunks[i]
  {
    assert chunks[..i + 1] == chunks[..i] + [chunks[i]];
    ConcatAppend(chunks[..i], [chunks[i]]);
    assert Concat([chunks[i]]) == chunks[i];
  }

  /** The first newline of `s`, or -1 (JavaScript's indexOf). */
  method IndexOfNewline(s: string) returns (index: int)
    ensures -1 <= index < |s|
    ensures index >= 0 ==> s[index] == '\n' && OneLine(s[..index])
    ensures index < 0 ==> OneLine(s)
  {
    index := 0;
    while index < |s|
      invariant 0 <= index <= |s|
      invariant OneLine(s[..index])
    {
      if s[index] == '\n' { return; }
      index := index + 1;
    }
    assert s[..index] == s;
    index := -1;
  }

  /** One chunk arriving on a coordinator's socket: the buffer grows, an oversized buffer ends
      the connection before any of its lines is parsed, and otherwise every complete line is cut off
      the front in order. */
  method SocketChunk(buffer: string, chunk: string, limit: nat)
    returns (destroyed: bool, lines: seq<string>, rest: string)
    ensures destroyed <==> |buffer + chunk| > limit
    ensures destroyed ==> lines == []
    ensures !destroyed ==> Cut(lines, rest) == Split(buffer + chunk)
  {
    hide Split;
    rest := buffer + chunk;
    lines := [];
    destroyed := |rest| > limit;
    if destroyed { return; }
    ghost var whole := rest;
    var index := IndexOfNewline(rest);
    while index >= 0
      invariant -1 <= index < |rest|
      invariant index >= 0 ==> rest[index] == '\n' && OneLine(rest[..index])
      invariant index < 0 ==> OneLine(rest)
      invariant whole == Unlines(lines) + rest
      invariant forall i :: 0 <= i < |lines| ==> OneLine(lines[i])
      decreases |rest|
    {
      CutFront(lines, rest, index);
      lines, rest := lines + [rest[..index]], rest[index + 1..];
      index := IndexOfNewline(rest);
    }
    SplitUnique(lines, rest);
  }

  lemma CutFront(lines: seq<string>, rest: string, index: nat)
    requires index < |rest| && rest[index] == '\n'
    ensures Unlines(lines + [rest[..index]]) + rest[index + 1..] == Unlines(lines) + rest
  {
    hide Unlines;
    var head, tail := rest[..index] + "\n", rest[index + 1..];
    UnlinesAppend(lines, [rest[..index]]);
    UnlinesOne(rest[..index]);
    assert rest == head + tail;
    Associate(Unlines(lines), head, tail);
  }

  lemma UnlinesOne(line: string)
    ensures Unlines([line]) == line + "\n"
  {}

  lemma Associate(a: string, b: string, c: string)
    ensures (a + b) + c == a + (b + c)
  {}

  /** A whole connection: every chunk in turn, until one overflows the buffer. */
  function Overflows(buffer: string, chunks: seq<string>, limit: nat): bool
    decreases |chunks|
  {
    chunks != [] &&
    (|buffer + chunks[0]| > limit || Overflows(Split(buffer + chunks[0]).rest, chunks[1..], limit))
  }

  /** While the buffer stays under the limit, the commands parsed are the one-shot split of the
      connection's whole text; it is ended early exactly when some buffered piece is too long. */
  method SocketParser(chunks: seq<string>, limit: nat)
    returns (destroyed: bool, lines: seq<string>, rest: string)
    ensures destroyed <==> Overflows("", chunks, limit)
    ensures !destroyed ==> Cut(lines, rest) == Split(Concat(chunks))
    ensures destroyed ==> exists k | 0 <= k < |chunks| :: lines == Split(Concat(chunks[..k])).lines
  {
    lines, rest, destroyed := [], "", false;
    var i := 0;
    assert chunks[..0] == [] && chunks[0..] == chunks;
    while i < |chunks|
      invariant 0 <= i <= |chunks|
      invariant Cut(lines, rest) == Split(Concat(chunks[..i]))
      invariant Overflows("", chunks, limit) <==> Overflows(rest, chunks[i..], limit)
    {
      assert chunks[i..][0] == chunks[i] && chunks[i..][1..] == chunks[i + 1..];
      var over, more, left := SocketChunk(rest, chunks[i], limit);
      if over {
        return true, lines, rest;
      }
      ConcatStep(chunks, i);
      SplitResumes(Concat(chunks[..i]), chunks[i]);
      lines, rest := lines + more, left;
      i := i + 1;
    }
    assert chunks[..|chunks|] == chunks;
  }
}
