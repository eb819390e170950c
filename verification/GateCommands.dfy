/** The gate's commands as atomic steps. A turn is one command's statements without another process's
    in between, though processes may die meanwhile; a run is any sequence of turns, deliveries and
    deaths. A held gate outlives its owner through every such run, and refuses every claim, until a
    command that is meant to end it does. */
module GateCommands {
  import opened Wrappers
  import opened DrainGate

  /** `Elsewhere` is a delivery worker's statement, or a death. */
  datatype Command =
    | Check
    | Claim(token: Token, owner: Proc, adoptHeld: bool)
    | HoldGate(token: Token)
    | Recover
    | ReleaseGate(token: Token)
    | ReleaseLiveGate(token: Token)
    | Elsewhere(act: Act)

  /** One command, the acts from its first statement to its last, and its exit code. */
  datatype Turn = Turn(command: Command, acts: seq<Act>, exit: nat)

  /** The deletion of a gate that was live when the command read it. */
  predicate ClearsStale(w: World, a: Act) {
    w.gate.Some? && w.gate.value.mode == Live && a == ClearStale(w.gate.value.token)
  }

  /** What may happen during a command that began at `w`: deaths, and its own statements. */
  predicate MayIssue(w: World, c: Command, a: Act) {
    a.Dies? ||
    match c
    case Check => a.Reset? || ClearsStale(w, a)
    case Claim(t, owner, adoptHeld) =>
      || a.Reset? || ClearsStale(w, a) || a == Insert(t, owner)
      || (adoptHeld && w.gate.Some? && w.gate.value.mode == Held && a == Adopt(w.gate.value.token, t, owner))
    case HoldGate(t) => a == Hold(t)
    case Recover => w.gate.Some? && a == RecoverGate(w.gate.value.token)
    case ReleaseGate(t) => a == Release(t)
    case ReleaseLiveGate(t) => a == ReleaseLive(t)
    case Elsewhere(b) => a == b && (b.Dies? || b.Take? || b.Settle? || b.Reset? || b.Record?)
  }

  /** What a command's exit code says of the database it leaves. */
  predicate Answers(c: Command, k: World, exit: nat) {
    match c
    case Check => (exit == 0 || exit == 10) && (exit == 0 ==> k.gate == None)
    case Claim(t, owner, _) => (exit == 0 || exit == 10) && (exit == 0 <==> k.gate == Some(Gate(t, owner, Live)))
    case _ => true
  }

  predicate Atomic(w: World, turn: Turn) {
    && LegalRun(w, turn.acts)
    && (forall i :: 0 <= i < |turn.acts| ==> MayIssue(w, turn.command, turn.acts[i]))
    && Answers(turn.command, Run(w, turn.acts), turn.exit)
  }

  predicate AtomicRun(w: World, turns: seq<Turn>)
    decreases |turns|
  {
    turns != [] ==> Atomic(w, turns[0]) && AtomicRun(Run(w, turns[0].acts), turns[1..])
  }

  function AllActs(turns: seq<Turn>): seq<Act> {
    if turns == [] then [] else turns[0].acts + AllActs(turns[1..])
  }

  /** The world after these turns. */
  function After(w: World, turns: seq<Turn>): World
    decreases |turns|
  {
    if turns == [] then w else After(Run(w, turns[0].acts), turns[1..])
  }

  // ---- atomicity is what the commands are ------------------------------------------------------

  /** During a command begun at `start`, a gate with the token it read has the mode it read. */
  ghost predicate AsRead(start: World, w: World) {
    && Sound(start) && Sound(w)
    && (start.gate.Some? ==> start.gate.value.token in w.issued)
    && (start.gate.Some? && w.gate.Some? && w.gate.value.token == start.gate.value.token ==>
          w.gate.value.mode == start.gate.value.mode)
  }

  lemma AsReadStep(start: World, c: Command, w: World, a: Act)
    requires AsRead(start, w) && Legal(w, a) && MayIssue(start, c, a) && !c.HoldGate?
    ensures AsRead(start, Apply(w, a))
  {
    ActKeepsTokens(w, a);
  }

  /** No stale deletion within a command meets a held gate: the deleted row is the one it read live. */
  lemma {:induction false} CommandIsAtomic(start: World, c: Command, w: World, acts: seq<Act>)
    requires AsRead(start, w) && LegalRun(w, acts) && forall i :: 0 <= i < |acts| ==> MayIssue(start, c, acts[i])
    ensures AtomicCommands(w, acts)
    decreases |acts|
  {
    if acts != [] {
      var a := acts[0];
      if c.HoldGate? {
        HoldIsAtomic(w, c.token, acts);
      } else {
        AsReadStep(start, c, w, a);
        CommandIsAtomic(start, c, Apply(w, a), acts[1..]);
      }
    }
  }

  lemma {:induction false} HoldIsAtomic(w: World, t: Token, acts: seq<Act>)
    requires forall i :: 0 <= i < |acts| ==> acts[i].Dies? || acts[i] == Hold(t)
    ensures AtomicCommands(w, acts)
    decreases |acts|
  {
    if acts != [] { HoldIsAtomic(Apply(w, acts[0]), t, acts[1..]); }
  }

  lemma {:induction false} AtomicJoin(w: World, a: seq<Act>, b: seq<Act>)
    ensures AtomicCommands(w, a + b) <==> AtomicCommands(w, a) && AtomicCommands(Run(w, a), b)
    decreases |a|
  {
    if a == [] {
      assert a + b == b;
    } else {
      AtomicJoin(Apply(w, a[0]), a[1..], b);
      assert (a + b)[1..] == a[1..] + b && (a + b)[0] == a[0];
    }
  }

  /** Every run of atomic commands is a legal run of statements in which no stale deletion meets a held
      gate, and ends in the same world. */
  lemma {:induction false} RunsAreAtomic(w: World, turns: seq<Turn>)
    requires Sound(w) && AtomicRun(w, turns)
    ensures LegalRun(w, AllActs(turns)) && AtomicCommands(w, AllActs(turns))
    ensures Run(w, AllActs(turns)) == After(w, turns) && Sound(After(w, turns)) && w.dead <= After(w, turns).dead
    decreases |turns|
  {
    hide Legal; hide Apply; hide MayIssue; hide Answers; hide Sound;
    if turns != [] {
      var acts, rest, mid := turns[0].acts, turns[1..], Run(w, turns[0].acts);
      TokensKeepTheirOwner(w, acts);
      ReadNow(w);
      CommandIsAtomic(w, turns[0].command, w, acts);
      RunsAreAtomic(mid, rest);
      RunJoin(w, acts, AllActs(rest));
      AtomicJoin(w, acts, AllActs(rest));
    }
  }

  lemma ReadNow(w: World)
    requires Sound(w)
    ensures AsRead(w, w)
  {}

  // ---- the held gate -----------------------------------------------------------------------------

  /** The commands meant to end a held gate with this token. */
  predicate MeantToEnd(c: Command, token: Token) {
    c == Recover || c == ReleaseGate(token) || (c.Claim? && c.adoptHeld)
  }

  lemma {:induction false} NotMeant(w: World, turn: Turn, a: Act)
    requires w.gate.Some? && w.gate.value.mode == Held && MayIssue(w, turn.command, a)
    requires !MeantToEnd(turn.command, w.gate.value.token)
    ensures var t := w.gate.value.token; a != RecoverGate(t) && a != Release(t) && (a.Adopt? ==> a.prior != t)
  {}

  /** One turn on a held gate: it keeps the row unless it is one of those commands, and for recovery and
      adoption unless the owner is dead. While the row stands, a claim and a check are refused. */
  lemma HeldTurn(w: World, turn: Turn)
    requires Sound(w) && Atomic(w, turn) && w.gate.Some? && w.gate.value.mode == Held
    ensures var k := Run(w, turn.acts);
      && (k.gate != w.gate ==> MeantToEnd(turn.command, w.gate.value.token))
      && (k.gate != w.gate && !turn.command.ReleaseGate? ==> w.gate.value.owner in k.dead)
      && (k.gate == w.gate && (turn.command.Claim? || turn.command.Check?) ==> turn.exit == 10)
  {
    var k, t := Run(w, turn.acts), w.gate.value.token;
    hide Legal; hide Apply; hide Sound;
    TokensKeepTheirOwner(w, turn.acts);
    if !MeantToEnd(turn.command, t) {
      ReadNow(w);
      CommandIsAtomic(w, turn.command, w, turn.acts);
      forall a | a in turn.acts ensures a != RecoverGate(t) && a != Release(t) && (a.Adopt? ==> a.prior != t) {
        NotMeant(w, turn, a);
      }
      hide MayIssue;
      HeldGateEndures(w, turn.acts);
    } else if !turn.command.ReleaseGate? && w.gate.value.owner !in k.dead {
      forall a | a in turn.acts ensures a != Release(t) && a != ReleaseLive(t) && a != Hold(t) {}
      hide MayIssue;
      LiveGateNeedsItsToken(w, turn.acts);
    }
  }

  /** After each of the first `n` turns the gate is what it was, and each of them that claimed or checked
      was refused. */
  ghost predicate HeldFor(w: World, turns: seq<Turn>, n: nat) {
    && n <= |turns|
    && (forall i :: 0 <= i <= n ==> After(w, turns[..i]).gate == w.gate)
    && (forall i :: 0 <= i < n && (turns[i].command.Claim? || turns[i].command.Check?) ==> turns[i].exit == 10)
  }

  /** This turn ended the gate: it released it by its token, or recovered or adopted it after its owner
      had died. */
  ghost predicate EndedBy(before: World, turn: Turn) {
    && before.gate.Some? && Run(before, turn.acts).gate != before.gate
    && MeantToEnd(turn.command, before.gate.value.token)
    && (turn.command.ReleaseGate? || before.gate.value.owner in Run(before, turn.acts).dead)
  }

  /** A held gate in any run whatever of atomic commands, deliveries and deaths: it stands, and every
      claim and check is refused, through the whole run, or up to the first turn that releases it by its
      token, recovers it, or adopts it, the last two only once its owner is dead. */
  lemma {:induction false} HeldUntilEnded(w: World, turns: seq<Turn>) returns (n: nat)
    requires Sound(w) && AtomicRun(w, turns) && w.gate.Some? && w.gate.value.mode == Held
    ensures HeldFor(w, turns, n)
    ensures n < |turns| ==> EndedBy(After(w, turns[..n]), turns[n])
    decreases |turns|
  {
    hide Atomic; hide Sound;
    assert turns[..0] == [];
    if turns == [] {
      n := 0;
    } else {
      AtomicParts(w, turns[0]);
      HeldTurn(w, turns[0]);
      var mid := Run(w, turns[0].acts);
      if mid.gate != w.gate {
        n := 0;
      } else {
        var m := HeldUntilEnded(mid, turns[1..]);
        n := m + 1;
        forall i | 0 <= i <= n ensures After(w, turns[..i]).gate == w.gate {
          if i > 0 { AfterFirst(w, turns, i); }
        }
        AfterFirst(w, turns, n);
        if n < |turns| { assert turns[1..][m] == turns[n]; }
        forall i | 0 <= i < n && (turns[i].command.Claim? || turns[i].command.Check?) ensures turns[i].exit == 10 {
          if i > 0 { assert turns[1..][i - 1] == turns[i]; }
        }
      }
    }
  }

  lemma AtomicParts(w: World, turn: Turn)
    requires Sound(w) && Atomic(w, turn)
    ensures LegalRun(w, turn.acts) && Sound(Run(w, turn.acts))
  {
    TokensKeepTheirOwner(w, turn.acts);
  }

  lemma AfterFirst(w: World, turns: seq<Turn>, i: nat)
    requires 1 <= i <= |turns|
    ensures After(w, turns[..i]) == After(Run(w, turns[0].acts), turns[1..][..i - 1])
  {
    assert turns[..i][1..] == turns[1..][..i - 1];
  }

  /** So checks, live releases, ordinary claims, other tokens' commands, deliveries and deaths, in any
      number and order, never end a held gate, whoever has died, and never get past it. */
  lemma HeldGateOutlivesItsOwner(w: World, turns: seq<Turn>)
    requires Sound(w) && AtomicRun(w, turns) && w.gate.Some? && w.gate.value.mode == Held
    requires forall i :: 0 <= i < |turns| ==> !MeantToEnd(turns[i].command, w.gate.value.token)
    ensures HeldFor(w, turns, |turns|) && After(w, turns).gate == w.gate
  {
    hide AtomicRun; hide Sound; hide MeantToEnd; hide After;
    var n := HeldUntilEnded(w, turns);
    assert turns[..|turns|] == turns;
  }
}
