/** The commands of the two drain gates, statement by statement, with every other process free to act
    between two statements. Each command is proved to issue only legal acts, so `DrainGate`'s theorems
    about legal runs hold for every interleaving of any number of commands; and, run without another
    process's statements in between, to be one of `GateCommands`' atomic turns. */
module CaptureDrain {
  import opened Wrappers
  import opened DrainGate
  import opened GateCommands

  /** One act of a run, by the command itself or by another process. */
  datatype Step = Mine(act: Act) | Theirs(act: Act)

  function Acts(steps: seq<Step>): (acts: seq<Act>)
    ensures |acts| == |steps|
  {
    seq(|steps|, i requires 0 <= i < |steps| => steps[i].act)
  }

  /** These steps led from `w` to `k`, all of them legal. */
  ghost predicate Went(w: World, steps: seq<Step>, k: World) {
    LegalRun(w, Acts(steps)) && k == Run(w, Acts(steps))
  }

  /** The command itself issued nothing but deletions of stale gates and resets of deliveries. */
  ghost predicate OnlyClears(steps: seq<Step>) {
    forall s :: s in steps && s.Mine? ==> s.act.ClearStale? || s.act.Reset?
  }

  ghost predicate OnlyDeaths(steps: seq<Step>) {
    forall s :: s in steps && s.Theirs? ==> s.act.Dies?
  }

  /** A command that found only deaths between its statements, and issued its own, is an atomic turn. */
  lemma IsTurn(w: World, c: Command, steps: seq<Step>, k: World, exit: nat)
    requires Went(w, steps, k) && OnlyDeaths(steps) && Answers(c, k, exit)
    requires forall s :: s in steps && s.Mine? ==> MayIssue(w, c, s.act)
    ensures Atomic(w, Turn(c, Acts(steps), exit))
  {
    forall i | 0 <= i < |steps| ensures MayIssue(w, c, Acts(steps)[i]) {
      assert steps[i] in steps;
    }
  }

  /** How many deliveries the command itself reset. */
  function ResetByMe(w: World, steps: seq<Step>): nat
    decreases |steps|
  {
    if steps == [] then 0
    else
      (if steps[0].Mine? && steps[0].act.Reset? && Apply(w, steps[0].act) != w then 1 else 0)
      + ResetByMe(Apply(w, steps[0].act), steps[1..])
  }

  lemma WentJoin(w: World, a: seq<Step>, k: World, b: seq<Step>, m: World)
    requires Went(w, a, k) && Went(k, b, m)
    ensures Went(w, a + b, m)
    ensures OnlyClears(a) && OnlyClears(b) ==> OnlyClears(a + b)
    ensures OnlyDeaths(a) && OnlyDeaths(b) ==> OnlyDeaths(a + b)
  {
    assert Acts(a + b) == Acts(a) + Acts(b);
    RunJoin(w, Acts(a), Acts(b));
  }

  lemma {:induction false} ResetsJoin(w: World, a: seq<Step>, b: seq<Step>)
    ensures ResetByMe(w, a + b) == ResetByMe(w, a) + ResetByMe(Run(w, Acts(a)), b)
    decreases |a|
  {
    if a == [] {
      assert a + b == b;
    } else {
      ResetsJoin(Apply(w, a[0].act), a[1..], b);
      assert (a + b)[1..] == a[1..] + b && Acts(a)[1..] == Acts(a[1..]);
    }
  }

  lemma {:induction false} NoneByMe(w: World, steps: seq<Step>)
    requires forall s :: s in steps ==> s.Theirs?
    ensures ResetByMe(w, steps) == 0 && OnlyClears(steps)
    decreases |steps|
  {
    if steps != [] {
      assert steps[0] in steps && forall s :: s in steps[1..] ==> s in steps;
      NoneByMe(Apply(w, steps[0].act), steps[1..]);
    }
  }

  /** A dead owner never has a delivery it does not have already. */
  lemma {:induction false} DeadTakeNothing(w: World, acts: seq<Act>, e: Event, owner: Proc)
    requires LegalRun(w, acts) && Sound(w) && owner in w.dead
    requires e in w.deliveries && w.deliveries[e] != Sending(Some(owner))
    ensures e in Run(w, acts).deliveries && Run(w, acts).deliveries[e] != Sending(Some(owner))
    decreases |acts|
  {
    if acts != [] {
      ActKeepsTokens(w, acts[0]);
      DeadTakeNothing(Apply(w, acts[0]), acts[1..], e, owner);
    }
  }

  /** A token that was issued and is not the gate's never becomes the gate's again. */
  lemma {:induction false} GoneStaysGone(w: World, acts: seq<Act>, t: Token)
    requires LegalRun(w, acts) && Sound(w) && t in w.issued && (w.gate == None || w.gate.value.token != t)
    ensures Run(w, acts).gate == None || Run(w, acts).gate.value.token != t
    decreases |acts|
  {
    if acts != [] {
      ActKeepsTokens(w, acts[0]);
      GoneStaysGone(Apply(w, acts[0]), acts[1..], t);
    }
  }

  /** While only deaths happen, the database does not change. */
  lemma {:induction false} DeathsOnly(w: World, steps: seq<Step>)
    requires forall s :: s in steps ==> s.act.Dies?
    ensures Run(w, Acts(steps)) == w.(dead := Run(w, Acts(steps)).dead) && w.dead <= Run(w, Acts(steps)).dead
    decreases |steps|
  {
    if steps != [] {
      assert forall s :: s in steps[1..] ==> s in steps;
      assert Acts(steps)[1..] == Acts(steps[1..]);
      DeathsOnly(Apply(w, steps[0].act), steps[1..]);
    }
  }

  datatype ClaimResult = Claimed | Blocked(sending: nat)

  datatype Recovery = Clear | Active | Recovered(priorMode: Mode)

  class Database {
    var world: World

    constructor (w: World)
      requires Sound(w)
      ensures world == w
    {
      world := w;
    }

    /** Whatever the other processes do before the next statement: anything legal, or, inside this
        process's own write transaction, nothing but dying. */
    method Others(locked: bool) returns (ghost steps: seq<Step>)
      requires Sound(world)
      modifies this
      ensures Went(old(world), steps, world) && Sound(world) && OnlyClears(steps)
      ensures forall s :: s in steps ==> s.Theirs? && (locked ==> s.act.Dies?)
      ensures ResetByMe(old(world), steps) == 0
    {
      var acts: seq<Act> := *;
      steps := [];
      if LegalRun(world, acts) && (locked ==> forall a :: a in acts ==> a.Dies?) {
        steps := seq(|acts|, i requires 0 <= i < |acts| => Theirs(acts[i]));
        assert Acts(steps) == acts;
        TokensKeepTheirOwner(world, acts);
        NoneByMe(world, steps);
        world := Run(world, acts);
      }
    }

    /** One statement of this command's own. */
    method Do(a: Act) returns (ghost steps: seq<Step>)
      requires Sound(world) && Legal(world, a)
      modifies this
      ensures steps == [Mine(a)] && Went(old(world), steps, world) && Sound(world) && world == Apply(old(world), a)
      ensures ResetByMe(old(world), steps) == if a.Reset? && Apply(old(world), a) != old(world) then 1 else 0
    {
      steps := [Mine(a)];
      ActKeepsTokens(world, a);
      assert Acts(steps) == [a] && [a][1..] == [] && steps[1..] == [];
      world := Apply(world, a);
    }

    /** `clearStaleGate`: delete a gate that was live when read and whose owner was then seen dead. */
    method ClearStaleGate(locked: bool) returns (ghost steps: seq<Step>)
      requires Sound(world)
      modifies this
      ensures Went(old(world), steps, world) && Sound(world) && OnlyClears(steps) && (locked ==> OnlyDeaths(steps))
      ensures ResetByMe(old(world), steps) == 0
      ensures forall s :: s in steps && s.Mine? ==>
                old(world.gate).Some? && old(world.gate).value.mode == Live && s.act == ClearStale(old(world.gate).value.token)
      ensures old(world.gate).Some? && old(world.gate).value.mode == Live && old(world.gate).value.owner in old(world.dead) ==>
                world.gate == None || world.gate.value.token != old(world.gate).value.token
      ensures locked ==> world == old(world).(gate := world.gate, dead := world.dead)
      ensures locked && world.gate != old(world.gate) ==>
                world.gate == None && old(world.gate).value.mode == Live && old(world.gate).value.owner in world.dead
    {
      hide Apply; hide Legal; hide LegalRun; hide Run;
      ghost var w := world;
      var gate := world.gate;
      steps := Others(locked);
      ghost var k := world;
      TokensKeepTheirOwner(w, Acts(steps));
      if locked { DeathsOnly(w, steps); }
      if gate.Some? && gate.value.mode != Held && gate.value.owner in world.dead {
        ghost var more := Others(locked);
        TokensKeepTheirOwner(k, Acts(more));
        if locked { DeathsOnly(k, more); }
        WentJoin(w, steps, k, more, world);
        ResetsJoin(w, steps, more);
        steps, k := steps + more, world;
        ClearIsLegal(world, gate.value.token);
        more := Do(ClearStale(gate.value.token));
        ClearEffect(k, gate.value.token);
        WentJoin(w, steps, k, more, world);
        ResetsJoin(w, steps, more);
        steps := steps + more;
      }
    }

    /** One row of the recovery loop: reset it if its owner is seen dead, and only while the row still
        names that owner. */
    method RecoverRow(e: Event, owner: Proc, locked: bool) returns (changes: nat, ghost steps: seq<Step>)
      requires Sound(world) && e in world.deliveries
      modifies this
      ensures Went(old(world), steps, world) && Sound(world) && OnlyClears(steps) && (locked ==> OnlyDeaths(steps))
      ensures changes == ResetByMe(old(world), steps)
      ensures forall s :: s in steps && s.Mine? ==> s.act == Reset(e, owner, false)
      ensures owner in old(world.dead) ==> e in world.deliveries && world.deliveries[e] != Sending(Some(owner))
      ensures locked ==> world == old(world).(deliveries := world.deliveries, dead := world.dead)
      ensures locked ==> OnlyDeadReset(old(world), world)
    {
      hide Apply; hide Legal; hide LegalRun; hide Run; hide ResetByMe;
      ghost var w := world;
      changes := 0;
      steps := Others(locked);
      ghost var k := world;
      TokensKeepTheirOwner(w, Acts(steps));
      NoEventLost(w, Acts(steps));
      if locked { DeathsOnly(w, steps); }
      if owner !in world.dead { return; }
      ghost var more := Others(locked);
      TokensKeepTheirOwner(k, Acts(more));
      NoEventLost(k, Acts(more));
      if locked { DeathsOnly(k, more); }
      WentJoin(w, steps, k, more, world);
      ResetsJoin(w, steps, more);
      steps, k := steps + more, world;
      ResetEffect(world, e, owner);
      changes := if world.deliveries[e] == Sending(Some(owner)) then 1 else 0;
      more := Do(Reset(e, owner, false));
      WentJoin(w, steps, k, more, world);
      ResetsJoin(w, steps, more);
      steps := steps + more;
    }

    /** `recoverDeadDeliveries`: every delivery whose recorded owner is dead goes back to pending. The
        rows are read once; a row that changed hands since is left alone. */
    method RecoverDeadDeliveries(locked: bool) returns (recovered: nat, ghost steps: seq<Step>)
      requires Sound(world)
      modifies this
      ensures Went(old(world), steps, world) && Sound(world) && OnlyClears(steps) && (locked ==> OnlyDeaths(steps))
      ensures recovered == ResetByMe(old(world), steps)
      ensures forall s :: s in steps && s.Mine? ==> s.act.Reset?
      ensures forall e, p :: e in old(world.deliveries) && old(world.deliveries)[e] == Sending(Some(p)) && p in old(world.dead) ==>
                e in world.deliveries && world.deliveries[e] != Sending(Some(p))
      ensures old(world.dead) <= world.dead
      ensures locked ==> world == old(world).(deliveries := world.deliveries, dead := world.dead)
      ensures locked ==> OnlyDeadReset(old(world), world)
    {
      hide Apply; hide Legal; hide LegalRun; hide Run; hide ResetByMe;
      ghost var w := world;
      var rows := map e | e in world.deliveries && world.deliveries[e].Sending? && world.deliveries[e].owner.Some?
        :: world.deliveries[e].owner.value;
      var todo := rows.Keys;
      recovered, steps := 0, [];
      NoStep(w);
      while todo != {}
        invariant todo <= rows.Keys && Went(w, steps, world) && Sound(world) && OnlyClears(steps)
        invariant locked ==> OnlyDeaths(steps)
        invariant forall s :: s in steps && s.Mine? ==> s.act.Reset?
        invariant w.deliveries.Keys <= world.deliveries.Keys && w.dead <= world.dead
        invariant recovered == ResetByMe(w, steps)
        invariant forall e :: e in rows && e !in todo && rows[e] in w.dead ==> world.deliveries[e] != Sending(Some(rows[e]))
        invariant locked ==> world == w.(deliveries := world.deliveries, dead := world.dead) && OnlyDeadReset(w, world)
        decreases |todo|
      {
        var e :| e in todo;
        ghost var k := world;
        var changes;
        ghost var more;
        changes, more := RecoverRow(e, rows[e], locked);
        TokensKeepTheirOwner(k, Acts(more));
        NoEventLost(k, Acts(more));
        forall x | x in rows && x !in todo && rows[x] in w.dead ensures world.deliveries[x] != Sending(Some(rows[x])) {
          DeadTakeNothing(k, Acts(more), x, rows[x]);
        }
        WentJoin(w, steps, k, more, world);
        ResetsJoin(w, steps, more);
        steps, recovered, todo := steps + more, recovered + changes, todo - {e};
      }
    }

    /** What check and claim do first: a stale gate goes, and dead owners' deliveries are pending again. */
    method ClearAndRecover(locked: bool) returns (recovered: nat, ghost steps: seq<Step>)
      requires Sound(world)
      modifies this
      ensures Went(old(world), steps, world) && Sound(world) && OnlyClears(steps) && (locked ==> OnlyDeaths(steps))
      ensures recovered == ResetByMe(old(world), steps) && old(world.dead) <= world.dead
      ensures forall s :: s in steps && s.Mine? ==> s.act.Reset? || ClearsStale(old(world), s.act)
      ensures StaleGone(old(world), world) && DeadSendNothing(old(world), world)
      ensures locked ==> Settles(old(world), world)
    {
      hide Apply; hide Legal; hide LegalRun; hide Run; hide ResetByMe; hide Drained; hide OnlyDeadSend; hide GateGivesWay;
      ghost var w := world;
      steps := ClearStaleGate(locked);
      ghost var k := world;
      TokensKeepTheirOwner(w, Acts(steps));
      NoEventLost(w, Acts(steps));
      ghost var more;
      recovered, more := RecoverDeadDeliveries(locked);
      if StaleAt(w) && (k.gate == None || k.gate.value.token != w.gate.value.token) {
        GoneStaysGone(k, Acts(more), w.gate.value.token);
      }
      forall e, p | e in w.deliveries && w.deliveries[e] == Sending(Some(p)) && p in w.dead
        ensures e in world.deliveries && world.deliveries[e] != Sending(Some(p))
      {
        if k.deliveries[e] != Sending(Some(p)) { DeadTakeNothing(k, Acts(more), e, p); }
      }
      if locked { DeadSendersReset(w, k, world); GateNow(w, world); }
      WentJoin(w, steps, k, more, world);
      ResetsJoin(w, steps, more);
      steps := steps + more;
    }

    /** `sendingCount`. */
    method SendingCount() returns (count: nat)
      ensures count == 0 <==> Drained(world)
    {
      var sending := set e | e in world.deliveries && world.deliveries[e].Sending?;
      if sending != {} {
        var e :| e in sending;
        assert sending == {e} + (sending - {e});
      }
      assert forall e :: e in world.deliveries && world.deliveries[e].Sending? ==> e in sending;
      count := |sending|;
    }

    /** `check`: 0 means that at one point nothing was being sent, and later no gate stood. It
        issues nothing but stale clearing and resets, so no live owner loses anything to it. `atomic`, here
        and below, is a run with no other process's statement in between. */
    method Check(atomic: bool) returns (exitCode: nat, recovered: nat, ghost steps: seq<Step>, ghost counted: nat)
      requires Sound(world)
      modifies this
      ensures Went(old(world), steps, world) && Sound(world) && OnlyClears(steps)
      ensures recovered == ResetByMe(old(world), steps)
      ensures exitCode == 0 || exitCode == 10
      ensures exitCode == 0 ==> counted <= |steps| && Drained(Run(old(world), Acts(steps[..counted]))) && world.gate == None
      ensures exitCode == 10 ==> counted <= |steps|
      ensures exitCode == 10 && world.gate == None ==> !Drained(Run(old(world), Acts(steps[..counted])))
      ensures StaleGone(old(world), world) && DeadSendNothing(old(world), world)
      ensures atomic && world.dead == old(world.dead) ==>
                (exitCode == 0 <==> OnlyDeadSend(old(world)) && GateGivesWay(old(world), false))
      ensures atomic ==> Atomic(old(world), Turn(Command.Check, Acts(steps), exitCode))
    {
      hide Apply; hide Legal; hide LegalRun; hide Run; hide ResetByMe; hide Drained; hide OnlyDeadSend; hide DeadSendNothing;
      ghost var w := world;
      recovered, steps := ClearAndRecover(atomic);
      ghost var k := world;
      var sending := SendingCount();
      counted := |steps|;
      ghost var more := Others(atomic);
      TokensKeepTheirOwner(w, Acts(steps));
      if StaleAt(w) { GoneStaysGone(k, Acts(more), w.gate.value.token); }
      SendNothingLonger(w, k, Acts(more));
      if atomic {
        DeathsOnly(k, more);
        SameDrained(k, world);
      }
      WentJoin(w, steps, k, more, world);
      ResetsJoin(w, steps, more);
      assert (steps + more)[..counted] == steps;
      steps := steps + more;
      exitCode := if sending > 0 || world.gate.Some? then 10 else 0;
      if atomic { IsTurn(w, Command.Check, steps, world, exitCode); }
    }

    /** `claim`: one write transaction, in which other processes can only die. It claims the gate
        exactly when nothing is being sent and no gate stands in its way; if nobody dies meanwhile, exactly
        when that was so at its start, up to what dead owners left behind. */
    method Claim(token: Token, owner: Proc, adoptHeld: bool) returns (result: ClaimResult, recovered: nat, ghost steps: seq<Step>)
      requires Sound(world) && token !in world.issued
      modifies this
      ensures Went(old(world), steps, world) && Sound(world) && OnlyDeaths(steps)
      ensures result.Claimed? <==> world.gate.Some? && world.gate.value.token == token
      ensures result.Claimed? ==> Drained(world) && world.gate == Some(Gate(token, owner, Live))
      ensures result.Claimed? && old(world.gate).Some? ==>
                old(world.gate).value.owner in world.dead && (old(world.gate).value.mode == Held ==> adoptHeld)
      ensures result.Blocked? && world.gate != old(world.gate) ==>
                world.gate == None && old(world.gate).value.mode == Live && old(world.gate).value.owner in world.dead
      ensures result.Blocked? ==> (result.sending > 0 && !Drained(world)) || world.gate.Some?
      ensures OnlyDeadReset(old(world), world)
      ensures OnlyDeadSend(old(world)) && GateGivesWay(old(world), adoptHeld) ==> result.Claimed?
      ensures world.dead == old(world.dead) ==>
                (result.Claimed? <==> OnlyDeadSend(old(world)) && GateGivesWay(old(world), adoptHeld))
      ensures Atomic(old(world), Turn(Command.Claim(token, owner, adoptHeld), Acts(steps), if result.Claimed? then 0 else 10))
    {
      hide Apply; hide Legal; hide LegalRun; hide Run; hide ResetByMe; hide Drained; hide OnlyDeadSend;
      ghost var w := world;
      recovered, steps := ClearAndRecover(true);
      ghost var k := world;
      var sending := SendingCount();
      if sending > 0 {
        IsTurn(w, Command.Claim(token, owner, adoptHeld), steps, world, 10);
        return Blocked(sending), recovered, steps;
      }
      ghost var more := Others(true);
      DeathsOnly(k, more);
      SameDrained(k, world);
      WentJoin(w, steps, k, more, world);
      steps, k := steps + more, world;
      var existing := world.gate;
      if existing.Some? {
        if existing.value.mode != Held || existing.value.owner !in world.dead || !adoptHeld {
          IsTurn(w, Command.Claim(token, owner, adoptHeld), steps, world, 10);
          return Blocked(sending), recovered, steps;
        }
        AdoptEffect(world, existing.value, token, owner);
        more := Do(Adopt(existing.value.token, token, owner));
      } else {
        InsertEffect(world, token, owner);
        more := Do(Insert(token, owner));
      }
      SameDrained(k, world);
      WentJoin(w, steps, k, more, world);
      steps := steps + more;
      result := Claimed;
      IsTurn(w, Command.Claim(token, owner, adoptHeld), steps, world, 0);
    }

    /** `recover`: end a gate, held or not, whose owner is seen dead. */
    method Recover(atomic: bool) returns (result: Recovery, ghost steps: seq<Step>)
      requires Sound(world)
      modifies this
      ensures Went(old(world), steps, world) && Sound(world)
      ensures result.Clear? <==> old(world.gate) == None
      ensures result.Recovered? ==>
        var g := old(world.gate).value;
        g.owner in world.dead && result.priorMode == g.mode && (world.gate == None || world.gate.value.token != g.token)
      ensures old(world.gate).Some? && old(world.gate).value.owner in old(world.dead) ==> result.Recovered?
      ensures !result.Recovered? ==> forall s :: s in steps ==> s.Theirs?
      ensures forall s :: s in steps && s.Mine? ==>
                old(world.gate).Some? && s.act == RecoverGate(old(world.gate).value.token)
      ensures atomic ==> Atomic(old(world), Turn(Command.Recover, Acts(steps), if result.Active? then 10 else 0))
    {
      hide Apply; hide Legal; hide LegalRun; hide Run;
      ghost var w := world;
      var gate := world.gate;
      steps := [];
      NoStep(w);
      if gate == None {
        IsTurn(w, Command.Recover, steps, world, 0);
        return Clear, steps;
      }
      steps := Others(atomic);
      ghost var k := world;
      TokensKeepTheirOwner(w, Acts(steps));
      if gate.value.owner !in world.dead {
        if atomic { IsTurn(w, Command.Recover, steps, world, 10); }
        return Active, steps;
      }
      ghost var more := Others(atomic);
      TokensKeepTheirOwner(k, Acts(more));
      WentJoin(w, steps, k, more, world);
      steps, k := steps + more, world;
      ClearIsLegal(world, gate.value.token);
      ClearEffect(world, gate.value.token);
      more := Do(RecoverGate(gate.value.token));
      WentJoin(w, steps, k, more, world);
      steps := steps + more;
      result := Recovered(gate.value.mode);
      if atomic { IsTurn(w, Command.Recover, steps, world, 0); }
    }

    /** `release` and `release-live`: delete the gate of exactly this token, the latter only while it
        is live. The exit code tells whether that happened, or a held gate was left as it must be. */
    method ReleaseToken(token: Token, liveOnly: bool, atomic: bool) returns (exitCode: nat, ghost steps: seq<Step>)
      requires Sound(world)
      modifies this
      ensures Went(old(world), steps, world) && Sound(world)
      ensures var g := old(world.gate);
        var released := g.Some? && g.value.token == token && (liveOnly ==> g.value.mode == Live);
        && (released ==> world.gate == None || world.gate.value.token != token)
        && (exitCode == 0 <==>
              released || (liveOnly && world.gate.Some? && world.gate.value.token == token && world.gate.value.mode == Held))
      ensures atomic && liveOnly ==> (exitCode == 0 <==> old(world.gate).Some? && old(world.gate).value.token == token)
      ensures steps != [] && steps[0] == Mine(if liveOnly then ReleaseLive(token) else Release(token))
      ensures forall s :: s in steps && s.Mine? ==> s.act == if liveOnly then ReleaseLive(token) else Release(token)
      ensures atomic ==>
                Atomic(old(world), Turn(if liveOnly then ReleaseLiveGate(token) else ReleaseGate(token), Acts(steps), exitCode))
    {
      hide LegalRun; hide Run;
      ghost var w := world;
      var act := if liveOnly then ReleaseLive(token) else Release(token);
      var released := world.gate.Some? && world.gate.value.token == token && (!liveOnly || world.gate.value.mode == Live);
      steps := Do(act);
      ghost var k := world;
      ghost var more := Others(atomic);
      WentJoin(w, steps, k, more, world);
      steps := steps + more;
      if released { GoneStaysGone(k, Acts(more), token); }
      if atomic { DeathsOnly(k, more); }
      var retained := world.gate.Some? && world.gate.value.token == token && world.gate.value.mode == Held;
      exitCode := if released || (liveOnly && retained) then 0 else 1;
      if atomic { IsTurn(w, if liveOnly then ReleaseLiveGate(token) else ReleaseGate(token), steps, world, exitCode); }
    }

    /** `hold`: the gate of exactly this token survives its owner from now on. */
    method HoldToken(token: Token) returns (exitCode: nat, ghost steps: seq<Step>)
      requires Sound(world)
      modifies this
      ensures steps == [Mine(Hold(token))] && Went(old(world), steps, world) && Sound(world)
      ensures exitCode == 0 <==> old(world.gate).Some? && old(world.gate).value.token == token
      ensures exitCode == 0 <==> world.gate.Some? && world.gate.value.token == token
      ensures exitCode == 0 ==> world.gate.value.mode == Held && world.gate.value.owner == old(world.gate).value.owner
      ensures Atomic(old(world), Turn(HoldGate(token), Acts(steps), exitCode))
    {
      exitCode := if world.gate.Some? && world.gate.value.token == token then 0 else 1;
      steps := Do(Hold(token));
      IsTurn(old(world), HoldGate(token), steps, world, exitCode);
    }

    /** The update gate's own claim: insert or nothing, then look whose token is there. It is the
        admission boundary, and waits for no delivery. */
    method ClaimUpdate(token: Token, owner: Proc) returns (claimed: bool, ghost steps: seq<Step>)
      requires Sound(world) && token !in world.issued
      modifies this
      ensures Went(old(world), steps, world) && Sound(world)
      ensures claimed <==> old(world.gate) == None
      ensures world.gate == if claimed then Some(Gate(token, owner, Live)) else old(world.gate)
    {
      steps := Do(Insert(token, owner));
      claimed := world.gate.Some? && world.gate.value.token == token;
    }
  }

  /** The deliveries changed only by resets of dead owners' ones. */
  ghost predicate OnlyDeadReset(w: World, k: World) {
    && w.deliveries.Keys == k.deliveries.Keys
    && forall e :: e in w.deliveries && k.deliveries[e] != w.deliveries[e] ==>
         k.deliveries[e] == Pending && w.deliveries[e].Sending? && w.deliveries[e].owner.Some? && w.deliveries[e].owner.value in k.dead
  }

  /** Nothing is being sent but by owners that are dead already. */
  ghost predicate OnlyDeadSend(w: World) {
    forall e :: e in w.deliveries && w.deliveries[e].Sending? ==>
      w.deliveries[e].owner.Some? && w.deliveries[e].owner.value in w.dead
  }

  /** No gate stands in the way of a claim: there is none, or its owner is dead and it is live or the
      claim adopts. */
  ghost predicate GateGivesWay(w: World, adoptHeld: bool) {
    w.gate.Some? ==> w.gate.value.owner in w.dead && (w.gate.value.mode == Held ==> adoptHeld)
  }

  /** The gate is live and its owner is dead. */
  predicate StaleAt(w: World) {
    w.gate.Some? && w.gate.value.mode == Live && w.gate.value.owner in w.dead
  }

  ghost predicate StaleGone(w: World, k: World) {
    StaleAt(w) ==> k.gate == None || k.gate.value.token != w.gate.value.token
  }

  /** Nobody who was dead at `w` has in hand at `k` what it had then. */
  ghost predicate DeadSendNothing(w: World, k: World) {
    forall e, p :: e in w.deliveries && w.deliveries[e] == Sending(Some(p)) && p in w.dead ==>
      e in k.deliveries && k.deliveries[e] != Sending(Some(p))
  }

  lemma SendNothingLonger(w: World, k: World, acts: seq<Act>)
    requires DeadSendNothing(w, k) && LegalRun(k, acts) && Sound(k) && w.dead <= k.dead
    ensures DeadSendNothing(w, Run(k, acts))
  {
    hide LegalRun; hide Run; hide Sound;
    forall e, p | e in w.deliveries && w.deliveries[e] == Sending(Some(p)) && p in w.dead
      ensures e in Run(k, acts).deliveries && Run(k, acts).deliveries[e] != Sending(Some(p))
    {
      DeadTakeNothing(k, acts, e, p);
    }
  }

  /** With only deaths in between: what was done to the gate and the deliveries, and what it means for
      whether anything is sent, or any gate stands, at the end. */
  ghost predicate Settles(w: World, k: World) {
    && k == w.(gate := k.gate, deliveries := k.deliveries, dead := k.dead) && OnlyDeadReset(w, k)
    && (k.gate != w.gate ==> k.gate == None && w.gate.value.mode == Live && w.gate.value.owner in k.dead)
    && (forall adopt :: GateGivesWay(w, adopt) && k.gate.Some? ==> k.gate.value.mode == Held && adopt)
    && (OnlyDeadSend(w) ==> Drained(k)) && (Drained(k) && k.dead == w.dead ==> OnlyDeadSend(w))
  }

  lemma GateNow(w: World, k: World)
    requires StaleGone(w, k) && (k.gate == w.gate || k.gate == None)
    ensures forall adopt :: GateGivesWay(w, adopt) && k.gate.Some? ==> k.gate.value.mode == Held && adopt
  {}

  /** Once the dead senders' deliveries are reset nothing is being sent, if they were the only senders;
      and only if they were, counting those that died meanwhile. */
  lemma DeadSendersReset(w: World, cleared: World, k: World)
    requires cleared == w.(gate := cleared.gate, dead := cleared.dead) && w.dead <= cleared.dead
    requires OnlyDeadReset(cleared, k)
    requires forall e, p :: e in cleared.deliveries && cleared.deliveries[e] == Sending(Some(p)) && p in cleared.dead ==>
               e in k.deliveries && k.deliveries[e] != Sending(Some(p))
    ensures OnlyDeadReset(w, k)
    ensures OnlyDeadSend(w) ==> Drained(k)
    ensures Drained(k) && k.dead == w.dead ==> OnlyDeadSend(w)
  {
    if OnlyDeadSend(w) {
      forall e | e in k.deliveries ensures !k.deliveries[e].Sending? {
        if w.deliveries[e].Sending? { assert cleared.deliveries[e] == Sending(Some(w.deliveries[e].owner.value)); }
      }
    }
  }

  lemma NoStep(w: World)
    ensures Went(w, [], w) && OnlyClears([]) && OnlyDeaths([]) && ResetByMe(w, []) == 0
  {
    assert Acts([]) == [];
  }

  lemma ResetEffect(w: World, e: Event, owner: Proc)
    requires e in w.deliveries && owner in w.dead
    ensures Legal(w, Reset(e, owner, false))
    ensures Apply(w, Reset(e, owner, false))
      == if w.deliveries[e] == Sending(Some(owner)) then w.(deliveries := w.deliveries[e := Pending]) else w
    ensures Apply(w, Reset(e, owner, false)) == w <==> w.deliveries[e] != Sending(Some(owner))
  {
    if w.deliveries[e] == Sending(Some(owner)) {
      assert Apply(w, Reset(e, owner, false)).deliveries[e] == Pending;
    }
  }

  lemma AdoptEffect(w: World, g: Gate, token: Token, owner: Proc)
    requires Sound(w) && w.gate == Some(g) && g.mode == Held && g.owner in w.dead && token !in w.issued
    ensures Legal(w, Adopt(g.token, token, owner))
    ensures Apply(w, Adopt(g.token, token, owner))
      == w.(issued := w.issued[token := owner], gate := Some(Gate(token, owner, Live)))
  {}

  lemma InsertEffect(w: World, token: Token, owner: Proc)
    requires w.gate == None && token !in w.issued
    ensures Legal(w, Insert(token, owner))
    ensures Apply(w, Insert(token, owner)) == w.(issued := w.issued[token := owner], gate := Some(Gate(token, owner, Live)))
  {}

  lemma SameDrained(w: World, k: World)
    requires k.deliveries == w.deliveries
    ensures Drained(k) <==> Drained(w)
  {}

  lemma ClearIsLegal(w: World, t: Token)
    requires t in w.issued && w.issued[t] in w.dead
    ensures Legal(w, ClearStale(t)) && Legal(w, RecoverGate(t))
  {}

  lemma ClearEffect(w: World, t: Token)
    ensures Apply(w, ClearStale(t)) == Without(w, t) == Apply(w, RecoverGate(t))
  {}
}
