/** A drain gate: one row that many short-lived processes claim, hold, clear and release, and the
    deliveries it stops. Every SQL statement is one act; a run interleaves the acts of all processes
    in any order, with processes dying in between. */
module DrainGate {
  import opened Wrappers

  type Proc = nat
  type Token = nat
  type Event = nat

  datatype Mode = Live | Held

  datatype Gate = Gate(token: Token, owner: Proc, mode: Mode)

  /** A delivery's status. A `sending` row written before owners were recorded has none. */
  datatype Delivery = Pending | Sending(owner: Option<Proc>) | Delivered | Parked

  /** `dead` are the process identities that have ended, for good; `issued` is the history of every
      token generated so far and the process it was generated for. */
  datatype World = World(gate: Option<Gate>, deliveries: map<Event, Delivery>, dead: set<Proc>, issued: map<Token, Proc>)

  datatype Act =
    | Dies(proc: Proc)
    | ClearStale(token: Token)
    | RecoverGate(token: Token)
    | Release(token: Token)
    | ReleaseLive(token: Token)
    | Hold(token: Token)
    | Insert(token: Token, owner: Proc)
    | Adopt(prior: Token, token: Token, owner: Proc)
    | Reset(event: Event, owner: Proc, park: bool)
    | Take(event: Event, owner: Proc)
    | Settle(event: Event, owner: Proc, outcome: Delivery)
    | Record(event: Event)

  function Without(w: World, token: Token): World {
    if w.gate.Some? && w.gate.value.token == token then w.(gate := None) else w
  }

  /** What each statement does to the database; a condition in its WHERE clause that fails, or a
      conflict it ignores, makes it do nothing. */
  function Apply(w: World, a: Act): World {
    match a
    case Dies(p) => w.(dead := w.dead + {p})
    case ClearStale(t) => Without(w, t)
    case RecoverGate(t) => Without(w, t)
    case Release(t) => Without(w, t)
    case ReleaseLive(t) => if w.gate.Some? && w.gate.value.mode == Live then Without(w, t) else w
    case Hold(t) =>
      if w.gate.Some? && w.gate.value.token == t then w.(gate := Some(w.gate.value.(mode := Held))) else w
    case Insert(t, owner) =>
      w.(issued := w.issued[t := owner], gate := if w.gate == None then Some(Gate(t, owner, Live)) else w.gate)
    case Adopt(prior, t, owner) =>
      w.(issued := w.issued[t := owner],
         gate := if w.gate.Some? && w.gate.value.token == prior && w.gate.value.mode == Held
                 then Some(Gate(t, owner, Live)) else w.gate)
    case Reset(e, owner, park) =>
      if e in w.deliveries && w.deliveries[e] == Sending(Some(owner)) then
        w.(deliveries := w.deliveries[e := if park then Parked else Pending])
      else w
    case Take(e, owner) =>
      if e in w.deliveries && w.deliveries[e] == Pending && w.gate == None then
        w.(deliveries := w.deliveries[e := Sending(Some(owner))])
      else w
    case Settle(e, owner, outcome) =>
      if e in w.deliveries && w.deliveries[e] == Sending(Some(owner)) then w.(deliveries := w.deliveries[e := outcome])
      else w
    case Record(e) => if e in w.deliveries then w else w.(deliveries := w.deliveries[e := Pending])
  }

  /** When a process may issue a statement: it deletes another's gate, resets another's delivery or
      adopts a gate only after it saw their owner dead, generates only new tokens, and takes and
      settles deliveries only while it lives. */
  predicate Legal(w: World, a: Act) {
    match a
    case ClearStale(t) => t in w.issued && w.issued[t] in w.dead
    case RecoverGate(t) => t in w.issued && w.issued[t] in w.dead
    case Insert(t, _) => t !in w.issued
    case Adopt(prior, t, _) => t !in w.issued && prior in w.issued && w.issued[prior] in w.dead
    case Reset(_, owner, _) => owner in w.dead
    case Take(_, owner) => owner !in w.dead
    case Settle(_, owner, outcome) => owner !in w.dead && !outcome.Sending?
    case _ => true
  }

  function Run(w: World, acts: seq<Act>): World
    decreases |acts|
  {
    if acts == [] then w else Run(Apply(w, acts[0]), acts[1..])
  }

  predicate LegalRun(w: World, acts: seq<Act>)
    decreases |acts|
  {
    acts != [] ==> Legal(w, acts[0]) && LegalRun(Apply(w, acts[0]), acts[1..])
  }

  /** The gate's row names the process its token was generated for. */
  ghost predicate Sound(w: World) {
    w.gate.Some? ==> w.gate.value.token in w.issued && w.issued[w.gate.value.token] == w.gate.value.owner
  }

  lemma {:induction false} RunJoin(w: World, a: seq<Act>, b: seq<Act>)
    ensures Run(w, a + b) == Run(Run(w, a), b)
    ensures LegalRun(w, a + b) <==> LegalRun(w, a) && LegalRun(Run(w, a), b)
    decreases |a|
  {
    if a == [] {
      assert a + b == b;
    } else {
      RunJoin(Apply(w, a[0]), a[1..], b);
      assert (a + b)[1..] == a[1..] + b && (a + b)[0] == a[0];
    }
  }

  // ---- tokens and gates ----------------------------------------------------------------------

  lemma ActKeepsTokens(w: World, a: Act)
    requires Legal(w, a) && Sound(w)
    ensures Sound(Apply(w, a)) && w.dead <= Apply(w, a).dead
    ensures forall t :: t in w.issued ==> t in Apply(w, a).issued && Apply(w, a).issued[t] == w.issued[t]
  {}

  /** A token never changes owner, and nobody comes back to life. */
  lemma {:induction false} TokensKeepTheirOwner(w: World, acts: seq<Act>)
    requires LegalRun(w, acts) && Sound(w)
    ensures Sound(Run(w, acts)) && w.dead <= Run(w, acts).dead
    ensures forall t :: t in w.issued ==> t in Run(w, acts).issued && Run(w, acts).issued[t] == w.issued[t]
    decreases |acts|
  {
    hide Apply; hide Legal; hide Sound;
    if acts != [] {
      ActKeepsTokens(w, acts[0]);
      TokensKeepTheirOwner(Apply(w, acts[0]), acts[1..]);
    }
  }

  /** A gate whose owner lives is removed or replaced only by a command given its exact token,
      whatever the interleaving: clearing and recovery that read an older row cannot touch it. */
  lemma {:induction false} LiveGateNeedsItsToken(w: World, acts: seq<Act>)
    requires LegalRun(w, acts) && Sound(w) && w.gate.Some?
    requires w.gate.value.owner !in Run(w, acts).dead
    requires forall a :: a in acts ==> a != Release(w.gate.value.token) && a != ReleaseLive(w.gate.value.token)
    ensures var k := Run(w, acts); k.gate.Some? && k.gate.value.token == w.gate.value.token && k.gate.value.owner == w.gate.value.owner
    ensures Run(w, acts).gate == w.gate || Hold(w.gate.value.token) in acts
    decreases |acts|
  {
    if acts != [] {
      var next := Apply(w, acts[0]);
      ActKeepsTokens(w, acts[0]);
      TokensKeepTheirOwner(next, acts[1..]);
      assert acts[0] in acts;
      LiveGateStep(w, acts[0]);
      hide Apply; hide Legal; hide Sound;
      assert forall a :: a in acts[1..] ==> a in acts;
      LiveGateNeedsItsToken(next, acts[1..]);
    }
  }

  lemma LiveGateStep(w: World, a: Act)
    requires Legal(w, a) && Sound(w) && w.gate.Some? && w.gate.value.owner !in Apply(w, a).dead
    requires a != Release(w.gate.value.token) && a != ReleaseLive(w.gate.value.token)
    ensures var k := Apply(w, a); k.gate.Some? && k.gate.value.token == w.gate.value.token && k.gate.value.owner == w.gate.value.owner
    ensures Apply(w, a).gate == w.gate || a == Hold(w.gate.value.token)
  {}

  /** The acts that can end a held gate: recovery and adoption, each after its owner was seen dead;
      release with its token; and the deletion of a stale gate, issued by someone who had read this
      row before it was held. */
  predicate Ends(a: Act, token: Token) {
    a == RecoverGate(token) || a == Release(token) || (a.Adopt? && a.prior == token) || a == ClearStale(token)
  }

  /** Exactly those acts end a held gate; everything else leaves the row as it is. */
  lemma HeldGateEndsExactly(w: World, a: Act)
    requires Legal(w, a) && Sound(w) && w.gate.Some? && w.gate.value.mode == Held
    ensures Apply(w, a).gate == w.gate <==> !Ends(a, w.gate.value.token)
    ensures Ends(a, w.gate.value.token) && !a.Release? ==> w.gate.value.owner in w.dead
  {}

  /** A command's reading of the row and its deletion are one step: no stale deletion meets a gate
      that is held by then. */
  predicate AtomicCommands(w: World, acts: seq<Act>)
    decreases |acts|
  {
    acts != [] ==>
      && (acts[0].ClearStale? && w.gate.Some? && w.gate.value.token == acts[0].token ==> w.gate.value.mode == Live)
      && AtomicCommands(Apply(w, acts[0]), acts[1..])
  }

  /** This gate is in place at every point of the run. */
  predicate Stands(w: World, acts: seq<Act>, g: Gate)
    decreases |acts|
  {
    w.gate == Some(g) && (acts != [] ==> Stands(Apply(w, acts[0]), acts[1..], g))
  }

  /** A run without recovery, adoption or release of a held gate leaves it in place throughout exactly
      when no stale deletion meets it, that is, when its commands are atomic. */
  lemma {:induction false} HeldGateStandsExactly(w: World, acts: seq<Act>)
    requires LegalRun(w, acts) && Sound(w) && w.gate.Some? && w.gate.value.mode == Held
    requires var t := w.gate.value.token;
      forall a :: a in acts ==> a != RecoverGate(t) && a != Release(t) && (a.Adopt? ==> a.prior != t)
    ensures Stands(w, acts, w.gate.value) <==> AtomicCommands(w, acts)
    decreases |acts|
  {
    if acts != [] {
      var next := Apply(w, acts[0]);
      assert acts[0] in acts;
      ActKeepsTokens(w, acts[0]);
      HeldGateEndsExactly(w, acts[0]);
      hide Apply; hide Legal; hide Sound;
      assert forall a :: a in acts[1..] ==> a in acts;
      if next.gate == w.gate { HeldGateStandsExactly(next, acts[1..]); }
    }
  }

  lemma {:induction false} StandsToTheEnd(w: World, acts: seq<Act>, g: Gate)
    requires Stands(w, acts, g)
    ensures Run(w, acts).gate == Some(g)
    decreases |acts|
  {
    if acts != [] { StandsToTheEnd(Apply(w, acts[0]), acts[1..], g); }
  }

  /** So with commands as atomic steps a held gate outlives its owner: any run of checks, live releases,
      ordinary claims, deliveries and deaths leaves it in place. Only recovery, its own token, or an
      adopting claim ends it. */
  lemma HeldGateEndures(w: World, acts: seq<Act>)
    requires LegalRun(w, acts) && Sound(w) && AtomicCommands(w, acts) && w.gate.Some? && w.gate.value.mode == Held
    requires var t := w.gate.value.token;
      forall a :: a in acts ==> a != RecoverGate(t) && a != Release(t) && (a.Adopt? ==> a.prior != t)
    ensures Run(w, acts).gate == w.gate
  {
    HeldGateStandsExactly(w, acts);
    StandsToTheEnd(w, acts, w.gate.value);
  }

  /** Without atomic commands it does not: a process reads a live gate whose owner has died, another
      command holds the gate, and the first one's deletion, by token alone, removes the held gate. */
  lemma HeldGateCanBeLost(t: Token, owner: Proc)
    ensures var w, acts := World(Some(Gate(t, owner, Live)), map[], {owner}, map[t := owner]), [Hold(t), ClearStale(t)];
      && LegalRun(w, acts) && !AtomicCommands(w, acts)
      && Run(w, acts[..1]).gate == Some(Gate(t, owner, Held)) && Run(w, acts).gate == None
  {
    var w, acts := World(Some(Gate(t, owner, Live)), map[], {owner}, map[t := owner]), [Hold(t), ClearStale(t)];
    var mid := Apply(w, Hold(t));
    assert acts[1..] == [ClearStale(t)] && acts[1..][1..] == [] && acts[..1] == [Hold(t)] && acts[..1][1..] == [];
    assert Run(w, acts) == Run(mid, [ClearStale(t)]) == Run(Apply(mid, ClearStale(t)), []);
  }

  // ---- deliveries ----------------------------------------------------------------------------

  /** A delivery leaves its recorded owner's hands only when that owner settles it, or once that owner
      is dead: no reset ever touches a delivery a living owner has, even one taken again meanwhile. */
  lemma {:induction false} LiveOwnerKeepsItsDelivery(w: World, acts: seq<Act>, e: Event, owner: Proc)
    requires LegalRun(w, acts) && Sound(w)
    requires e in w.deliveries && w.deliveries[e] == Sending(Some(owner)) && owner !in Run(w, acts).dead
    requires forall a :: a in acts ==> !(a.Settle? && a.event == e && a.owner == owner)
    ensures e in Run(w, acts).deliveries && Run(w, acts).deliveries[e] == Sending(Some(owner))
    decreases |acts|
  {
    if acts != [] {
      TokensKeepTheirOwner(Apply(w, acts[0]), acts[1..]);
      ActKeepsTokens(w, acts[0]);
      LiveOwnerKeepsItsDelivery(Apply(w, acts[0]), acts[1..], e, owner);
    }
  }

  /** No event is lost, and a delivered one is never sent again. */
  lemma {:induction false} NoEventLost(w: World, acts: seq<Act>)
    requires LegalRun(w, acts)
    ensures w.deliveries.Keys <= Run(w, acts).deliveries.Keys
    ensures forall e :: e in w.deliveries && w.deliveries[e] == Delivered ==> Run(w, acts).deliveries[e] == Delivered
    decreases |acts|
  {
    if acts != [] {
      EventKept(w, acts[0]);
      hide Apply; hide Legal;
      NoEventLost(Apply(w, acts[0]), acts[1..]);
    }
  }

  lemma EventKept(w: World, a: Act)
    ensures w.deliveries.Keys <= Apply(w, a).deliveries.Keys
    ensures forall e :: e in w.deliveries && w.deliveries[e] == Delivered ==> Apply(w, a).deliveries[e] == Delivered
  {}

  /** How often an event is taken into `sending` in a run. */
  function Takes(w: World, acts: seq<Act>, e: Event): nat
    decreases |acts|
  {
    if acts == [] then 0
    else
      (if acts[0].Take? && acts[0].event == e && Apply(w, acts[0]) != w then 1 else 0) + Takes(Apply(w, acts[0]), acts[1..], e)
  }

  /** How often an event leaves `sending` in a run. */
  function Leaves(w: World, acts: seq<Act>, e: Event): nat
    decreases |acts|
  {
    if acts == [] then 0
    else
      (if (acts[0].Reset? || acts[0].Settle?) && acts[0].event == e && Apply(w, acts[0]) != w then 1 else 0)
      + Leaves(Apply(w, acts[0]), acts[1..], e)
  }

  function InFlight(w: World, e: Event): nat {
    if e in w.deliveries && w.deliveries[e].Sending? then 1 else 0
  }

  /** One attempt at a time: every taking of an event is matched by one settling or reset before the
      next, so no two processes ever have the same event in hand. */
  lemma {:induction false} AttemptsAlternate(w: World, acts: seq<Act>, e: Event)
    requires LegalRun(w, acts)
    ensures InFlight(w, e) + Takes(w, acts, e) == InFlight(Run(w, acts), e) + Leaves(w, acts, e)
    decreases |acts|
  {
    if acts != [] {
      AttemptStep(w, acts[0], e);
      hide Apply; hide Legal; hide InFlight;
      AttemptsAlternate(Apply(w, acts[0]), acts[1..], e);
    }
  }

  lemma AttemptStep(w: World, a: Act, e: Event)
    requires Legal(w, a)
    ensures InFlight(Apply(w, a), e) == InFlight(w, e)
      + (if a.Take? && a.event == e && Apply(w, a) != w then 1 else 0)
      - (if (a.Reset? || a.Settle?) && a.event == e && Apply(w, a) != w then 1 else 0)
  {}

  predicate Drained(w: World) {
    forall e :: e in w.deliveries ==> !w.deliveries[e].Sending?
  }

  /** A gate stays at every point of the run. */
  predicate Gated(w: World, acts: seq<Act>)
    decreases |acts|
  {
    w.gate.Some? && (acts != [] ==> Gated(Apply(w, acts[0]), acts[1..]))
  }

  /** Once drained under a gate, nothing is sent for as long as a gate stands. */
  lemma {:induction false} DrainedWhileGated(w: World, acts: seq<Act>)
    requires LegalRun(w, acts) && Drained(w) && Gated(w, acts)
    ensures Drained(Run(w, acts))
    decreases |acts|
  {
    if acts != [] {
      DrainedWhileGated(Apply(w, acts[0]), acts[1..]);
    }
  }

  // ---- what can still be delivered -----------------------------------------------------------

  /** Set aside for good, or being sent by nobody on record. */
  predicate Stuck(w: World, e: Event) {
    e in w.deliveries && (w.deliveries[e] == Parked || w.deliveries[e] == Sending(None))
  }

  lemma {:induction false} StuckStays(w: World, acts: seq<Act>, e: Event)
    requires Stuck(w, e)
    ensures Stuck(Run(w, acts), e)
    decreases |acts|
  {
    if acts != [] {
      StuckStep(w, acts[0], e);
      hide Apply; hide Stuck;
      StuckStays(Apply(w, acts[0]), acts[1..], e);
    }
  }

  lemma StuckStep(w: World, a: Act, e: Event)
    requires Stuck(w, e)
    ensures Stuck(Apply(w, a), e)
  {}

  lemma {:induction false} Living(dead: set<Proc>) returns (p: Proc)
    ensures p !in dead && forall q :: q in dead ==> q < p
    decreases |dead|
  {
    if dead == {} {
      p := 0;
    } else {
      var q :| q in dead;
      var r := Living(dead - {q});
      p := if q < r then r else q + 1;
      assert forall x :: x in dead ==> x == q || x in dead - {q};
    }
  }

  /** The next act of one run that delivers the event, and whether it is the last. */
  function NextAct(w: World, e: Event, living: Proc): Act
    requires !Stuck(w, e)
  {
    if e !in w.deliveries then Record(e)
    else
      match w.deliveries[e]
      case Pending => if w.gate.Some? then Release(w.gate.value.token) else Take(e, living)
      case Sending(q) => if q.value in w.dead then Reset(e, q.value, false) else Settle(e, q.value, Delivered)
      case _ => Record(e)
  }

  /** How far from delivered the event is. */
  function Distance(w: World, e: Event): nat {
    if e !in w.deliveries then 6
    else
      match w.deliveries[e]
      case Pending => if w.gate.Some? then 3 else 2
      case Sending(q) => if q.Some? && q.value in w.dead then 5 else 1
      case _ => 0
  }

  lemma NextActNearer(w: World, e: Event, living: Proc)
    requires !Stuck(w, e) && living !in w.dead && Distance(w, e) > 0
    ensures Legal(w, NextAct(w, e, living)) && !Stuck(Apply(w, NextAct(w, e, living)), e)
    ensures Distance(Apply(w, NextAct(w, e, living)), e) < Distance(w, e)
    ensures Apply(w, NextAct(w, e, living)).dead == w.dead
  {
    var k := Apply(w, NextAct(w, e, living));
    if e in w.deliveries && w.deliveries[e].Sending? {
      assert w.deliveries[e] == Sending(Some(w.deliveries[e].owner.value));
      assert k.deliveries[e] == if w.deliveries[e].owner.value in w.dead then Pending else Delivered;
    } else if e in w.deliveries {
      assert w.deliveries[e] == Pending;
      assert w.gate == None ==> k.deliveries[e] == Sending(Some(living));
    }
  }

  lemma {:induction false} DeliveringRun(w: World, e: Event, living: Proc) returns (acts: seq<Act>)
    requires !Stuck(w, e) && living !in w.dead
    ensures LegalRun(w, acts) && e in Run(w, acts).deliveries && Run(w, acts).deliveries[e] == Delivered
    decreases Distance(w, e)
  {
    if Distance(w, e) == 0 {
      acts := [];
    } else {
      var a := NextAct(w, e, living);
      NextActNearer(w, e, living);
      hide Apply; hide Legal; hide Stuck; hide Distance; hide NextAct;
      var rest := DeliveringRun(Apply(w, a), e, living);
      acts := [a] + rest;
      assert acts[1..] == rest;
    }
  }

  /** An event can still be delivered, whatever happened to it and whoever died, exactly when it is
      neither parked nor marked as being sent by nobody on record. */
  lemma DeliverableExactly(w: World, e: Event)
    ensures !Stuck(w, e) <==>
      exists acts :: LegalRun(w, acts) && e in Run(w, acts).deliveries && Run(w, acts).deliveries[e] == Delivered
  {
    if Stuck(w, e) {
      forall acts ensures Stuck(Run(w, acts), e) { StuckStays(w, acts, e); }
    } else {
      var living := Living(w.dead);
      var acts := DeliveringRun(w, e, living);
    }
  }
}
