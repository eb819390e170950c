/** The activation check that keeps every running host adoptable: which protocols each release speaks
    and takes back, what the check compares, and every chain of updates, successes and rollbacks it
    lets through. */
module HostProtocols {
  import opened Wrappers

  /** `current` is the protocol of the hosts a release starts, if it starts any; `adoptable` the
      protocols it can take back. */
  datatype Contract = Contract(current: Option<int>, adoptable: seq<int>)

  // ---- reading a contract --------------------------------------------------------------------

  datatype Json = Null | Number(n: int) | Other

  /** A parsed contract file; `adoptable` is absent when it is not an array. */
  datatype Raw = Raw(current: Json, adoptable: Option<seq<Json>>)

  predicate ValidProtocol(v: Json) {
    v.Number? && v.n > 0
  }

  function Protocols(values: seq<Json>): seq<int>
    requires AllValid(values)
  {
    seq(|values|, i requires 0 <= i < |values| && AllValid(values) => values[i].n)
  }

  predicate AllValid(values: seq<Json>) {
    forall i :: 0 <= i < |values| ==> ValidProtocol(values[i])
  }

  /** `readContract`; `None` is its exception. */
  function ReadContract(raw: Raw): Option<Contract> {
    if raw.adoptable == None || !AllValid(raw.adoptable.value) then None
    else if raw.current == Null && raw.adoptable.value == [] then Some(Contract(None, []))
    else if !ValidProtocol(raw.current) || raw.current !in raw.adoptable.value then None
    else Some(Contract(Some(raw.current.n), Protocols(raw.adoptable.value)))
  }

  /** A release's own answer: a status, and the last line it printed, if that parses. */
  datatype Answer = Contracted(raw: Raw) | UsageError(namesCommand: bool) | Unclear

  /** `releaseHostProtocols`: a release from before the command existed is known by the exact refusal
      it gives, and speaks protocol 1 if it ships a host; anything else unknown is refused. */
  function ReleaseProtocols(exitCode: int, answer: Answer, shipsHost: bool): Option<Contract> {
    if exitCode == 0 && answer.Contracted? then
      if answer.raw.current == Null then None else ReadContract(answer.raw)
    else if exitCode == 1 && answer.UsageError? && !answer.namesCommand then
      Some(if shipsHost then Contract(Some(1), [1]) else Contract(None, []))
    else None
  }

  /** What every contract the check works with satisfies: a release takes back its own hosts. */
  ghost predicate Valid(c: Contract) {
    && (forall p :: p in c.adoptable ==> p > 0)
    && (c.current.Some? ==> c.current.value in c.adoptable)
    && (c.current == None ==> c.adoptable == [])
  }

  function Written(c: Contract): Raw {
    Raw(if c.current == None then Null else Number(c.current.value),
        Some(seq(|c.adoptable|, i requires 0 <= i < |c.adoptable| => Number(c.adoptable[i]))))
  }

  /** Exactly the valid contracts are read, each as itself; nothing else is. */
  lemma ReadsExactlyValid(raw: Raw, c: Contract)
    ensures ReadContract(raw) == Some(c) <==> Valid(c) && raw == Written(c)
  {
    if Valid(c) && raw == Written(c) {
      var values := raw.adoptable.value;
      forall i | 0 <= i < |values| ensures ValidProtocol(values[i]) {
        assert c.adoptable[i] in c.adoptable;
      }
      if c.current.Some? {
        var i :| 0 <= i < |c.adoptable| && c.adoptable[i] == c.current.value;
        assert values[i] == raw.current;
      }
      assert Protocols(values) == c.adoptable;
    }
    if ReadContract(raw) == Some(c) {
      var values := raw.adoptable.value;
      assert |values| == |c.adoptable|;
      assert values == Written(c).adoptable.value;
      if raw.current != Null || values != [] {
        var i :| 0 <= i < |values| && values[i] == raw.current;
        assert c.adoptable[i] == c.current.value;
      }
    }
  }

  lemma ReleasesAreValid(exitCode: int, answer: Answer, shipsHost: bool)
    ensures var r := ReleaseProtocols(exitCode, answer, shipsHost); r.Some? ==> Valid(r.value)
    ensures answer.Unclear? || exitCode !in {0, 1} ==> ReleaseProtocols(exitCode, answer, shipsHost) == None
    ensures answer.UsageError? ==> var r := ReleaseProtocols(exitCode, answer, shipsHost);
      && (r.Some? <==> exitCode == 1 && !answer.namesCommand)
      && (r.Some? ==> forall p :: p in r.value.adoptable <==> shipsHost && p == 1)
  {
    var r := ReleaseProtocols(exitCode, answer, shipsHost);
    if r.Some? && answer.Contracted? { ReadsExactlyValid(answer.raw, r.value); }
  }

  // ---- the check -----------------------------------------------------------------------------

  function Spoken(c: Contract): seq<int> {
    if c.current == None then [] else [c.current.value]
  }

  /** `lacking`: the needed protocols that are not adoptable, each once, in the order needed. */
  function Lacking(adoptable: seq<int>, needed: seq<int>): seq<int> {
    if needed == [] then []
    else
      var before := Lacking(adoptable, needed[..|needed| - 1]);
      var p := needed[|needed| - 1];
      if p in adoptable || p in before then before else before + [p]
  }

  lemma {:induction false} LackingExactly(adoptable: seq<int>, needed: seq<int>)
    ensures forall p :: p in Lacking(adoptable, needed) <==> p in needed && p !in adoptable
    ensures forall i, j :: 0 <= i < j < |Lacking(adoptable, needed)| ==> Lacking(adoptable, needed)[i] != Lacking(adoptable, needed)[j]
  {
    if needed != [] {
      LackingExactly(adoptable, needed[..|needed| - 1]);
      assert needed == needed[..|needed| - 1] + [needed[|needed| - 1]];
    }
  }

  /** The candidate's half: it takes back every protocol in use, and the one the running release
      may still start. */
  function CandidateLacks(inUse: seq<int>, running: Contract, candidate: Contract): seq<int> {
    Lacking(candidate.adoptable, inUse + Spoken(running))
  }

  /** The rollback's half: all of those, and the candidate's own. */
  function RollbackLacks(inUse: seq<int>, running: Contract, candidate: Contract, rollback: Contract): seq<int> {
    Lacking(rollback.adoptable, inUse + Spoken(running) + Spoken(candidate))
  }

  predicate Compatible(inUse: seq<int>, running: Contract, candidate: Contract, rollback: Option<Contract>) {
    && CandidateLacks(inUse, running, candidate) == []
    && (rollback.Some? ==> RollbackLacks(inUse, running, candidate, rollback.value) == [])
  }

  ghost predicate Adopts(c: Contract, protocols: seq<int>) {
    forall p :: p in protocols ==> p in c.adoptable
  }

  lemma CompatibleExactly(inUse: seq<int>, running: Contract, candidate: Contract, rollback: Option<Contract>)
    ensures Compatible(inUse, running, candidate, rollback) <==>
      && Adopts(candidate, inUse + Spoken(running))
      && (rollback.Some? ==> Adopts(rollback.value, inUse + Spoken(running) + Spoken(candidate)))
  {
    LacksNothing(candidate.adoptable, inUse + Spoken(running));
    if rollback.Some? { LacksNothing(rollback.value.adoptable, inUse + Spoken(running) + Spoken(candidate)); }
  }

  lemma LacksNothing(adoptable: seq<int>, needed: seq<int>)
    ensures Lacking(adoptable, needed) == [] <==> forall p :: p in needed ==> p in adoptable
  {
    LackingExactly(adoptable, needed);
    if Lacking(adoptable, needed) != [] { assert Lacking(adoptable, needed)[0] in Lacking(adoptable, needed); }
  }

  // ---- chains of activations -----------------------------------------------------------------

  /** Where an activation is: none; checked, with the old release still running and starting hosts;
      or the candidate running, with its rollback at hand until it has proved itself. */
  datatype Phase =
    | Steady
    | Checked(candidate: Contract, rollback: Option<Contract>)
    | Trying(fallback: Option<Contract>)

  /** `hosts` are the protocols of the hosts not yet released. */
  datatype World = World(running: Contract, hosts: seq<int>, phase: Phase)

  datatype Event =
    | StartHost
    | ReleaseHost(index: nat)
    | Check(candidate: Contract, rollback: Option<Contract>)
    | GiveUp
    | Switch
    | Succeed
    | RollBack

  function After(w: World, e: Event): World {
    match e
    case StartHost => w.(hosts := w.hosts + Spoken(w.running))
    case ReleaseHost(i) => if i < |w.hosts| then w.(hosts := w.hosts[..i] + w.hosts[i + 1..]) else w
    case Check(candidate, rollback) =>
      if w.phase == Steady && Compatible(w.hosts, w.running, candidate, rollback)
      then w.(phase := Checked(candidate, rollback)) else w
    case GiveUp => if w.phase.Checked? then w.(phase := Steady) else w
    case Switch => if w.phase.Checked? then w.(running := w.phase.candidate, phase := Trying(w.phase.rollback)) else w
    case Succeed => if w.phase.Trying? then w.(phase := Steady) else w
    case RollBack =>
      if w.phase.Trying? && w.phase.fallback.Some? then w.(running := w.phase.fallback.value, phase := Steady) else w
  }

  function Run(w: World, events: seq<Event>): World
    decreases |events|
  {
    if events == [] then w else Run(After(w, events[0]), events[1..])
  }

  ghost predicate ValidEvent(e: Event) {
    e.Check? ==> Valid(e.candidate) && (e.rollback.Some? ==> Valid(e.rollback.value))
  }

  /** The running release can take back every host; and so can whichever release may run next. */
  ghost predicate Safe(w: World) {
    && Valid(w.running) && Adopts(w.running, w.hosts)
    && match w.phase
       case Steady => true
       case Checked(candidate, rollback) =>
         && Valid(candidate) && Adopts(candidate, w.hosts + Spoken(w.running))
         && (rollback.Some? ==> Valid(rollback.value) && Adopts(rollback.value, w.hosts + Spoken(w.running) + Spoken(candidate)))
       case Trying(fallback) =>
         fallback.Some? ==> Valid(fallback.value) && Adopts(fallback.value, w.hosts + Spoken(w.running))
  }

  lemma StepKeepsSafe(w: World, e: Event)
    requires Safe(w) && ValidEvent(e)
    ensures Safe(After(w, e))
  {
    if e.Check? { CompatibleExactly(w.hosts, w.running, e.candidate, e.rollback); }
    hide Compatible;
    match e
    case ReleaseHost(i) =>
      if i < |w.hosts| { forall p | p in w.hosts[..i] + w.hosts[i + 1..] ensures p in w.hosts {} }
    case _ =>
  }

  /** Over every chain of accepted activations, each ending in success, rollback or not at all, with
      the old release starting hosts between the check and the switch and the candidate until a
      rollback: whichever release is running can take back every host not yet released. */
  lemma {:induction false} EveryHostAdoptable(w: World, events: seq<Event>)
    requires Safe(w) && forall e :: e in events ==> ValidEvent(e)
    ensures Safe(Run(w, events)) && Adopts(Run(w, events).running, Run(w, events).hosts)
    decreases |events|
  {
    hide After; hide ValidEvent;
    if events != [] {
      assert events[0] in events && forall e :: e in events[1..] ==> e in events;
      StepKeepsSafe(w, events[0]);
      hide Safe;
      EveryHostAdoptable(After(w, events[0]), events[1..]);
    } else {
      SafeAdopts(w);
    }
  }

  lemma SafeAdopts(w: World)
    requires Safe(w)
    ensures Adopts(w.running, w.hosts)
  {}

  /** No run from here ever leaves a host that the running release cannot take back. */
  ghost predicate NeverOrphans(w: World) {
    forall events :: (forall e :: e in events ==> ValidEvent(e)) ==> Adopts(Run(w, events).running, Run(w, events).hosts)
  }

  /** The check is exact: an activation can orphan no host if, and only if, it is accepted. */
  lemma CheckIsExact(w: World, candidate: Contract, rollback: Option<Contract>)
    requires Safe(w) && w.phase == Steady && Valid(candidate) && (rollback.Some? ==> Valid(rollback.value))
    ensures Compatible(w.hosts, w.running, candidate, rollback) <==> NeverOrphans(w.(phase := Checked(candidate, rollback)))
  {
    var start := w.(phase := Checked(candidate, rollback));
    CompatibleExactly(w.hosts, w.running, candidate, rollback);
    if Compatible(w.hosts, w.running, candidate, rollback) {
      forall events | forall e :: e in events ==> ValidEvent(e)
        ensures Adopts(Run(start, events).running, Run(start, events).hosts)
      {
        EveryHostAdoptable(start, events);
      }
    } else {
      var events := OrphaningRun(w, candidate, rollback);
      assert !Adopts(Run(start, events).running, Run(start, events).hosts);
    }
  }

  /** What a refused activation could do: start a host before the switch, or one of the candidate's
      own before a rollback, that the release then running cannot take back. */
  lemma OrphaningRun(w: World, candidate: Contract, rollback: Option<Contract>) returns (events: seq<Event>)
    requires !Adopts(candidate, w.hosts + Spoken(w.running))
      || (rollback.Some? && !Adopts(rollback.value, w.hosts + Spoken(w.running) + Spoken(candidate)))
    ensures forall e :: e in events ==> ValidEvent(e)
    ensures var k := Run(w.(phase := Checked(candidate, rollback)), events); !Adopts(k.running, k.hosts)
  {
    var start := w.(phase := Checked(candidate, rollback));
    var started := After(start, StartHost);
    var trying := After(started, Switch);
    if !Adopts(candidate, w.hosts + Spoken(w.running)) {
      events := [StartHost, Switch];
      assert events[1..] == [Switch] && [Switch][1..] == [];
      assert Run(start, events) == Run(started, [Switch]) == Run(trying, []);
    } else {
      var used := After(trying, StartHost);
      events := [StartHost, Switch, StartHost, RollBack];
      assert events[1..] == [Switch, StartHost, RollBack] && events[1..][1..] == [StartHost, RollBack];
      assert [StartHost, RollBack][1..] == [RollBack] && [RollBack][1..] == [];
      assert Run(start, events) == Run(started, [Switch, StartHost, RollBack]) == Run(trying, [StartHost, RollBack]);
      assert Run(trying, [StartHost, RollBack]) == Run(used, [RollBack]) == Run(After(used, RollBack), []);
    }
  }

  // ---- the lint rule that makes the candidate's half automatic -------------------------------

  function Max(values: seq<int>): (m: int)
    requires values != []
    ensures m in values && forall v :: v in values ==> v <= m
  {
    if |values| == 1 then values[0]
    else
      var rest := Max(values[1..]);
      assert values == [values[0]] + values[1..];
      if values[0] >= rest then values[0] else rest
  }

  /** The newest protocol a contract names. */
  function Newest(c: Contract): int {
    if c.adoptable + Spoken(c) == [] then 0 else Max(c.adoptable + Spoken(c))
  }

  /** The lint rule: every protocol from 1 to the newest is adoptable. */
  ghost predicate GapFree(c: Contract) {
    forall p :: 1 <= p <= Newest(c) ==> p in c.adoptable
  }

  lemma WithinNewest(c: Contract, p: int)
    requires Valid(c) && p in c.adoptable
    ensures 1 <= p <= Newest(c)
  {
    assert p in c.adoptable + Spoken(c);
  }

  /** A candidate that keeps every protocol without a gap, and is no older than the running release,
      always passes its half, whatever hosts are running at the end of whatever chain. */
  lemma GapFreeCandidatePasses(w: World, candidate: Contract)
    requires Safe(w) && Valid(candidate) && GapFree(candidate) && Newest(candidate) >= Newest(w.running)
    ensures CandidateLacks(w.hosts, w.running, candidate) == []
  {
    LacksNothing(candidate.adoptable, w.hosts + Spoken(w.running));
    forall p | p in w.hosts + Spoken(w.running) ensures p in candidate.adoptable {
      WithinNewest(w.running, p);
    }
  }

  /** The rollback's half then depends on one thing: that the candidate's own hosts are not newer
      than anything the rollback release knows. */
  lemma GapFreeRollbackPasses(w: World, candidate: Contract, rollback: Contract)
    requires Safe(w) && Valid(candidate) && candidate.current.Some?
    requires Valid(rollback) && GapFree(rollback) && Newest(rollback) >= Newest(w.running)
    ensures RollbackLacks(w.hosts, w.running, candidate, rollback) == [] <==> candidate.current.value <= Newest(rollback)
  {
    var needed := w.hosts + Spoken(w.running) + Spoken(candidate);
    LacksNothing(rollback.adoptable, needed);
    forall p | p in w.hosts + Spoken(w.running) ensures p in rollback.adoptable {
      WithinNewest(w.running, p);
    }
    assert candidate.current.value in needed;
    if candidate.current.value in rollback.adoptable { WithinNewest(rollback, candidate.current.value); }
    WithinNewest(candidate, candidate.current.value);
  }
}
