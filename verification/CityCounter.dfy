/**
 * The counter of cities attached to each administrative node, kept from events, against the cities' real
 * attachments (src/referential/application/use-cases/ville.use-cases.ts,
 * src/referential-engine/infrastructure/messaging/ville-rattachee-consumer.service.ts,
 * src/referential-engine/infrastructure/persistence/typeorm/orm-repositories.ts).
 */
module CityCounter {
  import opened Prelude

  datatype Event = Created(noeud: Option<string>) | Moved(ancien: Option<string>, nouveau: Option<string>)

  // ------------------------------------------------------------------------------------ cities and events

  /** Each city's node, and the events published so far, oldest first. */
  datatype World = World(villes: map<string, Option<string>>, published: seq<Event>)

  datatype VilleError = PaysNotFound | NotFound | UnpublishedNode | Refused

  /** Whether the country exists and the node is published is asked elsewhere; the database refuses an empty identifier. */
  datatype Command =
    | Create(id: string, paysExists: bool, noeud: Option<string>, valide: bool)
    | Move(id: string, nouveau: Option<string>, valide: bool)

  function Effect(w: World, c: Command): Result<World, VilleError> {
    match c
    case Create(id, paysExists, noeud, valide) =>
      if !paysExists then Err(PaysNotFound)
      else if noeud == Some("") then Err(Refused)
      else if noeud.Some? && !valide then Err(UnpublishedNode)
      else Ok(World(w.villes[id := noeud], w.published + [Created(noeud)]))
    case Move(id, nouveau, valide) =>
      if id !in w.villes then Err(NotFound)
      else if nouveau == Some("") then Err(Refused)
      else if nouveau.Some? && !valide then Err(UnpublishedNode)
      else Ok(World(w.villes[id := nouveau], w.published + [Moved(w.villes[id], nouveau)]))
  }

  /** A creation brings a new identifier. */
  function Next(w: World, c: Command): World {
    if c.Create? && c.id in w.villes then w
    else if Effect(w, c).Ok? then Effect(w, c).value else w
  }

  function Run(commands: seq<Command>): World {
    if commands == [] then World(map[], [])
    else Next(Run(commands[..|commands| - 1]), commands[|commands| - 1])
  }

  /** A command is accepted exactly under a published node or none; the city and its event then tell the same story. */
  lemma CommandOutcome(w: World, c: Command)
    ensures c.Create? && c.id !in w.villes ==>
              var r := Effect(w, c);
              && (r.Ok? <==> c.paysExists && (c.noeud.None? || (c.noeud.value != "" && c.valide)))
              && Next(w, c) == (if r.Ok? then World(w.villes[c.id := c.noeud], w.published + [Created(c.noeud)]) else w)
              && (!c.paysExists ==> r == Err(PaysNotFound))
              && (c.paysExists && r.Err? ==> r == Err(if c.noeud == Some("") then Refused else UnpublishedNode))
    ensures c.Move? ==>
              var r := Effect(w, c);
              && (r.Ok? <==> c.id in w.villes && (c.nouveau.None? || (c.nouveau.value != "" && c.valide)))
              && Next(w, c) == (if r.Ok? then World(w.villes[c.id := c.nouveau], w.published + [Moved(w.villes[c.id], c.nouveau)]) else w)
              && (c.id !in w.villes ==> r == Err(NotFound))
              && (c.id in w.villes && r.Err? ==> r == Err(if c.nouveau == Some("") then Refused else UnpublishedNode))
  {
  }

  function CitiesOf(villes: map<string, Option<string>>, n: string): set<string> {
    set v | v in villes && villes[v] == Some(n)
  }

  /** The real number of cities attached to a node. */
  function Attached(villes: map<string, Option<string>>, n: string): nat {
    |CitiesOf(villes, n)|
  }

  // --------------------------------------------------------------------------------------------- counters

  datatype Op = Incr(n: string) | Decr(n: string)

  /** `getCompte`. */
  function Compte(c: map<string, nat>, n: string): nat {
    if n in c then c[n] else 0
  }

  /** The two upserts. */
  function ApplyOp(c: map<string, nat>, op: Op): map<string, nat> {
    match op
    case Incr(n) => if n in c then c[n := c[n] + 1] else c[n := 1]
    case Decr(n) => if n in c then c[n := if c[n] >= 1 then c[n] - 1 else 0] else c[n := 0]
  }

  function ApplyAll(c: map<string, nat>, ops: seq<Op>): map<string, nat> {
    if ops == [] then c else ApplyOp(ApplyAll(c, ops[..|ops| - 1]), ops[|ops| - 1])
  }

  /** What the consumer does for one event: the old node first. */
  function OpsOf(e: Event): seq<Op> {
    match e
    case Created(noeud) => IncrOf(noeud)
    case Moved(ancien, nouveau) => DecrOf(ancien) + IncrOf(nouveau)
  }

  function IncrOf(n: Option<string>): seq<Op> {
    if n.Some? && n.value != "" then [Incr(n.value)] else []
  }

  function DecrOf(n: Option<string>): seq<Op> {
    if n.Some? && n.value != "" then [Decr(n.value)] else []
  }

  function OpsOfAll(events: seq<Event>): seq<Op> {
    if events == [] then [] else OpsOfAll(events[..|events| - 1]) + OpsOf(events[|events| - 1])
  }

  /** Increments less decrements: does not depend on their order. */
  function Net(ops: multiset<Op>, n: string): int {
    ops[Incr(n)] as int - ops[Decr(n)] as int
  }

  /** A decrement of a counter that is not positive. */
  predicate Clamps(c: map<string, nat>, ops: seq<Op>) {
    exists i :: 0 <= i < |ops| && ops[i].Decr? && Compte(ApplyAll(c, ops[..i]), ops[i].n) == 0
  }

  // ---------------------------------------------------------------------------------------- real attachments

  lemma AttachedMoves(villes: map<string, Option<string>>, id: string, to: Option<string>, n: string)
    ensures Attached(villes[id := to], n) == Attached(villes, n)
            - (if id in villes && villes[id] == Some(n) then 1 else 0) + (if to == Some(n) then 1 else 0)
  {
    var before, after := CitiesOf(villes, n), CitiesOf(villes[id := to], n);
    if to == Some(n) {
      assert after == (before - {id}) + {id};
    } else {
      assert after == before - {id};
    }
    assert id in before <==> id in villes && villes[id] == Some(n);
    hide CitiesOf;
    if id !in before { assert before - {id} == before; }
  }

  ghost predicate Tracked(w: World) {
    && (forall id :: id in w.villes ==> w.villes[id] != Some(""))
    && (forall n :: Attached(w.villes, n) == Net(multiset(OpsOfAll(w.published)), n))
  }

  lemma PublishOne(events: seq<Event>, e: Event)
    ensures OpsOfAll(events + [e]) == OpsOfAll(events) + OpsOf(e)
  {
    assert (events + [e])[..|events|] == events;
  }

  lemma OpsNet(ancien: Option<string>, nouveau: Option<string>, n: string)
    requires ancien != Some("") && nouveau != Some("")
    ensures Net(multiset(OpsOf(Moved(ancien, nouveau))), n) ==
            (if nouveau == Some(n) then 1 else 0) - (if ancien == Some(n) then 1 else 0)
    ensures Net(multiset(OpsOf(Created(nouveau))), n) == if nouveau == Some(n) then 1 else 0
  {
  }

  /** Where a command puts its city, and the event that says so. */
  function Target(c: Command): Option<string> {
    if c.Create? then c.noeud else c.nouveau
  }

  function Told(w: World, c: Command): Event {
    if c.Create? then Created(c.noeud) else Moved(if c.id in w.villes then w.villes[c.id] else None, c.nouveau)
  }

  lemma NextTells(w: World, c: Command)
    ensures Next(w, c) == w
            || (Next(w, c) == World(w.villes[c.id := Target(c)], w.published + [Told(w, c)])
                && Target(c) != Some("") && (c.Create? <==> c.id !in w.villes))
  {
  }

  lemma PublicationTracks(w: World, c: Command, n: string)
    requires Tracked(w) && Target(c) != Some("") && (c.Create? <==> c.id !in w.villes)
    ensures Attached(w.villes[c.id := Target(c)], n) ==
            Net(multiset(OpsOfAll(w.published)) + multiset(OpsOf(Told(w, c))), n)
  {
    hide OpsOfAll;
    AttachedMoves(w.villes, c.id, Target(c), n);
    OpsNet(if c.id in w.villes then w.villes[c.id] else None, Target(c), n);
    hide OpsOf;
    hide Attached;
  }

  lemma NextTracked(w: World, c: Command)
    requires Tracked(w)
    ensures Tracked(Next(w, c))
  {
    NextTells(w, c);
    hide Next;
    if Next(w, c) != w {
      PublishOne(w.published, Told(w, c));
      hide OpsOf;
      hide OpsOfAll;
      hide Net;
      hide Attached;
      hide Told;
      var before, added := OpsOfAll(w.published), OpsOf(Told(w, c));
      assert multiset(before + added) == multiset(before) + multiset(added);
      forall n ensures Attached(w.villes[c.id := Target(c)], n) == Net(multiset(before + added), n) {
        PublicationTracks(w, c, n);
      }
    }
  }

  lemma {:induction false} RunTracked(commands: seq<Command>)
    ensures Tracked(Run(commands))
  {
    if commands == [] {
      forall n ensures Attached(map[], n) == 0 {
        assert CitiesOf(map[], n) == {};
      }
    } else {
      RunTracked(commands[..|commands| - 1]);
      NextTracked(Run(commands[..|commands| - 1]), commands[|commands| - 1]);
    }
  }

  // ---------------------------------------------------------------------------------------------- soundness

  /** How many decrements of n find its counter at zero. */
  function Clamped(c: map<string, nat>, ops: seq<Op>, n: string): nat {
    if ops == [] then 0
    else
      var k := |ops| - 1;
      Clamped(c, ops[..k], n) + if ops[k] == Decr(n) && Compte(ApplyAll(c, ops[..k]), n) == 0 then 1 else 0
  }

  /** Each clamped decrement leaves the counter one too high, and nothing else does. */
  lemma {:induction false} CompteIsNetPlusClamped(c: map<string, nat>, ops: seq<Op>, n: string)
    ensures Compte(ApplyAll(c, ops), n) == Compte(c, n) + Net(multiset(ops), n) + Clamped(c, ops, n)
  {
    if ops != [] {
      var k := |ops| - 1;
      CompteIsNetPlusClamped(c, ops[..k], n);
      assert ops == ops[..k] + [ops[k]];
      assert multiset(ops) == multiset(ops[..k]) + multiset{ops[k]};
    }
  }

  lemma {:induction false} ClampedIsCounted(c: map<string, nat>, ops: seq<Op>, i: nat)
    requires i < |ops| && ops[i].Decr? && Compte(ApplyAll(c, ops[..i]), ops[i].n) == 0
    ensures Clamped(c, ops, ops[i].n) > 0
  {
    hide ApplyAll;
    var k := |ops| - 1;
    if i < k {
      assert ops[..k][..i] == ops[..i];
      ClampedIsCounted(c, ops[..k], i);
    }
  }

  lemma {:induction false} CountedIsClamped(c: map<string, nat>, ops: seq<Op>, n: string)
    requires Clamped(c, ops, n) > 0
    ensures Clamps(c, ops)
  {
    hide ApplyAll;
    var k := |ops| - 1;
    if ops[k] == Decr(n) && Compte(ApplyAll(c, ops[..k]), n) == 0 {
      assert ops[k].Decr? && Compte(ApplyAll(c, ops[..k]), ops[k].n) == 0;
    } else {
      CountedIsClamped(c, ops[..k], n);
      var i :| 0 <= i < k && ops[..k][i].Decr? && Compte(ApplyAll(c, ops[..k][..i]), ops[..k][i].n) == 0;
      assert ops[..k][..i] == ops[..i] && ops[..k][i] == ops[i];
    }
  }

  lemma ClampsIff(c: map<string, nat>, ops: seq<Op>)
    ensures Clamps(c, ops) <==> exists n :: Clamped(c, ops, n) > 0
  {
    if Clamps(c, ops) {
      var i :| 0 <= i < |ops| && ops[i].Decr? && Compte(ApplyAll(c, ops[..i]), ops[i].n) == 0;
      ClampedIsCounted(c, ops, i);
    }
    if n :| Clamped(c, ops, n) > 0 {
      CountedIsClamped(c, ops, n);
    }
  }

  /** Each increment and decrement applied once, in any order: no node is ever undercounted. */
  lemma NeverUndercounts(commands: seq<Command>, ops: seq<Op>, n: string)
    requires multiset(ops) == multiset(OpsOfAll(Run(commands).published))
    ensures Compte(ApplyAll(map[], ops), n) >= Attached(Run(commands).villes, n)
  {
    RunTracked(commands);
    CompteIsNetPlusClamped(map[], ops, n);
  }

  lemma RemoveOne<T>(one: seq<T>, two: seq<T>, i: nat)
    requires one != [] && i < |two| && two[i] == one[|one| - 1] && multiset(one) == multiset(two)
    ensures multiset(one[..|one| - 1]) == multiset(two[..i] + two[i + 1..])
  {
    var k, e := |one| - 1, two[i];
    var a, b, c := one[..k], two[..i], two[i + 1..];
    assert one == a + [e];
    assert two == b + [e] + c;
    assert multiset(a) == multiset(one) - multiset{e};
    assert multiset(b + c) == multiset(b) + multiset(c) == multiset(two) - multiset{e};
  }

  lemma Position<T>(x: T, s: seq<T>) returns (i: nat)
    requires x in multiset(s)
    ensures i < |s| && s[i] == x
  {
    i :| 0 <= i < |s| && s[i] == x;
  }

  function NetOfEvents(events: seq<Event>, n: string): int {
    if events == [] then 0
    else NetOfEvents(events[..|events| - 1], n) + Net(multiset(OpsOf(events[|events| - 1])), n)
  }

  lemma {:induction false} NetIsASum(events: seq<Event>, n: string)
    ensures Net(multiset(OpsOfAll(events)), n) == NetOfEvents(events, n)
  {
    if events != [] {
      var init, e := events[..|events| - 1], events[|events| - 1];
      NetIsASum(init, n);
      assert multiset(OpsOfAll(init) + OpsOf(e)) == multiset(OpsOfAll(init)) + multiset(OpsOf(e));
    }
  }

  lemma {:induction false} NetAppend(a: seq<Event>, b: seq<Event>, n: string)
    ensures NetOfEvents(a + b, n) == NetOfEvents(a, n) + NetOfEvents(b, n)
    decreases |b|
  {
    hide Net;
    hide OpsOf;
    if b == [] {
      assert a + b == a;
    } else {
      assert (a + b)[..|a| + |b| - 1] == a + b[..|b| - 1];
      NetAppend(a, b[..|b| - 1], n);
    }
  }

  lemma {:induction false} NetPermutes(one: seq<Event>, two: seq<Event>, n: string)
    requires multiset(one) == multiset(two)
    ensures NetOfEvents(one, n) == NetOfEvents(two, n)
    decreases |one|
  {
    hide Net;
    hide OpsOf;
    if one == [] {
      assert |multiset(two)| == 0;
    } else {
      var k := |one| - 1;
      assert one[k] in multiset(one);
      var i := Position(one[k], two);
      RemoveOne(one, two, i);
      var b, e, c := two[..i], [two[i]], two[i + 1..];
      NetPermutes(one[..k], b + c, n);
      assert two == b + (e + c);
      NetAppend(b, e + c, n);
      NetAppend(e, c, n);
      NetAppend(b, c, n);
      assert e[..0] == [];
    }
  }

  /** Every event handled once, in any order: a counter at zero proves that no city is attached. */
  lemma AnyOrderIsSafe(commands: seq<Command>, delivered: seq<Event>, n: string)
    requires multiset(delivered) == multiset(Run(commands).published)
    ensures var c := ApplyAll(map[], OpsOfAll(delivered));
            Compte(c, n) >= Attached(Run(commands).villes, n)
            && (Compte(c, n) == 0 ==> forall v :: v in Run(commands).villes ==> Run(commands).villes[v] != Some(n))
  {
    RunTracked(commands);
    NetIsASum(delivered, n);
    NetIsASum(Run(commands).published, n);
    NetPermutes(delivered, Run(commands).published, n);
    CompteIsNetPlusClamped(map[], OpsOfAll(delivered), n);
    forall v | v in Run(commands).villes && Run(commands).villes[v] == Some(n) ensures Attached(Run(commands).villes, n) > 0 {
      assert v in CitiesOf(Run(commands).villes, n);
    }
  }

  ghost predicate AllExact(villes: map<string, Option<string>>, ops: seq<Op>) {
    forall n :: Compte(ApplyAll(map[], ops), n) == Attached(villes, n)
  }

  ghost predicate NetIsReal(villes: map<string, Option<string>>, ops: seq<Op>) {
    forall n :: Net(multiset(ops), n) == Attached(villes, n)
  }

  lemma OneCounter(villes: map<string, Option<string>>, ops: seq<Op>, n: string)
    requires NetIsReal(villes, ops)
    ensures Compte(ApplyAll(map[], ops), n) == Attached(villes, n) + Clamped(map[], ops, n)
  {
    CompteIsNetPlusClamped(map[], ops, n);
    assert Compte(map[], n) == 0;
    hide Net;
    hide Compte;
    hide Attached;
    hide ApplyAll;
    hide Clamped;
  }

  lemma AllExactIff(villes: map<string, Option<string>>, ops: seq<Op>)
    requires NetIsReal(villes, ops)
    ensures AllExact(villes, ops) <==> !Clamps(map[], ops)
  {
    ClampsIff(map[], ops);
    hide Clamps;
    hide NetIsReal;
    hide Compte;
    hide Attached;
    hide ApplyAll;
    hide Clamped;
    if AllExact(villes, ops) {
      forall n ensures Clamped(map[], ops, n) == 0 {
        OneCounter(villes, ops, n);
        assert Compte(ApplyAll(map[], ops), n) == Attached(villes, n);
      }
    } else {
      var n :| Compte(ApplyAll(map[], ops), n) != Attached(villes, n);
      OneCounter(villes, ops, n);
      assert Clamped(map[], ops, n) > 0;
    }
  }

  /** In whatever order they are applied, every counter is exact if and only if no decrement was clamped. */
  lemma ExactIffNothingClamped(commands: seq<Command>, ops: seq<Op>)
    requires multiset(ops) == multiset(OpsOfAll(Run(commands).published))
    ensures (forall n :: Compte(ApplyAll(map[], ops), n) == Attached(Run(commands).villes, n)) <==> !Clamps(map[], ops)
  {
    RunTracked(commands);
    hide Run;
    hide Net;
    hide Compte;
    hide Attached;
    hide ApplyAll;
    hide Clamps;
    hide OpsOfAll;
    AllExactIff(Run(commands).villes, ops);
  }

  /** The same for events: in whatever order they are handled. */
  lemma DeliveredExactIffNothingClamped(commands: seq<Command>, delivered: seq<Event>)
    requires multiset(delivered) == multiset(Run(commands).published)
    ensures (forall n :: Compte(ApplyAll(map[], OpsOfAll(delivered)), n) == Attached(Run(commands).villes, n))
            <==> !Clamps(map[], OpsOfAll(delivered))
  {
    RunTracked(commands);
    hide Run;
    hide Net;
    hide Compte;
    hide Attached;
    hide ApplyAll;
    hide Clamps;
    hide OpsOfAll;
    forall n ensures Net(multiset(OpsOfAll(delivered)), n) == Attached(Run(commands).villes, n) {
      NetIsASum(delivered, n);
      NetIsASum(Run(commands).published, n);
      NetPermutes(delivered, Run(commands).published, n);
    }
    AllExactIff(Run(commands).villes, OpsOfAll(delivered));
  }

  lemma {:induction false} ClampedGrows(c: map<string, nat>, ops: seq<Op>, more: seq<Op>, n: string)
    ensures Clamped(c, ops + more, n) >= Clamped(c, ops, n)
    decreases |more|
  {
    hide ApplyAll;
    if more == [] {
      assert ops + more == ops;
    } else {
      assert (ops + more)[..|ops| + |more| - 1] == ops + more[..|more| - 1];
      ClampedGrows(c, ops, more[..|more| - 1], n);
    }
  }

  /** Whatever is handled later, a counter that was too high stays too high by at least as much. */
  lemma ExcessNeverShrinks(ops: seq<Op>, more: seq<Op>, n: string)
    ensures Compte(ApplyAll(map[], ops + more), n) - Net(multiset(ops + more), n) >=
            Compte(ApplyAll(map[], ops), n) - Net(multiset(ops), n)
  {
    CompteIsNetPlusClamped(map[], ops, n);
    CompteIsNetPlusClamped(map[], ops + more, n);
    ClampedGrows(map[], ops, more, n);
  }

  // ------------------------------------------------------------------------------------------------ exactness

  lemma {:induction false} ApplyMore(c: map<string, nat>, a: seq<Op>, b: seq<Op>)
    ensures ApplyAll(c, a + b) == ApplyAll(ApplyAll(c, a), b)
    decreases |b|
  {
    if b == [] {
      assert a + b == a;
    } else {
      assert (a + b)[..|a| + |b| - 1] == a + b[..|b| - 1];
      ApplyMore(c, a, b[..|b| - 1]);
    }
  }

  lemma ClampsLater(c: map<string, nat>, a: seq<Op>, b: seq<Op>)
    requires !Clamps(c, a) && !Clamps(ApplyAll(c, a), b)
    ensures !Clamps(c, a + b)
  {
    forall i | 0 <= i < |a + b| && (a + b)[i].Decr? ensures Compte(ApplyAll(c, (a + b)[..i]), (a + b)[i].n) != 0 {
      if i < |a| {
        assert (a + b)[..i] == a[..i];
      } else {
        assert (a + b)[..i] == a + b[..i - |a|];
        ApplyMore(c, a, b[..i - |a|]);
      }
    }
  }

  lemma ApplyOne(c: map<string, nat>, op: Op)
    ensures ApplyAll(c, [op]) == ApplyOp(c, op)
    ensures Clamps(c, [op]) <==> op.Decr? && Compte(c, op.n) == 0
  {
    assert [op][..0] == [];
    assert ApplyAll(c, []) == c;
    if op.Decr? && Compte(c, op.n) == 0 {
      assert [op][0].Decr? && Compte(ApplyAll(c, [op][..0]), [op][0].n) == 0;
    }
  }

  lemma OneOpExact(c: map<string, nat>, op: Op)
    requires op.Decr? ==> Compte(c, op.n) >= 1
    ensures !Clamps(c, [op])
    ensures forall n :: Compte(ApplyAll(c, [op]), n) == Compte(c, n) + Net(multiset([op]), n)
  {
    ApplyOne(c, op);
  }

  lemma NoOpExact(c: map<string, nat>)
    ensures !Clamps(c, []) && ApplyAll(c, []) == c && forall n :: Net(multiset([]), n) == 0
  {
  }

  lemma OneEventExact(c: map<string, nat>, e: Event)
    requires e.Moved? && e.ancien.Some? && e.ancien.value != "" ==> Compte(c, e.ancien.value) >= 1
    ensures !Clamps(c, OpsOf(e))
    ensures forall n :: Compte(ApplyAll(c, OpsOf(e)), n) == Compte(c, n) + Net(multiset(OpsOf(e)), n)
  {
    NoOpExact(c);
    var decr := if e.Moved? then DecrOf(e.ancien) else [];
    var incr := if e.Moved? then IncrOf(e.nouveau) else IncrOf(e.noeud);
    assert OpsOf(e) == decr + incr;
    if decr != [] { OneOpExact(c, decr[0]); }
    var c1 := ApplyAll(c, decr);
    NoOpExact(c1);
    if incr != [] { OneOpExact(c1, incr[0]); }
    ApplyMore(c, decr, incr);
    ClampsLater(c, decr, incr);
    assert multiset(decr + incr) == multiset(decr) + multiset(incr);
    hide Clamps;
    hide ApplyAll;
    hide OpsOf;
  }

  /** In publication order every counter is exact and the clamp never fires. */
  lemma {:induction false} PublicationOrderIsExact(commands: seq<Command>)
    ensures var w := Run(commands); var ops := OpsOfAll(w.published);
            !Clamps(map[], ops) && forall n :: Compte(ApplyAll(map[], ops), n) == Attached(w.villes, n)
  {
    if commands == [] {
      RunTracked(commands);
    } else {
      var init, c := commands[..|commands| - 1], commands[|commands| - 1];
      PublicationOrderIsExact(init);
      RunTracked(init);
      StepIsExact(Run(init), c);
      RunTracked(commands);
      assert Run(commands) == Next(Run(init), c);
      hide Run;
      hide Next;
      hide Clamps;
      hide ApplyAll;
    }
  }

  lemma StepIsExact(w: World, c: Command)
    requires Tracked(w) && !Clamps(map[], OpsOfAll(w.published))
    requires forall n :: Compte(ApplyAll(map[], OpsOfAll(w.published)), n) == Attached(w.villes, n)
    ensures !Clamps(map[], OpsOfAll(Next(w, c).published))
    ensures forall n :: Compte(ApplyAll(map[], OpsOfAll(Next(w, c).published)), n) == Attached(Next(w, c).villes, n)
  {
    NextTells(w, c);
    if Next(w, c) != w {
      NextTracked(w, c);
      var e, ops := Told(w, c), OpsOfAll(w.published);
      PublishOne(w.published, e);
      assert multiset(ops + OpsOf(e)) == multiset(ops) + multiset(OpsOf(e));
      if e.Moved? && e.ancien.Some? {
        assert c.id in CitiesOf(w.villes, e.ancien.value);
      }
      OneEventExact(ApplyAll(map[], ops), e);
      ApplyMore(map[], ops, OpsOf(e));
      ClampsLater(map[], ops, OpsOf(e));
      hide Next;
      hide Clamps;
      hide ApplyAll;
      hide OpsOf;
      hide OpsOfAll;
    }
  }

  const BIRTH := Created(Some("a"))
  const DEPARTURE := Moved(Some("a"), Some("b"))

  lemma BornThenMoved()
    ensures Run([Create("v", true, Some("a"), true), Move("v", Some("b"), true)]) ==
            World(map["v" := Some("b")], [BIRTH, DEPARTURE])
  {
    var create, move := Create("v", true, Some("a"), true), Move("v", Some("b"), true);
    assert [create, move][..1] == [create] && [create][..0] == [];
    assert Run([create]) == World(map["v" := Some("a")], [BIRTH]);
  }

  lemma LateCounters()
    ensures Compte(ApplyAll(map[], OpsOfAll([DEPARTURE, BIRTH])), "a") == 1
  {
    PublishOne([], DEPARTURE);
    PublishOne([DEPARTURE], BIRTH);
    assert [] + [DEPARTURE] == [DEPARTURE] && [DEPARTURE] + [BIRTH] == [DEPARTURE, BIRTH];
    assert OpsOf(DEPARTURE) == [Decr("a")] + [Incr("b")] && OpsOf(BIRTH) == [Incr("a")];
    assert OpsOfAll([DEPARTURE]) == [Decr("a")] + [Incr("b")];
    ApplyMore(map[], [Decr("a")] + [Incr("b")], [Incr("a")]);
    ApplyMore(map[], [Decr("a")], [Incr("b")]);
    ApplyOne(map[], Decr("a"));
    ApplyOne(map["a" := 0], Incr("b"));
    ApplyOne(map["a" := 0, "b" := 1], Incr("a"));
    hide ApplyAll;
    hide OpsOfAll;
  }

  /**
   * Out of order a counter can be too high, and stay so whatever is handled later: the move of a city
   * handled before its creation.
   */
  lemma OutOfOrderOvercounts(more: seq<Op>)
    ensures var w := Run([Create("v", true, Some("a"), true), Move("v", Some("b"), true)]);
            var late := OpsOfAll([DEPARTURE, BIRTH]);
            && w.published == [BIRTH, DEPARTURE] && Attached(w.villes, "a") == 0
            && multiset([DEPARTURE, BIRTH]) == multiset([BIRTH, DEPARTURE])
            && Compte(ApplyAll(map[], late), "a") == 1
            && Compte(ApplyAll(map[], late + more), "a") >= Net(multiset(late + more), "a") + 1
  {
    hide *;
    BornThenMoved();
    LateCounters();
    LateNet();
    LateAttached();
    ExcessNeverShrinks(OpsOfAll([DEPARTURE, BIRTH]), more, "a");
  }

  lemma LateAttached()
    ensures Attached(map["v" := Some("b")], "a") == 0
  {
    assert CitiesOf(map["v" := Some("b")], "a") == {};
  }

  lemma LateNet()
    ensures Net(multiset(OpsOfAll([DEPARTURE, BIRTH])), "a") == 0
  {
    PublishOne([], DEPARTURE);
    PublishOne([DEPARTURE], BIRTH);
    assert [] + [DEPARTURE] == [DEPARTURE] && [DEPARTURE] + [BIRTH] == [DEPARTURE, BIRTH];
    assert OpsOfAll([DEPARTURE, BIRTH]) == [Decr("a"), Incr("b"), Incr("a")];
  }

  // ---------------------------------------------------------------------------------------- as it is written

  class CompteurVillesRattachees {
    var comptes: map<string, nat>

    constructor ()
      ensures comptes == map[]
    {
      comptes := map[];
    }

    method GetCompte(n: string) returns (r: nat)
      ensures r == Compte(comptes, n)
    {
      r := if n in comptes then comptes[n] else 0;
    }

    method Incrementer(n: string)
      modifies this
      ensures comptes == ApplyOp(old(comptes), Incr(n))
    {
      comptes := comptes[n := if n in comptes then comptes[n] + 1 else 1];
    }

    method Decrementer(n: string)
      modifies this
      ensures comptes == ApplyOp(old(comptes), Decr(n))
    {
      if n in comptes {
        var moins: int := comptes[n] as int - 1;
        comptes := comptes[n := if moins > 0 then moins else 0];
      } else {
        comptes := comptes[n := 0];
      }
    }
  }

  class VilleRattacheeConsumer {
    const compteur: CompteurVillesRattachees

    constructor (compteur: CompteurVillesRattachees)
      ensures this.compteur == compteur
    {
      this.compteur := compteur;
    }

    /** The counting part of `handleMessage`. */
    method Handle(e: Event)
      modifies compteur
      ensures compteur.comptes == ApplyAll(old(compteur.comptes), OpsOf(e))
    {
      ghost var before := compteur.comptes;
      if e.Moved? {
        ApplyMore(before, DecrOf(e.ancien), IncrOf(e.nouveau));
        if e.ancien.Some? { ApplyOne(before, Decr(e.ancien.value)); }
        if e.nouveau.Some? { ApplyOne(ApplyAll(before, DecrOf(e.ancien)), Incr(e.nouveau.value)); }
      } else if e.noeud.Some? {
        ApplyOne(before, Incr(e.noeud.value));
      }
      if e.Created? {
        if e.noeud.Some? && e.noeud.value != "" { compteur.Incrementer(e.noeud.value); }
      } else {
        if e.ancien.Some? && e.ancien.value != "" { compteur.Decrementer(e.ancien.value); }
        if e.nouveau.Some? && e.nouveau.value != "" { compteur.Incrementer(e.nouveau.value); }
      }
    }
  }

  class VilleUseCases {
    var villes: map<string, Option<string>>
    var published: seq<Event>

    constructor ()
      ensures World(villes, published) == Run([])
    {
      villes, published := map[], [];
    }

    method Create(id: string, paysExists: bool, noeud: Option<string>, valide: bool) returns (r: Result<string, VilleError>)
      requires id !in villes
      modifies this
      ensures World(villes, published) == Next(World(old(villes), old(published)), Command.Create(id, paysExists, noeud, valide))
      ensures r == match Effect(World(old(villes), old(published)), Command.Create(id, paysExists, noeud, valide))
                   case Ok(_) => Ok(id) case Err(e) => Err(e)
    {
      if !paysExists { return Err(PaysNotFound); }
      if noeud == Some("") { return Err(Refused); }
      if noeud.Some? && !valide { return Err(UnpublishedNode); }
      villes := villes[id := noeud];
      published := published + [Created(noeud)];
      r := Ok(id);
    }

    method Move(id: string, nouveau: Option<string>, valide: bool) returns (r: Result<(), VilleError>)
      modifies this
      ensures World(villes, published) == Next(World(old(villes), old(published)), Command.Move(id, nouveau, valide))
      ensures r == match Effect(World(old(villes), old(published)), Command.Move(id, nouveau, valide))
                   case Ok(_) => Ok(()) case Err(e) => Err(e)
    {
      if id !in villes { return Err(NotFound); }
      if nouveau == Some("") { return Err(Refused); }
      if nouveau.Some? && !valide { return Err(UnpublishedNode); }
      var ancien := villes[id];
      villes := villes[id := nouveau];
      published := published + [Moved(ancien, nouveau)];
      r := Ok(());
    }
  }
}
