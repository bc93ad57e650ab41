/**
 * How often the audit consumer handles one entry: the read loop, the claim cycles and their delivery
 * counts (src/audit/infrastructure/messaging/redis-streams-consumer.service.ts, runReadLoop and
 * runClaimCycle; src/audit/domain/entities/evenement-en-echec.entity.ts, shouldMoveToDeadLetter).
 */
module ClaimCycles {
  import CG = ConsumerGroup

  predicate ShouldMoveToDeadLetter(deliveryCount: nat, maxDeliveries: nat) {
    deliveryCount > maxDeliveries
  }

  /** One line of the XPENDING reply. */
  datatype Selected = Selected(p: nat, deliveryCount: nat)

  /**
   * `owed` counts the deliveries whose handler has not run yet (it may never run), `handled` the
   * calls of `handleMessage`, `chosen` the times a claim cycle has dealt with the entry without an
   * infrastructure error. `cycles` holds what each claim cycle in progress has still to do.
   */
  datatype Ledger = Ledger(
    length: nat,
    group: CG.Group,
    owed: map<nat, nat>,
    handled: map<nat, nat>,
    chosen: map<nat, nat>,
    cycles: map<nat, seq<Selected>>
  )

  const INIT := Ledger(0, CG.EMPTY, map[], map[], map[], map[])

  function Count(m: map<nat, nat>, p: nat): nat {
    if p in m then m[p] else 0
  }

  function Plus(m: map<nat, nat>, p: nat): map<nat, nat> {
    m[p := Count(m, p) + 1]
  }

  datatype Action =
    | Append
    | ReadOne
    | Handle(p: nat)
    | Acknowledge(p: nat)
    | CycleStart(c: nat, selection: seq<Selected>)
    | CycleMove(c: nat, acked: bool, error: bool)
    | CycleClaim(c: nat, idle: bool, error: bool)
    | CycleStop(c: nat)

  /** An XPENDING reply: distinct pending entries with their current counts. */
  ghost predicate IsSelection(g: CG.Group, selection: seq<Selected>) {
    && (forall i :: 0 <= i < |selection| ==>
          selection[i].p in g.pending && g.pending[selection[i].p] == selection[i].deliveryCount)
    && (forall i, j :: 0 <= i < j < |selection| ==> selection[i].p != selection[j].p)
  }

  function Pop(l: Ledger, c: nat): Ledger
    requires c in l.cycles && l.cycles[c] != []
  {
    l.(cycles := l.cycles[c := l.cycles[c][1..]])
  }

  ghost function Next(l: Ledger, max: nat, a: Action): Ledger {
    match a
    case Append => l.(length := l.length + 1)
    case ReadOne =>
      if l.group.delivered < l.length
      then l.(group := CG.Read(l.group, l.length, 1), owed := Plus(l.owed, l.group.delivered)) else l
    case Handle(p) =>
      if Count(l.owed, p) > 0 then l.(owed := l.owed[p := l.owed[p] - 1], handled := Plus(l.handled, p)) else l
    case Acknowledge(p) => l.(group := CG.Ack(l.group, p))
    case CycleStart(c, selection) =>
      if c !in l.cycles && IsSelection(l.group, selection) then l.(cycles := l.cycles[c := selection]) else l
    case CycleMove(c, acked, error) =>
      if c in l.cycles && l.cycles[c] != [] && ShouldMoveToDeadLetter(l.cycles[c][0].deliveryCount, max) then
        var p := l.cycles[c][0].p;
        var l1 := if acked then l.(group := CG.Ack(l.group, p), chosen := Plus(l.chosen, p)) else l;
        if error || !acked then l1.(cycles := l1.cycles - {c}) else Pop(l1, c)
      else l
    case CycleClaim(c, idle, error) =>
      if c in l.cycles && l.cycles[c] != [] && !ShouldMoveToDeadLetter(l.cycles[c][0].deliveryCount, max) then
        var p := l.cycles[c][0].p;
        var l1 := if idle && p in l.group.pending
                  then l.(group := CG.Claim(l.group, p), owed := Plus(l.owed, p), chosen := Plus(l.chosen, p))
                  else l;
        if error then l1.(cycles := l1.cycles - {c}) else Pop(l1, c)
      else l
    case CycleStop(c) => l.(cycles := l.cycles - {c})
  }

  ghost function Run(l: Ledger, max: nat, actions: seq<Action>): Ledger
    decreases |actions|
  {
    if actions == [] then l
    else Next(Run(l, max, actions[..|actions| - 1]), max, actions[|actions| - 1])
  }

  /** No claim cycle starts while another is in progress. */
  ghost predicate NoOverlap(max: nat, actions: seq<Action>) {
    forall i :: 0 <= i < |actions| && actions[i].CycleStart? ==>
      Run(INIT, max, actions[..i]).cycles.Keys <= {actions[i].c}
  }

  // ---------------------------------------------------------------------- deliveries, in every run

  /** The deliveries of an entry: calls of `handleMessage` that ran, or may still run. */
  function Deliveries(l: Ledger, p: nat): nat {
    Count(l.handled, p) + Count(l.owed, p)
  }

  /** While an entry is pending its count is its deliveries, one at first and one more for each choice by a cycle. */
  ghost predicate PositionOk(l: Ledger, p: nat) {
    && CG.Partitions(l.group, l.length)
    && (p in l.group.pending ==> l.group.pending[p] == Deliveries(l, p) == 1 + Count(l.chosen, p))
    && (p >= l.group.delivered ==> Deliveries(l, p) == Count(l.chosen, p) == 0)
  }

  /** An XCLAIM that succeeds on an entry delivered more than `max` times, the cycle having read an older count. */
  predicate LateClaim(l: Ledger, max: nat, a: Action, p: nat) {
    && a.CycleClaim? && a.idle && a.c in l.cycles && l.cycles[a.c] != []
    && l.cycles[a.c][0].p == p && !ShouldMoveToDeadLetter(l.cycles[a.c][0].deliveryCount, max)
    && p in l.group.pending && ShouldMoveToDeadLetter(l.group.pending[p], max)
  }

  /** Claim cycles only ever list entries that were handed out. */
  ghost predicate LinesDelivered(l: Ledger) {
    forall c, line :: c in l.cycles && line in l.cycles[c] ==> line.p < l.group.delivered
  }

  lemma StepKeepsLines(l: Ledger, max: nat, a: Action)
    requires LinesDelivered(l) && CG.Partitions(l.group, l.length)
    ensures LinesDelivered(Next(l, max, a))
  {
    match a {
      case CycleStart(c, selection) =>
        if IsSelection(l.group, selection) {
          forall line | line in selection ensures line.p < l.group.delivered {
            var i :| 0 <= i < |selection| && selection[i] == line;
            assert selection[i].p in l.group.pending;
          }
        }
      case _ =>
    }
  }

  lemma ReadDelivers(l: Ledger, max: nat, p: nat)
    requires PositionOk(l, p)
    ensures var l' := Next(l, max, ReadOne);
            && PositionOk(l', p) && Deliveries(l', p) >= Deliveries(l, p)
            && (Deliveries(l, p) <= max + 1 ==> Deliveries(l', p) <= max + 1)
  {
    CG.PartitionsKept(l.group, l.length, l.length, 1, 0);
  }

  lemma AckDelivers(l: Ledger, q: nat, p: nat)
    requires PositionOk(l, p)
    ensures PositionOk(l.(group := CG.Ack(l.group, q)), p)
  {
    CG.PartitionsKept(l.group, l.length, l.length, 0, q);
  }

  lemma MoveDelivers(l: Ledger, max: nat, c: nat, acked: bool, error: bool, p: nat)
    requires PositionOk(l, p) && LinesDelivered(l)
    ensures var l' := Next(l, max, CycleMove(c, acked, error));
            PositionOk(l', p) && Deliveries(l', p) == Deliveries(l, p)
  {
    if c in l.cycles && l.cycles[c] != [] {
      var q := l.cycles[c][0].p;
      assert l.cycles[c][0] in l.cycles[c];
      AckDelivers(l, q, p);
      if acked && q == p {
        assert p !in CG.Ack(l.group, q).pending;
      }
      hide CG.Partitions;
      hide LinesDelivered;
    }
  }

  /** A claim that succeeds is one delivery more of its entry, and one choice. */
  lemma ClaimDelivers(l: Ledger, max: nat, a: Action, p: nat)
    requires PositionOk(l, p) && a.CycleClaim?
    ensures PositionOk(Next(l, max, a), p) && Deliveries(Next(l, max, a), p) >= Deliveries(l, p)
    ensures Deliveries(l, p) <= max + 1 ==> (Deliveries(Next(l, max, a), p) <= max + 1 <==> !LateClaim(l, max, a, p))
  {
    if a.c in l.cycles && l.cycles[a.c] != [] {
      CG.PartitionsKept(l.group, l.length, l.length, 0, l.cycles[a.c][0].p);
      hide CG.Partitions;
    }
  }

  /** One step, overlapping cycles or not: deliveries never decrease, and only a late claim takes them over max + 1. */
  lemma StepDelivers(l: Ledger, max: nat, a: Action, p: nat)
    requires PositionOk(l, p) && LinesDelivered(l)
    ensures PositionOk(Next(l, max, a), p) && Deliveries(Next(l, max, a), p) >= Deliveries(l, p)
    ensures Deliveries(l, p) <= max + 1 ==> (Deliveries(Next(l, max, a), p) <= max + 1 <==> !LateClaim(l, max, a, p))
  {
    match a {
      case ReadOne => ReadDelivers(l, max, p); hide Next;
      case Acknowledge(q) => AckDelivers(l, q, p); hide CG.Ack;
      case CycleMove(c, acked, error) => MoveDelivers(l, max, c, acked, error, p); hide Next;
      case CycleClaim(_, _, _) => ClaimDelivers(l, max, a, p); hide Next;
      case _ => hide CG.Partitions;
    }
  }

  lemma {:induction false} RunDelivers(max: nat, actions: seq<Action>, p: nat)
    ensures PositionOk(Run(INIT, max, actions), p) && LinesDelivered(Run(INIT, max, actions))
    decreases |actions|
  {
    if actions != [] {
      var n := |actions| - 1;
      RunDelivers(max, actions[..n], p);
      StepKeepsLines(Run(INIT, max, actions[..n]), max, actions[n]);
      StepDelivers(Run(INIT, max, actions[..n]), max, actions[n], p);
    }
  }

  ghost predicate BoundedAfter(max: nat, actions: seq<Action>, p: nat, k: nat)
    requires k <= |actions|
  {
    Deliveries(Run(INIT, max, actions[..k]), p) <= max + 1
  }

  ghost predicate InTime(max: nat, actions: seq<Action>, p: nat, k: nat)
    requires k < |actions|
  {
    !LateClaim(Run(INIT, max, actions[..k]), max, actions[k], p)
  }

  /** No claim of the run is late for the entry. */
  ghost predicate NeverLate(max: nat, actions: seq<Action>, p: nat) {
    forall k :: 0 <= k < |actions| ==> InTime(max, actions, p, k)
  }

  lemma BoundStep(max: nat, actions: seq<Action>, p: nat, k: nat)
    requires k < |actions| && BoundedAfter(max, actions, p, k)
    ensures BoundedAfter(max, actions, p, k + 1) <==> InTime(max, actions, p, k)
  {
    var before := actions[..k];
    assert actions[..k + 1][..k] == before;
    RunDelivers(max, before, p);
    StepDelivers(Run(INIT, max, before), max, actions[k], p);
    assert Run(INIT, max, actions[..k + 1]) == Next(Run(INIT, max, before), max, actions[k]);
    hide Next;
    hide LateClaim;
  }

  lemma {:induction false} BoundedSoFar(max: nat, actions: seq<Action>, p: nat, k: nat)
    requires k <= |actions| && NeverLate(max, actions, p)
    ensures BoundedAfter(max, actions, p, k)
  {
    if k == 0 {
      assert actions[..0] == [];
    } else {
      BoundedSoFar(max, actions, p, k - 1);
      BoundStep(max, actions, p, k - 1);
      hide BoundedAfter;
      assert InTime(max, actions, p, k - 1);
    }
  }

  /**
   * In every run, overlapping cycles or not: an entry is delivered at most max + 1 times all along if and
   * only if no XCLAIM of it succeeds after its count has passed max.
   */
  lemma BoundedIffNeverLate(max: nat, actions: seq<Action>, p: nat)
    ensures (forall k :: 0 <= k <= |actions| ==> BoundedAfter(max, actions, p, k)) <==> NeverLate(max, actions, p)
  {
    hide BoundedAfter;
    hide InTime;
    if NeverLate(max, actions, p) {
      forall k | 0 <= k <= |actions| ensures BoundedAfter(max, actions, p, k) {
        BoundedSoFar(max, actions, p, k);
      }
    }
    if forall k :: 0 <= k <= |actions| ==> BoundedAfter(max, actions, p, k) {
      forall k | 0 <= k < |actions| ensures InTime(max, actions, p, k) {
        assert BoundedAfter(max, actions, p, k) && BoundedAfter(max, actions, p, k + 1);
        BoundStep(max, actions, p, k);
      }
    }
  }

  /** An entry that is never claimed late is off the pending list once claim cycles have dealt with it max + 1 times. */
  lemma NeverLateLeaves(max: nat, actions: seq<Action>, p: nat)
    requires NeverLate(max, actions, p) && Count(Run(INIT, max, actions).chosen, p) >= max + 1
    ensures p !in Run(INIT, max, actions).group.pending
  {
    BoundedIffNeverLate(max, actions, p);
    assert BoundedAfter(max, actions, p, |actions|);
    assert actions[..|actions|] == actions;
    RunDelivers(max, actions, p);
    hide Run;
    hide NeverLate;
  }

  // ------------------------------------------------------------------------ cycles that do not overlap

  /** What a cycle in progress still has to do agrees with the group, on entries that are still pending. */
  ghost predicate CycleOk(g: CG.Group, todo: seq<Selected>) {
    && (forall i :: 0 <= i < |todo| ==> CurrentLine(g, todo[i]))
    && (forall i, j :: 0 <= i < j < |todo| ==> todo[i].p != todo[j].p)
  }

  ghost predicate CurrentLine(g: CG.Group, line: Selected) {
    line.p < g.delivered && (line.p in g.pending ==> g.pending[line.p] == line.deliveryCount)
  }

  ghost predicate OneCycle(l: Ledger) {
    && (forall c, d :: c in l.cycles && d in l.cycles ==> c == d)
    && (forall c :: c in l.cycles ==> CycleOk(l.group, l.cycles[c]))
  }

  ghost predicate Inv(l: Ledger) {
    CG.Partitions(l.group, l.length) && OneCycle(l)
  }

  /** A change of the group that only removes pending entries, or adds new ones, keeps what a cycle has read. */
  lemma CycleStaysOk(g: CG.Group, g': CG.Group, todo: seq<Selected>)
    requires CycleOk(g, todo) && g.delivered <= g'.delivered
    requires forall p: nat :: p < g.delivered && p in g'.pending ==> p in g.pending && g'.pending[p] == g.pending[p]
    ensures CycleOk(g', todo)
  {
    forall i | 0 <= i < |todo| ensures CurrentLine(g', todo[i]) {
      assert CurrentLine(g, todo[i]);
    }
  }

  lemma GroupKeepsInv(l: Ledger, l': Ledger)
    requires Inv(l) && l'.cycles == l.cycles && CG.Partitions(l'.group, l'.length) && l.group.delivered <= l'.group.delivered
    requires forall p: nat :: p < l.group.delivered && p in l'.group.pending ==>
               p in l.group.pending && l'.group.pending[p] == l.group.pending[p]
    ensures Inv(l')
  {
    forall c | c in l.cycles ensures CycleOk(l'.group, l'.cycles[c]) {
      CycleStaysOk(l.group, l'.group, l.cycles[c]);
    }
  }

  lemma CyclesShrink(l: Ledger, c: nat)
    requires Inv(l)
    ensures Inv(l.(cycles := l.cycles - {c}))
    ensures c in l.cycles && l.cycles[c] != [] ==> Inv(Pop(l, c))
  {
    if c in l.cycles && l.cycles[c] != [] {
      var todo, rest := l.cycles[c], l.cycles[c][1..];
      assert CycleOk(l.group, todo);
      forall i | 0 <= i < |rest| ensures CurrentLine(l.group, rest[i]) { assert rest[i] == todo[i + 1]; }
      assert CycleOk(l.group, rest);
    }
  }

  lemma StartKeepsInv(l: Ledger, max: nat, c: nat, selection: seq<Selected>)
    requires Inv(l) && l.cycles.Keys <= {c}
    ensures Inv(Next(l, max, CycleStart(c, selection)))
  {
    if c !in l.cycles && IsSelection(l.group, selection) {
      assert Next(l, max, CycleStart(c, selection)).cycles.Keys == {c};
      forall i | 0 <= i < |selection| ensures CurrentLine(l.group, selection[i]) {
        assert selection[i].p in l.group.pending;
      }
    }
  }

  lemma MoveKeepsInv(l: Ledger, max: nat, c: nat, acked: bool, error: bool)
    requires Inv(l)
    ensures Inv(Next(l, max, CycleMove(c, acked, error)))
  {
    if c in l.cycles && l.cycles[c] != [] {
      var p := l.cycles[c][0].p;
      CG.PartitionsKept(l.group, l.length, l.length, 0, p);
      var l1 := l.(group := CG.Ack(l.group, p), chosen := Plus(l.chosen, p));
      GroupKeepsInv(l, l1);
      hide Inv;
      CyclesShrink(l1, c);
      CyclesShrink(l, c);
    }
  }

  /** The claimed entry is no longer among what the cycle still has to do. */
  lemma ClaimKeepsInv(l: Ledger, max: nat, c: nat, idle: bool, error: bool)
    requires Inv(l)
    ensures Inv(Next(l, max, CycleClaim(c, idle, error)))
  {
    if c in l.cycles && l.cycles[c] != [] {
      var todo, p := l.cycles[c], l.cycles[c][0].p;
      CyclesShrink(l, c);
      CG.PartitionsKept(l.group, l.length, l.length, 0, p);
      var g := CG.Claim(l.group, p);
      assert CycleOk(l.group, todo);
      forall i | 0 <= i < |todo[1..]| ensures CurrentLine(g, todo[1..][i]) {
        assert todo[1..][i] == todo[i + 1];
        assert CurrentLine(l.group, todo[i + 1]);
      }
      assert CycleOk(g, todo[1..]);
      assert l.cycles.Keys == {c};
    }
  }

  lemma StepKeepsInv(l: Ledger, max: nat, a: Action)
    requires Inv(l) && (a.CycleStart? ==> l.cycles.Keys <= {a.c})
    ensures Inv(Next(l, max, a))
  {
    match a {
      case ReadOne =>
        CG.PartitionsKept(l.group, l.length, l.length, 1, 0);
        GroupKeepsInv(l, Next(l, max, a));
      case Acknowledge(p) =>
        CG.PartitionsKept(l.group, l.length, l.length, 0, p);
        GroupKeepsInv(l, Next(l, max, a));
      case CycleStart(c, selection) => StartKeepsInv(l, max, c, selection);
      case CycleMove(c, acked, error) => MoveKeepsInv(l, max, c, acked, error);
      case CycleClaim(c, idle, error) => ClaimKeepsInv(l, max, c, idle, error);
      case CycleStop(c) => CyclesShrink(l, c);
      case _ => GroupKeepsInv(l, Next(l, max, a));
    }
  }

  lemma {:induction false} RunKeepsInv(max: nat, actions: seq<Action>)
    requires NoOverlap(max, actions)
    ensures Inv(Run(INIT, max, actions))
    decreases |actions|
  {
    if actions != [] {
      var n := |actions| - 1;
      var before, a := actions[..n], actions[n];
      hide Inv;
      hide Next;
      PrefixDoesNotOverlap(max, actions, n);
      RunKeepsInv(max, before);
      StepKeepsInv(Run(INIT, max, before), max, a);
    }
  }

  lemma PrefixDoesNotOverlap(max: nat, actions: seq<Action>, n: nat)
    requires NoOverlap(max, actions) && n <= |actions|
    ensures NoOverlap(max, actions[..n])
  {
    hide Next;
    forall i | 0 <= i < n && actions[..n][i].CycleStart?
      ensures Run(INIT, max, actions[..n][..i]).cycles.Keys <= {actions[..n][i].c}
    {
      assert actions[..n][..i] == actions[..i] && actions[..n][i] == actions[i];
    }
  }

  lemma CurrentIsNotLate(l: Ledger, max: nat, a: Action, p: nat)
    requires Inv(l)
    ensures !LateClaim(l, max, a, p)
  {
    if a.CycleClaim? && a.c in l.cycles && l.cycles[a.c] != [] {
      assert CycleOk(l.group, l.cycles[a.c]);
      assert CurrentLine(l.group, l.cycles[a.c][0]);
    }
  }

  /** Cycles that do not overlap never claim late. */
  lemma NoOverlapIsNeverLate(max: nat, actions: seq<Action>, p: nat)
    requires NoOverlap(max, actions)
    ensures NeverLate(max, actions, p)
  {
    hide Next;
    hide Inv;
    hide LateClaim;
    forall k | 0 <= k < |actions| ensures InTime(max, actions, p, k) {
      PrefixDoesNotOverlap(max, actions, k);
      RunKeepsInv(max, actions[..k]);
      CurrentIsNotLate(Run(INIT, max, actions[..k]), max, actions[k], p);
    }
  }

  /** With claim cycles that do not overlap, no entry is handled more than max + 1 times. */
  lemma HandledAtMost(max: nat, actions: seq<Action>, p: nat)
    requires NoOverlap(max, actions)
    ensures Count(Run(INIT, max, actions).handled, p) <= max + 1
  {
    NoOverlapIsNeverLate(max, actions, p);
    BoundedIffNeverLate(max, actions, p);
    assert BoundedAfter(max, actions, p, |actions|);
    assert actions[..|actions|] == actions;
    hide Run;
    hide NoOverlap;
    hide NeverLate;
  }

  /** ... and none is still pending once claim cycles have dealt with it max + 1 times. */
  lemma LeavesThePendingList(max: nat, actions: seq<Action>, p: nat)
    requires NoOverlap(max, actions)
    requires Count(Run(INIT, max, actions).chosen, p) >= max + 1
    ensures p !in Run(INIT, max, actions).group.pending
  {
    hide *;
    NoOverlapIsNeverLate(max, actions, p);
    NeverLateLeaves(max, actions, p);
  }

  // ----------------------------------------------------------------------- a run in which cycles overlap

  /** With max = 1, two cycles read the same count 1; both claim, and the entry is handled three times. */
  const OVERLAPPING: seq<Action> := [
    Append, ReadOne, Handle(0),
    CycleStart(0, [Selected(0, 1)]), CycleStart(1, [Selected(0, 1)]),
    CycleClaim(0, true, false), Handle(0), CycleClaim(1, true, false), Handle(0)
  ]

  lemma RunSnoc(max: nat, actions: seq<Action>, a: Action)
    ensures Run(INIT, max, actions + [a]) == Next(Run(INIT, max, actions), max, a)
  {
    assert (actions + [a])[..|actions|] == actions;
  }

  const LINE := [Selected(0, 1)]

  function State(count: nat, owed: nat, handled: nat, chosen: map<nat, nat>, cycles: map<nat, seq<Selected>>): Ledger {
    Ledger(1, CG.Group(1, map[0 := count], {}), map[0 := owed], map[0 := handled], chosen, cycles)
  }

  /** The states that OVERLAPPING goes through. */
  function At(i: nat): Ledger {
    match i
    case 0 => INIT
    case 1 => INIT.(length := 1)
    case 2 => State(1, 1, 0, map[], map[]).(handled := map[])
    case 3 => State(1, 0, 1, map[], map[])
    case 4 => State(1, 0, 1, map[], map[0 := LINE])
    case 5 => State(1, 0, 1, map[], map[0 := LINE, 1 := LINE])
    case 6 => State(2, 1, 1, map[0 := 1], map[0 := [], 1 := LINE])
    case 7 => State(2, 0, 2, map[0 := 1], map[0 := [], 1 := LINE])
    case 8 => State(3, 1, 2, map[0 := 2], map[0 := [], 1 := []])
    case _ => State(3, 0, 3, map[0 := 2], map[0 := [], 1 := []])
  }

  lemma FirstSteps(i: nat)
    requires i < 3
    ensures Next(At(i), 1, OVERLAPPING[i]) == At(i + 1)
  {
  }

  lemma StartSteps(i: nat)
    requires 3 <= i < 5
    ensures Next(At(i), 1, OVERLAPPING[i]) == At(i + 1)
  {
    assert IsSelection(At(i).group, LINE);
  }

  lemma ClaimSteps(i: nat)
    requires i == 5 || i == 7
    ensures Next(At(i), 1, OVERLAPPING[i]) == At(i + 1)
  {
    assert LINE[1..] == [];
  }

  lemma HandleSteps(i: nat)
    requires i == 6 || i == 8
    ensures Next(At(i), 1, OVERLAPPING[i]) == At(i + 1)
  {
  }

  lemma {:induction false} Reaches(i: nat)
    requires i <= 9
    ensures Run(INIT, 1, OVERLAPPING[..i]) == At(i)
  {
    if i > 0 {
      Reaches(i - 1);
      RunSnoc(1, OVERLAPPING[..i - 1], OVERLAPPING[i - 1]);
      assert OVERLAPPING[..i - 1] + [OVERLAPPING[i - 1]] == OVERLAPPING[..i];
      if i - 1 < 3 { FirstSteps(i - 1); }
      else if i - 1 < 5 { StartSteps(i - 1); }
      else if i - 1 == 5 || i - 1 == 7 { ClaimSteps(i - 1); }
      else { HandleSteps(i - 1); }
      hide Next;
      hide At;
    }
  }

  lemma OverlapBreaksTheBound()
    ensures Count(Run(INIT, 1, OVERLAPPING).handled, 0) == 3
  {
    Reaches(9);
    assert OVERLAPPING[..9] == OVERLAPPING;
  }
}
