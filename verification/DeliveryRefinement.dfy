/**
 * The read loop and the claim cycles of the audit consumer, run call by call, are runs of the delivery
 * ledger without overlapping cycles: the bound of ClaimCycles is a bound on the calls of `handleMessage`.
 */
module DeliveryRefinement {
  import opened Prelude
  import opened StreamCodec
  import opened AuditJournal
  import P = Pipeline
  import CG = ConsumerGroup
  import opened ClaimCycles
  import ES = EventServices

  /** The ledger speaks of the group and the stream that the consumer sees. */
  predicate Matches(l: Ledger, v: ES.View) {
    l.group == v.group && l.length == |v.store.stream|
  }

  lemma {:induction false} RunAppend(l: Ledger, max: nat, first: seq<Action>, second: seq<Action>)
    ensures Run(l, max, first + second) == Run(Run(l, max, first), max, second)
    decreases |second|
  {
    hide Next;
    if second == [] {
      assert first + second == first;
    } else {
      var n := |second| - 1;
      assert (first + second)[..|first| + n] == first + second[..n];
      RunAppend(l, max, first, second[..n]);
    }
  }

  lemma RunOne(l: Ledger, max: nat, a: Action)
    ensures Run(l, max, [a]) == Next(l, max, a)
  {
    hide Next;
    assert [a][..0] == [];
  }

  /** No action of the list starts a claim cycle. */
  predicate NoStart(actions: seq<Action>) {
    forall i :: 0 <= i < |actions| ==> !actions[i].CycleStart?
  }

  // ---------------------------------------------------------------------------------- one message

  function AckOf(g: CG.Group, g': CG.Group, p: nat): seq<Action> {
    if g' == g then [] else [Acknowledge(p)]
  }

  lemma HandlingAcksAtMost(t: Text, v: ES.View, p: nat, maintenant: string, h: ES.Handling)
    requires p < |v.store.stream|
    ensures var v' := ES.HandleEffect(t, v, p, maintenant, h);
            && (v'.group == v.group || v'.group == CG.Ack(v.group, p)) && v'.store.stream == v.store.stream
  {
    hide Process;
    hide ParseFields;
  }

  /** Handling a message that was delivered and not handled yet. */
  lemma HandlingOnTheLedger(t: Text, l: Ledger, max: nat, v: ES.View, p: nat, maintenant: string, h: ES.Handling)
    returns (actions: seq<Action>)
    requires Matches(l, v) && p < |v.store.stream| && Count(l.owed, p) > 0
    ensures var l' := Run(l, max, actions); var v' := ES.HandleEffect(t, v, p, maintenant, h);
            && Matches(l', v') && l'.cycles == l.cycles && l'.handled == Plus(l.handled, p)
            && (forall q :: q != p ==> Count(l'.owed, q) == Count(l.owed, q)) && NoStart(actions)
  {
    var v' := ES.HandleEffect(t, v, p, maintenant, h);
    HandlingAcksAtMost(t, v, p, maintenant, h);
    hide ES.HandleEffect;
    actions := [Handle(p)] + AckOf(v.group, v'.group, p);
    RunOne(l, max, Handle(p));
    var l1 := Next(l, max, Handle(p));
    RunOne(l1, max, Acknowledge(p));
    RunAppend(l, max, [Handle(p)], AckOf(v.group, v'.group, p));
  }

  // ----------------------------------------------------------------------------------- the read loop

  function Reads(n: nat): seq<Action> {
    seq(n, _ => ReadOne)
  }

  lemma ReadOneMore(g: CG.Group, length: nat, n: nat)
    requires g.delivered + n < length
    ensures CG.Read(CG.Read(g, length, n), length, 1) == CG.Read(g, length, n + 1)
  {
    assert CG.Read(CG.Read(g, length, n), length, 1).pending == CG.Read(g, length, n + 1).pending;
  }

  /** Counts grown by one on the positions from..to, and nowhere else. */
  ghost predicate OneMoreEach(m: map<nat, nat>, m': map<nat, nat>, from: nat, to: nat) {
    forall q: nat :: Count(m', q) == Count(m, q) + if from <= q < to then 1 else 0
  }

  lemma OneMoreStep(m: map<nat, nat>, m': map<nat, nat>, from: nat, to: nat)
    requires from < to && OneMoreEach(m, m', from, to - 1)
    ensures OneMoreEach(m, Plus(m', to - 1), from, to)
  {
  }

  lemma NoneMore(m: map<nat, nat>, from: nat)
    ensures OneMoreEach(m, m, from, from)
  {
  }

  /** One XREADGROUP of n entries is n deliveries, one by one. */
  lemma {:induction false} ReadsOnTheLedger(l: Ledger, max: nat, n: nat)
    requires l.group.delivered + n <= l.length
    ensures var l' := Run(l, max, Reads(n));
            && l' == l.(group := CG.Read(l.group, l.length, n), owed := l'.owed)
            && OneMoreEach(l.owed, l'.owed, l.group.delivered, l.group.delivered + n)
  {
    hide OneMoreEach;
    hide CG.Read;
    hide Next;
    var d := l.group.delivered;
    if n == 0 {
      ReadNothing(l.group, l.length);
      NoneMore(l.owed, d);
    } else {
      ReadsOnTheLedger(l, max, n - 1);
      assert Reads(n)[..n - 1] == Reads(n - 1);
      var l1 := Run(l, max, Reads(n - 1));
      assert Run(l, max, Reads(n)) == Next(l1, max, ReadOne);
      hide Run;
      hide Reads;
      ReadDelivered(l.group, l.length, n - 1);
      OneMoreStep(l.owed, l1.owed, d, d + n);
      NextRead(l1, max);
      ReadOneMore(l.group, l.length, n - 1);
    }
  }

  lemma ReadNothing(g: CG.Group, length: nat)
    requires g.delivered <= length
    ensures CG.Read(g, length, 0) == g
  {
    assert CG.Read(g, length, 0).pending == g.pending;
  }

  lemma ReadDelivered(g: CG.Group, length: nat, n: nat)
    requires g.delivered + n <= length
    ensures CG.Read(g, length, n).delivered == g.delivered + n
  {
  }

  lemma NextRead(l: Ledger, max: nat)
    requires l.group.delivered < l.length
    ensures Next(l, max, ReadOne) == l.(group := CG.Read(l.group, l.length, 1), owed := Plus(l.owed, l.group.delivered))
  {
  }

  ghost predicate OwedOn(owed: map<nat, nat>, from: nat, to: nat) {
    forall q: nat :: from <= q < to ==> Count(owed, q) > 0
  }

  ghost predicate SameFrom(m: map<nat, nat>, m': map<nat, nat>, to: nat) {
    forall q: nat :: q >= to ==> Count(m', q) == Count(m, q)
  }

  lemma NextIsOwed(owed: map<nat, nat>, owed': map<nat, nat>, from: nat, to: nat)
    requires from < to && OwedOn(owed, from, to) && SameFrom(owed, owed', to - 1)
    ensures OwedOn(owed, from, to - 1) && Count(owed', to - 1) > 0
  {
  }

  lemma SameAfterOneMore(m: map<nat, nat>, m': map<nat, nat>, m'': map<nat, nat>, to: nat)
    requires to > 0 && SameFrom(m, m', to - 1) && forall q :: q != to - 1 ==> Count(m'', q) == Count(m', q)
    ensures SameFrom(m, m'', to)
  {
  }

  lemma FewerOwed(owed: map<nat, nat>, from: nat, to: nat)
    requires from < to && OwedOn(owed, from, to)
    ensures OwedOn(owed, from, to - 1)
  {
  }

  lemma SameAsItself(m: map<nat, nat>, to: nat)
    ensures SameFrom(m, m, to)
  {
  }

  lemma {:induction false} HandleAllOnTheLedger(t: Text, l: Ledger, max: nat, v: ES.View, from: nat, to: nat,
                                               maintenant: string, handlings: nat -> ES.Handling)
    returns (actions: seq<Action>)
    requires Matches(l, v) && from <= to <= |v.store.stream| && OwedOn(l.owed, from, to)
    ensures var l' := Run(l, max, actions);
            && Matches(l', ES.HandleAll(t, v, from, to, maintenant, handlings)) && l'.cycles == l.cycles
            && OneMoreEach(l.handled, l'.handled, from, to) && SameFrom(l.owed, l'.owed, to) && NoStart(actions)
  {
    hide OwedOn;
    hide SameFrom;
    hide OneMoreEach;
    actions := [];
    if from == to {
      NoneMore(l.handled, from);
      SameAsItself(l.owed, to);
    } else {
      FewerOwed(l.owed, from, to);
      actions := HandleAllOnTheLedger(t, l, max, v, from, to - 1, maintenant, handlings);
      var v1, l1 := ES.HandleAll(t, v, from, to - 1, maintenant, handlings), Run(l, max, actions);
      hide ES.HandleEffect;
      hide Next;
      hide Run;
      NextIsOwed(l.owed, l1.owed, from, to);
      var more := HandlingOnTheLedger(t, l1, max, v1, to - 1, maintenant, handlings(to - 1));
      RunAppend(l, max, actions, more);
      OneMoreStep(l.handled, l1.handled, from, to);
      SameAfterOneMore(l.owed, l1.owed, Run(l1, max, more).owed, to);
      actions := actions + more;
    }
  }

  // ---------------------------------------------------------------------------------- one claim cycle

  /** Whether the turn calls `handleMessage`. */
  predicate TurnHandles(v: ES.View, line: Selected, max: nat, u: ES.Turn) {
    !ShouldMoveToDeadLetter(line.deliveryCount, max) && u.claim == P.Done && u.idle && line.p in v.group.pending
  }

  function MoveAction(t: Text, v: ES.View, c: nat, line: Selected, u: ES.Turn): Action
    requires line.p < |v.store.stream|
  {
    CycleMove(c, P.Applied(u.moving.ack), !ES.MovedQuietly(t, v, line.p, u.maintenant, u.moving))
  }

  /** A cycle with this turn next, and what it has left afterwards. */
  predicate Left(before: map<nat, seq<Selected>>, after: map<nat, seq<Selected>>, c: nat, rest: seq<Selected>, alive: bool) {
    after == if alive then before[c := rest] else before - {c}
  }

  lemma MoveOnTheLedger(t: Text, l: Ledger, max: nat, v: ES.View, c: nat, line: Selected, u: ES.Turn)
    requires Matches(l, v) && line.p < |v.store.stream| && c in l.cycles && l.cycles[c] != [] && l.cycles[c][0] == line
    requires ShouldMoveToDeadLetter(line.deliveryCount, max)
    ensures var l' := Next(l, max, MoveAction(t, v, c, line, u));
            && Matches(l', ES.TurnEffect(t, v, line, max, u)) && l'.handled == l.handled
            && Left(l.cycles, l'.cycles, c, l.cycles[c][1..], ES.TurnGoesOn(t, v, line, max, u))
  {
    hide DeadLetterOf;
    hide ParseFields;
    hide CG.Ack;
  }

  lemma ClaimOnTheLedger(t: Text, l: Ledger, max: nat, v: ES.View, c: nat, line: Selected, u: ES.Turn)
    requires Matches(l, v) && line.p < |v.store.stream| && c in l.cycles && l.cycles[c] != [] && l.cycles[c][0] == line
    requires !ShouldMoveToDeadLetter(line.deliveryCount, max)
    ensures var l' := Next(l, max, CycleClaim(c, u.idle && P.Applied(u.claim), u.claim != P.Done));
            var claimed := P.Applied(u.claim) && u.idle && line.p in v.group.pending;
            && l'.group == (if claimed then CG.Claim(v.group, line.p) else v.group) && l'.length == l.length
            && l'.handled == l.handled && (claimed ==> Count(l'.owed, line.p) > 0)
            && Left(l.cycles, l'.cycles, c, l.cycles[c][1..], u.claim == P.Done)
  {
  }

  lemma TurnOnTheLedger(t: Text, l: Ledger, max: nat, v: ES.View, c: nat, line: Selected, u: ES.Turn)
    returns (actions: seq<Action>)
    requires Matches(l, v) && line.p < |v.store.stream| && c in l.cycles && l.cycles[c] != [] && l.cycles[c][0] == line
    ensures var l' := Run(l, max, actions);
            && Matches(l', ES.TurnEffect(t, v, line, max, u))
            && l'.handled == (if TurnHandles(v, line, max, u) then Plus(l.handled, line.p) else l.handled)
            && Left(l.cycles, l'.cycles, c, l.cycles[c][1..], ES.TurnGoesOn(t, v, line, max, u)) && NoStart(actions)
  {
    if ShouldMoveToDeadLetter(line.deliveryCount, max) {
      actions := [MoveAction(t, v, c, line, u)];
      RunOne(l, max, actions[0]);
      MoveOnTheLedger(t, l, max, v, c, line, u);
      hide Next;
      hide ES.TurnEffect;
    } else {
      var claim := CycleClaim(c, u.idle && P.Applied(u.claim), u.claim != P.Done);
      RunOne(l, max, claim);
      ClaimOnTheLedger(t, l, max, v, c, line, u);
      var l1 := Next(l, max, claim);
      hide Next;
      actions := [claim];
      if TurnHandles(v, line, max, u) {
        var v1 := v.(group := CG.Claim(v.group, line.p));
        hide CG.Claim;
        var more := HandlingOnTheLedger(t, l1, max, v1, line.p, u.maintenant, u.handling);
        RunAppend(l, max, [claim], more);
        actions := [claim] + more;
        hide ES.HandleEffect;
      }
    }
  }

  /** The calls of `handleMessage` for p during the first n lines of a claim cycle. */
  ghost function CycleCalls(t: Text, v: ES.View, lines: seq<Selected>, max: nat, turns: nat -> ES.Turn, n: nat, p: nat): nat
    requires n <= |lines| && forall i :: 0 <= i < |lines| ==> lines[i].p < |v.store.stream|
  {
    if n == 0 then 0
    else
      var before := ES.ClaimEffect(t, v, lines, max, turns, n - 1);
      CycleCalls(t, v, lines, max, turns, n - 1, p) +
      if before.alive && lines[n - 1].p == p && TurnHandles(before.view, lines[n - 1], max, turns(n - 1)) then 1 else 0
  }

  lemma {:induction false} LinesOnTheLedger(t: Text, l: Ledger, max: nat, v: ES.View, c: nat, lines: seq<Selected>,
                                           turns: nat -> ES.Turn, n: nat, p: nat)
    returns (actions: seq<Action>)
    requires Matches(l, v) && n <= |lines| && c in l.cycles && l.cycles[c] == lines
    requires forall i :: 0 <= i < |lines| ==> lines[i].p < |v.store.stream|
    ensures var l' := Run(l, max, actions); var progress := ES.ClaimEffect(t, v, lines, max, turns, n);
            && Matches(l', progress.view) && Left(l.cycles, l'.cycles, c, lines[n..], progress.alive)
            && Count(l'.handled, p) == Count(l.handled, p) + CycleCalls(t, v, lines, max, turns, n, p) && NoStart(actions)
  {
    actions := [];
    if n == 0 {
      assert lines[0..] == lines;
    } else {
      actions := LinesOnTheLedger(t, l, max, v, c, lines, turns, n - 1, p);
      var before := ES.ClaimEffect(t, v, lines, max, turns, n - 1);
      if before.alive {
        var l1 := Run(l, max, actions);
        assert lines[n - 1..][0] == lines[n - 1] && lines[n - 1..][1..] == lines[n..];
        var more := TurnOnTheLedger(t, l1, max, before.view, c, lines[n - 1], turns(n - 1));
        RunAppend(l, max, actions, more);
        actions := actions + more;
        hide Next;
        hide ES.TurnEffect;
        hide ES.TurnGoesOn;
      }
    }
  }

  /** A claim cycle is started, gone through and left: no cycle is in progress afterwards. */
  lemma ClaimCycleOnTheLedger(t: Text, l: Ledger, max: nat, v: ES.View, lines: seq<Selected>, turns: nat -> ES.Turn, p: nat)
    returns (actions: seq<Action>)
    requires Matches(l, v) && l.cycles == map[]
    requires CG.Partitions(v.group, |v.store.stream|) && IsSelection(v.group, lines)
    ensures var l' := Run(l, max, actions);
            && Matches(l', ES.ClaimCycleEffect(t, v, lines, max, turns)) && l'.cycles == map[]
            && (forall i :: 0 <= i < |lines| ==> lines[i].p < |v.store.stream|)
            && Count(l'.handled, p) == Count(l.handled, p) + CycleCalls(t, v, lines, max, turns, |lines|, p)
            && actions != [] && NoStart(actions[1..])
  {
    ES.SelectionInStream(v.group, |v.store.stream|, lines);
    var start, stop := CycleStart(0, lines), CycleStop(0);
    RunOne(l, max, start);
    var l1 := Next(l, max, start);
    var middle := LinesOnTheLedger(t, l1, max, v, 0, lines, turns, |lines|, p);
    var l2 := Run(l1, max, middle);
    RunOne(l2, max, stop);
    RunAppend(l, max, [start], middle);
    RunAppend(l, max, [start] + middle, [stop]);
    actions := [start] + middle + [stop];
    assert actions[1..] == middle + [stop];
    assert Next(l2, max, stop).cycles == map[];
    hide ES.ClaimEffect;
  }

  // ------------------------------------------------------------------------------ any sequence of calls

  /** What happens to the stream and the group: an entry is added, the read loop turns, or a claim cycle runs. */
  datatype Call =
    | Added(fields: seq<string>)
    | ReadTurn(count: nat, read: P.Reply, maintenant: string, handlings: nat -> ES.Handling)
    | ClaimCycle(lines: seq<Selected>, turns: nat -> ES.Turn)

  ghost function CallEffect(t: Text, max: nat, v: ES.View, call: Call): (v': ES.View)
    requires CG.Partitions(v.group, |v.store.stream|)
    ensures |v'.store.stream| >= |v.store.stream|
  {
    match call
    case Added(fields) => v.(store := v.store.(stream := v.store.stream + [fields]))
    case ReadTurn(count, read, maintenant, handlings) => ES.ReadEffect(t, v, count, read, maintenant, handlings)
    case ClaimCycle(lines, turns) =>
      if IsSelection(v.group, lines) then ES.ClaimCycleEffect(t, v, lines, max, turns) else v
  }

  /** The calls of `handleMessage` for p. */
  ghost function CallsOf(t: Text, max: nat, v: ES.View, call: Call, p: nat): nat
    requires CG.Partitions(v.group, |v.store.stream|)
  {
    match call
    case Added(_) => 0
    case ReadTurn(count, read, _, _) =>
      if read == P.Done && v.group.delivered <= p < CG.Read(v.group, |v.store.stream|, count).delivered then 1 else 0
    case ClaimCycle(lines, turns) =>
      if IsSelection(v.group, lines) then
        ES.SelectionInStream(v.group, |v.store.stream|, lines);
        CycleCalls(t, v, lines, max, turns, |lines|, p)
      else 0
  }

  lemma ReadTurnOnTheLedger(t: Text, l: Ledger, max: nat, v: ES.View, count: nat, read: P.Reply, maintenant: string,
                            handlings: nat -> ES.Handling, p: nat)
    returns (actions: seq<Action>)
    requires Matches(l, v) && CG.Partitions(v.group, |v.store.stream|)
    ensures var l' := Run(l, max, actions); var call := ReadTurn(count, read, maintenant, handlings);
            && Matches(l', ES.ReadEffect(t, v, count, read, maintenant, handlings)) && l'.cycles == l.cycles
            && Count(l'.handled, p) == Count(l.handled, p) + CallsOf(t, max, v, call, p) && NoStart(actions)
  {
    actions := [];
    if P.Applied(read) {
      var length, g := |v.store.stream|, v.group;
      var g' := CG.Read(g, length, count);
      var n := g'.delivered - g.delivered;
      assert CG.Read(g, length, n) == g';
      ReadsOnTheLedger(l, max, n);
      actions := Reads(n);
      if read == P.Done {
        var l1, v1 := Run(l, max, Reads(n)), v.(group := g');
        var more := HandleAllOnTheLedger(t, l1, max, v1, g.delivered, g'.delivered, maintenant, handlings);
        RunAppend(l, max, Reads(n), more);
        actions := Reads(n) + more;
        hide ES.HandleAll;
        hide Next;
      }
    }
  }

  lemma CallOnTheLedger(t: Text, l: Ledger, max: nat, v: ES.View, call: Call, p: nat) returns (actions: seq<Action>)
    requires Matches(l, v) && l.cycles == map[] && CG.Partitions(v.group, |v.store.stream|)
    ensures var l' := Run(l, max, actions);
            && Matches(l', CallEffect(t, max, v, call)) && l'.cycles == map[]
            && Count(l'.handled, p) == Count(l.handled, p) + CallsOf(t, max, v, call, p)
            && (actions != [] ==> NoStart(actions[1..]))
  {
    match call {
      case Added(_) =>
        RunOne(l, max, Append);
        actions := [Append];
      case ReadTurn(count, read, maintenant, handlings) =>
        actions := ReadTurnOnTheLedger(t, l, max, v, count, read, maintenant, handlings, p);
        hide ES.ReadEffect;
      case ClaimCycle(lines, turns) =>
        actions := [];
        if IsSelection(v.group, lines) {
          actions := ClaimCycleOnTheLedger(t, l, max, v, lines, turns, p);
          hide ES.ClaimCycleEffect;
        }
    }
  }

  /** Appending calls that start at most one cycle, and none before the others are over. */
  lemma StillNoOverlap(max: nat, first: seq<Action>, rest: seq<Action>)
    requires NoOverlap(max, first)
    requires rest != [] ==> NoStart(rest[1..]) && (rest[0].CycleStart? ==> Run(INIT, max, first).cycles == map[])
    ensures NoOverlap(max, first + rest)
  {
    hide Next;
    var all := first + rest;
    forall i | |first| < i < |all| ensures !all[i].CycleStart? {
      assert all[i] == rest[1..][i - |first| - 1];
    }
    forall i | 0 <= i < |all| && all[i].CycleStart? ensures Run(INIT, max, all[..i]).cycles.Keys <= {all[i].c} {
      if i < |first| {
        assert all[..i] == first[..i] && all[i] == first[i];
      } else {
        assert i == |first| && all[..i] == first;
      }
    }
  }

  /** The view after some calls, and how often they called `handleMessage` for p. */
  datatype Account = Account(view: ES.View, calls: nat)

  const EMPTY_VIEW := ES.View(P.Store(map[], [], [], map[]), CG.EMPTY)

  ghost function After(t: Text, max: nat, calls: seq<Call>, p: nat): (a: Account)
    ensures CG.Partitions(a.view.group, |a.view.store.stream|)
  {
    if calls == [] then Account(EMPTY_VIEW, 0)
    else
      var before, last := After(t, max, calls[..|calls| - 1], p), calls[|calls| - 1];
      CallKeepsPartition(t, max, before.view, last);
      Account(CallEffect(t, max, before.view, last), before.calls + CallsOf(t, max, before.view, last, p))
  }

  /** A ledger run gives the group after a call, and the ledger keeps the group in order. */
  lemma CallKeepsPartition(t: Text, max: nat, v: ES.View, call: Call)
    requires CG.Partitions(v.group, |v.store.stream|)
    ensures var v' := CallEffect(t, max, v, call); CG.Partitions(v'.group, |v'.store.stream|)
  {
    var l := Ledger(|v.store.stream|, v.group, map[], map[], map[], map[]);
    var actions := CallOnTheLedger(t, l, max, v, call, 0);
    RunKeepsPartition(l, max, actions);
    hide CallEffect;
  }

  lemma {:induction false} RunKeepsPartition(l: Ledger, max: nat, actions: seq<Action>)
    requires CG.Partitions(l.group, l.length)
    ensures var l' := Run(l, max, actions); CG.Partitions(l'.group, l'.length)
    decreases |actions|
  {
    if actions != [] {
      var n := |actions| - 1;
      RunKeepsPartition(l, max, actions[..n]);
      StepKeepsPartition(Run(l, max, actions[..n]), max, actions[n]);
    }
  }

  lemma StepKeepsPartition(l: Ledger, max: nat, a: Action)
    requires CG.Partitions(l.group, l.length)
    ensures CG.Partitions(Next(l, max, a).group, Next(l, max, a).length)
  {
    var q := if (a.CycleMove? || a.CycleClaim?) && a.c in l.cycles && l.cycles[a.c] != [] then l.cycles[a.c][0].p
             else if a.Acknowledge? then a.p else 0;
    CG.PartitionsKept(l.group, l.length, l.length + 1, 1, q);
    hide CG.Partitions;
    hide CG.Ack;
    hide CG.Claim;
    hide CG.Read;
  }

  /** Any sequence of calls is a run of the ledger whose cycles do not overlap. */
  lemma {:induction false} CallsOnTheLedger(t: Text, max: nat, calls: seq<Call>, p: nat) returns (actions: seq<Action>)
    ensures var l := Run(INIT, max, actions); var a := After(t, max, calls, p);
            && Matches(l, a.view) && l.cycles == map[] && Count(l.handled, p) == a.calls && NoOverlap(max, actions)
    decreases |calls|
  {
    actions := [];
    if calls != [] {
      var n := |calls| - 1;
      actions := CallsOnTheLedger(t, max, calls[..n], p);
      var more := CallOnTheLedger(t, Run(INIT, max, actions), max, After(t, max, calls[..n], p).view, calls[n], p);
      RunAppend(INIT, max, actions, more);
      StillNoOverlap(max, actions, more);
      actions := actions + more;
      hide CallEffect;
      hide CallsOf;
      hide Next;
      hide NoOverlap;
    }
  }

  /** However the calls end and whatever fails, `handleMessage` is called at most max + 1 times for an entry. */
  lemma HandleMessageIsBounded(t: Text, max: nat, calls: seq<Call>, p: nat)
    ensures After(t, max, calls, p).calls <= max + 1
  {
    var actions := CallsOnTheLedger(t, max, calls, p);
    HandledAtMost(max, actions, p);
    hide After;
    hide Run;
    hide NoOverlap;
  }
}
