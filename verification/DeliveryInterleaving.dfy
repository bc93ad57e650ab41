/**
 * The read loop and the claim timer of one consumer, interleaved at every `await`
 * (src/audit/infrastructure/messaging/redis-streams-consumer.service.ts). Any interleaving in which claim
 * cycles do not overlap is a run of the delivery ledger, and so obeys its bound.
 */
module DeliveryInterleaving {
  import opened Prelude
  import P = Pipeline
  import CG = ConsumerGroup
  import opened ClaimCycles
  import DR = DeliveryRefinement

  /** The read loop: the entries received and not begun, and the one whose `handleMessage` is under way. */
  datatype Reader = Reader(queue: seq<nat>, busy: Option<nat>)

  /** The claim cycle in progress: lines to deal with, the entry just claimed, the one being handled. */
  datatype Claimer = Idle | Claiming(lines: seq<Selected>, claimed: Option<nat>, busy: Option<nat>)

  /** `calls` counts the calls of `handleMessage` begun for each entry. */
  datatype Consumer = Consumer(length: nat, group: CG.Group, reader: Reader, claimer: Claimer, calls: map<nat, nat>)

  const START := Consumer(0, CG.EMPTY, Reader([], None), Idle, map[])

  /** One stretch between two `await`s, or one command of Redis. */
  datatype Stretch =
    | Added
    | Received(count: nat, reply: P.Reply)
    | ReaderBegins
    | ReaderEnds(acked: bool)
    | CycleBegins(lines: seq<Selected>)
    | TurnMoves(acked: bool, error: bool)
    | TurnClaims(idle: bool, reply: P.Reply)
    | ClaimerBegins
    | ClaimerEnds(acked: bool)
    | ClaimerLeaves

  function Positions(from: nat, to: nat): seq<nat>
    requires from <= to
  {
    seq(to - from, i requires 0 <= i < to - from => from + i)
  }

  /** The cycle is between two lines. */
  predicate AtALine(s: Consumer) {
    s.claimer.Claiming? && s.claimer.claimed == None && s.claimer.busy == None && s.claimer.lines != []
  }

  function ReceivedStep(s: Consumer, count: nat, reply: P.Reply): Consumer {
    if s.reader == Reader([], None) && P.Applied(reply) && s.group.delivered <= s.length then
      var g := CG.Read(s.group, s.length, count);
      s.(group := g, reader := if reply == P.Done then Reader(Positions(s.group.delivered, g.delivered), None) else s.reader)
    else s
  }

  function TurnMovesStep(s: Consumer, max: nat, acked: bool, error: bool): Consumer {
    if AtALine(s) && ShouldMoveToDeadLetter(s.claimer.lines[0].deliveryCount, max) then
      s.(group := if acked then CG.Ack(s.group, s.claimer.lines[0].p) else s.group,
         claimer := if error || !acked then Idle else Claiming(s.claimer.lines[1..], None, None))
    else s
  }

  function TurnClaimsStep(s: Consumer, max: nat, idle: bool, reply: P.Reply): Consumer {
    if AtALine(s) && !ShouldMoveToDeadLetter(s.claimer.lines[0].deliveryCount, max) then
      var p := s.claimer.lines[0].p;
      var claimed := P.Applied(reply) && idle && p in s.group.pending;
      s.(group := if claimed then CG.Claim(s.group, p) else s.group,
         claimer := if reply != P.Done then Idle
                    else Claiming(s.claimer.lines[1..], if claimed then Some(p) else None, None))
    else s
  }

  ghost function Step(s: Consumer, max: nat, a: Stretch): Consumer {
    match a
    case Added => s.(length := s.length + 1)
    case Received(count, reply) => ReceivedStep(s, count, reply)
    case ReaderBegins =>
      if s.reader.busy == None && s.reader.queue != []
      then s.(reader := Reader(s.reader.queue[1..], Some(s.reader.queue[0])), calls := Plus(s.calls, s.reader.queue[0])) else s
    case ReaderEnds(acked) =>
      if s.reader.busy.Some?
      then s.(reader := s.reader.(busy := None), group := if acked then CG.Ack(s.group, s.reader.busy.value) else s.group) else s
    case CycleBegins(lines) =>
      if s.claimer == Idle && IsSelection(s.group, lines) then s.(claimer := Claiming(lines, None, None)) else s
    case TurnMoves(acked, error) => TurnMovesStep(s, max, acked, error)
    case TurnClaims(idle, reply) => TurnClaimsStep(s, max, idle, reply)
    case ClaimerBegins =>
      if s.claimer.Claiming? && s.claimer.claimed.Some? && s.claimer.busy == None
      then s.(claimer := s.claimer.(claimed := None, busy := s.claimer.claimed), calls := Plus(s.calls, s.claimer.claimed.value))
      else s
    case ClaimerEnds(acked) =>
      if s.claimer.Claiming? && s.claimer.busy.Some?
      then s.(claimer := s.claimer.(busy := None), group := if acked then CG.Ack(s.group, s.claimer.busy.value) else s.group)
      else s
    case ClaimerLeaves => s.(claimer := Idle)
  }

  ghost function RunAll(max: nat, stretches: seq<Stretch>): Consumer {
    if stretches == [] then START
    else Step(RunAll(max, stretches[..|stretches| - 1]), max, stretches[|stretches| - 1])
  }

  /** What a read brings is queued in order, and its first entry is handled and acknowledged in two stretches more. */
  lemma ReceivedEntryIsHandled(s: Consumer, max: nat, count: nat)
    requires s.reader == Reader([], None) && CG.Partitions(s.group, s.length) && s.group.delivered < s.length && count > 0
    ensures var p := s.group.delivered;
            var n := if count <= s.length - p then count else s.length - p;
            var s1 := Step(s, max, Received(count, P.Done)); var s2 := Step(s1, max, ReaderBegins); var s3 := Step(s2, max, ReaderEnds(true));
            && |s1.reader.queue| == n && (forall i :: 0 <= i < n ==> s1.reader.queue[i] == p + i)
            && s2.reader.busy == Some(p) && s2.calls == Plus(s.calls, p)
            && s3.reader == Reader(s1.reader.queue[1..], None) && s3.calls == s2.calls
            && p in s3.group.acked && p !in s3.group.pending
  {
    CG.DeliveriesCounted(s.group, s.length, count, s.group.delivered, s.group.delivered);
  }

  /** The first line of a cycle is dealt with: moved when delivered too often, else claimed, handled and acknowledged. */
  lemma FirstLineIsDealtWith(s: Consumer, max: nat, lines: seq<Selected>)
    requires s.claimer == Idle && CG.Partitions(s.group, s.length) && IsSelection(s.group, lines) && lines != []
    ensures var p := lines[0].p;
            var s1 := Step(s, max, CycleBegins(lines));
            if lines[0].deliveryCount > max then
              var s2 := Step(s1, max, TurnMoves(true, false));
              && p in s2.group.acked && p !in s2.group.pending && s2.calls == s.calls && s2.claimer == Claiming(lines[1..], None, None)
            else
              var s2 := Step(s1, max, TurnClaims(true, P.Done));
              var s3 := Step(s2, max, ClaimerBegins); var s4 := Step(s3, max, ClaimerEnds(true));
              && p in s2.group.pending && s2.group.pending[p] == lines[0].deliveryCount + 1 && s3.calls == Plus(s.calls, p)
              && p in s4.group.acked && p !in s4.group.pending && s4.claimer == Claiming(lines[1..], None, None) && s4.calls == s3.calls
  {
    assert lines[0].p in s.group.pending;
    CG.DeliveriesCounted(s.group, s.length, 0, lines[0].p, lines[0].p);
  }

  // ------------------------------------------------------------------------------------- the ledger's view

  function One(o: Option<nat>, p: nat): nat {
    if o == Some(p) then 1 else 0
  }

  /** Deliveries of p that this consumer has received and not begun to handle. */
  function Unbegun(s: Consumer, p: nat): nat {
    multiset(s.reader.queue)[p] + if s.claimer.Claiming? then One(s.claimer.claimed, p) else 0
  }

  ghost predicate Owes(s: Consumer, l: Ledger) {
    forall p: nat :: Unbegun(s, p) <= Count(l.owed, p)
  }

  ghost predicate Seen(s: Consumer, l: Ledger) {
    && l.group == s.group && l.length == s.length && l.handled == s.calls
    && l.cycles == (if s.claimer.Claiming? then map[0 := s.claimer.lines] else map[])
    && CG.Partitions(s.group, s.length) && Owes(s, l)
  }

  function ActionsOf(s: Consumer, max: nat, a: Stretch): seq<Action> {
    match a
    case Added => [Append]
    case Received(count, reply) =>
      if s.reader == Reader([], None) && P.Applied(reply) && s.group.delivered <= s.length
      then DR.Reads(CG.Read(s.group, s.length, count).delivered - s.group.delivered) else []
    case ReaderBegins => if s.reader.busy == None && s.reader.queue != [] then [Handle(s.reader.queue[0])] else []
    case ReaderEnds(acked) => if s.reader.busy.Some? && acked then [Acknowledge(s.reader.busy.value)] else []
    case CycleBegins(lines) => if s.claimer == Idle then [CycleStart(0, lines)] else []
    case TurnMoves(acked, error) =>
      if !AtALine(s) then [] else [CycleMove(0, acked, error)]
    case TurnClaims(idle, reply) =>
      if !AtALine(s) then [] else [CycleClaim(0, idle && P.Applied(reply), reply != P.Done)]
    case ClaimerBegins =>
      if s.claimer.Claiming? && s.claimer.claimed.Some? && s.claimer.busy == None then [Handle(s.claimer.claimed.value)] else []
    case ClaimerEnds(acked) =>
      if s.claimer.Claiming? && s.claimer.busy.Some? && acked then [Acknowledge(s.claimer.busy.value)] else []
    case ClaimerLeaves => [CycleStop(0)]
  }

  lemma {:induction false} PositionsOnce(from: nat, to: nat, p: nat)
    requires from <= to
    ensures multiset(Positions(from, to))[p] == if from <= p < to then 1 else 0
  {
    if from < to {
      PositionsOnce(from, to - 1, p);
      assert Positions(from, to) == Positions(from, to - 1) + [to - 1];
    } else {
      assert Positions(from, to) == [];
    }
  }

  lemma ReceivedIsOwed(s: Consumer, s': Consumer, l: Ledger, l': Ledger, to: nat)
    requires Owes(s, l) && s.reader.queue == [] && s'.claimer == s.claimer && s.group.delivered <= to
    requires s'.reader.queue == [] || s'.reader.queue == Positions(s.group.delivered, to)
    requires DR.OneMoreEach(l.owed, l'.owed, s.group.delivered, to)
    ensures Owes(s', l')
  {
    forall p: nat ensures Unbegun(s', p) <= Count(l'.owed, p) {
      PositionsOnce(s.group.delivered, to, p);
      assert Unbegun(s, p) <= Count(l.owed, p);
      assert Count(l'.owed, p) == Count(l.owed, p) + if s.group.delivered <= p < to then 1 else 0;
    }
  }

  lemma ReceivedIsSeen(s: Consumer, l: Ledger, max: nat, count: nat, reply: P.Reply)
    requires Seen(s, l)
    ensures Seen(ReceivedStep(s, count, reply), Run(l, max, ActionsOf(s, max, Received(count, reply))))
  {
    if s.reader == Reader([], None) && P.Applied(reply) {
      var g := CG.Read(s.group, s.length, count);
      var n := g.delivered - s.group.delivered;
      CG.PartitionsKept(s.group, s.length, s.length, count, 0);
      assert CG.Read(s.group, s.length, n) == g;
      DR.ReadsOnTheLedger(l, max, n);
      hide CG.Read;
      hide Run;
      hide CG.Partitions;
      hide DR.Reads;
      hide DR.OneMoreEach;
      hide Owes;
      ReceivedIsOwed(s, ReceivedStep(s, count, reply), l, Run(l, max, DR.Reads(n)), g.delivered);
      hide Positions;
    }
  }

  lemma HeadOfQueue(queue: seq<nat>, p: nat)
    requires queue != []
    ensures multiset(queue)[p] == multiset(queue[1..])[p] + if queue[0] == p then 1 else 0
  {
    assert queue == [queue[0]] + queue[1..];
  }

  lemma ReaderIsSeen(s: Consumer, l: Ledger, max: nat, a: Stretch)
    requires Seen(s, l) && (a.ReaderBegins? || a.ReaderEnds?)
    ensures Seen(Step(s, max, a), Run(l, max, ActionsOf(s, max, a)))
  {
    var actions := ActionsOf(s, max, a);
    if actions != [] { DR.RunOne(l, max, actions[0]); }
    if a.ReaderBegins? && s.reader.queue != [] {
      var q := s.reader.queue[0];
      HeadOfQueue(s.reader.queue, q);
      assert Unbegun(s, q) <= Count(l.owed, q);
      if s.reader.busy == None {
        var s', l' := Step(s, max, a), Next(l, max, Handle(q));
        forall p: nat ensures Unbegun(s', p) <= Count(l'.owed, p) {
          assert Unbegun(s, p) <= Count(l.owed, p);
          HeadOfQueue(s.reader.queue, p);
        }
      }
    }
    if a.ReaderEnds? && s.reader.busy.Some? {
      CG.PartitionsKept(s.group, s.length, s.length, 0, s.reader.busy.value);
      hide CG.Ack;
      hide CG.Partitions;
      SameUnbegun(s, Step(s, max, a), l, Run(l, max, actions));
    }
  }

  lemma SameUnbegun(s: Consumer, s': Consumer, l: Ledger, l': Ledger)
    requires Owes(s, l) && l'.owed == l.owed && s'.reader.queue == s.reader.queue
    requires (if s'.claimer.Claiming? then s'.claimer.claimed else None) == (if s.claimer.Claiming? then s.claimer.claimed else None)
    ensures Owes(s', l')
  {
    forall p: nat ensures Unbegun(s', p) <= Count(l'.owed, p) {
      assert Unbegun(s, p) <= Count(l.owed, p);
    }
  }

  lemma FewerUnbegun(s: Consumer, s': Consumer, l: Ledger, l': Ledger)
    requires Owes(s, l) && l'.owed == l.owed && s'.reader.queue == s.reader.queue
    requires s'.claimer.Claiming? ==> s'.claimer.claimed == None
    ensures Owes(s', l')
  {
    forall p: nat ensures Unbegun(s', p) <= Count(l'.owed, p) {
      assert Unbegun(s, p) <= Count(l.owed, p);
    }
  }

  lemma TurnMovesIsSeen(s: Consumer, l: Ledger, max: nat, acked: bool, error: bool)
    requires Seen(s, l) && AtALine(s)
    ensures Seen(TurnMovesStep(s, max, acked, error), Next(l, max, CycleMove(0, acked, error)))
  {
    var s', l' := TurnMovesStep(s, max, acked, error), Next(l, max, CycleMove(0, acked, error));
    CG.PartitionsKept(s.group, s.length, s.length, 0, s.claimer.lines[0].p);
    FewerUnbegun(s, s', l, l');
    hide CG.Ack;
    hide CG.Partitions;
    hide Owes;
    assert l.cycles - {0} == map[];
    assert l.cycles[0 := s.claimer.lines[1..]] == map[0 := s.claimer.lines[1..]];
  }

  lemma ClaimIsOwed(s: Consumer, s': Consumer, l: Ledger, l': Ledger, p: nat)
    requires Owes(s, l) && AtALine(s) && s'.reader == s.reader && l'.owed == Plus(l.owed, p)
    requires s'.claimer.Claiming? ==> s'.claimer.claimed == Some(p)
    ensures Owes(s', l')
  {
    forall q: nat ensures Unbegun(s', q) <= Count(l'.owed, q) {
      assert Unbegun(s, q) <= Count(l.owed, q);
    }
  }

  lemma TurnClaimsIsSeen(s: Consumer, l: Ledger, max: nat, idle: bool, reply: P.Reply)
    requires Seen(s, l) && AtALine(s)
    ensures Seen(TurnClaimsStep(s, max, idle, reply), Next(l, max, CycleClaim(0, idle && P.Applied(reply), reply != P.Done)))
  {
    var p := s.claimer.lines[0].p;
    var s', l' := TurnClaimsStep(s, max, idle, reply), Next(l, max, CycleClaim(0, idle && P.Applied(reply), reply != P.Done));
    CG.PartitionsKept(s.group, s.length, s.length, 0, p);
    hide CG.Claim;
    hide CG.Partitions;
    hide Owes;
    assert l.cycles - {0} == map[];
    assert l.cycles[0 := s.claimer.lines[1..]] == map[0 := s.claimer.lines[1..]];
    if !ShouldMoveToDeadLetter(s.claimer.lines[0].deliveryCount, max) && P.Applied(reply) && idle && p in s.group.pending {
      ClaimIsOwed(s, s', l, l', p);
    } else if s' != s {
      FewerUnbegun(s, s', l, l');
    }
  }

  lemma ClaimerIsSeen(s: Consumer, l: Ledger, max: nat, a: Stretch)
    requires Seen(s, l) && (a.ClaimerBegins? || a.ClaimerEnds? || a.ClaimerLeaves? || a.CycleBegins? || a.Added?)
    ensures Seen(Step(s, max, a), Run(l, max, ActionsOf(s, max, a)))
  {
    var actions := ActionsOf(s, max, a);
    if actions != [] { DR.RunOne(l, max, actions[0]); }
    var s', l' := Step(s, max, a), Run(l, max, actions);
    match a {
      case ClaimerBegins =>
        if actions != [] {
          var q := s.claimer.claimed.value;
          assert Unbegun(s, q) <= Count(l.owed, q);
          forall p: nat ensures Unbegun(s', p) <= Count(l'.owed, p) {
            assert Unbegun(s, p) <= Count(l.owed, p);
          }
        }
      case ClaimerEnds(_) =>
        if s.claimer.Claiming? && s.claimer.busy.Some? {
          CG.PartitionsKept(s.group, s.length, s.length, 0, s.claimer.busy.value);
          SameUnbegun(s, s', l, l');
          hide CG.Ack;
          hide CG.Partitions;
        }
      case ClaimerLeaves =>
        FewerUnbegun(s, s', l, l');
        assert l.cycles - {0} == map[];
      case CycleBegins(_) => FewerUnbegun(s, if s.claimer == Idle then s' else s.(claimer := Idle), l, l');
      case Added => SameUnbegun(s, s', l, l');
    }
  }

  /** Each stretch is a run of the ledger, and starts a cycle only when none is in progress. */
  lemma StretchIsSeen(s: Consumer, l: Ledger, max: nat, a: Stretch)
    requires Seen(s, l)
    ensures Seen(Step(s, max, a), Run(l, max, ActionsOf(s, max, a)))
    ensures var actions := ActionsOf(s, max, a);
            actions != [] ==> DR.NoStart(actions[1..]) && (actions[0].CycleStart? ==> l.cycles == map[])
  {
    match a {
      case Received(count, reply) => ReceivedIsSeen(s, l, max, count, reply);
      case ReaderBegins => ReaderIsSeen(s, l, max, a);
      case ReaderEnds(_) => ReaderIsSeen(s, l, max, a);
      case TurnMoves(acked, error) =>
        if AtALine(s) {
          DR.RunOne(l, max, CycleMove(0, acked, error));
          TurnMovesIsSeen(s, l, max, acked, error);
        }
      case TurnClaims(idle, reply) =>
        if AtALine(s) {
          DR.RunOne(l, max, CycleClaim(0, idle && P.Applied(reply), reply != P.Done));
          TurnClaimsIsSeen(s, l, max, idle, reply);
        }
      case _ => ClaimerIsSeen(s, l, max, a);
    }
    hide Seen;
    hide Step;
  }

  /** Any interleaving is a run of the ledger without overlapping cycles. */
  lemma {:induction false} InterleavingIsALedgerRun(max: nat, stretches: seq<Stretch>) returns (actions: seq<Action>)
    ensures Seen(RunAll(max, stretches), Run(INIT, max, actions)) && NoOverlap(max, actions)
  {
    actions := [];
    if stretches == [] {
      assert Unbegun(START, 0) == 0;
    } else {
      var n := |stretches| - 1;
      actions := InterleavingIsALedgerRun(max, stretches[..n]);
      var s, l := RunAll(max, stretches[..n]), Run(INIT, max, actions);
      var more := ActionsOf(s, max, stretches[n]);
      StretchIsSeen(s, l, max, stretches[n]);
      DR.RunAppend(INIT, max, actions, more);
      DR.StillNoOverlap(max, actions, more);
      actions := actions + more;
      hide Seen;
      hide NoOverlap;
      hide Step;
    }
  }

  /** However reading and claiming interleave, `handleMessage` is called at most max + 1 times for an entry. */
  lemma InterleavedCallsAreBounded(max: nat, stretches: seq<Stretch>, p: nat)
    ensures Count(RunAll(max, stretches).calls, p) <= max + 1
  {
    var actions := InterleavingIsALedgerRun(max, stretches);
    HandledAtMost(max, actions, p);
    hide RunAll;
    hide Run;
    hide NoOverlap;
    hide Owes;
  }
}
