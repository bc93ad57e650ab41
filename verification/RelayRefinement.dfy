/**
 * The calls made of the outbox relay, while its status updates work, are moves of the progress model: the
 * waiting bound of RelayProgress is a bound on the cycles of the service.
 */
module RelayRefinement {
  import opened Prelude
  import opened StreamCodec
  import opened Pipeline
  import opened RelayProgress
  import PipelineRefinement
  import ES = EventServices

  /** A use case inserts an event, `runCycle` goes through its batch, or the sweep runs. */
  datatype Call =
    | Inserted(event: Event, creeLe: int)
    | CycleRun(lot: seq<Event>, attempts: nat -> ES.Attempt)
    | SweepRun

  lemma {:induction false} CycleKeepsRows(t: Text, v: Store, lot: seq<Event>, attempts: nat -> ES.Attempt, n: nat)
    requires n <= |lot|
    ensures ES.CycleEffect(t, v, lot, attempts, n).store.outbox.Keys == v.outbox.Keys
  {
    if n > 0 {
      CycleKeepsRows(t, v, lot, attempts, n - 1);
    }
  }

  function CallEffect(t: Text, v: Store, m: nat, call: Call): (r: Store)
    ensures v.outbox.Keys <= r.outbox.Keys
  {
    match call
    case Inserted(e, creeLe) => InsertEvent(v, e, creeLe)
    case CycleRun(lot, attempts) =>
      CycleKeepsRows(t, v, lot, attempts, |lot|);
      ES.CycleEffect(t, v, lot, attempts, |lot|).store
    case SweepRun => MarkPermanentlyFailed(v, m)
  }

  function MoveOf(call: Call): Move {
    match call
    case Inserted(e, creeLe) => Added(e.id, OutboxRow(e, EnAttente, 0, creeLe))
    case CycleRun(lot, attempts) => Move.Cycle(ES.Ids(lot), PipelineRefinement.Relayed(lot, attempts, |lot|))
    case SweepRun => Move.Sweep
  }

  function Moves(calls: seq<Call>): seq<Move> {
    if calls == [] then [] else [MoveOf(calls[0])] + Moves(calls[1..])
  }

  /**
   * What RunCycle guarantees of its batch, when XADD may fail but the two status updates do not; at most
   * k cycles between sweeps; and new events that sort after x.
   */
  ghost predicate Working(v: Store, c: nat, x: string, b: nat, k: nat, call: Call)
    requires x in v.outbox
  {
    match call
    case Inserted(e, creeLe) => e.id !in v.outbox && creeLe > v.outbox[x].creeLe
    case CycleRun(lot, attempts) =>
      && c < k && IsOldestBatch(v.outbox, b, ES.Ids(lot))
      && (forall e :: e in lot ==> e.id in v.outbox)
      && (forall i :: attempts(i).mark == Done && attempts(i).fail == Done)
    case SweepRun => true
  }

  ghost predicate WorkingCalls(t: Text, v: Store, c: nat, x: string, b: nat, m: nat, k: nat, calls: seq<Call>)
    requires x in v.outbox
    decreases |calls|
  {
    calls == [] ||
    (Working(v, c, x, b, k, calls[0])
     && WorkingCalls(t, CallEffect(t, v, m, calls[0]), Since(c, MoveOf(calls[0])), x, b, m, k, calls[1..]))
  }

  lemma DistinctIds(rows: Table, b: nat, lot: seq<Event>)
    requires IsOldestBatch(rows, b, ES.Ids(lot))
    ensures forall i, j :: 0 <= i < j < |lot| ==> lot[i].id != lot[j].id
  {
    forall i, j | 0 <= i < j < |lot| ensures lot[i].id != lot[j].id {
      assert ES.Ids(lot)[i] == lot[i].id && ES.Ids(lot)[j] == lot[j].id;
    }
  }

  lemma CallIsAMove(t: Text, v: Store, c: nat, x: string, b: nat, m: nat, k: nat, call: Call)
    requires x in v.outbox && Working(v, c, x, b, k, call)
    ensures CallEffect(t, v, m, call).outbox == Apply(v.outbox, m, MoveOf(call))
    ensures Possible(v.outbox, c, x, b, k, MoveOf(call))
  {
    match call {
      case Inserted(e, creeLe) =>
      case CycleRun(lot, attempts) =>
        DistinctIds(v.outbox, b, lot);
        PipelineRefinement.CycleIsAMove(t, v, lot, attempts, m, |lot|);
        assert lot[..|lot|] == lot;
        hide ES.CycleEffect;
        hide IsOldestBatch;
      case SweepRun =>
    }
  }

  /** A sequence of working calls is a possible trace of the progress model. */
  lemma {:induction false} CallsAreATrace(t: Text, v: Store, c: nat, x: string, b: nat, m: nat, k: nat, calls: seq<Call>)
    requires x in v.outbox && WorkingCalls(t, v, c, x, b, m, k, calls)
    ensures PossibleTrace(v.outbox, c, x, b, m, k, Moves(calls))
    decreases |calls|
  {
    if calls != [] {
      var v' := CallEffect(t, v, m, calls[0]);
      CallIsAMove(t, v, c, x, b, m, k, calls[0]);
      CallsAreATrace(t, v', Since(c, MoveOf(calls[0])), x, b, m, k, calls[1..]);
      assert Moves(calls)[0] == MoveOf(calls[0]) && Moves(calls)[1..] == Moves(calls[1..]);
      hide CallEffect;
      hide MoveOf;
      hide Apply;
      hide Possible;
      hide Working;
    }
  }

  function CyclesRun(calls: seq<Call>): nat {
    if calls == [] then 0 else (if calls[0].CycleRun? then 1 else 0) + CyclesRun(calls[1..])
  }

  lemma {:induction false} MovesAreCalls(calls: seq<Call>)
    ensures |Moves(calls)| == |calls| && Cycles(Moves(calls)) == CyclesRun(calls)
    ensures forall i :: 0 <= i < |calls| ==> Moves(calls)[i] == MoveOf(calls[i])
  {
    hide MoveOf;
    if calls != [] {
      MovesAreCalls(calls[1..]);
      assert Moves(calls)[1..] == Moves(calls[1..]);
      assert calls[0].CycleRun? <==> MoveOf(calls[0]).Cycle? by { MoveKind(calls[0]); }
    }
  }

  lemma MoveKind(call: Call)
    ensures call.CycleRun? <==> MoveOf(call).Cycle?
  {
  }

  /**
   * The service attempts a pending row with r older pending rows within floor(r * (m + k - 1) / b) + 1 of
   * its cycles, however often XADD fails for the older rows: some cycle's batch holds the row.
   */
  lemma ServiceAttemptsInTime(t: Text, v: Store, c: nat, x: string, b: nat, m: nat, k: nat, calls: seq<Call>) returns (i: nat)
    requires b >= 1 && k >= 1 && c <= k
    requires x in PendingIds(v.outbox) && v.outbox[x].tentatives < m && WorkingCalls(t, v, c, x, b, m, k, calls)
    requires CyclesRun(calls) >= |Older(v.outbox, x)| * (m + k - 1) / b + 1
    ensures i < |calls| && calls[i].CycleRun? && x in ES.Ids(calls[i].lot)
  {
    CallsAreATrace(t, v, c, x, b, m, k, calls);
    MovesAreCalls(calls);
    hide Moves;
    hide WorkingCalls;
    AttemptedInTime(v.outbox, c, x, b, m, k, Moves(calls));
    i :| 0 <= i < |calls| && Moves(calls)[i].Cycle? && x in Moves(calls)[i].lot;
    MoveKind(calls[i]);
  }
}
