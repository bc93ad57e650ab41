/**
 * How long an outbox row can wait for the relay: batches of the oldest pending rows, retries, and the
 * periodic sweep of rows that failed too often
 * (src/common/kernel-infrastructure/outbox/outbox-relay.service.ts, runCycle and sweepPermanentFailures;
 * src/common/kernel-infrastructure/outbox/outbox-event.repository.ts, findPendingBatch).
 */
module RelayProgress {
  import opened Prelude
  import opened Pipeline

  type Table = map<string, OutboxRow>

  function PendingIds(rows: Table): set<string> {
    set id | id in rows && rows[id].statut == EnAttente
  }

  /** A reply of `findPendingBatch(limit)`: the oldest pending rows, oldest first, ties in any order. */
  ghost predicate IsOldestBatch(rows: Table, limit: nat, lot: seq<string>) {
    && (forall i, j :: 0 <= i < j < |lot| ==> lot[i] != lot[j])
    && (forall i :: 0 <= i < |lot| ==> lot[i] in PendingIds(rows))
    && |lot| == (if |PendingIds(rows)| <= limit then |PendingIds(rows)| else limit)
    && (forall i, j :: 0 <= i < j < |lot| ==> rows[lot[i]].creeLe <= rows[lot[j]].creeLe)
    && (forall id, other :: id in lot && other in PendingIds(rows) && other !in lot ==>
          rows[id].creeLe <= rows[other].creeLe)
  }

  /** A row after an attempt that succeeded or failed, its status being updated in both cases. */
  function Attempted(row: OutboxRow, published: bool): OutboxRow {
    if published then row.(statut := Publie) else row.(tentatives := row.tentatives + 1)
  }

  datatype Move =
    | Added(id: string, row: OutboxRow)
    | Cycle(lot: seq<string>, published: set<string>)
    | Sweep

  function Apply(rows: Table, m: nat, e: Move): Table {
    match e
    case Added(id, row) => rows[id := row]
    case Cycle(lot, published) =>
      map id | id in rows :: if id in lot then Attempted(rows[id], id in published) else rows[id]
    case Sweep => map id | id in rows :: Swept(rows[id], m)
  }

  /** Cycles completed since the last sweep. */
  function Since(c: nat, e: Move): nat {
    if e.Cycle? then c + 1 else if e.Sweep? then 0 else c
  }

  /** What can happen, with batches of b rows, at most k cycles between sweeps and no row older than x added. */
  ghost predicate Possible(rows: Table, c: nat, x: string, b: nat, k: nat, e: Move)
    requires x in rows
  {
    match e
    case Added(id, row) =>
      id !in rows && row.statut == EnAttente && row.tentatives == 0 && row.creeLe > rows[x].creeLe
    case Cycle(lot, published) => c < k && IsOldestBatch(rows, b, lot)
    case Sweep => true
  }

  ghost predicate PossibleTrace(rows: Table, c: nat, x: string, b: nat, m: nat, k: nat, trace: seq<Move>)
    requires x in rows
    decreases |trace|
  {
    trace == [] ||
    (Possible(rows, c, x, b, k, trace[0])
     && PossibleTrace(Apply(rows, m, trace[0]), Since(c, trace[0]), x, b, m, k, trace[1..]))
  }

  function Cycles(trace: seq<Move>): nat {
    if trace == [] then 0 else (if trace[0].Cycle? then 1 else 0) + Cycles(trace[1..])
  }

  ghost predicate Tries(trace: seq<Move>, x: string) {
    exists i :: 0 <= i < |trace| && trace[i].Cycle? && x in trace[i].lot
  }

  /** The pending rows that a batch may prefer to x. */
  function Older(rows: Table, x: string): set<string>
    requires x in rows
  {
    set y | y in rows && y != x && rows[y].statut == EnAttente && rows[y].creeLe <= rows[x].creeLe
  }

  // ------------------------------------------------------------------------ attempts left to older rows

  /** How many more times a pending row can be attempted before a sweep must have removed it. */
  function Left(row: OutboxRow, c: nat, m: nat, k: nat): nat {
    if row.tentatives < m && k >= 1 then (m - row.tentatives) + (k - 1)
    else if c <= k then k - c
    else 0
  }

  function LeftMap(rows: Table, c: nat, m: nat, k: nat): map<string, nat> {
    map id | id in rows :: Left(rows[id], c, m, k)
  }

  ghost function Sum(s: set<string>, f: map<string, nat>): nat
    requires s <= f.Keys
  {
    if s == {} then 0 else var x :| x in s; f[x] + Sum(s - {x}, f)
  }

  lemma {:induction false} SumPick(s: set<string>, f: map<string, nat>, x: string)
    requires s <= f.Keys && x in s
    ensures Sum(s, f) == f[x] + Sum(s - {x}, f)
  {
    var y :| y in s && Sum(s, f) == f[y] + Sum(s - {y}, f);
    if y != x {
      SumPick(s - {y}, f, x);
      SumPick(s - {x}, f, y);
      assert s - {y} - {x} == s - {x} - {y};
    }
  }

  /** Dropping rows and lowering counts, the counts of `tried` by one at least. */
  lemma {:induction false} SumLowered(s: set<string>, s': set<string>, f: map<string, nat>, f': map<string, nat>,
                                     tried: set<string>)
    requires s <= f.Keys && s' <= f'.Keys && s' <= s && tried <= s
    requires forall y :: y in s' ==> f'[y] <= f[y]
    requires forall y :: y in tried ==> f[y] >= 1 && (y in s' ==> f'[y] < f[y])
    ensures Sum(s', f') + |tried| <= Sum(s, f)
  {
    if s != {} {
      var x :| x in s;
      SumPick(s, f, x);
      if x in s' { SumPick(s', f', x); } else { assert s' - {x} == s'; }
      SumLowered(s - {x}, s' - {x}, f, f', tried - {x});
      if x in tried { assert |tried| == |tried - {x}| + 1; } else { assert tried - {x} == tried; }
    }
  }

  lemma {:induction false} SumAtMost(s: set<string>, f: map<string, nat>, bound: nat)
    requires s <= f.Keys
    requires forall y :: y in s ==> f[y] <= bound
    ensures Sum(s, f) <= |s| * bound
  {
    if s != {} {
      var x :| x in s;
      SumPick(s, f, x);
      SumAtMost(s - {x}, f, bound);
      var n := |s - {x}|;
      assert |s| == n + 1;
      OneMore(n, bound);
    }
  }

  /** A batch that leaves x out is full, and made of rows older than x. */
  lemma BatchWithout(rows: Table, x: string, b: nat, lot: seq<string>)
    requires x in rows && x in PendingIds(rows) && IsOldestBatch(rows, b, lot) && x !in lot
    ensures |set id | id in lot| == b
    ensures (set id | id in lot) <= Older(rows, x)
  {
    var ids := set id | id in lot;
    DistinctSize(lot);
    if |PendingIds(rows)| <= b {
      assert ids <= PendingIds(rows) - {x};
      SubsetSize(ids, PendingIds(rows) - {x});
      assert false;
    }
  }

  lemma {:induction false} DistinctSize(lot: seq<string>)
    requires forall i, j :: 0 <= i < j < |lot| ==> lot[i] != lot[j]
    ensures |set id | id in lot| == |lot|
  {
    if lot != [] {
      var init, last := lot[..|lot| - 1], lot[|lot| - 1];
      DistinctSize(init);
      assert (set id | id in lot) == (set id | id in init) + {last};
      assert last !in init;
    }
  }

  lemma {:induction false} SubsetSize<T>(a: set<T>, b: set<T>)
    requires a <= b
    ensures |a| <= |b|
  {
    if a != {} {
      var x :| x in a;
      SubsetSize(a - {x}, b - {x});
    }
  }

  /** One move that does not try x costs the older rows what it attempts. */
  lemma MoveLowers(rows: Table, c: nat, x: string, b: nat, m: nat, k: nat, e: Move)
    requires x in PendingIds(rows) && rows[x].tentatives < m && c <= k && 1 <= m
    requires Possible(rows, c, x, b, k, e) && !(e.Cycle? && x in e.lot)
    ensures var rows' := Apply(rows, m, e);
            && x in PendingIds(rows') && rows'[x] == rows[x] && Since(c, e) <= k
            && Older(rows', x) <= LeftMap(rows', Since(c, e), m, k).Keys
            && Sum(Older(rows', x), LeftMap(rows', Since(c, e), m, k)) + (if e.Cycle? then b else 0)
               <= Sum(Older(rows, x), LeftMap(rows, c, m, k))
  {
    var rows', c' := Apply(rows, m, e), Since(c, e);
    var tried: set<string> := if e.Cycle? then set id | id in e.lot else {};
    if e.Cycle? { BatchWithout(rows, x, b, e.lot); }
    var f, f' := LeftMap(rows, c, m, k), LeftMap(rows', c', m, k);
    hide IsOldestBatch;
    assert Older(rows', x) <= Older(rows, x);
    SumLowered(Older(rows, x), Older(rows', x), f, f', tried);
  }

  lemma {:induction false} UntriedCycles(rows: Table, c: nat, x: string, b: nat, m: nat, k: nat, trace: seq<Move>)
    requires x in PendingIds(rows) && rows[x].tentatives < m && c <= k
    requires PossibleTrace(rows, c, x, b, m, k, trace) && !Tries(trace, x)
    ensures Cycles(trace) * b <= Sum(Older(rows, x), LeftMap(rows, c, m, k))
    decreases |trace|
  {
    if trace != [] {
      var e, rest := trace[0], trace[1..];
      assert !(e.Cycle? && x in e.lot);
      forall i | 0 <= i < |rest| && rest[i].Cycle? ensures x !in rest[i].lot {
        assert rest[i] == trace[i + 1];
      }
      MoveLowers(rows, c, x, b, m, k, e);
      hide Apply;
      hide LeftMap;
      hide Older;
      hide Possible;
      hide PendingIds;
      UntriedCycles(Apply(rows, m, e), Since(c, e), x, b, m, k, rest);
      CyclesCons(trace, b);
    }
  }

  lemma CyclesCons(trace: seq<Move>, b: nat)
    requires trace != []
    ensures Cycles(trace) * b == (if trace[0].Cycle? then b else 0) + Cycles(trace[1..]) * b
  {
    OneMore(Cycles(trace[1..]), b);
  }

  /**
   * A pending row with r older pending rows is attempted within floor(r * (m + k - 1) / b) + 1 cycles,
   * however often the older rows fail.
   */
  lemma AttemptedInTime(rows: Table, c: nat, x: string, b: nat, m: nat, k: nat, trace: seq<Move>)
    requires b >= 1 && k >= 1 && c <= k
    requires x in PendingIds(rows) && rows[x].tentatives < m
    requires PossibleTrace(rows, c, x, b, m, k, trace)
    requires Cycles(trace) >= |Older(rows, x)| * (m + k - 1) / b + 1
    ensures Tries(trace, x)
  {
    if !Tries(trace, x) {
      UntriedCycles(rows, c, x, b, m, k, trace);
      var f := LeftMap(rows, c, m, k);
      SumAtMost(Older(rows, x), f, m + k - 1);
      Quotient(Cycles(trace), b, |Older(rows, x)| * (m + k - 1));
      assert false;
    }
  }
}
