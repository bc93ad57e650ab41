/**
 * The relay, the audit consumer and the replay as they are written: objects that call Redis and
 * Postgres one call after the other. How each call ends is an argument (`Reply`). Every method is
 * proved equal to an effect on the stores, and PipelineRefinement proves every effect to be a run of
 * the pipeline's state machine.
 *
 * Sources: src/common/kernel-infrastructure/outbox/outbox-relay.service.ts,
 * src/common/kernel-infrastructure/outbox/outbox-event.repository.ts,
 * src/audit/infrastructure/messaging/redis-streams-consumer.service.ts,
 * src/audit/infrastructure/persistence/typeorm/orm-repositories.ts and
 * src/audit/application/use-cases/dead-letter.use-cases.ts.
 */
module EventServices {
  import opened Prelude
  import opened Redaction
  import opened StreamCodec
  import opened AuditJournal
  import opened Pipeline
  import opened RelayProgress
  import CG = ConsumerGroup
  import ClaimCycles

  // ------------------------------------------------------------------------------ effects, as values

  /** How the calls of one `relayOne` end. */
  datatype Attempt = Attempt(add: Reply, mark: Reply, fail: Reply)

  /** `relayOne`: XADD and mark as published, or on any error count a failed attempt. */
  function RelayOneEffect(t: Text, v: Store, e: Event, a: Attempt): Store {
    var v1 := After(a.add, v, AddEntry(t, v, e));
    var v2 := if a.add == Done then After(a.mark, v1, MarkPublished(v1, e.id)) else v1;
    if a.add == Done && a.mark == Done then v2 else After(a.fail, v2, MarkFailedAttempt(v2, e.id))
  }

  /** An error of the failure count itself leaves `relayOne` and ends the cycle. */
  predicate GoesOn(a: Attempt) {
    (a.add == Done && a.mark == Done) || a.fail == Done
  }

  datatype Progress = Progress(store: Store, alive: bool)

  /** The first n rows of a batch, up to the error that ends the cycle. */
  function CycleEffect(t: Text, v: Store, lot: seq<Event>, attempts: nat -> Attempt, n: nat): Progress
    requires n <= |lot|
  {
    if n == 0 then Progress(v, true)
    else
      var before := CycleEffect(t, v, lot, attempts, n - 1);
      if !before.alive then before
      else Progress(RelayOneEffect(t, before.store, lot[n - 1], attempts(n - 1)), GoesOn(attempts(n - 1)))
  }

  datatype View = View(store: Store, group: CG.Group)

  function AckIf(reply: Reply, g: CG.Group, p: nat): CG.Group {
    if Applied(reply) then CG.Ack(g, p) else g
  }

  /** How the calls made for one message end: the lookup, the insertion and XACK. */
  datatype Handling = Handling(lookup: Reply, insert: Reply, ack: Reply)

  /** `handleMessage`: process the entry at position p, acknowledge it unless something failed. */
  function HandleEffect(t: Text, v: View, p: nat, maintenant: string, h: Handling): View
    requires p < |v.store.stream|
  {
    if h.lookup != Done then v
    else match Process(t, AuditedIds(v.store.journal), ParseFields(v.store.stream[p], maintenant))
      case Rejected => v
      case AlreadyAudited => v.(group := AckIf(h.ack, v.group, p))
      case ToInsert(row) =>
        var v1 := v.(store := After(h.insert, v.store, InsertRow(v.store, row)));
        if h.insert == Done then v1.(group := AckIf(h.ack, v1.group, p)) else v1
  }

  /** How the calls of one move end: XRANGE, the insertion of the dead letter and XACK. */
  datatype Moving = Moving(fetch: Reply, save: Reply, ack: Reply)

  /** `moveEntryToDeadLetter`: archive the entry if possible, acknowledge it in any case. */
  function MoveEffect(t: Text, v: View, p: nat, tentatives: nat, maintenant: string, id: string, m: Moving): View
    requires p < |v.store.stream|
  {
    var letter := DeadLetterOf(t, ParseFields(v.store.stream[p], maintenant), tentatives);
    var store := if m.fetch == Done && letter.Some?
                 then After(m.save, v.store, PutLetter(v.store, id, letter.value)) else v.store;
    View(store, AckIf(m.ack, v.group, p))
  }

  /** The move returns normally: no call failed and the letter could be built. */
  predicate MovedQuietly(t: Text, v: View, p: nat, maintenant: string, m: Moving)
    requires p < |v.store.stream|
  {
    m.fetch == Done && m.save == Done && m.ack == Done
    && DeadLetterOf(t, ParseFields(v.store.stream[p], maintenant), 0).Some?
  }

  /** How the calls made for one line of a claim cycle end, and the fresh id of a dead letter. */
  datatype Turn = Turn(claim: Reply, idle: bool, handling: Handling, moving: Moving, letterId: string, maintenant: string)

  /** One line of a claim cycle: move the entry when it was delivered too often, else claim and handle it. */
  function TurnEffect(t: Text, v: View, line: ClaimCycles.Selected, max: nat, u: Turn): View
    requires line.p < |v.store.stream|
  {
    if ClaimCycles.ShouldMoveToDeadLetter(line.deliveryCount, max) then
      MoveEffect(t, v, line.p, line.deliveryCount, u.maintenant, u.letterId, u.moving)
    else
      var claimed := Applied(u.claim) && u.idle && line.p in v.group.pending;
      var v1 := if claimed then v.(group := CG.Claim(v.group, line.p)) else v;
      if u.claim == Done && claimed then HandleEffect(t, v1, line.p, u.maintenant, u.handling) else v1
  }

  predicate TurnGoesOn(t: Text, v: View, line: ClaimCycles.Selected, max: nat, u: Turn)
    requires line.p < |v.store.stream|
  {
    if ClaimCycles.ShouldMoveToDeadLetter(line.deliveryCount, max) then MovedQuietly(t, v, line.p, u.maintenant, u.moving)
    else u.claim == Done
  }

  datatype ClaimProgress = ClaimProgress(view: View, alive: bool)

  function ClaimEffect(t: Text, v: View, lines: seq<ClaimCycles.Selected>, max: nat, turns: nat -> Turn, n: nat)
    : (r: ClaimProgress)
    requires n <= |lines| && forall i :: 0 <= i < |lines| ==> lines[i].p < |v.store.stream|
    ensures r.view.store.stream == v.store.stream
  {
    if n == 0 then ClaimProgress(v, true)
    else
      var before := ClaimEffect(t, v, lines, max, turns, n - 1);
      if !before.alive then before
      else ClaimProgress(TurnEffect(t, before.view, lines[n - 1], max, turns(n - 1)),
                         TurnGoesOn(t, before.view, lines[n - 1], max, turns(n - 1)))
  }

  lemma SelectionInStream(g: CG.Group, length: nat, lines: seq<ClaimCycles.Selected>)
    requires CG.Partitions(g, length) && ClaimCycles.IsSelection(g, lines)
    ensures forall i :: 0 <= i < |lines| ==> lines[i].p < g.delivered <= length
  {
    forall i | 0 <= i < |lines| ensures lines[i].p < g.delivered {
      assert lines[i].p in g.pending;
    }
  }

  /** A claim cycle whose XPENDING returned these lines. */
  ghost function ClaimCycleEffect(t: Text, v: View, lines: seq<ClaimCycles.Selected>, max: nat, turns: nat -> Turn): View
    requires CG.Partitions(v.group, |v.store.stream|) && ClaimCycles.IsSelection(v.group, lines)
  {
    SelectionInStream(v.group, |v.store.stream|, lines);
    ClaimEffect(t, v, lines, max, turns, |lines|).view
  }

  /** `Broken` stands for whatever processing, or saving the letter, throws. */
  datatype ReplayError = NotFound | AlreadyReplayed | Broken

  /** How the calls of one replay end, and its time. */
  datatype Replay = Replay(lookup: Reply, insert: Reply, save: Reply, now: int)

  datatype ReplayOutcome = ReplayOutcome(store: Store, result: Result<(), ReplayError>)

  /** `ReplayDeadLetterUseCase`: process the letter's message, then mark the letter as replayed. */
  function ReplayEffect(t: Text, v: Store, id: string, r: Replay): ReplayOutcome {
    if id !in v.letters then ReplayOutcome(v, Err(NotFound))
    else if v.letters[id].rejoueLe.Some? then ReplayOutcome(v, Err(AlreadyReplayed))
    else if r.lookup != Done then ReplayOutcome(v, Err(Broken))
    else match Process(t, AuditedIds(v.journal), ReplayMessage(t, v.letters[id]))
      case Rejected => ReplayOutcome(v, Err(Broken))
      case AlreadyAudited => SaveReplayed(v, id, r)
      case ToInsert(row) =>
        var v1 := After(r.insert, v, InsertRow(v, row));
        if r.insert == Done then SaveReplayed(v1, id, r) else ReplayOutcome(v1, Err(Broken))
  }

  function SaveReplayed(v: Store, id: string, r: Replay): ReplayOutcome {
    ReplayOutcome(After(r.save, v, SetReplayed(v, id, r.now)), if r.save == Done then Ok(()) else Err(Broken))
  }

  // ------------------------------------------------------------------------------------- the stores

  /** The pending rows that failed often enough to be given up. */
  function Due(rows: Table, max: nat): set<string> {
    set id | id in rows && rows[id].statut == EnAttente && rows[id].tentatives >= max
  }

  /** The sweep gives up the pending rows with enough attempts, keeps the others, and counts what it gave up. */
  lemma SweepOutcome(rows: Table, max: nat)
    ensures var rows' := Apply(rows, max, Move.Sweep);
            && rows'.Keys == rows.Keys
            && (forall id :: id in rows ==>
                  rows'[id] == if rows[id].statut == EnAttente && rows[id].tentatives >= max
                               then OutboxRow(rows[id].event, Echec, rows[id].tentatives, rows[id].creeLe) else rows[id])
            && (forall id :: id in Due(rows, max) <==> id in rows && rows'[id] != rows[id])
            && (Due(rows, max) == {} <==> rows' == rows)
  {
    var rows' := Apply(rows, max, Move.Sweep);
    if Due(rows, max) == {} {
      forall id | id in rows ensures rows'[id] == rows[id] {
        assert id !in Due(rows, max);
      }
    } else {
      var id :| id in Due(rows, max);
      assert rows'[id] != rows[id];
    }
  }

  class OutboxTable {
    var rows: map<string, OutboxRow>

    constructor ()
      ensures rows == map[]
    {
      rows := map[];
    }

    method Insert(e: Event, creeLe: int)
      modifies this
      ensures e.id !in old(rows) ==> rows == old(rows)[e.id := OutboxRow(e, EnAttente, 0, creeLe)]
      ensures e.id in old(rows) ==> rows == old(rows)
    {
      if e.id !in rows {
        rows := rows[e.id := OutboxRow(e, EnAttente, 0, creeLe)];
      }
    }

    /** The `limit` oldest rows that await publication, oldest first; None when the query fails. */
    method FindPendingBatch(limit: nat, reply: Reply) returns (lot: Option<seq<Event>>)
      requires forall id :: id in rows ==> rows[id].event.id == id
      ensures lot.Some? <==> reply == Done
      ensures lot.Some? ==> IsOldestBatch(rows, limit, Ids(lot.value))
      ensures lot.Some? ==>
                forall e :: e in lot.value ==> e.id in rows && rows[e.id].event == e && rows[e.id].statut == EnAttente
    {
      if reply != Done { return None; }
      var ids := OldestPending(rows, limit);
      lot := Some(EventsOf(rows, ids));
      assert Ids(lot.value) == ids;
    }

    method MarkPublished(id: string, reply: Reply)
      modifies this
      ensures rows == if Applied(reply) && id in old(rows) then old(rows)[id := old(rows)[id].(statut := Publie)] else old(rows)
    {
      if Applied(reply) && id in rows {
        rows := rows[id := rows[id].(statut := Publie)];
      }
    }

    method MarkFailedAttempt(id: string, reply: Reply)
      modifies this
      ensures rows == if Applied(reply) && id in old(rows)
                      then old(rows)[id := old(rows)[id].(tentatives := old(rows)[id].tentatives + 1)] else old(rows)
    {
      if Applied(reply) && id in rows {
        rows := rows[id := rows[id].(tentatives := rows[id].tentatives + 1)];
      }
    }

    /** The sweep, and the number of rows it gave up; None when the update is reported as failed. */
    method MarkPermanentlyFailed(max: nat, reply: Reply) returns (affected: Option<nat>)
      modifies this
      ensures rows == if Applied(reply) then Apply(old(rows), max, Move.Sweep) else old(rows)
      ensures affected == if reply == Done then Some(|Due(old(rows), max)|) else None
    {
      affected := if reply == Done then Some(|Due(rows, max)|) else None;
      if Applied(reply) {
        rows := map id | id in rows :: Swept(rows[id], max);
      }
    }
  }

  function Ids(lot: seq<Event>): seq<string> {
    seq(|lot|, i requires 0 <= i < |lot| => lot[i].id)
  }

  function EventsOf(rows: Table, ids: seq<string>): (lot: seq<Event>)
    requires forall i :: 0 <= i < |ids| ==> ids[i] in rows
    ensures |lot| == |ids| && forall i :: 0 <= i < |ids| ==> lot[i] == rows[ids[i]].event
  {
    seq(|ids|, i requires 0 <= i < |ids| => rows[ids[i]].event)
  }

  lemma {:induction false} OldestExists(rows: Table, s: set<string>)
    requires s != {} && s <= rows.Keys
    ensures exists x :: x in s && forall y :: y in s ==> rows[x].creeLe <= rows[y].creeLe
  {
    var z :| z in s;
    if s == {z} {
      assert forall y :: y in s ==> y == z;
    } else {
      OldestExists(rows, s - {z});
      var x :| x in s - {z} && forall y :: y in s - {z} ==> rows[x].creeLe <= rows[y].creeLe;
      var m := if rows[z].creeLe < rows[x].creeLe then z else x;
      forall y | y in s ensures rows[m].creeLe <= rows[y].creeLe {
        if y != z { assert y in s - {z}; }
      }
    }
  }

  method OldestOf(rows: Table, s: set<string>) returns (x: string)
    requires s != {} && s <= rows.Keys
    ensures x in s && forall y :: y in s ==> rows[x].creeLe <= rows[y].creeLe
  {
    OldestExists(rows, s);
    x :| x in s && forall y :: y in s ==> rows[x].creeLe <= rows[y].creeLe;
  }

  /** Selection of the oldest pending rows, one by one. */
  method OldestPending(rows: Table, limit: nat) returns (ids: seq<string>)
    ensures IsOldestBatch(rows, limit, ids)
  {
    ids := [];
    var rest := PendingIds(rows);
    ghost var all := rest;
    while |ids| < limit && rest != {}
      invariant rest <= all == PendingIds(rows)
      invariant |ids| <= limit && |ids| + |rest| == |all|
      invariant forall i :: 0 <= i < |ids| ==> ids[i] in all && ids[i] !in rest
      invariant forall id :: id in all ==> id in rest || id in ids
      invariant forall i, j :: 0 <= i < j < |ids| ==> ids[i] != ids[j]
      invariant forall i, j :: 0 <= i < j < |ids| ==> rows[ids[i]].creeLe <= rows[ids[j]].creeLe
      invariant forall i, id :: 0 <= i < |ids| && id in rest ==> rows[ids[i]].creeLe <= rows[id].creeLe
      decreases rest
    {
      var x := OldestOf(rows, rest);
      ghost var before := ids;
      ids := ids + [x];
      rest := rest - {x};
      assert forall id :: id in before ==> id in ids;
      assert ids[|before|] == x;
    }
  }

  class RedisStream {
    var entries: seq<seq<string>>
    var group: CG.Group

    constructor ()
      ensures entries == [] && group == CG.EMPTY
    {
      entries, group := [], CG.EMPTY;
    }

    method XAdd(fields: seq<string>, reply: Reply)
      modifies this`entries
      ensures entries == if Applied(reply) then old(entries) + [fields] else old(entries)
    {
      if Applied(reply) {
        entries := entries + [fields];
      }
    }

    /** XREADGROUP: the positions handed out, none when the call fails. */
    method XReadGroup(count: nat, reply: Reply) returns (from: nat, to: nat)
      requires group.delivered <= |entries|
      modifies this`group
      ensures group == if Applied(reply) then CG.Read(old(group), |entries|, count) else old(group)
      ensures from == old(group).delivered && from <= to <= |entries|
      ensures to == if reply == Done then group.delivered else from
    {
      from := group.delivered;
      if Applied(reply) {
        group := CG.Read(group, |entries|, count);
      }
      to := if reply == Done then group.delivered else from;
    }

    /** XPENDING: some pending entries with their delivery counts, as `answer` has it; None when it fails. */
    method XPending(answer: seq<ClaimCycles.Selected>, reply: Reply) returns (lines: Option<seq<ClaimCycles.Selected>>)
      requires ClaimCycles.IsSelection(group, answer)
      ensures lines == if reply == Done then Some(answer) else None
      ensures lines.Some? ==> ClaimCycles.IsSelection(group, lines.value)
    {
      lines := if reply == Done then Some(answer) else None;
    }

    /** XCLAIM: whether the entry was handed over, which its idle time and its status decide. */
    method XClaim(p: nat, idle: bool, reply: Reply) returns (claimed: bool)
      modifies this`group
      ensures group == if Applied(reply) && idle && p in old(group).pending then CG.Claim(old(group), p) else old(group)
      ensures claimed <==> reply == Done && idle && p in old(group).pending
    {
      claimed := reply == Done && idle && p in group.pending;
      if Applied(reply) && idle && p in group.pending {
        group := CG.Claim(group, p);
      }
    }

    method XAck(p: nat, reply: Reply)
      modifies this`group
      ensures group == AckIf(reply, old(group), p)
    {
      if Applied(reply) {
        group := CG.Ack(group, p);
      }
    }
  }

  class AuditTable {
    var rows: seq<AuditRow>

    constructor ()
      ensures rows == []
    {
      rows := [];
    }

    method ExistsByEvenementId(id: string) returns (found: bool)
      ensures found <==> id in AuditedIds(rows)
    {
      found := false;
      for i := 0 to |rows|
        invariant found <==> exists j :: 0 <= j < i && rows[j].evenementId == id
      {
        if rows[i].evenementId == id { found := true; }
      }
    }

    /** `save`: a violation of the unique index is absorbed. */
    method Save(row: AuditRow, reply: Reply)
      modifies this
      ensures rows == if Applied(reply) then Insert(old(rows), row) else old(rows)
    {
      var known := ExistsByEvenementId(row.evenementId);
      if Applied(reply) && !known {
        rows := rows + [row];
      }
    }
  }

  class DeadLetterTable {
    var rows: map<string, DeadLetter>

    constructor ()
      ensures rows == map[]
    {
      rows := map[];
    }

    method Insert(id: string, d: DeadLetter, reply: Reply)
      modifies this
      ensures rows == if Applied(reply) && id !in old(rows) then old(rows)[id := d] else old(rows)
    {
      if Applied(reply) && id !in rows {
        rows := rows[id := d];
      }
    }

    method Replace(id: string, d: DeadLetter, reply: Reply)
      requires id in rows
      modifies this
      ensures rows == if Applied(reply) then old(rows)[id := d] else old(rows)
    {
      if Applied(reply) {
        rows := rows[id := d];
      }
    }
  }

  // ----------------------------------------------------------------------------------- the services

  class OutboxRelayService {
    const t: Text
    const outbox: OutboxTable
    const redis: RedisStream
    var stopped: bool
    var cycleEnCours: bool

    constructor (t: Text, outbox: OutboxTable, redis: RedisStream)
      ensures this.t == t && this.outbox == outbox && this.redis == redis
      ensures !stopped && !cycleEnCours
    {
      this.t, this.outbox, this.redis := t, outbox, redis;
      stopped, cycleEnCours := false, false;
    }

    ghost function Stored(): Store
      reads outbox, redis
    {
      Store(outbox.rows, redis.entries, [], map[])
    }

    method RelayOne(ligne: Event, a: Attempt) returns (normal: bool)
      modifies outbox, redis`entries
      ensures Stored() == RelayOneEffect(t, old(Stored()), ligne, a)
      ensures normal <==> GoesOn(a)
    {
      redis.XAdd(Fields(t, ligne), a.add);
      var failed := a.add != Done;
      if !failed {
        outbox.MarkPublished(ligne.id, a.mark);
        failed := a.mark != Done;
      }
      if failed {
        outbox.MarkFailedAttempt(ligne.id, a.fail);
      }
      normal := !failed || a.fail == Done;
    }

    /**
     * One cycle. `load` is how the query for the batch ends, `stopAt` the row before which the service is
     * found stopped, if any. The flag is released in every case; a second cycle asked for while one is in
     * progress does nothing.
     */
    method RunCycle(limit: nat, load: Reply, attempts: nat -> Attempt, stopAt: nat)
      returns (ghost lot: seq<Event>, ghost done: nat)
      requires forall id :: id in outbox.rows ==> outbox.rows[id].event.id == id
      modifies this`cycleEnCours, outbox, redis`entries
      ensures cycleEnCours == old(cycleEnCours)
      ensures old(stopped || cycleEnCours) || load != Done ==> Stored() == old(Stored()) && lot == []
      ensures !old(stopped || cycleEnCours) && load == Done ==>
                && IsOldestBatch(old(outbox.rows), limit, Ids(lot))
                && (forall e :: e in lot ==> e.id in old(outbox.rows) && old(outbox.rows)[e.id].event == e)
                && done <= |lot| && done == (if stopAt < |lot| then stopAt else |lot|)
                && Stored() == CycleEffect(t, old(Stored()), lot, attempts, done).store
    {
      hide RelayOneEffect;
      hide IsOldestBatch;
      hide GoesOn;
      lot, done := [], 0;
      if stopped || cycleEnCours { return; }
      cycleEnCours := true;
      var found := outbox.FindPendingBatch(limit, load);
      if found.None? {
        cycleEnCours := false;
        return;
      }
      var batch := found.value;
      lot := batch;
      done := if stopAt < |batch| then stopAt else |batch|;
      var i, alive := 0, true;
      while i < |batch| && i < stopAt && alive
        invariant 0 <= i <= done
        invariant cycleEnCours
        invariant CycleEffect(t, old(Stored()), lot, attempts, i) == Progress(Stored(), alive)
      {
        alive := RelayOne(batch[i], attempts(i));
        i := i + 1;
      }
      DeadCycle(t, old(Stored()), lot, attempts, i, done);
      cycleEnCours := false;
    }

    /** An error of the update does not escape; `alert` tells that rows were given up. */
    method SweepPermanentFailures(max: nat, reply: Reply) returns (alert: bool)
      modifies outbox
      ensures outbox.rows == if !stopped && Applied(reply) then Apply(old(outbox.rows), max, Move.Sweep) else old(outbox.rows)
      ensures alert <==> !stopped && reply == Done && Due(old(outbox.rows), max) != {}
    {
      if stopped { return false; }
      var affected := outbox.MarkPermanentlyFailed(max, reply);
      alert := affected.Some? && affected.value > 0;
    }
  }

  /** Once an error has ended a cycle, the rest of its batch has no effect. */
  lemma {:induction false} DeadCycle(t: Text, v: Store, lot: seq<Event>, attempts: nat -> Attempt, i: nat, n: nat)
    requires i <= n <= |lot| && (i < n ==> !CycleEffect(t, v, lot, attempts, i).alive)
    ensures CycleEffect(t, v, lot, attempts, n).store == CycleEffect(t, v, lot, attempts, i).store
    ensures i < n ==> !CycleEffect(t, v, lot, attempts, n).alive
  {
    hide RelayOneEffect;
    if i < n {
      DeadCycle(t, v, lot, attempts, i, n - 1);
    }
  }

  class RedisStreamsConsumerService {
    const t: Text
    const redis: RedisStream
    const audit: AuditTable
    const letters: DeadLetterTable
    var stopped: bool

    constructor (t: Text, redis: RedisStream, audit: AuditTable, letters: DeadLetterTable)
      ensures this.t == t && this.redis == redis && this.audit == audit && this.letters == letters && !stopped
    {
      this.t, this.redis, this.audit, this.letters := t, redis, audit, letters;
      stopped := false;
    }

    ghost function Seen(): View
      reads redis, audit, letters
    {
      View(Store(map[], redis.entries, audit.rows, letters.rows), redis.group)
    }

    /** `ProcessStreamEventUseCase.execute`: false when it throws. */
    method Process(m: StreamMessage, lookup: Reply, insert: Reply) returns (ok: bool)
      modifies audit
      ensures var verdict := AuditJournal.Process(t, AuditedIds(old(audit.rows)), m);
              && audit.rows == (if lookup == Done && verdict.ToInsert? && Applied(insert)
                                then Insert(old(audit.rows), verdict.row) else old(audit.rows))
              && (ok <==> lookup == Done && !verdict.Rejected? && (verdict.ToInsert? ==> insert == Done))
    {
      if m.outboxId == "" || m.typ == "" || lookup != Done { return false; }
      var dejaTraite := audit.ExistsByEvenementId(m.outboxId);
      if dejaTraite { return true; }
      var parsed, at := t.parse(m.chargeUtileBrute), t.fromIso(m.horodatage);
      if parsed.None? || !parsed.value.Obj? || at.None? { return false; }
      audit.Save(AuditRow(m.outboxId, m.typ, m.gsgOrgId, m.produitSource, at.value, RedactObject(parsed.value.entries)), insert);
      ok := insert == Done;
    }

    method HandleMessage(p: nat, fields: seq<string>, maintenant: string, h: Handling)
      requires p < |redis.entries| && fields == redis.entries[p]
      modifies audit, redis`group
      ensures Seen() == HandleEffect(t, old(Seen()), p, maintenant, h)
    {
      var message := ParseFieldsByLoop(fields, maintenant);
      var ok := Process(message, h.lookup, h.insert);
      if ok {
        redis.XAck(p, h.ack);
      }
    }

    /** The `finally` runs after an error too; false when the method throws. */
    method MoveEntryToDeadLetter(p: nat, tentatives: nat, maintenant: string, id: string, m: Moving) returns (ok: bool)
      requires p < |redis.entries|
      modifies letters, redis`group
      ensures Seen() == MoveEffect(t, old(Seen()), p, tentatives, maintenant, id, m)
      ensures ok <==> MovedQuietly(t, old(Seen()), p, maintenant, m)
    {
      ok := false;
      if m.fetch == Done {
        var message := ParseFieldsByLoop(redis.entries[p], maintenant);
        var letter := DeadLetterOf(t, message, tentatives);
        if letter.Some? {
          letters.Insert(id, letter.value, m.save);
          ok := m.save == Done;
        }
      }
      redis.XAck(p, m.ack);
      ok := ok && m.ack == Done;
    }

    /** One claim cycle: XPENDING, then its lines; an error ends it and does not escape. */
    method RunClaimCycle(answer: seq<ClaimCycles.Selected>, pending: Reply, max: nat, turns: nat -> Turn)
      requires CG.Partitions(redis.group, |redis.entries|) && ClaimCycles.IsSelection(redis.group, answer)
      modifies audit, letters, redis`group
      ensures stopped || pending != Done ==> Seen() == old(Seen())
      ensures !stopped && pending == Done ==> Seen() == ClaimCycleEffect(t, old(Seen()), answer, max, turns)
    {
      if stopped { return; }
      var reply := redis.XPending(answer, pending);
      if reply.Some? {
        SelectionInStream(redis.group, |redis.entries|, answer);
        ClaimLines(reply.value, max, turns);
      }
    }

    /** The lines in order, up to the error that ends the cycle. */
    method ClaimLines(lines: seq<ClaimCycles.Selected>, max: nat, turns: nat -> Turn)
      requires forall i :: 0 <= i < |lines| ==> lines[i].p < |redis.entries|
      modifies audit, letters, redis`group
      ensures Seen() == ClaimEffect(t, old(Seen()), lines, max, turns, |lines|).view
    {
      hide TurnEffect;
      hide TurnGoesOn;
      ghost var start := Seen();
      var i, alive := 0, true;
      while i < |lines| && alive
        invariant 0 <= i <= |lines| && redis.entries == start.store.stream
        invariant ClaimEffect(t, start, lines, max, turns, i) == ClaimProgress(Seen(), alive)
      {
        alive := ClaimOne(lines[i], max, turns(i));
        i := i + 1;
      }
      DeadClaim(t, start, lines, max, turns, i, |lines|);
    }

    method ClaimOne(line: ClaimCycles.Selected, max: nat, u: Turn) returns (alive: bool)
      requires line.p < |redis.entries|
      modifies audit, letters, redis`group
      ensures Seen() == TurnEffect(t, old(Seen()), line, max, u)
      ensures alive <==> TurnGoesOn(t, old(Seen()), line, max, u)
    {
      if ClaimCycles.ShouldMoveToDeadLetter(line.deliveryCount, max) {
        alive := MoveEntryToDeadLetter(line.p, line.deliveryCount, u.maintenant, u.letterId, u.moving);
      } else {
        var claimed := redis.XClaim(line.p, u.idle, u.claim);
        if claimed {
          HandleMessage(line.p, redis.entries[line.p], u.maintenant, u.handling);
        }
        alive := u.claim == Done;
      }
    }

    /** One turn of the read loop: every entry XREADGROUP hands out is handled, in order. */
    method ReadOnce(count: nat, read: Reply, maintenant: string, handlings: nat -> Handling)
      requires redis.group.delivered <= |redis.entries|
      modifies audit, redis`group
      ensures Seen() == ReadEffect(t, old(Seen()), count, read, maintenant, handlings)
    {
      var from, to := redis.XReadGroup(count, read);
      ghost var handed := Seen();
      var i := from;
      while i < to
        invariant from <= i <= to && redis.entries == old(redis.entries)
        invariant Seen() == HandleAll(t, handed, from, i, maintenant, handlings)
      {
        HandleMessage(i, redis.entries[i], maintenant, handlings(i));
        i := i + 1;
      }
    }

    /** `ReplayDeadLetterUseCase.execute`. */
    method ReplayDeadLetter(id: string, r: Replay) returns (result: Result<(), ReplayError>)
      modifies audit, letters
      ensures ReplayOutcome(Seen().store, result) == ReplayEffect(t, old(Seen()).store, id, r)
      ensures redis.group == old(redis.group)
    {
      if id !in letters.rows { return Err(NotFound); }
      var entree := letters.rows[id];
      if entree.rejoueLe.Some? { return Err(AlreadyReplayed); }
      var ok := Process(ReplayMessage(t, entree), r.lookup, r.insert);
      if !ok { return Err(Broken); }
      letters.Replace(id, entree.(rejoueLe := Some(r.now)), r.save);
      result := if r.save == Done then Ok(()) else Err(Broken);
    }
  }

  lemma {:induction false} DeadClaim(t: Text, v: View, lines: seq<ClaimCycles.Selected>, max: nat, turns: nat -> Turn,
                                    i: nat, n: nat)
    requires i <= n <= |lines| && (forall j :: 0 <= j < |lines| ==> lines[j].p < |v.store.stream|)
    requires i < n ==> !ClaimEffect(t, v, lines, max, turns, i).alive
    ensures ClaimEffect(t, v, lines, max, turns, n).view == ClaimEffect(t, v, lines, max, turns, i).view
    ensures i < n ==> !ClaimEffect(t, v, lines, max, turns, n).alive
  {
    hide TurnEffect;
    hide TurnGoesOn;
    if i < n {
      DeadClaim(t, v, lines, max, turns, i, n - 1);
    }
  }

  function HandleAll(t: Text, v: View, from: nat, to: nat, maintenant: string, handlings: nat -> Handling): (r: View)
    requires from <= to <= |v.store.stream|
    ensures r.store.stream == v.store.stream
  {
    if from == to then v
    else HandleEffect(t, HandleAll(t, v, from, to - 1, maintenant, handlings), to - 1, maintenant, handlings(to - 1))
  }

  /** XREADGROUP, then `handleMessage` for each entry it returned. */
  function ReadEffect(t: Text, v: View, count: nat, read: Reply, maintenant: string, handlings: nat -> Handling): View
    requires v.group.delivered <= |v.store.stream|
  {
    var v1 := if Applied(read) then v.(group := CG.Read(v.group, |v.store.stream|, count)) else v;
    if read == Done then HandleAll(t, v1, v.group.delivered, v1.group.delivered, maintenant, handlings) else v1
  }
}
