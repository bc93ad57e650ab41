/**
 * What becomes of each entry that the read loop receives or a claim cycle takes up, said of the journal, the
 * group and the dead letters alone (src/audit/infrastructure/messaging/redis-streams-consumer.service.ts).
 */
module DeliveryOutcomes {
  import opened Prelude
  import opened Redaction
  import opened StreamCodec
  import opened AuditJournal
  import opened Pipeline
  import PipelineInvariant
  import PipelineTheorems
  import CG = ConsumerGroup
  import ClaimCycles
  import ES = EventServices

  /** The entries tell these events, one event per identifier, and the journal holds no false row about them. */
  ghost predicate Tells(t: Text, v: ES.View, event: nat -> Event) {
    && (forall p: nat :: p < |v.store.stream| ==> v.store.stream[p] == Fields(t, event(p)))
    && (forall p: nat, q: nat :: p < |v.store.stream| && q < |v.store.stream| && event(p).id == event(q).id ==>
          event(p) == event(q))
    && TrueRows(v, event)
    && CG.Partitions(v.group, |v.store.stream|)
  }

  ghost predicate TrueRows(v: ES.View, event: nat -> Event) {
    forall row, p: nat :: row in v.store.journal && p < |v.store.stream| && row.evenementId == event(p).id ==>
      row == ImageOf(event(p))
  }

  /** The event whose outbox row bears the identifier of the entry at a position. */
  function EventAt(v: Store): nat -> Event {
    (p: nat) =>
      if p < |v.stream| && PipelineInvariant.EventId(v, p) in v.outbox then v.outbox[PipelineInvariant.EventId(v, p)].event
      else Event("", "", None, 0, "", map[])
  }

  /** In every reachable state the entries tell the events of their outbox rows. */
  lemma ReachableTells(t: Text, actions: seq<Action>)
    requires Faithful(t)
    ensures var s := Run(t, INIT, actions); Tells(t, ES.View(s.store, s.group), EventAt(s.store))
  {
    PipelineTheorems.RunKeepsInv(t, actions);
    var s := Run(t, INIT, actions);
    hide Run;
    hide PipelineInvariant.EventId;
    hide ImageOf;
    hide Fields;
    var v, event := s.store, EventAt(s.store);
    forall p: nat | p < |v.stream| ensures v.stream[p] == Fields(t, event(p)) && event(p).id == PipelineInvariant.EventId(v, p) {
    }
    hide PipelineInvariant.RelaysOk;
    hide PipelineInvariant.WorkersOk;
    hide PipelineInvariant.AckedOk;
    hide PipelineInvariant.LettersOk;
    hide PipelineInvariant.PublishedOk;
    forall row, p: nat | row in v.journal && p < |v.stream| && row.evenementId == event(p).id ensures row == ImageOf(event(p)) {
      assert PipelineInvariant.IsImage(v, row);
    }
  }

  predicate NoFault(h: ES.Handling) {
    h.lookup == Done && h.insert == Done && h.ack == Done
  }

  /** What one handling of a pending entry leaves: acknowledged only if audited, otherwise pending as before. */
  ghost predicate Handled(v': ES.View, p: nat, e: Event, count: nat, h: ES.Handling) {
    && (p in v'.group.acked ==> Auditable(e) && ImageOf(e) in v'.store.journal)
    && (p !in v'.group.acked ==> p in v'.group.pending && v'.group.pending[p] == count)
    && (Auditable(e) && NoFault(h) ==> p in v'.group.acked && p !in v'.group.pending)
  }

  /** Everybody else's entries, and everything stored so far, stay as they are. */
  ghost predicate OthersKept(v: ES.View, v': ES.View, from: nat, to: nat, event: nat -> Event) {
    && v'.store.stream == v.store.stream && v'.store.letters == v.store.letters && v'.store.outbox == v.store.outbox
    && v.store.journal <= v'.store.journal
    && (forall row :: row in v'.store.journal && row !in v.store.journal ==> exists p: nat :: from <= p < to && row == ImageOf(event(p)))
    && v'.group.delivered == v.group.delivered
    && (forall q: nat :: !(from <= q < to) ==>
          && (q in v'.group.acked <==> q in v.group.acked)
          && (q in v'.group.pending <==> q in v.group.pending)
          && (q in v.group.pending ==> v'.group.pending[q] == v.group.pending[q]))
  }

  lemma InsertedImage(t: Text, v: ES.View, p: nat, event: nat -> Event)
    requires Tells(t, v, event) && p < |v.store.stream|
    ensures var v' := v.(store := InsertRow(v.store, ImageOf(event(p))));
            Tells(t, v', event) && ImageOf(event(p)) in v'.store.journal && v.store.journal <= v'.store.journal
  {
    var e := event(p);
    var row := ImageOf(e);
    assert row.evenementId == e.id;
    hide ImageOf;
    hide Fields;
    if row.evenementId in AuditedIds(v.store.journal) {
      var r :| r in v.store.journal && r.evenementId == e.id;
      assert r == row;
    } else {
      assert (v.store.journal + [row])[|v.store.journal|] == row;
    }
  }

  /** One handling, by cases: the processing of an entry is what its event deserves. */
  lemma HandlingByCases(t: Text, v: ES.View, p: nat, e: Event, maintenant: string, h: ES.Handling)
    requires Faithful(t) && p < |v.store.stream| && v.store.stream[p] == Fields(t, e)
    ensures var v' := ES.HandleEffect(t, v, p, maintenant, h);
            var acked := if Applied(h.ack) then CG.Ack(v.group, p) else v.group;
            if h.lookup != Done || !Auditable(e) then v' == v
            else if e.id in AuditedIds(v.store.journal) then v' == ES.View(v.store, acked)
            else v' == ES.View(if Applied(h.insert) then InsertRow(v.store, ImageOf(e)) else v.store,
                               if h.insert == Done then acked else v.group)
  {
    ProcessingInsertsTheImage(t, e, maintenant, AuditedIds(v.store.journal));
    hide Process;
    hide ParseFields;
    hide ImageOf;
    hide Fields;
  }

  lemma AuditedImage(t: Text, v: ES.View, p: nat, event: nat -> Event)
    requires Tells(t, v, event) && p < |v.store.stream| && event(p).id in AuditedIds(v.store.journal)
    ensures ImageOf(event(p)) in v.store.journal
  {
    hide ImageOf;
    hide Fields;
    var r :| r in v.store.journal && r.evenementId == event(p).id;
  }

  /** An acknowledgement, or none, changes the status of one entry at most. */
  lemma AckKeepsOthers(v: ES.View, p: nat, acked: bool)
    requires CG.Partitions(v.group, |v.store.stream|) && p in v.group.pending
    ensures var g := if acked then CG.Ack(v.group, p) else v.group;
            && CG.Partitions(g, |v.store.stream|) && g.delivered == v.group.delivered
            && (if acked then p in g.acked && p !in g.pending
                else p !in g.acked && p in g.pending && g.pending[p] == v.group.pending[p])
            && (forall q: nat :: q != p ==>
                  && (q in g.acked <==> q in v.group.acked)
                  && (q in g.pending <==> q in v.group.pending)
                  && (q in v.group.pending ==> g.pending[q] == v.group.pending[q]))
  {
    CG.PartitionsKept(v.group, |v.store.stream|, |v.store.stream|, 0, p);
  }

  lemma HandledTells(t: Text, v: ES.View, p: nat, event: nat -> Event, maintenant: string, h: ES.Handling)
    requires Faithful(t) && Tells(t, v, event) && p in v.group.pending
    ensures p < |v.store.stream| && Tells(t, ES.HandleEffect(t, v, p, maintenant, h), event)
  {
    HandlingByCases(t, v, p, event(p), maintenant, h);
    hide ES.HandleEffect;
    AckKeepsOthers(v, p, true);
    InsertedImage(t, v, p, event);
    hide CG.Ack;
    hide CG.Partitions;
    hide TrueRows;
    hide ImageOf;
    hide Fields;
    hide Auditable;
    hide InsertRow;
    hide AuditedIds;
  }

  lemma HandledAsTold(t: Text, v: ES.View, p: nat, event: nat -> Event, maintenant: string, h: ES.Handling)
    requires Faithful(t) && Tells(t, v, event) && p in v.group.pending
    ensures p < |v.store.stream| && Handled(ES.HandleEffect(t, v, p, maintenant, h), p, event(p), v.group.pending[p], h)
  {
    HandlingByCases(t, v, p, event(p), maintenant, h);
    hide ES.HandleEffect;
    AckKeepsOthers(v, p, true);
    AckKeepsOthers(v, p, false);
    InsertedImage(t, v, p, event);
    if event(p).id in AuditedIds(v.store.journal) {
      AuditedImage(t, v, p, event);
    }
    hide CG.Ack;
    hide Tells;
    hide CG.Partitions;
    hide ImageOf;
    hide Auditable;
    hide InsertRow;
    hide AuditedIds;
  }

  lemma HandledAlone(t: Text, v: ES.View, p: nat, event: nat -> Event, maintenant: string, h: ES.Handling)
    requires Faithful(t) && Tells(t, v, event) && p in v.group.pending
    ensures p < |v.store.stream| && OthersKept(v, ES.HandleEffect(t, v, p, maintenant, h), p, p + 1, event)
  {
    HandlingByCases(t, v, p, event(p), maintenant, h);
    hide ES.HandleEffect;
    AckKeepsOthers(v, p, true);
    InsertedImage(t, v, p, event);
    InsertedRow(v.store, ImageOf(event(p)));
    hide CG.Ack;
    hide Tells;
    hide CG.Partitions;
    hide ImageOf;
    hide Auditable;
    hide InsertRow;
    hide AuditedIds;
  }

  lemma HandledOnce(t: Text, v: ES.View, p: nat, event: nat -> Event, maintenant: string, h: ES.Handling)
    requires Faithful(t) && Tells(t, v, event) && p in v.group.pending
    ensures p < |v.store.stream|
    ensures var v' := ES.HandleEffect(t, v, p, maintenant, h);
            && Handled(v', p, event(p), v.group.pending[p], h) && Tells(t, v', event)
            && OthersKept(v, v', p, p + 1, event)
  {
    hide *;
    HandledTells(t, v, p, event, maintenant, h);
    HandledAsTold(t, v, p, event, maintenant, h);
    HandledAlone(t, v, p, event, maintenant, h);
  }

  lemma InsertedRow(v: Store, row: AuditRow)
    ensures forall r :: r in InsertRow(v, row).journal && r !in v.journal ==> r == row
    ensures InsertRow(v, row) == v.(journal := InsertRow(v, row).journal)
  {
  }

  lemma OthersKeptTransitively(v: ES.View, v1: ES.View, v2: ES.View, from: nat, to: nat, event: nat -> Event)
    requires from < to && OthersKept(v, v1, from, to - 1, event) && OthersKept(v1, v2, to - 1, to, event)
    ensures OthersKept(v, v2, from, to, event)
  {
    hide ImageOf;
    forall row | row in v2.store.journal && row !in v.store.journal ensures exists p: nat :: from <= p < to && row == ImageOf(event(p)) {
      if row in v1.store.journal {
        var p: nat :| from <= p < to - 1 && row == ImageOf(event(p));
      } else {
        var p: nat :| to - 1 <= p < to && row == ImageOf(event(p));
      }
    }
  }

  /** Once handled, an entry is not touched by the handling of the others. */
  lemma StillHandled(v: ES.View, v': ES.View, p: nat, e: Event, count: nat, h: ES.Handling, q: nat, event: nat -> Event)
    requires Handled(v, p, e, count, h) && OthersKept(v, v', q, q + 1, event) && p != q
    ensures Handled(v', p, e, count, h)
  {
    hide ImageOf;
    if p in v'.group.acked {
      var k :| 0 <= k < |v.store.journal| && v.store.journal[k] == ImageOf(e);
      assert v'.store.journal[k] == ImageOf(e);
    }
  }

  lemma {:induction false} AllHandled(t: Text, v: ES.View, from: nat, to: nat, event: nat -> Event, maintenant: string,
                                     handlings: nat -> ES.Handling)
    requires Faithful(t) && Tells(t, v, event) && from <= to <= |v.store.stream|
    requires forall p: nat :: from <= p < to ==> p in v.group.pending && v.group.pending[p] == 1
    ensures var v' := ES.HandleAll(t, v, from, to, maintenant, handlings);
            && (forall p: nat :: from <= p < to ==> Handled(v', p, event(p), 1, handlings(p)))
            && Tells(t, v', event) && OthersKept(v, v', from, to, event)
  {
    hide Tells;
    hide Handled;
    hide OthersKept;
    hide ES.HandleEffect;
    if from == to {
      NothingHandled(v, from, event);
    } else {
      AllHandled(t, v, from, to - 1, event, maintenant, handlings);
      var v1 := ES.HandleAll(t, v, from, to - 1, maintenant, handlings);
      NotYetHandled(v, v1, from, to - 1, event);
      HandledOnce(t, v1, to - 1, event, maintenant, handlings(to - 1));
      var v2 := ES.HandleEffect(t, v1, to - 1, maintenant, handlings(to - 1));
      OthersKeptTransitively(v, v1, v2, from, to, event);
      forall p: nat | from <= p < to - 1 ensures Handled(v2, p, event(p), 1, handlings(p)) {
        StillHandled(v1, v2, p, event(p), 1, handlings(p), to - 1, event);
      }
    }
  }

  lemma NotYetHandled(v: ES.View, v': ES.View, from: nat, q: nat, event: nat -> Event)
    requires OthersKept(v, v', from, q, event) && q in v.group.pending
    ensures q in v'.group.pending && v'.group.pending[q] == v.group.pending[q]
  {
  }

  lemma NothingHandled(v: ES.View, from: nat, event: nat -> Event)
    ensures OthersKept(v, v, from, from, event)
  {
  }

  /** What XREADGROUP changes of the group: the entries handed out become pending, with one delivery. */
  lemma HandedOut(t: Text, v: ES.View, count: nat, event: nat -> Event)
    requires Tells(t, v, event)
    ensures var length := |v.store.stream|;
            var g := CG.Read(v.group, length, count);
            && g.delivered - v.group.delivered == (if count <= length - v.group.delivered then count else length - v.group.delivered)
            && (forall p: nat :: v.group.delivered <= p < g.delivered ==> p in g.pending && g.pending[p] == 1)
            && (forall q: nat ::
                  && (q in g.acked <==> q in v.group.acked)
                  && (q in g.pending <==> q in v.group.pending || v.group.delivered <= q < g.delivered)
                  && (q in v.group.pending ==> g.pending[q] == v.group.pending[q]))
            && Tells(t, v.(group := g), event)
  {
    var length := |v.store.stream|;
    var g := CG.Read(v.group, length, count);
    CG.PartitionsKept(v.group, length, length, count, 0);
    CG.DeliveriesCounted(v.group, length, count, 0, 0);
    forall q: nat ensures
      && (q in g.acked <==> q in v.group.acked)
      && (q in g.pending <==> q in v.group.pending || v.group.delivered <= q < g.delivered)
      && (q in v.group.pending ==> g.pending[q] == v.group.pending[q])
      && (v.group.delivered <= q < g.delivered ==> g.pending[q] == 1)
    {
      CG.DeliveriesCounted(v.group, length, count, 0, q);
    }
    hide CG.Read;
    hide CG.Partitions;
    hide TrueRows;
    hide Fields;
  }

  /**
   * A turn of the read loop: each entry received is acknowledged only once its image is in the journal, and
   * is otherwise still pending; without a fault every auditable one is. Nothing else happens.
   */
  lemma ReadTurnOutcome(t: Text, v: ES.View, count: nat, event: nat -> Event, maintenant: string, handlings: nat -> ES.Handling)
    requires Faithful(t) && Tells(t, v, event)
    ensures var v' := ES.ReadEffect(t, v, count, Done, maintenant, handlings);
            && v'.group.delivered - v.group.delivered ==
                 (if count <= |v.store.stream| - v.group.delivered then count else |v.store.stream| - v.group.delivered)
            && (forall p: nat :: v.group.delivered <= p < v'.group.delivered ==> Handled(v', p, event(p), 1, handlings(p)))
            && OthersKept(v.(group := v.group.(delivered := v'.group.delivered)), v', v.group.delivered, v'.group.delivered, event)
  {
    HandedOut(t, v, count, event);
    var v1 := v.(group := CG.Read(v.group, |v.store.stream|, count));
    AllHandled(t, v1, v.group.delivered, v1.group.delivered, event, maintenant, handlings);
    hide Handled;
    hide Tells;
    hide ES.HandleAll;
    hide CG.Read;
    hide ImageOf;
  }

  /** A read reported as failed handles nothing; if it took effect all the same, its entries are pending, delivered once. */
  lemma FailedReadOutcome(t: Text, v: ES.View, count: nat, read: Reply, maintenant: string, handlings: nat -> ES.Handling)
    requires CG.Partitions(v.group, |v.store.stream|) && read != Done
    ensures var v' := ES.ReadEffect(t, v, count, read, maintenant, handlings);
            && v'.store == v.store && v'.group.acked == v.group.acked && (read == Failed ==> v' == v)
            && (read == DoneUnseen ==> forall p: nat ::
                  v.group.delivered <= p < |v.store.stream| && p < v.group.delivered + count ==>
                    p in v'.group.pending && v'.group.pending[p] == 1)
  {
  }

  // ------------------------------------------------------------------------------------------ one claimed line

  /** A line at most max deliveries old, still pending and idle: claimed, one delivery more, and handled. */
  lemma ClaimedLineOutcome(t: Text, v: ES.View, line: ClaimCycles.Selected, max: nat, u: ES.Turn, event: nat -> Event)
    requires Faithful(t) && Tells(t, v, event) && line.p in v.group.pending
    requires line.deliveryCount <= max && u.idle && u.claim == Done
    ensures line.p < |v.store.stream|
    ensures var v' := ES.TurnEffect(t, v, line, max, u);
            && Handled(v', line.p, event(line.p), v.group.pending[line.p] + 1, u.handling)
            && Tells(t, v', event) && OthersKept(v, v', line.p, line.p + 1, event)
            && ES.TurnGoesOn(t, v, line, max, u)
  {
    var v1 := v.(group := CG.Claim(v.group, line.p));
    ClaimTells(t, v, line.p, event);
    hide Tells;
    HandledOnce(t, v1, line.p, event, u.maintenant, u.handling);
    hide Handled;
    hide ES.HandleEffect;
    hide ImageOf;
  }

  lemma ClaimTells(t: Text, v: ES.View, p: nat, event: nat -> Event)
    requires Tells(t, v, event) && p in v.group.pending
    ensures Tells(t, v.(group := CG.Claim(v.group, p)), event) && p < |v.store.stream|
  {
    CG.PartitionsKept(v.group, |v.store.stream|, |v.store.stream|, 0, p);
    hide TrueRows;
    hide Fields;
  }

  /** A line that was no longer pending, or too fresh, is left alone. */
  lemma UnclaimedLineOutcome(t: Text, v: ES.View, line: ClaimCycles.Selected, max: nat, u: ES.Turn)
    requires line.p < |v.store.stream| && line.deliveryCount <= max
    requires line.p !in v.group.pending || !u.idle || u.claim == Failed
    ensures ES.TurnEffect(t, v, line, max, u) == v && (ES.TurnGoesOn(t, v, line, max, u) <==> u.claim == Done)
  {
  }

  /** A claim that took effect and was reported as failed: one delivery more, nothing handled, and the cycle ends. */
  lemma UnseenClaimOutcome(t: Text, v: ES.View, line: ClaimCycles.Selected, max: nat, u: ES.Turn)
    requires line.p < |v.store.stream| && line.deliveryCount <= max && line.p in v.group.pending && u.idle && u.claim == DoneUnseen
    ensures ES.TurnEffect(t, v, line, max, u) ==
            v.(group := v.group.(pending := v.group.pending[line.p := v.group.pending[line.p] + 1]))
    ensures !ES.TurnGoesOn(t, v, line, max, u)
  {
  }

  /** A line more than max deliveries old: its letter is stored if the calls allow, and it is acknowledged. */
  lemma MovedLineOutcome(t: Text, v: ES.View, line: ClaimCycles.Selected, max: nat, u: ES.Turn, event: nat -> Event)
    requires Faithful(t) && Tells(t, v, event) && line.p in v.group.pending
    requires line.deliveryCount > max && u.letterId !in v.store.letters
    ensures line.p < |v.store.stream|
    ensures var v' := ES.TurnEffect(t, v, line, max, u);
            && v'.store == (if u.moving.fetch == Done && Applied(u.moving.save)
                            then v.store.(letters := v.store.letters[u.letterId := DeadLetter(ImageOf(event(line.p)), line.deliveryCount, None)])
                            else v.store)
            && v'.group == (if Applied(u.moving.ack) then CG.Ack(v.group, line.p) else v.group)
            && (Applied(u.moving.ack) <==> line.p in v'.group.acked) && Tells(t, v', event)
            && (ES.TurnGoesOn(t, v, line, max, u) <==> u.moving == ES.Moving(Done, Done, Done))
  {
    var e := event(line.p);
    DeadLetterCarriesTheImage(t, e, u.maintenant, line.deliveryCount);
    DeadLetterCarriesTheImage(t, e, u.maintenant, 0);
    CG.PartitionsKept(v.group, |v.store.stream|, |v.store.stream|, 0, line.p);
    hide DeadLetterOf;
    hide ParseFields;
    hide ImageOf;
    hide Fields;
  }

  // -------------------------------------------------------------------------------------- a whole claim cycle

  /** A turn none of whose calls fails. */
  predicate Faultless(u: ES.Turn) {
    u.claim == Done && u.idle && NoFault(u.handling) && u.moving == ES.Moving(Done, Done, Done)
  }

  /** What a faultless cycle leaves of a line. */
  ghost predicate Settled(v': ES.View, line: ClaimCycles.Selected, max: nat, u: ES.Turn, e: Event) {
    if line.deliveryCount > max then
      && line.p in v'.group.acked && line.p !in v'.group.pending
      && u.letterId in v'.store.letters && v'.store.letters[u.letterId] == DeadLetter(ImageOf(e), line.deliveryCount, None)
    else if Auditable(e) then
      line.p in v'.group.acked && line.p !in v'.group.pending && ImageOf(e) in v'.store.journal
    else
      line.p in v'.group.pending && v'.group.pending[line.p] == line.deliveryCount + 1
  }

  ghost predicate FreshIds(v: ES.View, turns: nat -> ES.Turn, n: nat) {
    && (forall i :: i >= n ==> turns(i).letterId !in v.store.letters)
    && (forall i, j :: i < j ==> turns(i).letterId != turns(j).letterId)
  }

  /** What one turn leaves of the others' entries, letters and rows. */
  ghost predicate Untouched(v: ES.View, v': ES.View, p: nat, id: string) {
    && v'.store.stream == v.store.stream && v.store.journal <= v'.store.journal
    && (forall k :: k in v.store.letters ==> k in v'.store.letters && v'.store.letters[k] == v.store.letters[k])
    && (forall k :: k in v'.store.letters ==> k in v.store.letters || k == id)
    && (forall q: nat :: q != p ==>
          && (q in v'.group.acked <==> q in v.group.acked)
          && (q in v'.group.pending <==> q in v.group.pending)
          && (q in v.group.pending ==> v'.group.pending[q] == v.group.pending[q]))
  }

  lemma FaultlessTurn(t: Text, v: ES.View, line: ClaimCycles.Selected, max: nat, u: ES.Turn, event: nat -> Event)
    requires Faithful(t) && Tells(t, v, event) && Faultless(u) && u.letterId !in v.store.letters
    requires line.p in v.group.pending && v.group.pending[line.p] == line.deliveryCount
    ensures line.p < |v.store.stream|
    ensures var v' := ES.TurnEffect(t, v, line, max, u);
            && Settled(v', line, max, u, event(line.p)) && Tells(t, v', event) && Untouched(v, v', line.p, u.letterId)
            && ES.TurnGoesOn(t, v, line, max, u)
  {
    hide Tells;
    hide ImageOf;
    hide ES.TurnEffect;
    hide ES.TurnGoesOn;
    if line.deliveryCount > max {
      MovedLineOutcome(t, v, line, max, u, event);
    } else {
      ClaimedLineOutcome(t, v, line, max, u, event);
    }
  }

  lemma StillSettled(v: ES.View, v': ES.View, line: ClaimCycles.Selected, max: nat, u: ES.Turn, e: Event, p: nat, id: string)
    requires Settled(v, line, max, u, e) && Untouched(v, v', p, id) && line.p != p
    ensures Settled(v', line, max, u, e)
  {
    hide ImageOf;
    if ImageOf(e) in v.store.journal {
      var k :| 0 <= k < |v.store.journal| && v.store.journal[k] == ImageOf(e);
      assert v'.store.journal[k] == ImageOf(e);
    }
  }

  /** The lines still to come are as XPENDING gave them. */
  ghost predicate Ahead(v: ES.View, lines: seq<ClaimCycles.Selected>, n: nat) {
    && (forall i :: n <= i < |lines| ==> lines[i].p in v.group.pending && v.group.pending[lines[i].p] == lines[i].deliveryCount)
    && (forall i, j :: 0 <= i < j < |lines| ==> lines[i].p != lines[j].p)
  }

  lemma {:induction false} FaultlessLines(t: Text, v: ES.View, lines: seq<ClaimCycles.Selected>, max: nat, turns: nat -> ES.Turn,
                                         event: nat -> Event, n: nat)
    requires Faithful(t) && Tells(t, v, event) && Ahead(v, lines, 0) && n <= |lines|
    requires (forall i :: 0 <= i < |lines| ==> lines[i].p < |v.store.stream|)
    requires (forall i :: Faultless(turns(i))) && FreshIds(v, turns, 0)
    ensures var r := ES.ClaimEffect(t, v, lines, max, turns, n);
            && r.alive && Tells(t, r.view, event) && Ahead(r.view, lines, n) && FreshIds(r.view, turns, n)
            && (forall i :: 0 <= i < n ==> Settled(r.view, lines[i], max, turns(i), event(lines[i].p)))
  {
    hide Tells;
    hide Settled;
    hide Untouched;
    hide ES.TurnEffect;
    hide ES.TurnGoesOn;
    hide Faultless;
    if n > 0 {
      FaultlessLines(t, v, lines, max, turns, event, n - 1);
      var v1, line, u := ES.ClaimEffect(t, v, lines, max, turns, n - 1).view, lines[n - 1], turns(n - 1);
      FaultlessTurn(t, v1, line, max, u, event);
      var v2 := ES.TurnEffect(t, v1, line, max, u);
      StillAhead(v1, v2, lines, n, u.letterId);
      StillFresh(v1, v2, turns, n, line.p);
      hide FreshIds;
      forall i | 0 <= i < n - 1 ensures Settled(v2, lines[i], max, turns(i), event(lines[i].p)) {
        StillSettled(v1, v2, lines[i], max, turns(i), event(lines[i].p), line.p, u.letterId);
      }
    }
  }

  lemma StillAhead(v: ES.View, v': ES.View, lines: seq<ClaimCycles.Selected>, n: nat, id: string)
    requires 0 < n <= |lines| && Ahead(v, lines, n - 1) && Untouched(v, v', lines[n - 1].p, id)
    ensures Ahead(v', lines, n)
  {
  }

  lemma StillFresh(v: ES.View, v': ES.View, turns: nat -> ES.Turn, n: nat, p: nat)
    requires n > 0 && FreshIds(v, turns, n - 1) && Untouched(v, v', p, turns(n - 1).letterId)
    ensures FreshIds(v', turns, n)
  {
  }

  /**
   * A claim cycle without a fault deals with every line: entries delivered too often are dead-lettered with
   * their image and their count, the others are audited, and only an event that cannot be audited stays pending.
   */
  lemma FaultlessClaimCycle(t: Text, v: ES.View, lines: seq<ClaimCycles.Selected>, max: nat, turns: nat -> ES.Turn,
                            event: nat -> Event)
    requires Faithful(t) && Tells(t, v, event) && ClaimCycles.IsSelection(v.group, lines)
    requires (forall i :: Faultless(turns(i))) && FreshIds(v, turns, 0)
    ensures var v' := ES.ClaimCycleEffect(t, v, lines, max, turns);
            forall i :: 0 <= i < |lines| ==> Settled(v', lines[i], max, turns(i), event(lines[i].p))
  {
    ES.SelectionInStream(v.group, |v.store.stream|, lines);
    FaultlessLines(t, v, lines, max, turns, event, |lines|);
    hide Settled;
    hide ES.ClaimEffect;
  }

  // ---------------------------------------------------------------------------------------------- the relay

  /** A cycle without a fault appends the entries of its batch, in order, and publishes each of its rows. */
  lemma {:induction false} FaultlessCycle(t: Text, v: Store, lot: seq<Event>, attempts: nat -> ES.Attempt, n: nat)
    requires n <= |lot| && (forall i :: attempts(i).add == Done && attempts(i).mark == Done)
    requires forall i :: 0 <= i < |lot| ==> lot[i].id in v.outbox
    ensures var r := ES.CycleEffect(t, v, lot, attempts, n);
            && r.alive && r.store.stream == v.stream + seq(n, i requires 0 <= i < n => Fields(t, lot[i]))
            && r.store.outbox.Keys == v.outbox.Keys && r.store.journal == v.journal && r.store.letters == v.letters
            && (forall i :: 0 <= i < n ==> r.store.outbox[lot[i].id].statut == Publie)
  {
    hide Fields;
    if n > 0 {
      FaultlessCycle(t, v, lot, attempts, n - 1);
      var before := seq(n - 1, i requires 0 <= i < n - 1 => Fields(t, lot[i]));
      assert seq(n, i requires 0 <= i < n => Fields(t, lot[i])) == before + [Fields(t, lot[n - 1])];
    }
  }

  /** An XADD that took effect and was reported as failed: the next attempt makes a second entry of the event. */
  lemma UnseenAddIsRepeated(t: Text, v: Store, e: Event)
    requires IsPending(v, e)
    ensures var v1 := ES.RelayOneEffect(t, v, e, ES.Attempt(DoneUnseen, Done, Done));
            var v2 := ES.RelayOneEffect(t, v1, e, ES.Attempt(Done, Done, Done));
            && IsPending(v1, e) && v1.stream == v.stream + [Fields(t, e)]
            && v2.stream == v.stream + [Fields(t, e), Fields(t, e)]
            && v2.outbox[e.id] == v.outbox[e.id].(statut := Publie, tentatives := v.outbox[e.id].tentatives + 1)
  {
    hide Fields;
    assert v.stream + [Fields(t, e)] + [Fields(t, e)] == v.stream + [Fields(t, e), Fields(t, e)];
  }

  // ---------------------------------------------------------------------------------------------- the replay

  /** A replay without a fault of an auditable letter succeeds: the image is in the journal and the letter is marked. */
  lemma FaultlessReplay(t: Text, v: Store, id: string, e: Event, now: int)
    requires Faithful(t) && id in v.letters && v.letters[id].row == ImageOf(e) && v.letters[id].rejoueLe == None && Auditable(e)
    ensures var r := ES.ReplayEffect(t, v, id, ES.Replay(Done, Done, Done, now));
            && r.result == Ok(()) && e.id in AuditedIds(r.store.journal)
            && (e.id !in AuditedIds(v.journal) ==> r.store.journal == v.journal + [ImageOf(e)])
            && r.store == v.(journal := r.store.journal, letters := v.letters[id := v.letters[id].(rejoueLe := Some(now))])
  {
    ReplayInsertsTheImage(t, e, v.letters[id], AuditedIds(v.journal));
    assert ImageOf(e).evenementId == e.id;
    hide Process;
    hide ReplayMessage;
    hide ImageOf;
    if e.id !in AuditedIds(v.journal) {
      assert (v.journal + [ImageOf(e)])[|v.journal|] == ImageOf(e);
    }
  }

  /** A letter whose event cannot be audited is refused, and stays unmarked. */
  lemma RefusedReplay(t: Text, v: Store, id: string, e: Event, r: ES.Replay)
    requires Faithful(t) && id in v.letters && v.letters[id].row == ImageOf(e) && !Auditable(e)
    ensures ES.ReplayEffect(t, v, id, r).store == v && ES.ReplayEffect(t, v, id, r).result.Err?
  {
    ReplayInsertsTheImage(t, e, v.letters[id], AuditedIds(v.journal));
    hide Process;
    hide ReplayMessage;
    hide ImageOf;
  }
}
