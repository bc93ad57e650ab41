/** What every run of the event pipeline keeps, step by step. */
module PipelineInvariant {
  import opened Prelude
  import opened Redaction
  import opened StreamCodec
  import opened AuditJournal
  import opened Pipeline
  import CG = ConsumerGroup

  /** The event named by the stream entry at position p. */
  function EventId(v: Store, p: nat): string
    requires p < |v.stream|
  {
    ParseFields(v.stream[p], "").outboxId
  }

  ghost predicate Known(v: Store, e: Event) {
    e.id in v.outbox && v.outbox[e.id].event == e
  }

  /** A row is the image of the outbox row with its id. */
  ghost predicate IsImage(v: Store, row: AuditRow) {
    row.evenementId in v.outbox && row == ImageOf(v.outbox[row.evenementId].event)
  }

  ghost predicate InStream(v: Store, id: string) {
    exists p: nat :: p < |v.stream| && EventId(v, p) == id
  }

  ghost predicate Audited(v: Store, p: nat)
    requires p < |v.stream|
  {
    EventId(v, p) in AuditedIds(v.journal)
  }

  ghost predicate DeadLettered(v: Store, p: nat)
    requires p < |v.stream|
  {
    exists id :: id in v.letters && v.letters[id].row.evenementId == EventId(v, p)
  }

  // ------------------------------------------------------------------------------- the four stores

  ghost predicate OutboxOk(v: Store) {
    forall id :: id in v.outbox ==> v.outbox[id].event.id == id
  }

  ghost predicate StreamOk(t: Text, v: Store) {
    forall p: nat :: p < |v.stream| ==>
      EventId(v, p) in v.outbox && v.stream[p] == Fields(t, v.outbox[EventId(v, p)].event)
  }

  ghost predicate JournalOk(v: Store) {
    OneRowPerEvent(v.journal) && forall row :: row in v.journal ==> IsImage(v, row)
  }

  ghost predicate LettersOk(v: Store) {
    forall id :: id in v.letters ==> IsImage(v, v.letters[id].row)
  }

  ghost predicate PublishedOk(v: Store) {
    forall id :: id in v.outbox && v.outbox[id].statut == Publie ==> InStream(v, id)
  }

  ghost predicate StoreOk(t: Text, v: Store) {
    OutboxOk(v) && StreamOk(t, v) && JournalOk(v) && LettersOk(v) && PublishedOk(v)
  }

  /** Events, stream entries, journal rows and dead letters are never removed or rewritten. */
  ghost predicate Grows(v: Store, v': Store) {
    && (forall id :: id in v.outbox ==> id in v'.outbox && v'.outbox[id].event == v.outbox[id].event)
    && v.stream <= v'.stream
    && v.journal <= v'.journal
    && (forall id :: id in v.letters ==> id in v'.letters && v'.letters[id].row == v.letters[id].row)
  }

  lemma GrowsTransitively(v: Store, v': Store, v'': Store)
    requires Grows(v, v') && Grows(v', v'')
    ensures Grows(v, v'')
  {
  }

  lemma PositionStable(v: Store, v': Store, p: nat)
    requires Grows(v, v') && p < |v.stream|
    ensures p < |v'.stream| && EventId(v', p) == EventId(v, p) && v'.stream[p] == v.stream[p]
    ensures Audited(v, p) ==> Audited(v', p)
    ensures DeadLettered(v, p) ==> DeadLettered(v', p)
  {
    hide ParseFields;
    if Audited(v, p) {
      var row :| row in v.journal && row.evenementId == EventId(v, p);
      var k :| 0 <= k < |v.journal| && v.journal[k] == row;
      assert v'.journal[k] == row;
    }
    if DeadLettered(v, p) {
      var id :| id in v.letters && v.letters[id].row.evenementId == EventId(v, p);
      assert id in v'.letters;
    }
  }

  lemma InStreamStable(v: Store, v': Store, id: string)
    requires Grows(v, v') && InStream(v, id)
    ensures InStream(v', id)
  {
    hide ParseFields;
    var p: nat :| p < |v.stream| && EventId(v, p) == id;
    PositionStable(v, v', p);
  }

  lemma OutboxChangeOk(t: Text, v: Store, v': Store)
    requires StoreOk(t, v) && OutboxOk(v')
    requires v'.stream == v.stream && v'.journal == v.journal && v'.letters == v.letters
    requires forall id :: id in v.outbox ==> id in v'.outbox && v'.outbox[id].event == v.outbox[id].event
    requires forall id :: id in v'.outbox && v'.outbox[id].statut == Publie ==>
               (id in v.outbox && v.outbox[id].statut == Publie) || InStream(v, id)
    ensures StoreOk(t, v') && Grows(v, v')
  {
    hide ParseFields;
    hide Fields;
    hide ImageOf;
    assert forall p: nat :: p < |v.stream| ==> EventId(v', p) == EventId(v, p);
    forall id | id in v'.outbox && v'.outbox[id].statut == Publie ensures InStream(v', id) {
      InStreamStable(v, v', id);
    }
  }

  lemma InsertEventOk(t: Text, v: Store, e: Event, creeLe: int)
    requires StoreOk(t, v)
    ensures StoreOk(t, InsertEvent(v, e, creeLe)) && Grows(v, InsertEvent(v, e, creeLe))
  {
    hide StreamOk;
    hide JournalOk;
    hide LettersOk;
    OutboxChangeOk(t, v, InsertEvent(v, e, creeLe));
  }

  lemma MarkPublishedOk(t: Text, v: Store, id: string)
    requires StoreOk(t, v) && InStream(v, id)
    ensures StoreOk(t, MarkPublished(v, id)) && Grows(v, MarkPublished(v, id))
  {
    hide StreamOk;
    hide JournalOk;
    hide LettersOk;
    OutboxChangeOk(t, v, MarkPublished(v, id));
  }

  lemma MarkFailuresOk(t: Text, v: Store, id: string, max: nat)
    requires StoreOk(t, v)
    ensures StoreOk(t, MarkFailedAttempt(v, id)) && Grows(v, MarkFailedAttempt(v, id))
    ensures StoreOk(t, MarkPermanentlyFailed(v, max)) && Grows(v, MarkPermanentlyFailed(v, max))
  {
    hide StreamOk;
    hide JournalOk;
    hide LettersOk;
    OutboxChangeOk(t, v, MarkFailedAttempt(v, id));
    OutboxChangeOk(t, v, MarkPermanentlyFailed(v, max));
  }

  lemma AddEntryOk(t: Text, v: Store, e: Event)
    requires StoreOk(t, v) && Known(v, e)
    ensures StoreOk(t, AddEntry(t, v, e)) && Grows(v, AddEntry(t, v, e))
    ensures InStream(AddEntry(t, v, e), e.id)
  {
    var v' := AddEntry(t, v, e);
    RoundTrip(t, e, "");
    hide ParseFields;
    hide Fields;
    hide ImageOf;
    var last := |v.stream|;
    assert v'.stream[last] == Fields(t, e) && EventId(v', last) == e.id;
    forall p: nat | p < |v'.stream|
      ensures EventId(v', p) in v'.outbox && v'.stream[p] == Fields(t, v'.outbox[EventId(v', p)].event)
    {
      if p < last { PositionStable(v, v', p); }
    }
    forall id | id in v'.outbox && v'.outbox[id].statut == Publie ensures InStream(v', id) {
      InStreamStable(v, v', id);
    }
  }

  lemma InsertRowOk(t: Text, v: Store, row: AuditRow)
    requires StoreOk(t, v) && IsImage(v, row)
    ensures StoreOk(t, InsertRow(v, row)) && Grows(v, InsertRow(v, row))
    ensures row.evenementId in AuditedIds(InsertRow(v, row).journal)
  {
    var v' := InsertRow(v, row);
    InsertKeepsOneRow(v.journal, row);
    hide ParseFields;
    hide Fields;
    hide ImageOf;
    assert forall p: nat :: p < |v.stream| ==> EventId(v', p) == EventId(v, p);
    forall id | id in v'.outbox && v'.outbox[id].statut == Publie ensures InStream(v', id) {
      InStreamStable(v, v', id);
    }
  }

  lemma LetterChangeOk(t: Text, v: Store, v': Store)
    requires StoreOk(t, v) && Grows(v, v')
    requires v' == v.(letters := v'.letters)
    requires forall id :: id in v'.letters && id !in v.letters ==> IsImage(v, v'.letters[id].row)
    ensures StoreOk(t, v')
  {
    hide ParseFields;
    hide Fields;
    hide ImageOf;
    assert forall p: nat :: p < |v.stream| ==> EventId(v', p) == EventId(v, p);
    forall id | id in v'.outbox && v'.outbox[id].statut == Publie ensures InStream(v', id) {
      InStreamStable(v, v', id);
    }
  }

  // ------------------------------------------------------------------------------- who works on them

  ghost predicate RelayOk(v: Store, k: Relay) {
    && k.lot != []
    && (forall e :: e in k.lot ==> Known(v, e))
    && (k.phase == ToMark ==> InStream(v, k.lot[0].id))
  }

  ghost predicate WorkerOk(v: Store, k: Worker) {
    match k
    case Handling(p, h) =>
      p < |v.stream| && (h.ToStore? ==> h.row.evenementId == EventId(v, p) && IsImage(v, h.row))
      && (h.ToAck? ==> Audited(v, p))
    case Moving(p, _, m) =>
      p < |v.stream| && (m.ToSave? ==> m.letter.row.evenementId == EventId(v, p) && IsImage(v, m.letter.row))
      && (m.ToAckMoved? && m.archived ==> DeadLettered(v, p))
    case Replaying(id, m) =>
      id in v.letters && (m.ToStoreAgain? ==> IsImage(v, m.again))
  }

  ghost predicate RelaysOk(s: State) {
    forall r :: r in s.relays ==> RelayOk(s.store, s.relays[r])
  }

  ghost predicate WorkersOk(s: State) {
    forall w :: w in s.workers ==> WorkerOk(s.store, s.workers[w])
  }

  ghost predicate Accounted(s: State, p: nat) {
    p < |s.store.stream| && (Audited(s.store, p) || DeadLettered(s.store, p) || p in s.lost)
  }

  ghost predicate AckedOk(s: State) {
    forall p :: p in s.group.acked ==> Accounted(s, p)
  }

  ghost predicate Inv(t: Text, s: State) {
    && StoreOk(t, s.store)
    && RelaysOk(s)
    && WorkersOk(s)
    && AckedOk(s)
    && CG.Partitions(s.group, |s.store.stream|)
  }

  lemma RelayStable(v: Store, v': Store, k: Relay)
    requires Grows(v, v') && RelayOk(v, k)
    ensures RelayOk(v', k)
  {
    hide EventId;
    if k.phase == ToMark { InStreamStable(v, v', k.lot[0].id); }
  }

  lemma WorkerStable(v: Store, v': Store, k: Worker)
    requires Grows(v, v') && WorkerOk(v, k)
    ensures WorkerOk(v', k)
  {
    hide ImageOf;
    hide EventId;
    match k {
      case Handling(p, _) => PositionStable(v, v', p);
      case Moving(p, _, _) => PositionStable(v, v', p);
      case Replaying(_, _) =>
    }
  }

  /** A change of the stores keeps everyone's own invariant. */
  lemma StoreChangeOk(t: Text, s: State, v: Store)
    requires Inv(t, s) && StoreOk(t, v) && Grows(s.store, v)
    ensures Inv(t, s.(store := v))
  {
    hide StoreOk;
    hide RelayOk;
    hide WorkerOk;
    hide Audited;
    hide DeadLettered;
    var s' := s.(store := v);
    forall r | r in s'.relays ensures RelayOk(s'.store, s'.relays[r]) {
      RelayStable(s.store, v, s.relays[r]);
    }
    forall w | w in s'.workers ensures WorkerOk(s'.store, s'.workers[w]) {
      WorkerStable(s.store, v, s.workers[w]);
    }
    forall p | p in s'.group.acked ensures Accounted(s', p) {
      PositionStable(s.store, v, p);
    }
  }

  lemma WorkerChangeOk(t: Text, s: State, w: nat, k: Worker)
    requires Inv(t, s)
    ensures WorkerOk(s.store, k) ==> Inv(t, Enter(s, w, k))
    ensures Inv(t, Leave(s, w))
  {
    hide StoreOk;
    hide RelayOk;
    hide WorkerOk;
    hide Audited;
    hide DeadLettered;
  }

  lemma RelayChangeOk(t: Text, s: State, r: nat, k: Relay)
    requires Inv(t, s)
    ensures RelayOk(s.store, k) ==> Inv(t, SetRelay(s, r, k))
    ensures Inv(t, DropRelay(s, r))
  {
    hide StoreOk;
    hide RelayOk;
    hide WorkerOk;
    hide Audited;
    hide DeadLettered;
  }

  lemma NextRowOk(t: Text, s: State, r: nat, k: Relay)
    requires Inv(t, s) && RelayOk(s.store, k)
    ensures Inv(t, NextRow(s, r, k.lot))
  {
    hide Inv;
    hide Known;
    hide InStream;
    var rest := Relay(k.lot[1..], ToAdd);
    assert forall e :: e in rest.lot ==> e in k.lot;
    RelayChangeOk(t, s, r, rest);
  }

  lemma GroupChangeOk(t: Text, s: State, g: CG.Group, lost: set<nat>)
    requires Inv(t, s) && CG.Partitions(g, |s.store.stream|) && s.lost <= lost
    requires forall p :: p in g.acked && p !in s.group.acked ==> Accounted(s.(lost := lost), p)
    ensures Inv(t, s.(group := g, lost := lost))
  {
    hide StoreOk;
    hide RelayOk;
    hide WorkerOk;
    hide Audited;
    hide DeadLettered;
  }

  // ---------------------------------------------------------------------------------- step by step

  lemma RelayLoadKeepsInv(t: Text, s: State, r: nat, lot: seq<Event>)
    requires Inv(t, s)
    ensures Inv(t, RelayLoadStep(s, r, lot))
  {
    hide Inv;
    RelayChangeOk(t, s, r, Relay(lot, ToAdd));
  }

  lemma RelayAddKeepsInv(t: Text, s: State, r: nat, reply: Reply)
    requires Inv(t, s)
    ensures Inv(t, RelayAddStep(t, s, r, reply))
  {
    if r in s.relays && s.relays[r].phase == ToAdd && s.relays[r].lot != [] {
      var k := s.relays[r];
      var v := After(reply, s.store, AddEntry(t, s.store, k.lot[0]));
      var k' := Relay(k.lot, if reply == Done then ToMark else ToMarkFailed);
      assert RelayOk(s.store, k);
      AddEntryOk(t, s.store, k.lot[0]);
      hide Fields;
      hide StoreOk;
      StoreChangeOk(t, s, v);
      RelayStable(s.store, v, k);
      hide Inv;
      RelayChangeOk(t, s.(store := v), r, k');
    }
  }

  lemma RelayMarkKeepsInv(t: Text, s: State, r: nat, reply: Reply)
    requires Inv(t, s)
    ensures Inv(t, RelayMarkStep(s, r, reply))
  {
    if r in s.relays && s.relays[r].phase == ToMark && s.relays[r].lot != [] {
      var k := s.relays[r];
      var v := After(reply, s.store, MarkPublished(s.store, k.lot[0].id));
      assert RelayOk(s.store, k);
      MarkPublishedOk(t, s.store, k.lot[0].id);
      hide StoreOk;
      StoreChangeOk(t, s, v);
      RelayStable(s.store, v, k);
      hide Inv;
      hide Grows;
      NextRowOk(t, s.(store := v), r, k);
      RelayChangeOk(t, s.(store := v), r, Relay(k.lot, ToMarkFailed));
    }
  }

  lemma RelayMarkFailedKeepsInv(t: Text, s: State, r: nat, reply: Reply)
    requires Inv(t, s)
    ensures Inv(t, RelayMarkFailedStep(s, r, reply))
  {
    if r in s.relays && s.relays[r].phase == ToMarkFailed && s.relays[r].lot != [] {
      var k := s.relays[r];
      var v := After(reply, s.store, MarkFailedAttempt(s.store, k.lot[0].id));
      assert RelayOk(s.store, k);
      MarkFailuresOk(t, s.store, k.lot[0].id, 0);
      hide StoreOk;
      StoreChangeOk(t, s, v);
      RelayStable(s.store, v, k);
      hide Inv;
      hide Grows;
      NextRowOk(t, s.(store := v), r, k);
      RelayChangeOk(t, s.(store := v), r, k);
    }
  }

  lemma CheckKeepsInv(t: Text, s: State, w: nat, maintenant: string)
    requires Faithful(t) && Inv(t, s)
    ensures Inv(t, CheckStep(t, s, w, maintenant))
  {
    if w in s.workers && s.workers[w].Handling? && s.workers[w].handle == ToCheck && s.workers[w].p < |s.store.stream| {
      var p := s.workers[w].p;
      var e := s.store.outbox[EventId(s.store, p)].event;
      ProcessingInsertsTheImage(t, e, maintenant, AuditedIds(s.store.journal));
      hide Process;
      hide ParseFields;
      assert s.store.stream[p] == Fields(t, e) && e.id == EventId(s.store, p);
      hide Inv;
      hide Fields;
      WorkerChangeOk(t, s, w, Handling(p, ToAck));
      WorkerChangeOk(t, s, w, Handling(p, ToStore(ImageOf(e))));
    }
  }

  lemma StoreRowKeepsInv(t: Text, s: State, w: nat, reply: Reply)
    requires Inv(t, s)
    ensures Inv(t, StoreRowStep(s, w, reply))
  {
    if w in s.workers {
      hide ImageOf;
      var k := s.workers[w];
      assert WorkerOk(s.store, k);
      match k {
        case Handling(p, ToStore(row)) =>
          StoreRowChangeOk(t, s, k, row, reply);
          hide Inv;
          var s1 := s.(store := After(reply, s.store, InsertRow(s.store, row)));
          WorkerChangeOk(t, s1, w, Handling(p, ToAck));
        case Replaying(id, ToStoreAgain(row)) =>
          StoreRowChangeOk(t, s, k, row, reply);
          hide Inv;
          var s1 := s.(store := After(reply, s.store, InsertRow(s.store, row)));
          WorkerChangeOk(t, s1, w, Replaying(id, ToMarkReplayed));
        case _ =>
      }
    }
  }

  lemma StoreRowChangeOk(t: Text, s: State, k: Worker, row: AuditRow, reply: Reply)
    requires Inv(t, s) && WorkerOk(s.store, k) && IsImage(s.store, row)
    ensures var v := After(reply, s.store, InsertRow(s.store, row));
            Inv(t, s.(store := v)) && WorkerOk(v, k) && (Applied(reply) ==> row.evenementId in AuditedIds(v.journal))
  {
    InsertRowOk(t, s.store, row);
    var v := After(reply, s.store, InsertRow(s.store, row));
    hide WorkerOk;
    hide StoreOk;
    hide AuditedIds;
    WorkerStable(s.store, v, k);
    StoreChangeOk(t, s, v);
  }

  lemma AckOk(t: Text, s: State, p: nat, lost: set<nat>)
    requires Inv(t, s) && s.lost <= lost && Accounted(s.(lost := lost), p)
    ensures Inv(t, s.(group := CG.Ack(s.group, p), lost := lost))
  {
    hide StoreOk;
    hide RelayOk;
    hide WorkerOk;
    hide Accounted;
    CG.PartitionsKept(s.group, |s.store.stream|, |s.store.stream|, 0, p);
    GroupChangeOk(t, s, CG.Ack(s.group, p), lost);
  }

  lemma AcknowledgeKeepsInv(t: Text, s: State, w: nat, reply: Reply)
    requires Inv(t, s)
    ensures Inv(t, AcknowledgeStep(s, w, reply))
  {
    if w in s.workers {
      var k := s.workers[w];
      assert WorkerOk(s.store, k);
      hide Inv;
      match k {
        case Handling(p, ToAck) =>
          AckOk(t, s, p, s.lost);
          WorkerChangeOk(t, s, w, k);
          WorkerChangeOk(t, s.(group := CG.Ack(s.group, p)), w, k);
        case Moving(p, _, ToAckMoved(archived)) =>
          var lost := if archived then s.lost else s.lost + {p};
          AckOk(t, s, p, lost);
          WorkerChangeOk(t, s, w, k);
          WorkerChangeOk(t, s.(group := CG.Ack(s.group, p), lost := lost), w, k);
        case _ =>
      }
    }
  }

  lemma FetchKeepsInv(t: Text, s: State, w: nat, maintenant: string, reply: Reply)
    requires Faithful(t) && Inv(t, s)
    ensures Inv(t, FetchStep(t, s, w, maintenant, reply))
  {
    if w in s.workers && s.workers[w].Moving? && s.workers[w].move == ToFetch && s.workers[w].q < |s.store.stream| {
      var Moving(p, n, _) := s.workers[w];
      var e := s.store.outbox[EventId(s.store, p)].event;
      DeadLetterCarriesTheImage(t, e, maintenant, n);
      hide DeadLetterOf;
      hide ParseFields;
      assert s.store.stream[p] == Fields(t, e) && e.id == EventId(s.store, p);
      hide Inv;
      hide Fields;
      WorkerChangeOk(t, s, w, Moving(p, n, ToAckMoved(false)));
      WorkerChangeOk(t, s, w, Moving(p, n, ToSave(DeadLetter(ImageOf(e), n, None))));
    }
  }

  lemma SaveLetterKeepsInv(t: Text, s: State, w: nat, id: string, reply: Reply)
    requires Inv(t, s)
    ensures Inv(t, SaveLetterStep(s, w, id, reply))
  {
    if w in s.workers && s.workers[w].Moving? && s.workers[w].move.ToSave? && id !in s.store.letters {
      var Moving(p, n, ToSave(letter)) := s.workers[w];
      var v := After(reply, s.store, PutLetter(s.store, id, letter));
      hide ImageOf;
      hide EventId;
      assert WorkerOk(s.store, s.workers[w]);
      LetterChangeOk(t, s.store, v);
      hide StoreOk;
      StoreChangeOk(t, s, v);
      PositionStable(s.store, v, p);
      if Applied(reply) { assert id in v.letters; }
      hide Inv;
      WorkerChangeOk(t, s.(store := v), w, Moving(p, n, ToAckMoved(Applied(reply))));
    }
  }

  lemma StartReplayKeepsInv(t: Text, s: State, w: nat, id: string)
    requires Faithful(t) && Inv(t, s)
    ensures Inv(t, StartReplayStep(t, s, w, id))
  {
    if w !in s.workers && id in s.store.letters && s.store.letters[id].rejoueLe == None {
      var d := s.store.letters[id];
      assert IsImage(s.store, d.row);
      var e := s.store.outbox[d.row.evenementId].event;
      ReplayInsertsTheImage(t, e, d, AuditedIds(s.store.journal));
      hide Process;
      hide Inv;
      WorkerChangeOk(t, s, w, Replaying(id, ToMarkReplayed));
      WorkerChangeOk(t, s, w, Replaying(id, ToStoreAgain(ImageOf(e))));
    }
  }

  lemma MarkReplayedKeepsInv(t: Text, s: State, w: nat, now: int, reply: Reply)
    requires Inv(t, s)
    ensures Inv(t, MarkReplayedStep(s, w, now, reply))
  {
    if w in s.workers && s.workers[w].Replaying? && s.workers[w].replay == ToMarkReplayed {
      var v := After(reply, s.store, SetReplayed(s.store, s.workers[w].letterId, now));
      LetterChangeOk(t, s.store, v);
      hide StoreOk;
      StoreChangeOk(t, s, v);
      hide Inv;
      WorkerChangeOk(t, s.(store := v), w, s.workers[w]);
    }
  }

  lemma StoreOnlyKeepsInv(t: Text, s: State, a: Action)
    requires Inv(t, s) && (a.Publish? || a.Sweep?)
    ensures Inv(t, Next(t, s, a))
  {
    match a {
      case Publish(e, creeLe) =>
        InsertEventOk(t, s.store, e, creeLe);
        StoreChangeOk(t, s, InsertEvent(s.store, e, creeLe));
      case Sweep(max) =>
        MarkFailuresOk(t, s.store, "", max);
        StoreChangeOk(t, s, MarkPermanentlyFailed(s.store, max));
    }
  }

  lemma GroupOnlyKeepsInv(t: Text, s: State, a: Action)
    requires Inv(t, s) && (a.Read? || a.Claim? || a.StartHandling? || a.StartMoving? || a.WorkerStop?)
    ensures Inv(t, Next(t, s, a))
  {
    hide StoreOk;
    hide RelayOk;
    hide Audited;
    hide DeadLettered;
    match a {
      case Read(count) =>
        CG.PartitionsKept(s.group, |s.store.stream|, |s.store.stream|, count, 0);
        GroupChangeOk(t, s, CG.Read(s.group, |s.store.stream|, count), s.lost);
      case Claim(p) =>
        CG.PartitionsKept(s.group, |s.store.stream|, |s.store.stream|, 0, p);
        GroupChangeOk(t, s, CG.Claim(s.group, p), s.lost);
      case StartHandling(w, p) => WorkerChangeOk(t, s, w, Handling(p, ToCheck));
      case StartMoving(w, p, n) => WorkerChangeOk(t, s, w, Moving(p, n, ToFetch));
      case WorkerStop(w) => WorkerChangeOk(t, s, w, Handling(0, ToCheck));
    }
  }

  lemma StepKeepsInv(t: Text, s: State, a: Action)
    requires Faithful(t) && Inv(t, s)
    ensures Inv(t, Next(t, s, a))
  {
    hide Inv;
    match a {
      case Publish(_, _) => StoreOnlyKeepsInv(t, s, a);
      case Sweep(_) => StoreOnlyKeepsInv(t, s, a);
      case RelayLoad(r, lot) => RelayLoadKeepsInv(t, s, r, lot);
      case RelayAdd(r, reply) => RelayAddKeepsInv(t, s, r, reply);
      case RelayMark(r, reply) => RelayMarkKeepsInv(t, s, r, reply);
      case RelayMarkFailed(r, reply) => RelayMarkFailedKeepsInv(t, s, r, reply);
      case RelayStop(r) => RelayChangeOk(t, s, r, Relay([], ToAdd));
      case Check(w, m) => CheckKeepsInv(t, s, w, m);
      case StoreRow(w, reply) => StoreRowKeepsInv(t, s, w, reply);
      case Acknowledge(w, reply) => AcknowledgeKeepsInv(t, s, w, reply);
      case Fetch(w, m, reply) => FetchKeepsInv(t, s, w, m, reply);
      case SaveLetter(w, id, reply) => SaveLetterKeepsInv(t, s, w, id, reply);
      case StartReplay(w, id) => StartReplayKeepsInv(t, s, w, id);
      case MarkReplayed(w, now, reply) => MarkReplayedKeepsInv(t, s, w, now, reply);
      case _ => GroupOnlyKeepsInv(t, s, a);
    }
  }
}
