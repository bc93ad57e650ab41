/** The guarantees of the event pipeline over every run of PipelineInvariant's machine. */
module PipelineTheorems {
  import opened Prelude
  import opened Redaction
  import opened StreamCodec
  import opened AuditJournal
  import opened Pipeline
  import opened PipelineInvariant
  import CG = ConsumerGroup

  lemma InitInv(t: Text)
    ensures Inv(t, INIT)
  {
  }

  lemma {:induction false} RunKeepsInv(t: Text, actions: seq<Action>)
    requires Faithful(t)
    ensures Inv(t, Run(t, INIT, actions))
    decreases |actions|
  {
    hide Inv;
    hide Next;
    if actions == [] {
      InitInv(t);
    } else {
      var before := actions[..|actions| - 1];
      RunKeepsInv(t, before);
      StepKeepsInv(t, Run(t, INIT, before), actions[|actions| - 1]);
    }
  }

  lemma RunSnoc(t: Text, s: State, actions: seq<Action>, a: Action)
    ensures Run(t, s, actions + [a]) == Next(t, Run(t, s, actions), a)
  {
    assert (actions + [a])[..|actions|] == actions;
  }

  lemma {:induction false} RunAppend(t: Text, s: State, first: seq<Action>, second: seq<Action>)
    ensures Run(t, s, first + second) == Run(t, Run(t, s, first), second)
    decreases |second|
  {
    hide Next;
    if second == [] {
      assert first + second == first;
    } else {
      var n := |second| - 1;
      RunAppend(t, s, first, second[..n]);
      assert (first + second)[..|first + second| - 1] == first + second[..n];
    }
  }

  // ------------------------------------------------------------------------- the journal's contents

  /**
   * End to end: after any run, the journal holds at most one row per event, and every row equals, field
   * by field and redacted, the outbox row of its event; so does every dead letter.
   */
  lemma JournalMirrorsOutbox(t: Text, actions: seq<Action>)
    requires Faithful(t)
    ensures var v := Run(t, INIT, actions).store;
            && (forall i, j :: 0 <= i < j < |v.journal| ==> v.journal[i].evenementId != v.journal[j].evenementId)
            && (forall row :: row in v.journal ==>
                  row.evenementId in v.outbox && row == ImageOf(v.outbox[row.evenementId].event))
            && (forall id :: id in v.letters ==>
                  v.letters[id].row.evenementId in v.outbox
                  && v.letters[id].row == ImageOf(v.outbox[v.letters[id].row.evenementId].event))
  {
    RunKeepsInv(t, actions);
  }

  /** The image loses nothing but what redaction hides and an empty organisation id. */
  lemma ImageIsFaithful(e: Event)
    ensures var row := ImageOf(e);
            && row.evenementId == e.id && row.typ == e.typ && row.produitSource == e.produitSource
            && row.horodatage == e.horodatage
            && (row.gsgOrgId == e.gsgOrgId <==> e.gsgOrgId != Some("")) && (e.gsgOrgId == Some("") ==> row.gsgOrgId == None)
            && row.chargeUtile == RedactObject(e.chargeUtile)
            && (row.chargeUtile == e.chargeUtile <==> Untouched(Obj(e.chargeUtile), 0))
  {
    RedactObjectIsRedactValue(e.chargeUtile);
    UnchangedIff(Obj(e.chargeUtile), 0);
  }

  lemma OutboxOpsGrow(v: Store, e: Event, creeLe: int, id: string, max: nat)
    ensures Grows(v, InsertEvent(v, e, creeLe))
    ensures Grows(v, MarkPublished(v, id))
    ensures Grows(v, MarkFailedAttempt(v, id))
    ensures Grows(v, MarkPermanentlyFailed(v, max))
  {
  }

  lemma OtherOpsGrow(v: Store, row: AuditRow, id: string, d: DeadLetter, now: int)
    ensures Grows(v, InsertRow(v, row))
    ensures Grows(v, PutLetter(v, id, d))
    ensures Grows(v, SetReplayed(v, id, now))
  {
  }

  lemma RelayStepGrows(t: Text, s: State, r: nat, reply: Reply)
    ensures Grows(s.store, RelayAddStep(t, s, r, reply).store)
    ensures Grows(s.store, RelayMarkStep(s, r, reply).store)
    ensures Grows(s.store, RelayMarkFailedStep(s, r, reply).store)
  {
    GrowsReflexive(s.store);
    if r in s.relays && s.relays[r].lot != [] {
      var e := s.relays[r].lot[0];
      OutboxOpsGrow(s.store, e, 0, e.id, 0);
      AddEntryGrows(t, s.store, e);
      hide Grows;
      hide AddEntry;
      hide MarkPublished;
      hide MarkFailedAttempt;
      assert Grows(s.store, RelayAddStep(t, s, r, reply).store);
      assert Grows(s.store, RelayMarkStep(s, r, reply).store);
      assert Grows(s.store, RelayMarkFailedStep(s, r, reply).store);
    }
  }

  lemma GrowsReflexive(v: Store)
    ensures Grows(v, v)
  {
  }

  lemma AddEntryGrows(t: Text, v: Store, e: Event)
    ensures Grows(v, AddEntry(t, v, e))
  {
    hide Fields;
  }

  lemma WorkerStepGrows(t: Text, s: State, w: nat, id: string, now: int, reply: Reply)
    ensures Grows(s.store, StoreRowStep(s, w, reply).store)
    ensures Grows(s.store, SaveLetterStep(s, w, id, reply).store)
    ensures Grows(s.store, MarkReplayedStep(s, w, now, reply).store)
  {
    GrowsReflexive(s.store);
    var none := DeadLetter(ImageOf(SOME_EVENT), 0, None);
    hide Grows;
    hide InsertRow;
    hide PutLetter;
    hide SetReplayed;
    if w in s.workers {
      match s.workers[w] {
        case Handling(_, ToStore(row)) => OtherOpsGrow(s.store, row, id, none, now);
        case Replaying(_, ToStoreAgain(row)) => OtherOpsGrow(s.store, row, id, none, now);
        case Replaying(letterId, _) => OtherOpsGrow(s.store, none.row, letterId, none, now);
        case Moving(_, _, ToSave(letter)) => OtherOpsGrow(s.store, letter.row, id, letter, now);
        case _ =>
      }
    }
  }

  lemma OtherStepsKeepStore(t: Text, s: State, a: Action)
    requires a.RelayLoad? || a.RelayStop? || a.Read? || a.Claim? || a.StartHandling? || a.Check? || a.Acknowledge?
             || a.StartMoving? || a.Fetch? || a.StartReplay? || a.WorkerStop?
    ensures Next(t, s, a).store == s.store
  {
    hide Process;
    hide ParseFields;
    hide DeadLetterOf;
    hide CG.Ack;
    hide CG.Read;
    hide CG.Claim;
  }

  lemma StepGrows(t: Text, s: State, a: Action)
    ensures Grows(s.store, Next(t, s, a).store)
  {
    match a {
      case Publish(e, creeLe) => OutboxOpsGrow(s.store, e, creeLe, "", 0);
      case Sweep(max) => OutboxOpsGrow(s.store, SOME_EVENT, 0, "", max);
      case RelayAdd(r, reply) => RelayStepGrows(t, s, r, reply);
      case RelayMark(r, reply) => RelayStepGrows(t, s, r, reply);
      case RelayMarkFailed(r, reply) => RelayStepGrows(t, s, r, reply);
      case StoreRow(w, reply) => WorkerStepGrows(t, s, w, "", 0, reply);
      case SaveLetter(w, id, reply) => WorkerStepGrows(t, s, w, id, 0, reply);
      case MarkReplayed(w, now, reply) => WorkerStepGrows(t, s, w, "", now, reply);
      case _ => OtherStepsKeepStore(t, s, a);
    }
  }

  /** The journal is append-only, and so are the stream and the dead letters, along every run. */
  lemma {:induction false} HistoryIsNeverRewritten(t: Text, first: seq<Action>, second: seq<Action>)
    ensures Grows(Run(t, INIT, first).store, Run(t, INIT, first + second).store)
    decreases |second|
  {
    hide Inv;
    hide Next;
    if second == [] {
      assert first + second == first;
    } else {
      var n := |second| - 1;
      HistoryIsNeverRewritten(t, first, second[..n]);
      StepGrows(t, Run(t, INIT, first + second[..n]), second[n]);
      RunSnoc(t, INIT, first + second[..n], second[n]);
      assert first + second == first + second[..n] + [second[n]];
      GrowsTransitively(Run(t, INIT, first).store, Run(t, INIT, first + second[..n]).store, Run(t, INIT, first + second).store);
    }
  }

  // ----------------------------------------------------------------------------- nothing goes missing

  /** Every stream entry is undelivered, pending or acknowledged, and only one of the three. */
  lemma ExactlyOneStatus(t: Text, actions: seq<Action>, p: nat)
    requires Faithful(t) && p < |Run(t, INIT, actions).store.stream|
    ensures var g := Run(t, INIT, actions).group;
            || (p >= g.delivered && p !in g.pending && p !in g.acked)
            || (p < g.delivered && p in g.pending && p !in g.acked)
            || (p < g.delivered && p !in g.pending && p in g.acked)
  {
    RunKeepsInv(t, actions);
  }

  /**
   * How a row's status can change: published only by the relay's own update, given up only by a sweep,
   * and only a pending row that failed often enough; a published row stays published.
   */
  lemma StatusChanges(t: Text, s: State, a: Action, id: string)
    requires id in s.store.outbox
    ensures var row := s.store.outbox[id];
            id in Next(t, s, a).store.outbox &&
            var row' := Next(t, s, a).store.outbox[id];
            && (row.statut == Publie ==> row'.statut == Publie)
            && (row.statut != Publie && row'.statut == Publie ==> a.RelayMark? && Applied(a.reply))
            && (row.statut != Echec && row'.statut == Echec ==> a.Sweep?)
            && (a.Sweep? ==> row' == if row.statut == EnAttente && row.tentatives >= a.max then row.(statut := Echec) else row)
            && (row'.tentatives != row.tentatives ==> a.RelayMarkFailed? && row'.tentatives == row.tentatives + 1)
  {
    hide Fields;
    hide Insert;
    match a {
      case Publish(_, _) =>
      case RelayAdd(_, _) =>
      case RelayMark(_, _) =>
      case RelayMarkFailed(_, _) =>
      case Sweep(_) =>
      case StoreRow(_, _) =>
      case SaveLetter(_, _, _) =>
      case MarkReplayed(_, _, _) =>
      case _ =>
        OtherStepsKeepStore(t, s, a);
        hide Next;
    }
  }

  /** An event marked as published has a stream entry. */
  lemma PublishedIsInStream(t: Text, actions: seq<Action>, id: string)
    requires Faithful(t)
    requires id in Run(t, INIT, actions).store.outbox && Run(t, INIT, actions).store.outbox[id].statut == Publie
    ensures exists p: nat :: p < |Run(t, INIT, actions).store.stream| && EventId(Run(t, INIT, actions).store, p) == id
  {
    RunKeepsInv(t, actions);
  }

  /** No published event vanishes: it is still to be handled, audited, dead-lettered, or known as lost. */
  lemma PublishedIsAccountedFor(t: Text, actions: seq<Action>, id: string) returns (p: nat)
    requires Faithful(t)
    requires id in Run(t, INIT, actions).store.outbox && Run(t, INIT, actions).store.outbox[id].statut == Publie
    ensures var s := Run(t, INIT, actions);
            && p < |s.store.stream| && EventId(s.store, p) == id
            && (p >= s.group.delivered || p in s.group.pending
                || Audited(s.store, p) || DeadLettered(s.store, p) || p in s.lost)
  {
    RunKeepsInv(t, actions);
    var s := Run(t, INIT, actions);
    assert InStream(s.store, id);
    p :| p < |s.store.stream| && EventId(s.store, p) == id;
    ExactlyOneStatus(t, actions, p);
    if p in s.group.acked { assert Accounted(s, p); }
  }

  /** Reading an entry back from the stream and storing the dead letter never fails in the run. */
  ghost predicate ArchivingSucceeds(actions: seq<Action>) {
    forall a :: a in actions ==> (a.Fetch? ==> a.reply == Done) && (a.SaveLetter? ==> Applied(a.reply))
  }

  ghost predicate NothingUnarchived(s: State) {
    s.lost == {} && forall w :: w in s.workers && s.workers[w].Moving? ==> s.workers[w].move != ToAckMoved(false)
  }

  lemma StepLosesNothing(t: Text, s: State, a: Action)
    requires Faithful(t) && Inv(t, s) && NothingUnarchived(s) && ArchivingSucceeds([a])
    ensures NothingUnarchived(Next(t, s, a))
  {
    assert a in [a];
    if a.Fetch? {
      FetchLosesNothing(t, s, a.w, a.maintenant);
    } else if a.RelayLoad? || a.RelayAdd? || a.RelayMark? || a.RelayMarkFailed? || a.RelayStop? {
      hide Inv;
      RelayLeavesWorkers(t, s, a);
      hide Next;
    } else if a.Check? || a.StartReplay? || a.StoreRow? {
      AuditLosesNothing(t, s, a);
    } else {
      MovesLoseNothing(t, s, a);
    }
  }

  lemma MovesLoseNothing(t: Text, s: State, a: Action)
    requires NothingUnarchived(s) && (a.SaveLetter? ==> Applied(a.reply))
    requires !a.Fetch? && !a.RelayLoad? && !a.RelayAdd? && !a.RelayMark? && !a.RelayMarkFailed? && !a.RelayStop?
    requires !a.Check? && !a.StartReplay? && !a.StoreRow?
    ensures NothingUnarchived(Next(t, s, a))
  {
    hide After;
    hide CG.Ack;
    hide CG.Read;
    hide CG.Claim;
    hide InsertEvent;
    hide MarkPermanentlyFailed;
  }

  lemma RelayLeavesWorkers(t: Text, s: State, a: Action)
    requires a.RelayLoad? || a.RelayAdd? || a.RelayMark? || a.RelayMarkFailed? || a.RelayStop?
    ensures Next(t, s, a).workers == s.workers && Next(t, s, a).lost == s.lost
  {
    hide After;
    hide IsPending;
  }

  lemma AuditLosesNothing(t: Text, s: State, a: Action)
    requires NothingUnarchived(s) && (a.Check? || a.StartReplay? || a.StoreRow?)
    ensures NothingUnarchived(Next(t, s, a))
  {
    hide After;
    hide Process;
    hide ParseFields;
  }

  lemma FetchLosesNothing(t: Text, s: State, w: nat, maintenant: string)
    requires Faithful(t) && Inv(t, s) && NothingUnarchived(s)
    ensures NothingUnarchived(FetchStep(t, s, w, maintenant, Done))
  {
    if w in s.workers && s.workers[w].Moving? && s.workers[w].q < |s.store.stream| {
      var e := s.store.outbox[EventId(s.store, s.workers[w].q)].event;
      assert s.store.stream[s.workers[w].q] == Fields(t, e);
      DeadLetterCarriesTheImage(t, e, maintenant, s.workers[w].tentatives);
    }
    hide Inv;
    hide Fields;
    hide ParseFields;
    hide DeadLetterOf;
  }

  /** When archiving succeeds, every acknowledged entry is audited or dead-lettered. */
  lemma {:induction false} AcknowledgedIsKept(t: Text, actions: seq<Action>)
    requires Faithful(t) && ArchivingSucceeds(actions)
    ensures NothingUnarchived(Run(t, INIT, actions))
    ensures var s := Run(t, INIT, actions);
            forall p :: p in s.group.acked ==> p < |s.store.stream| && (Audited(s.store, p) || DeadLettered(s.store, p))
    decreases |actions|
  {
    RunKeepsInv(t, actions);
    var s := Run(t, INIT, actions);
    if actions != [] {
      var before, a := actions[..|actions| - 1], actions[|actions| - 1];
      AcknowledgedIsKept(t, before);
      RunKeepsInv(t, before);
      StepLosesNothing(t, Run(t, INIT, before), a);
    }
    hide Inv;
    hide Next;
    forall p | p in s.group.acked ensures p < |s.store.stream| && (Audited(s.store, p) || DeadLettered(s.store, p)) {
      AckedIsAccounted(t, s, p);
    }
  }

  lemma AckedIsAccounted(t: Text, s: State, p: nat)
    requires Inv(t, s) && p in s.group.acked
    ensures Accounted(s, p)
  {
  }

  /**
   * The `finally` acknowledges in every case: the entry then counts as kept if and only if the dead
   * letter was stored, or the event had been audited or dead-lettered through another entry.
   */
  lemma FinallyAcknowledges(t: Text, s: State, w: nat)
    requires Inv(t, s) && w in s.workers && s.workers[w].Moving? && s.workers[w].move.ToAckMoved?
    requires s.workers[w].q in s.group.pending
    ensures var p, s' := s.workers[w].q, Next(t, s, Acknowledge(w, Done));
            && p < |s'.store.stream| && p in s'.group.acked && p !in s'.group.pending
            && (Audited(s'.store, p) || DeadLettered(s'.store, p) <==>
                  s.workers[w].move.archived || Audited(s.store, p) || DeadLettered(s.store, p))
  {
    assert WorkerOk(s.store, s.workers[w]);
    hide EventId;
    hide StoreOk;
  }

  ghost predicate Kept(v: Store, p: nat) {
    p < |v.stream| && (Audited(v, p) || DeadLettered(v, p))
  }

  ghost predicate AllKept(s: State) {
    forall p :: p in s.group.acked ==> Kept(s.store, p)
  }

  /** The acknowledgement of an entry that is neither audited nor dead-lettered, after a move that archived nothing. */
  ghost predicate LosesAnEvent(s: State, a: Action) {
    && a.Acknowledge? && Applied(a.reply) && a.w in s.workers
    && s.workers[a.w].Moving? && s.workers[a.w].move == ToAckMoved(false)
    && s.workers[a.w].q in s.group.pending && !Kept(s.store, s.workers[a.w].q)
  }

  lemma OnlyAcknowledgeAcks(t: Text, s: State, a: Action)
    requires !a.Acknowledge?
    ensures Next(t, s, a).group.acked == s.group.acked
  {
    hide Process;
    hide ParseFields;
    hide DeadLetterOf;
    hide ReplayMessage;
    hide After;
    hide IsPending;
  }

  lemma AcknowledgingKeepsIff(t: Text, s: State, a: Action)
    requires Inv(t, s) && AllKept(s) && a.Acknowledge?
    ensures AllKept(Next(t, s, a)) <==> !LosesAnEvent(s, a)
  {
    hide StoreOk;
    hide EventId;
    if a.w in s.workers {
      assert WorkerOk(s.store, s.workers[a.w]);
      hide Audited;
      hide DeadLettered;
      hide IsImage;
    }
  }

  /** In every reachable state, a step loses an event exactly when it is such an acknowledgement. */
  lemma StepKeepsAllIff(t: Text, s: State, a: Action)
    requires Inv(t, s) && AllKept(s)
    ensures AllKept(Next(t, s, a)) <==> !LosesAnEvent(s, a)
  {
    if a.Acknowledge? {
      AcknowledgingKeepsIff(t, s, a);
    } else {
      OnlyAcknowledgeAcks(t, s, a);
      StepGrows(t, s, a);
      forall p | p in s.group.acked ensures Kept(Next(t, s, a).store, p) {
        PositionStable(s.store, Next(t, s, a).store, p);
      }
      hide Next;
      hide Kept;
    }
  }

  ghost predicate KeptAfter(t: Text, actions: seq<Action>, k: nat)
    requires k <= |actions|
  {
    AllKept(Run(t, INIT, actions[..k]))
  }

  ghost predicate KeepsAt(t: Text, actions: seq<Action>, k: nat)
    requires k < |actions|
  {
    !LosesAnEvent(Run(t, INIT, actions[..k]), actions[k])
  }

  lemma KeptStep(t: Text, actions: seq<Action>, k: nat)
    requires Faithful(t) && k < |actions| && KeptAfter(t, actions, k)
    ensures KeptAfter(t, actions, k + 1) <==> KeepsAt(t, actions, k)
  {
    hide Next;
    hide Inv;
    hide AllKept;
    hide LosesAnEvent;
    var before := actions[..k];
    assert actions[..k + 1][..k] == before;
    assert Run(t, INIT, actions[..k + 1]) == Next(t, Run(t, INIT, before), actions[k]);
    RunKeepsInv(t, before);
    StepKeepsAllIff(t, Run(t, INIT, before), actions[k]);
  }

  lemma {:induction false} KeptSoFar(t: Text, actions: seq<Action>, k: nat)
    requires Faithful(t) && k <= |actions| && forall i :: 0 <= i < |actions| ==> KeepsAt(t, actions, i)
    ensures KeptAfter(t, actions, k)
  {
    hide KeepsAt;
    if k == 0 {
      assert actions[..0] == [];
    } else {
      hide KeptAfter;
      KeptSoFar(t, actions, k - 1);
      assert KeepsAt(t, actions, k - 1);
      KeptStep(t, actions, k - 1);
    }
  }

  /**
   * All along a run every acknowledged entry is audited or dead-lettered, if and only if no entry that is
   * neither is acknowledged after a move that archived nothing.
   */
  lemma NothingLostIff(t: Text, actions: seq<Action>)
    requires Faithful(t)
    ensures (forall k :: 0 <= k <= |actions| ==> KeptAfter(t, actions, k)) <==>
            (forall k :: 0 <= k < |actions| ==> KeepsAt(t, actions, k))
  {
    hide KeptAfter;
    hide KeepsAt;
    if forall k :: 0 <= k < |actions| ==> KeepsAt(t, actions, k) {
      forall k | 0 <= k <= |actions| ensures KeptAfter(t, actions, k) {
        KeptSoFar(t, actions, k);
      }
    }
    if forall k :: 0 <= k <= |actions| ==> KeptAfter(t, actions, k) {
      forall k | 0 <= k < |actions| ensures KeepsAt(t, actions, k) {
        assert KeptAfter(t, actions, k) && KeptAfter(t, actions, k + 1);
        KeptStep(t, actions, k);
      }
    }
  }

  /** Nothing in flight: every row published, every entry acknowledged, each of them kept. */
  ghost predicate Drained(s: State) {
    && (forall id :: id in s.store.outbox ==> s.store.outbox[id].statut == Publie)
    && s.group.delivered == |s.store.stream| && s.group.pending == map[] && AllKept(s)
  }

  function JournalRows(v: Store): set<AuditRow> {
    set row | row in v.journal
  }

  function LetterRows(v: Store): set<AuditRow> {
    set id | id in v.letters :: v.letters[id].row
  }

  function Images(v: Store): set<AuditRow> {
    set id | id in v.outbox :: ImageOf(v.outbox[id].event)
  }

  /** Once the pipeline has drained, the journal and the dead letters together are exactly the image of the outbox. */
  lemma DrainedJournalIsTheOutbox(t: Text, actions: seq<Action>)
    requires Faithful(t) && Drained(Run(t, INIT, actions))
    ensures var v := Run(t, INIT, actions).store;
            && JournalRows(v) + LetterRows(v) == Images(v)
            && (v.letters == map[] ==> JournalRows(v) == Images(v))
  {
    JournalMirrorsOutbox(t, actions);
    var v := Run(t, INIT, actions).store;
    forall id | id in v.outbox ensures ImageOf(v.outbox[id].event) in JournalRows(v) + LetterRows(v) {
      DrainedEventIsKept(t, actions, id);
    }
    hide Run;
    hide ImageOf;
    assert JournalRows(v) <= Images(v);
    assert LetterRows(v) <= Images(v);
  }

  lemma DrainedEventIsKept(t: Text, actions: seq<Action>, id: string)
    requires Faithful(t) && Drained(Run(t, INIT, actions))
    requires id in Run(t, INIT, actions).store.outbox
    ensures var v := Run(t, INIT, actions).store;
            ImageOf(v.outbox[id].event) in JournalRows(v) + LetterRows(v)
  {
    var v := Run(t, INIT, actions).store;
    var p := PublishedIsAccountedFor(t, actions, id);
    ExactlyOneStatus(t, actions, p);
    assert Kept(v, p);
    JournalMirrorsOutbox(t, actions);
    hide Run;
    hide ImageOf;
    if Audited(v, p) {
      var row :| row in v.journal && row.evenementId == id;
      assert row == ImageOf(v.outbox[id].event);
    } else {
      assert DeadLettered(v, p);
      var letter :| letter in v.letters && v.letters[letter].row.evenementId == id;
      assert v.letters[letter].row == ImageOf(v.outbox[id].event);
    }
  }

  // -------------------------------------------------------------- a run in which an event is lost

  const SOME_EVENT := Event("e", "t", None, 0, "s", map[])

  /** The event is published and relayed; its entry is at position 0. */
  const RELAYED: seq<Action> := [
    Publish(SOME_EVENT, 0), RelayLoad(0, [SOME_EVENT]), RelayAdd(0, Done), RelayMark(0, Done)
  ]

  /** The entry is delivered, claimed until its delivery count is 6, then moved while XRANGE fails. */
  const CLAIMED: seq<Action> := [Read(1), Claim(0), Claim(0), Claim(0), Claim(0), Claim(0)]
  const MOVED: seq<Action> := [StartMoving(1, 0, 6), Fetch(1, "", Failed), Acknowledge(1, Done)]

  function RelayedStore(t: Text): Store {
    Store(map["e" := OutboxRow(SOME_EVENT, Publie, 0, 0)], [Fields(t, SOME_EVENT)], [], map[])
  }

  const PENDING: State := INIT.(store := INIT.store.(outbox := map["e" := OutboxRow(SOME_EVENT, EnAttente, 0, 0)]))

  function Loaded(store: Store, phase: RelayPhase): State {
    INIT.(store := store, relays := map[0 := Relay([SOME_EVENT], phase)])
  }

  lemma RelayedStepByStep(t: Text)
    ensures Next(t, INIT, RELAYED[0]) == PENDING
    ensures Next(t, PENDING, RELAYED[1]) == Loaded(PENDING.store, ToAdd)
    ensures Next(t, Loaded(PENDING.store, ToAdd), RELAYED[2]) == Loaded(AddEntry(t, PENDING.store, SOME_EVENT), ToMark)
  {
    hide Fields;
  }

  lemma RelayedLastStep(t: Text)
    ensures Next(t, Loaded(AddEntry(t, PENDING.store, SOME_EVENT), ToMark), RELAYED[3]) == INIT.(store := RelayedStore(t))
  {
    hide Fields;
  }

  lemma AfterRelayed(t: Text)
    ensures Run(t, INIT, RELAYED) == INIT.(store := RelayedStore(t))
  {
    RelayedStepByStep(t);
    RelayedLastStep(t);
    hide Next;
    hide AddEntry;
    hide Loaded;
    assert RELAYED[..1] == [] + [RELAYED[0]] && RELAYED[..2] == RELAYED[..1] + [RELAYED[1]];
    assert RELAYED[..3] == RELAYED[..2] + [RELAYED[2]] && RELAYED == RELAYED[..3] + [RELAYED[3]];
    RunSnoc(t, INIT, [], RELAYED[0]);
    RunSnoc(t, INIT, RELAYED[..1], RELAYED[1]);
    RunSnoc(t, INIT, RELAYED[..2], RELAYED[2]);
    RunSnoc(t, INIT, RELAYED[..3], RELAYED[3]);
  }

  lemma {:induction false} AfterClaims(t: Text, s: State, n: nat)
    requires 0 in s.group.pending
    ensures Run(t, s, seq(n, _ => Claim(0))) ==
            s.(group := s.group.(pending := s.group.pending[0 := s.group.pending[0] + n]))
  {
    var claims := seq(n, _ => Claim(0));
    if n == 0 {
      assert s.group.pending[0 := s.group.pending[0] + 0] == s.group.pending;
    } else {
      AfterClaims(t, s, n - 1);
      assert claims[..n - 1] == seq(n - 1, _ => Claim(0));
    }
  }

  lemma AfterMoved(t: Text, s: State)
    requires 0 in s.group.pending && s.group.delivered == 1 && |s.store.stream| == 1 && 1 !in s.workers
    ensures Run(t, s, MOVED) == s.(group := CG.Ack(s.group, 0), lost := s.lost + {0})
  {
    hide ParseFields;
    hide DeadLetterOf;
    var s1 := Enter(s, 1, Moving(0, 6, ToFetch));
    var s2 := Enter(s, 1, Moving(0, 6, ToAckMoved(false)));
    assert Next(t, s, MOVED[0]) == s1;
    assert Next(t, s1, MOVED[1]) == s2;
    assert s2.workers - {1} == s.workers;
    hide CG.Ack;
    assert Next(t, s2, MOVED[2]) == s.(group := CG.Ack(s.group, 0), lost := s.lost + {0});
    hide Next;
    RunSnoc(t, s, [], MOVED[0]);
    RunSnoc(t, s, [MOVED[0]], MOVED[1]);
    RunSnoc(t, s, [MOVED[0], MOVED[1]], MOVED[2]);
    assert [] + [MOVED[0]] == [MOVED[0]];
    assert [MOVED[0]] + [MOVED[1]] == [MOVED[0], MOVED[1]];
    assert [MOVED[0], MOVED[1]] + [MOVED[2]] == MOVED;
  }

  /** After this run the event is published and acknowledged, yet neither audited nor dead-lettered. */
  lemma AnEventCanBeLost(t: Text)
    ensures var s := Run(t, INIT, RELAYED + CLAIMED + MOVED);
            && s.store == RelayedStore(t)
            && s.group == CG.Group(1, map[], {0})
            && s.lost == {0}
  {
    hide Next;
    AfterRelayed(t);
    var s1 := INIT.(store := RelayedStore(t));
    var s2 := s1.(group := CG.Group(1, map[0 := 1], {}));
    var s3 := s1.(group := CG.Group(1, map[0 := 6], {}));
    AfterRead(t, s1);
    RunAppend(t, INIT, RELAYED, [Read(1)]);
    assert [Read(1)][..0] == [];
    AfterClaims(t, s2, 5);
    var claims := seq(5, _ => Claim(0));
    assert CLAIMED == [Read(1)] + claims;
    RunAppend(t, INIT, RELAYED + [Read(1)], claims);
    assert RELAYED + [Read(1)] + claims == RELAYED + CLAIMED;
    assert Run(t, INIT, RELAYED + CLAIMED) == s3;
    AfterMoved(t, s3);
    RunAppend(t, INIT, RELAYED + CLAIMED, MOVED);
  }

  lemma AfterRead(t: Text, s: State)
    requires |s.store.stream| == 1 && s.group == CG.EMPTY
    ensures Run(t, s, [Read(1)]) == s.(group := CG.Group(1, map[0 := 1], {}))
  {
    assert [Read(1)][..0] == [];
    assert Next(t, s, Read(1)).group.pending == map[0 := 1];
  }
}
