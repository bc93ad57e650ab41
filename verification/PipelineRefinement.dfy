/**
 * The services, run call by call, are runs of the pipeline's state machine: what PipelineTheorems
 * proves of every run holds after every call of the relay, the consumer and the replay.
 */
module PipelineRefinement {
  import opened Prelude
  import opened Redaction
  import opened StreamCodec
  import opened AuditJournal
  import opened Pipeline
  import opened PipelineTheorems
  import opened RelayProgress
  import CG = ConsumerGroup
  import ClaimCycles
  import ES = EventServices

  lemma Run3(t: Text, s: State, a: Action, b: Action, c: Action)
    ensures Run(t, s, [a, b, c]) == Next(t, Next(t, Next(t, s, a), b), c)
  {
    hide Next;
    assert [a, b, c][..2] == [a, b];
    assert [a, b][..1] == [a];
    assert [a][..0] == [];
    assert Run(t, s, [a]) == Next(t, s, a);
    assert Run(t, s, [a, b]) == Next(t, Next(t, s, a), b);
  }

  lemma Run4(t: Text, s: State, a: Action, b: Action, c: Action, d: Action)
    ensures Run(t, s, [a, b, c, d]) == Next(t, Next(t, Next(t, Next(t, s, a), b), c), d)
  {
    hide Next;
    Run3(t, s, a, b, c);
    assert [a, b, c, d][..3] == [a, b, c];
  }

  // ------------------------------------------------------------------------------------- the relay

  function RelayOneSteps(r: nat, a: ES.Attempt): seq<Action> {
    [RelayAdd(r, a.add), RelayMark(r, a.mark), RelayMarkFailed(r, a.fail)]
  }

  lemma RelayStepsRun(t: Text, s: State, r: nat, a: ES.Attempt)
    ensures Run(t, s, RelayOneSteps(r, a)) ==
            RelayMarkFailedStep(RelayMarkStep(RelayAddStep(t, s, r, a.add), r, a.mark), r, a.fail)
  {
    hide RelayAddStep;
    hide RelayMarkStep;
    hide RelayMarkFailedStep;
    Run3(t, s, RelayAdd(r, a.add), RelayMark(r, a.mark), RelayMarkFailed(r, a.fail));
  }

  /** One `relayOne` is the relay's own three steps on the head of its batch. */
  lemma RelayOneIsARun(t: Text, s: State, r: nat, lot: seq<Event>, a: ES.Attempt)
    requires r in s.relays && s.relays[r] == Relay(lot, ToAdd) && lot != []
    ensures var s' := Run(t, s, RelayOneSteps(r, a));
            && s'.store == ES.RelayOneEffect(t, s.store, lot[0], a)
            && s' == (if ES.GoesOn(a) then NextRow(s.(store := s'.store), r, lot) else DropRelay(s.(store := s'.store), r))
  {
    RelayStepsRun(t, s, r, a);
    hide RelayOneSteps;
    hide AddEntry;
    hide MarkPublished;
    hide MarkFailedAttempt;
    var s1 := RelayAddStep(t, s, r, a.add);
    var s2 := RelayMarkStep(s1, r, a.mark);
    if a.add == Done && a.mark == Done && |lot| > 1 {
      assert s2.relays[r].phase == ToAdd;
    }
  }

  /** A whole cycle, from the batch it loads to the row where it ends, is a run. */
  lemma {:induction false} CycleIsARun(t: Text, s: State, r: nat, lot: seq<Event>, attempts: nat -> ES.Attempt, n: nat)
    returns (actions: seq<Action>)
    requires r !in s.relays && n <= |lot| && (forall e :: e in lot ==> IsPending(s.store, e))
    ensures var s' := Run(t, s, actions);
            && s'.store == ES.CycleEffect(t, s.store, lot, attempts, n).store
            && s' == s.(store := s'.store, relays := s'.relays) && s'.relays - {r} == s.relays
            && (r in s'.relays <==> n < |lot| && ES.CycleEffect(t, s.store, lot, attempts, n).alive)
            && (r in s'.relays ==> s'.relays[r] == Relay(lot[n..], ToAdd))
  {
    if n == 0 {
      actions := [RelayLoad(r, lot)];
      assert actions[..0] == [];
      assert lot[0..] == lot;
      assert s.relays - {r} == s.relays;
    } else {
      var before := CycleIsARun(t, s, r, lot, attempts, n - 1);
      actions := before;
      var p := ES.CycleEffect(t, s.store, lot, attempts, n - 1);
      if p.alive {
        hide IsPending;
        hide ES.RelayOneEffect;
        var a := attempts(n - 1);
        var sb := Run(t, s, before);
        RelayOneIsARun(t, sb, r, lot[n - 1..], a);
        actions := before + RelayOneSteps(r, a);
        RunAppend(t, s, before, RelayOneSteps(r, a));
        assert lot[n - 1..][0] == lot[n - 1];
        assert lot[n - 1..][1..] == lot[n..];
      }
    }
  }

  /** The rows among the first n of a batch whose XADD succeeded. */
  function Relayed(lot: seq<Event>, attempts: nat -> ES.Attempt, n: nat): (r: set<string>)
    requires n <= |lot|
    ensures forall id :: id in r <==> exists i :: 0 <= i < n && attempts(i).add == Done && lot[i].id == id
  {
    if n == 0 then {}
    else Relayed(lot, attempts, n - 1) + if attempts(n - 1).add == Done then {lot[n - 1].id} else {}
  }

  /** With its status updates working, a cycle moves the table as RelayProgress says a cycle does. */
  lemma {:induction false} CycleIsAMove(t: Text, v: Store, lot: seq<Event>, attempts: nat -> ES.Attempt, m: nat, n: nat)
    requires n <= |lot| && (forall e :: e in lot ==> e.id in v.outbox)
    requires forall i, j :: 0 <= i < j < |lot| ==> lot[i].id != lot[j].id
    requires forall i :: attempts(i).mark == Done && attempts(i).fail == Done
    ensures var p := ES.CycleEffect(t, v, lot, attempts, n);
            p.alive && p.store.outbox == Apply(v.outbox, m, Move.Cycle(ES.Ids(lot[..n]), Relayed(lot, attempts, n)))
  {
    hide ES.RelayOneEffect;
    hide Attempted;
    if n > 0 {
      CycleIsAMove(t, v, lot, attempts, m, n - 1);
      var before, e, a := ES.CycleEffect(t, v, lot, attempts, n - 1), lot[n - 1], attempts(n - 1);
      assert ES.Ids(lot[..n]) == ES.Ids(lot[..n - 1]) + [e.id];
      assert e.id !in ES.Ids(lot[..n - 1]);
      assert e.id !in Relayed(lot, attempts, n - 1);
      RelayOneOutbox(t, before.store, e, a);
      OneMoreAttempt(v.outbox, m, ES.Ids(lot[..n - 1]), e.id, Relayed(lot, attempts, n - 1), a.add == Done);
      hide Apply;
      hide ES.Ids;
    }
  }

  lemma OneMoreAttempt(rows: Table, m: nat, lot: seq<string>, id: string, published: set<string>, done: bool)
    requires id in rows && id !in lot && id !in published
    ensures Apply(rows, m, Move.Cycle(lot + [id], published + if done then {id} else {})) ==
            Apply(rows, m, Move.Cycle(lot, published))[id := Attempted(rows[id], done)]
  {
    hide Attempted;
  }

  lemma RelayOneOutbox(t: Text, v: Store, e: Event, a: ES.Attempt)
    requires e.id in v.outbox && a.mark == Done && a.fail == Done
    ensures ES.RelayOneEffect(t, v, e, a).outbox == v.outbox[e.id := Attempted(v.outbox[e.id], a.add == Done)]
  {
  }

  /** A row reported as published has its entry at the end of the stream; a failure never removes one. */
  lemma RelayedOrCounted(t: Text, v: Store, e: Event, a: ES.Attempt)
    requires IsPending(v, e)
    ensures var v' := ES.RelayOneEffect(t, v, e, a);
            && (v'.outbox[e.id].statut == Publie ==> v'.stream == v.stream + [Fields(t, e)])
            && (v'.outbox[e.id].statut == Publie <==> a.add == Done && Applied(a.mark))
            && (v'.outbox[e.id].tentatives == v.outbox[e.id].tentatives + 1 <==>
                  (a.add != Done || a.mark != Done) && Applied(a.fail))
            && (Applied(a.add) <==> |v'.stream| == |v.stream| + 1)
            && (forall id :: id in v.outbox && id != e.id ==> id in v'.outbox && v'.outbox[id] == v.outbox[id])
            && v'.journal == v.journal && v'.letters == v.letters
  {
  }

  // --------------------------------------------------------------------------------- the consumers

  function ViewOf(s: State): ES.View {
    ES.View(s.store, s.group)
  }

  /** Only the stores, the group and the lost positions changed: no consumer is left in the middle. */
  predicate Settled(s: State, s': State) {
    s'.relays == s.relays && s'.workers == s.workers
  }

  function HandleSteps(w: nat, p: nat, maintenant: string, h: ES.Handling): seq<Action> {
    if h.lookup != Done then []
    else [StartHandling(w, p), Check(w, maintenant), StoreRow(w, h.insert), Acknowledge(w, h.ack)]
  }

  lemma HandleStepsRun(t: Text, s: State, w: nat, p: nat, maintenant: string, h: ES.Handling)
    requires h.lookup == Done
    ensures Run(t, s, HandleSteps(w, p, maintenant, h)) ==
            AcknowledgeStep(StoreRowStep(CheckStep(t, StartStep(s, w, Handling(p, ToCheck), p), w, maintenant), w, h.insert),
                            w, h.ack)
  {
    hide StartStep;
    hide CheckStep;
    hide StoreRowStep;
    hide AcknowledgeStep;
    Run4(t, s, StartHandling(w, p), Check(w, maintenant), StoreRow(w, h.insert), Acknowledge(w, h.ack));
  }

  lemma HandlingIsARun(t: Text, s: State, w: nat, p: nat, maintenant: string, h: ES.Handling)
    requires w !in s.workers && p < s.group.delivered && p < |s.store.stream|
    ensures var s' := Run(t, s, HandleSteps(w, p, maintenant, h));
            Settled(s, s') && s'.lost == s.lost && ViewOf(s') == ES.HandleEffect(t, ViewOf(s), p, maintenant, h)
  {
    if h.lookup == Done {
      HandleStepsRun(t, s, w, p, maintenant, h);
      hide HandleSteps;
      hide Process;
      hide ParseFields;
      hide InsertRow;
      hide CG.Ack;
      assert s.workers - {w} == s.workers;
      var s1 := StartStep(s, w, Handling(p, ToCheck), p);
      var s2 := CheckStep(t, s1, w, maintenant);
      match Process(t, AuditedIds(s.store.journal), ParseFields(s.store.stream[p], maintenant))
      case Rejected =>
        assert s2 == s;
      case AlreadyAudited =>
        assert StoreRowStep(s2, w, h.insert) == s2;
      case ToInsert(row) =>
        assert s2.workers[w] == Handling(p, ToStore(row));
    }
  }

  function MoveSteps(w: nat, p: nat, tentatives: nat, maintenant: string, id: string, m: ES.Moving): seq<Action> {
    [StartMoving(w, p, tentatives), Fetch(w, maintenant, m.fetch), SaveLetter(w, id, m.save), Acknowledge(w, m.ack)]
  }

  lemma MoveStepsRun(t: Text, s: State, w: nat, p: nat, tentatives: nat, maintenant: string, id: string, m: ES.Moving)
    ensures Run(t, s, MoveSteps(w, p, tentatives, maintenant, id, m)) ==
            AcknowledgeStep(
              SaveLetterStep(FetchStep(t, StartStep(s, w, Moving(p, tentatives, ToFetch), p), w, maintenant, m.fetch),
                             w, id, m.save), w, m.ack)
  {
    hide StartStep;
    hide FetchStep;
    hide SaveLetterStep;
    hide AcknowledgeStep;
    Run4(t, s, StartMoving(w, p, tentatives), Fetch(w, maintenant, m.fetch), SaveLetter(w, id, m.save), Acknowledge(w, m.ack));
  }

  /** Under a fresh identifier; the position is lost exactly when it is acknowledged without a letter. */
  lemma MovingIsARun(t: Text, s: State, w: nat, p: nat, tentatives: nat, maintenant: string, id: string, m: ES.Moving)
    requires w !in s.workers && p < s.group.delivered && p < |s.store.stream| && id !in s.store.letters
    ensures var s' := Run(t, s, MoveSteps(w, p, tentatives, maintenant, id, m));
            && Settled(s, s') && ViewOf(s') == ES.MoveEffect(t, ViewOf(s), p, tentatives, maintenant, id, m)
            && s'.lost == if Applied(m.ack) && id !in s'.store.letters then s.lost + {p} else s.lost
  {
    MoveStepsRun(t, s, w, p, tentatives, maintenant, id, m);
    hide MoveSteps;
    hide DeadLetterOf;
    hide ParseFields;
    hide CG.Ack;
    assert s.workers - {w} == s.workers;
    var s1 := StartStep(s, w, Moving(p, tentatives, ToFetch), p);
    var s2 := FetchStep(t, s1, w, maintenant, m.fetch);
    var s3 := SaveLetterStep(s2, w, id, m.save);
    var letter := DeadLetterOf(t, ParseFields(s.store.stream[p], maintenant), tentatives);
    if m.fetch == Done && letter.Some? {
      assert s3.workers[w] == Moving(p, tentatives, ToAckMoved(Applied(m.save)));
    } else {
      assert s3 == s2 && s3.workers[w] == Moving(p, tentatives, ToAckMoved(false));
    }
  }

  function TurnSteps(s: State, w: nat, line: ClaimCycles.Selected, max: nat, u: ES.Turn): seq<Action> {
    if ClaimCycles.ShouldMoveToDeadLetter(line.deliveryCount, max) then
      MoveSteps(w, line.p, line.deliveryCount, u.maintenant, u.letterId, u.moving)
    else if !Applied(u.claim) || !u.idle || line.p !in s.group.pending then []
    else if u.claim != Done then [Claim(line.p)]
    else [Claim(line.p)] + HandleSteps(w, line.p, u.maintenant, u.handling)
  }

  lemma TurnIsARun(t: Text, s: State, w: nat, line: ClaimCycles.Selected, max: nat, u: ES.Turn)
    requires w !in s.workers && line.p < s.group.delivered && line.p < |s.store.stream| && u.letterId !in s.store.letters
    ensures var s' := Run(t, s, TurnSteps(s, w, line, max, u));
            Settled(s, s') && ViewOf(s') == ES.TurnEffect(t, ViewOf(s), line, max, u)
  {
    if ClaimCycles.ShouldMoveToDeadLetter(line.deliveryCount, max) {
      MovingIsARun(t, s, w, line.p, line.deliveryCount, u.maintenant, u.letterId, u.moving);
    } else if Applied(u.claim) && u.idle && line.p in s.group.pending {
      var claim := Claim(line.p);
      var s1 := Next(t, s, claim);
      assert [claim][..0] == [];
      assert Run(t, s, [claim]) == s1;
      HandlingIsARun(t, s1, w, line.p, u.maintenant, u.handling);
      RunAppend(t, s, [claim], HandleSteps(w, line.p, u.maintenant, u.handling));
      hide ES.HandleEffect;
    }
  }

  /** The letters a claim cycle may write bear identifiers never used before. */
  ghost predicate FreshLetterIds(v: Store, turns: nat -> ES.Turn) {
    && (forall i :: turns(i).letterId !in v.letters)
    && (forall i, j :: i < j ==> turns(i).letterId != turns(j).letterId)
  }

  lemma {:induction false} ClaimCycleIsARun(t: Text, s: State, w: nat, lines: seq<ClaimCycles.Selected>, max: nat,
                                           turns: nat -> ES.Turn, n: nat)
    returns (actions: seq<Action>)
    requires w !in s.workers && n <= |lines| && FreshLetterIds(s.store, turns)
    requires forall i :: 0 <= i < |lines| ==> lines[i].p < s.group.delivered && lines[i].p < |s.store.stream|
    ensures var s' := Run(t, s, actions);
            && Settled(s, s') && ViewOf(s') == ES.ClaimEffect(t, ViewOf(s), lines, max, turns, n).view
            && s'.group.delivered == s.group.delivered
            && forall i :: i >= n ==> turns(i).letterId !in s'.store.letters
  {
    actions := [];
    if n > 0 {
      actions := ClaimCycleIsARun(t, s, w, lines, max, turns, n - 1);
      var before := ES.ClaimEffect(t, ViewOf(s), lines, max, turns, n - 1);
      if before.alive {
        var s1, line, u := Run(t, s, actions), lines[n - 1], turns(n - 1);
        TurnIsARun(t, s1, w, line, max, u);
        TurnKeeps(t, before.view, line, max, u);
        RunAppend(t, s, actions, TurnSteps(s1, w, line, max, u));
        actions := actions + TurnSteps(s1, w, line, max, u);
        hide ES.TurnEffect;
        hide ES.TurnGoesOn;
        hide TurnSteps;
      }
    }
  }

  lemma TurnKeeps(t: Text, v: ES.View, line: ClaimCycles.Selected, max: nat, u: ES.Turn)
    requires line.p < |v.store.stream|
    ensures var v' := ES.TurnEffect(t, v, line, max, u);
            v'.group.delivered == v.group.delivered && v'.store.letters.Keys <= v.store.letters.Keys + {u.letterId}
  {
    hide Process;
    hide ParseFields;
    hide DeadLetterOf;
  }

  /** One turn of the read loop is a run. */
  lemma {:induction false} ReadLoopIsARun(t: Text, s: State, w: nat, from: nat, to: nat, maintenant: string,
                                         handlings: nat -> ES.Handling)
    returns (actions: seq<Action>)
    requires w !in s.workers && from <= to <= s.group.delivered <= |s.store.stream|
    ensures var s' := Run(t, s, actions);
            && Settled(s, s') && s'.lost == s.lost
            && ViewOf(s') == ES.HandleAll(t, ViewOf(s), from, to, maintenant, handlings)
            && s'.group.delivered == s.group.delivered
  {
    actions := [];
    if from < to {
      actions := ReadLoopIsARun(t, s, w, from, to - 1, maintenant, handlings);
      var s1, h := Run(t, s, actions), handlings(to - 1);
      HandlingIsARun(t, s1, w, to - 1, maintenant, h);
      HandleKeeps(t, ViewOf(s1), to - 1, maintenant, h);
      RunAppend(t, s, actions, HandleSteps(w, to - 1, maintenant, h));
      actions := actions + HandleSteps(w, to - 1, maintenant, h);
      hide ES.HandleEffect;
      hide HandleSteps;
    }
  }

  lemma HandleKeeps(t: Text, v: ES.View, p: nat, maintenant: string, h: ES.Handling)
    requires p < |v.store.stream|
    ensures ES.HandleEffect(t, v, p, maintenant, h).group.delivered == v.group.delivered
  {
    hide Process;
    hide ParseFields;
  }

  function ReplaySteps(w: nat, id: string, r: ES.Replay): seq<Action> {
    if r.lookup != Done then [] else [StartReplay(w, id), StoreRow(w, r.insert), MarkReplayed(w, r.now, r.save)]
  }

  lemma ReplayStepsRun(t: Text, s: State, w: nat, id: string, r: ES.Replay)
    requires r.lookup == Done
    ensures Run(t, s, ReplaySteps(w, id, r)) ==
            MarkReplayedStep(StoreRowStep(StartReplayStep(t, s, w, id), w, r.insert), w, r.now, r.save)
  {
    hide StartReplayStep;
    hide StoreRowStep;
    hide MarkReplayedStep;
    Run3(t, s, StartReplay(w, id), StoreRow(w, r.insert), MarkReplayed(w, r.now, r.save));
  }

  lemma ReplayIsARun(t: Text, s: State, w: nat, id: string, r: ES.Replay)
    requires w !in s.workers
    ensures var s' := Run(t, s, ReplaySteps(w, id, r));
            Settled(s, s') && s'.lost == s.lost && s'.group == s.group
            && s'.store == ES.ReplayEffect(t, s.store, id, r).store
  {
    if r.lookup == Done {
      ReplayStepsRun(t, s, w, id, r);
      hide ReplaySteps;
      hide Process;
      hide ReplayMessage;
      hide InsertRow;
      hide SetReplayed;
      assert s.workers - {w} == s.workers;
      var s1 := StartReplayStep(t, s, w, id);
      if s1 == s {
      } else if Process(t, AuditedIds(s.store.journal), ReplayMessage(t, s.store.letters[id])).AlreadyAudited? {
        assert StoreRowStep(s1, w, r.insert) == s1;
      }
    }
  }

  // ---------------------------------------------------------------------- what one call achieves

  const NO_FAULT := ES.Handling(Done, Done, Done)

  /** Without a fault, one delivery of an auditable event audits it and takes it off the pending list. */
  lemma OneDeliveryAudits(t: Text, v: ES.View, p: nat, e: Event, maintenant: string)
    requires Faithful(t) && p < |v.store.stream| && v.store.stream[p] == Fields(t, e)
    ensures var v' := ES.HandleEffect(t, v, p, maintenant, NO_FAULT);
            if Auditable(e)
            then e.id in AuditedIds(v'.store.journal) && p !in v'.group.pending
                 && v'.store.journal == Insert(v.store.journal, ImageOf(e))
            else v' == v
  {
    ProcessingInsertsTheImage(t, e, maintenant, AuditedIds(v.store.journal));
    hide Process;
    hide ParseFields;
    hide ImageOf;
    if Auditable(e) && e.id !in AuditedIds(v.store.journal) {
      assert ImageOf(e).evenementId == e.id by { ImageIsFaithful(e); }
      assert ImageOf(e) in v.store.journal + [ImageOf(e)];
    }
  }

  /** A move takes the entry off the pending list even when nothing could be archived. */
  lemma MoveArchivesOrLoses(t: Text, v: ES.View, p: nat, e: Event, tentatives: nat, maintenant: string, id: string, m: ES.Moving)
    requires Faithful(t) && p < |v.store.stream| && v.store.stream[p] == Fields(t, e) && id !in v.store.letters
    ensures var v' := ES.MoveEffect(t, v, p, tentatives, maintenant, id, m);
            && (Applied(m.ack) ==> p !in v'.group.pending)
            && v'.store.letters == (if m.fetch == Done && Applied(m.save)
                                    then v.store.letters[id := DeadLetter(ImageOf(e), tentatives, None)] else v.store.letters)
            && v'.store.journal == v.store.journal
  {
    DeadLetterCarriesTheImage(t, e, maintenant, tentatives);
    hide DeadLetterOf;
    hide ParseFields;
    hide ImageOf;
  }

  /** A letter is replayed once: a replay that succeeded is refused from then on. */
  lemma ReplayedOnce(t: Text, v: Store, id: string, r: ES.Replay, again: ES.Replay)
    requires ES.ReplayEffect(t, v, id, r).result.Ok?
    ensures ES.ReplayEffect(t, ES.ReplayEffect(t, v, id, r).store, id, again)
            == ES.ReplayOutcome(ES.ReplayEffect(t, v, id, r).store, Err(ES.AlreadyReplayed))
  {
    hide Process;
    hide ReplayMessage;
  }

  /** A replay that succeeds leaves the event audited by its image, whether or not it already was. */
  lemma ReplayAudits(t: Text, v: Store, id: string, r: ES.Replay, e: Event)
    requires Faithful(t) && id in v.letters && v.letters[id].row == ImageOf(e)
    requires ES.ReplayEffect(t, v, id, r).result.Ok?
    ensures var v' := ES.ReplayEffect(t, v, id, r).store;
            v'.journal == Insert(v.journal, ImageOf(e)) && v'.letters[id].rejoueLe == Some(r.now) && Auditable(e)
  {
    ReplayInsertsTheImage(t, e, v.letters[id], AuditedIds(v.journal));
    hide Process;
    hide ReplayMessage;
    assert ImageOf(e).evenementId == e.id;
    hide ImageOf;
  }
}
