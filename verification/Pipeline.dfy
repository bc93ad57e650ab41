/**
 * The event pipeline as a state machine: outbox table, relays, Redis stream, consumer group, audit
 * journal and dead letters. Any number of relays and consumers take steps in any order; every call
 * to Redis or Postgres may succeed, fail, or take effect and still be reported as failed; any of them
 * may stop for good between two steps.
 *
 * Sources: src/common/kernel-infrastructure/outbox/outbox-relay.service.ts,
 * src/common/kernel-infrastructure/outbox/outbox-event.repository.ts,
 * src/audit/infrastructure/messaging/redis-streams-consumer.service.ts and
 * src/audit/application/use-cases/dead-letter.use-cases.ts.
 */
module Pipeline {
  import opened Prelude
  import opened Redaction
  import opened StreamCodec
  import opened AuditJournal
  import CG = ConsumerGroup

  datatype StatutOutbox = EnAttente | Publie | Echec

  datatype OutboxRow = OutboxRow(event: Event, statut: StatutOutbox, tentatives: nat, creeLe: int)

  /** What is stored: the outbox table, the stream, the audit journal and the dead letters. */
  datatype Store = Store(
    outbox: map<string, OutboxRow>,
    stream: seq<seq<string>>,
    journal: seq<AuditRow>,
    letters: map<string, DeadLetter>
  )

  /** How a remote call ends for its caller: `DoneUnseen` took effect but is reported as an error. */
  datatype Reply = Done | DoneUnseen | Failed

  predicate Applied(r: Reply) {
    r != Failed
  }

  /** A relay in the middle of a batch: the head of `lot` is the row it works on. */
  datatype Relay = Relay(lot: seq<Event>, phase: RelayPhase)
  datatype RelayPhase = ToAdd | ToMark | ToMarkFailed

  /** A consumer, or an operator's replay, in the middle of one entry. */
  datatype Worker =
    | Handling(p: nat, handle: HandlePhase)
    | Moving(q: nat, tentatives: nat, move: MovePhase)
    | Replaying(letterId: string, replay: ReplayPhase)
  datatype HandlePhase = ToCheck | ToStore(row: AuditRow) | ToAck
  datatype MovePhase = ToFetch | ToSave(letter: DeadLetter) | ToAckMoved(archived: bool)
  datatype ReplayPhase = ToStoreAgain(again: AuditRow) | ToMarkReplayed

  /** `lost` remembers the positions acknowledged after their move to the dead letters had failed. */
  datatype State = State(
    store: Store,
    group: CG.Group,
    lost: set<nat>,
    relays: map<nat, Relay>,
    workers: map<nat, Worker>
  )

  const INIT := State(Store(map[], [], [], map[]), CG.EMPTY, {}, map[], map[])

  datatype Action =
    | Publish(event: Event, creeLe: int)
    | RelayLoad(r: nat, lot: seq<Event>)
    | RelayAdd(r: nat, reply: Reply)
    | RelayMark(r: nat, reply: Reply)
    | RelayMarkFailed(r: nat, reply: Reply)
    | RelayStop(r: nat)
    | Sweep(max: nat)
    | Read(count: nat)
    | Claim(p: nat)
    | StartHandling(w: nat, p: nat)
    | Check(w: nat, maintenant: string)
    | StoreRow(w: nat, reply: Reply)
    | Acknowledge(w: nat, reply: Reply)
    | StartMoving(w: nat, p: nat, tentatives: nat)
    | Fetch(w: nat, maintenant: string, reply: Reply)
    | SaveLetter(w: nat, id: string, reply: Reply)
    | StartReplay(w: nat, id: string)
    | MarkReplayed(w: nat, now: int, reply: Reply)
    | WorkerStop(w: nat)

  // ------------------------------------------------------------------------------- the four stores

  /** `insert`: a use case publishes an event under a fresh identifier. */
  function InsertEvent(v: Store, e: Event, creeLe: int): Store {
    if e.id in v.outbox then v else v.(outbox := v.outbox[e.id := OutboxRow(e, EnAttente, 0, creeLe)])
  }

  function MarkPublished(v: Store, id: string): Store {
    if id in v.outbox then v.(outbox := v.outbox[id := v.outbox[id].(statut := Publie)]) else v
  }

  function MarkFailedAttempt(v: Store, id: string): Store {
    if id in v.outbox then v.(outbox := v.outbox[id := v.outbox[id].(tentatives := v.outbox[id].tentatives + 1)]) else v
  }

  function Swept(row: OutboxRow, max: nat): OutboxRow {
    if row.statut == EnAttente && row.tentatives >= max then row.(statut := Echec) else row
  }

  function MarkPermanentlyFailed(v: Store, max: nat): Store {
    v.(outbox := map id | id in v.outbox :: Swept(v.outbox[id], max))
  }

  function AddEntry(t: Text, v: Store, e: Event): Store {
    v.(stream := v.stream + [Fields(t, e)])
  }

  function InsertRow(v: Store, row: AuditRow): Store {
    v.(journal := Insert(v.journal, row))
  }

  function PutLetter(v: Store, id: string, d: DeadLetter): Store {
    if id in v.letters then v else v.(letters := v.letters[id := d])
  }

  function SetReplayed(v: Store, id: string, now: int): Store {
    if id in v.letters then v.(letters := v.letters[id := v.letters[id].(rejoueLe := Some(now))]) else v
  }

  /** The effect of a call on the stores, according to how it ended. */
  function After(reply: Reply, v: Store, v': Store): Store {
    if Applied(reply) then v' else v
  }

  // ------------------------------------------------------------------------------------ the relay

  predicate IsPending(v: Store, e: Event) {
    e.id in v.outbox && v.outbox[e.id].event == e && v.outbox[e.id].statut == EnAttente
  }

  function SetRelay(s: State, r: nat, k: Relay): State {
    s.(relays := s.relays[r := k])
  }

  function DropRelay(s: State, r: nat): State {
    s.(relays := s.relays - {r})
  }

  /** The relay leaves the head of its batch behind; an empty batch ends its cycle. */
  function NextRow(s: State, r: nat, lot: seq<Event>): State
    requires lot != []
  {
    if |lot| == 1 then DropRelay(s, r) else SetRelay(s, r, Relay(lot[1..], ToAdd))
  }

  function RelayLoadStep(s: State, r: nat, lot: seq<Event>): State {
    if r !in s.relays && lot != [] && (forall e :: e in lot ==> IsPending(s.store, e))
    then SetRelay(s, r, Relay(lot, ToAdd)) else s
  }

  /** XADD. */
  function RelayAddStep(t: Text, s: State, r: nat, reply: Reply): State {
    if r in s.relays && s.relays[r].phase == ToAdd && s.relays[r].lot != [] then
      var lot := s.relays[r].lot;
      SetRelay(s.(store := After(reply, s.store, AddEntry(t, s.store, lot[0]))), r,
               Relay(lot, if reply == Done then ToMark else ToMarkFailed))
    else s
  }

  function RelayMarkStep(s: State, r: nat, reply: Reply): State {
    if r in s.relays && s.relays[r].phase == ToMark && s.relays[r].lot != [] then
      var lot := s.relays[r].lot;
      var s1 := s.(store := After(reply, s.store, MarkPublished(s.store, lot[0].id)));
      if reply == Done then NextRow(s1, r, lot) else SetRelay(s1, r, Relay(lot, ToMarkFailed))
    else s
  }

  /** An error here leaves `relayOne` and ends the cycle. */
  function RelayMarkFailedStep(s: State, r: nat, reply: Reply): State {
    if r in s.relays && s.relays[r].phase == ToMarkFailed && s.relays[r].lot != [] then
      var lot := s.relays[r].lot;
      var s1 := s.(store := After(reply, s.store, MarkFailedAttempt(s.store, lot[0].id)));
      if reply == Done then NextRow(s1, r, lot) else DropRelay(s1, r)
    else s
  }

  // --------------------------------------------------------------------------------- the consumers

  function Leave(s: State, w: nat): State {
    s.(workers := s.workers - {w})
  }

  function Enter(s: State, w: nat, k: Worker): State {
    s.(workers := s.workers[w := k])
  }

  /** A consumer may take up any entry the group has handed out, even one already acknowledged. */
  function StartStep(s: State, w: nat, k: Worker, p: nat): State {
    if w !in s.workers && p < s.group.delivered then Enter(s, w, k) else s
  }

  /** `handleMessage` up to the insertion: parse, validate, look the event up. */
  function CheckStep(t: Text, s: State, w: nat, maintenant: string): State {
    if w in s.workers && s.workers[w].Handling? && s.workers[w].handle == ToCheck && s.workers[w].p < |s.store.stream| then
      var p := s.workers[w].p;
      match Process(t, AuditedIds(s.store.journal), ParseFields(s.store.stream[p], maintenant))
      case Rejected => Leave(s, w)
      case AlreadyAudited => Enter(s, w, Handling(p, ToAck))
      case ToInsert(row) => Enter(s, w, Handling(p, ToStore(row)))
    else s
  }

  /** The insertion of the audit row, for a stream entry or for a replay. */
  function StoreRowStep(s: State, w: nat, reply: Reply): State {
    if w !in s.workers then s
    else match s.workers[w]
      case Handling(p, ToStore(row)) =>
        var s1 := s.(store := After(reply, s.store, InsertRow(s.store, row)));
        if reply == Done then Enter(s1, w, Handling(p, ToAck)) else Leave(s1, w)
      case Replaying(id, ToStoreAgain(row)) =>
        var s1 := s.(store := After(reply, s.store, InsertRow(s.store, row)));
        if reply == Done then Enter(s1, w, Replaying(id, ToMarkReplayed)) else Leave(s1, w)
      case _ => s
  }

  /** XACK, after a processed message or in the `finally` of a move to the dead letters. */
  function AcknowledgeStep(s: State, w: nat, reply: Reply): State {
    if w !in s.workers then s
    else match s.workers[w]
      case Handling(p, ToAck) =>
        Leave(if Applied(reply) then s.(group := CG.Ack(s.group, p)) else s, w)
      case Moving(p, _, ToAckMoved(archived)) =>
        Leave(if Applied(reply)
              then s.(group := CG.Ack(s.group, p), lost := if archived then s.lost else s.lost + {p})
              else s, w)
      case _ => s
  }

  /** XRANGE and the building of the dead letter; an error goes straight to the `finally`. */
  function FetchStep(t: Text, s: State, w: nat, maintenant: string, reply: Reply): State {
    if w in s.workers && s.workers[w].Moving? && s.workers[w].move == ToFetch && s.workers[w].q < |s.store.stream| then
      var Moving(p, tentatives, _) := s.workers[w];
      var letter := DeadLetterOf(t, ParseFields(s.store.stream[p], maintenant), tentatives);
      Enter(s, w, Moving(p, tentatives,
                         if reply == Done && letter.Some? then ToSave(letter.value) else ToAckMoved(false)))
    else s
  }

  function SaveLetterStep(s: State, w: nat, id: string, reply: Reply): State {
    if w in s.workers && s.workers[w].Moving? && s.workers[w].move.ToSave? && id !in s.store.letters then
      var Moving(p, tentatives, ToSave(letter)) := s.workers[w];
      Enter(s.(store := After(reply, s.store, PutLetter(s.store, id, letter))), w,
            Moving(p, tentatives, ToAckMoved(Applied(reply))))
    else s
  }

  /** A replay loads an entry that was never replayed and processes its message. */
  function StartReplayStep(t: Text, s: State, w: nat, id: string): State {
    if w !in s.workers && id in s.store.letters && s.store.letters[id].rejoueLe == None then
      match Process(t, AuditedIds(s.store.journal), ReplayMessage(t, s.store.letters[id]))
      case Rejected => s
      case AlreadyAudited => Enter(s, w, Replaying(id, ToMarkReplayed))
      case ToInsert(row) => Enter(s, w, Replaying(id, ToStoreAgain(row)))
    else s
  }

  function MarkReplayedStep(s: State, w: nat, now: int, reply: Reply): State {
    if w in s.workers && s.workers[w].Replaying? && s.workers[w].replay == ToMarkReplayed then
      Leave(s.(store := After(reply, s.store, SetReplayed(s.store, s.workers[w].letterId, now))), w)
    else s
  }

  /** One step of the whole system; an action that is not possible changes nothing. */
  function Next(t: Text, s: State, a: Action): State {
    match a
    case Publish(e, creeLe) => s.(store := InsertEvent(s.store, e, creeLe))
    case RelayLoad(r, lot) => RelayLoadStep(s, r, lot)
    case RelayAdd(r, reply) => RelayAddStep(t, s, r, reply)
    case RelayMark(r, reply) => RelayMarkStep(s, r, reply)
    case RelayMarkFailed(r, reply) => RelayMarkFailedStep(s, r, reply)
    case RelayStop(r) => DropRelay(s, r)
    case Sweep(max) => s.(store := MarkPermanentlyFailed(s.store, max))
    case Read(count) => s.(group := CG.Read(s.group, |s.store.stream|, count))
    case Claim(p) => s.(group := CG.Claim(s.group, p))
    case StartHandling(w, p) => StartStep(s, w, Handling(p, ToCheck), p)
    case Check(w, maintenant) => CheckStep(t, s, w, maintenant)
    case StoreRow(w, reply) => StoreRowStep(s, w, reply)
    case Acknowledge(w, reply) => AcknowledgeStep(s, w, reply)
    case StartMoving(w, p, tentatives) => StartStep(s, w, Moving(p, tentatives, ToFetch), p)
    case Fetch(w, maintenant, reply) => FetchStep(t, s, w, maintenant, reply)
    case SaveLetter(w, id, reply) => SaveLetterStep(s, w, id, reply)
    case StartReplay(w, id) => StartReplayStep(t, s, w, id)
    case MarkReplayed(w, now, reply) => MarkReplayedStep(s, w, now, reply)
    case WorkerStop(w) => Leave(s, w)
  }

  function Run(t: Text, s: State, actions: seq<Action>): State
    decreases |actions|
  {
    if actions == [] then s
    else Next(t, Run(t, s, actions[..|actions| - 1]), actions[|actions| - 1])
  }
}
