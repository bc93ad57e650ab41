/**
 * What the audit module does with one message: the journal, the dead letters and the replay
 * (src/audit/application/use-cases/process-stream-event.use-case.ts,
 * src/audit/application/use-cases/dead-letter.use-cases.ts and
 * src/audit/infrastructure/persistence/typeorm/orm-repositories.ts).
 */
module AuditJournal {
  import opened Prelude
  import opened Redaction
  import opened StreamCodec

  datatype AuditRow = AuditRow(
    evenementId: string,
    typ: string,
    gsgOrgId: Option<string>,
    produitSource: string,
    horodatage: Instant,
    chargeUtile: map<string, Json>
  )

  datatype DeadLetter = DeadLetter(row: AuditRow, tentatives: nat, rejoueLe: Option<int>)

  function AuditedIds(journal: seq<AuditRow>): set<string> {
    set r | r in journal :: r.evenementId
  }

  /** `save`: the unique index refuses a second row for an event, and the refusal is absorbed. */
  function Insert(journal: seq<AuditRow>, row: AuditRow): seq<AuditRow> {
    if row.evenementId in AuditedIds(journal) then journal else journal + [row]
  }

  ghost predicate OneRowPerEvent(journal: seq<AuditRow>) {
    forall i, j :: 0 <= i < j < |journal| ==> journal[i].evenementId != journal[j].evenementId
  }

  lemma InsertKeepsOneRow(journal: seq<AuditRow>, row: AuditRow)
    requires OneRowPerEvent(journal)
    ensures OneRowPerEvent(Insert(journal, row))
    ensures row.evenementId in AuditedIds(Insert(journal, row))
    ensures AuditedIds(Insert(journal, row)) == AuditedIds(journal) + {row.evenementId}
  {
    if row.evenementId !in AuditedIds(journal) {
      var after := journal + [row];
      forall i, j | 0 <= i < j < |after| ensures after[i].evenementId != after[j].evenementId {
        assert after[i] in journal;
        assert after[i].evenementId in AuditedIds(journal);
      }
      assert after[|journal|] in after;
      forall r | r in journal ensures r in after {
        var k :| 0 <= k < |journal| && journal[k] == r;
        assert after[k] == r;
      }
    }
  }

  /** What processing a message comes to, up to the insertion itself. */
  datatype Verdict = Rejected | AlreadyAudited | ToInsert(row: AuditRow)

  /**
   * An unusable timestamp is rejected here; the source builds an invalid Date and the database
   * refuses the row, with the same effect: nothing is stored and the call throws.
   */
  function Process(t: Text, audited: set<string>, m: StreamMessage): Verdict {
    if m.outboxId == "" || m.typ == "" then Rejected
    else if m.outboxId in audited then AlreadyAudited
    else match (t.parse(m.chargeUtileBrute), t.fromIso(m.horodatage))
      case (Some(Obj(payload)), Some(at)) =>
        ToInsert(AuditRow(m.outboxId, m.typ, m.gsgOrgId, m.produitSource, at, RedactObject(payload)))
      case _ => Rejected
  }

  /** The dead letter of a message; None when its timestamp cannot be stored. */
  function DeadLetterOf(t: Text, m: StreamMessage, tentatives: nat): Option<DeadLetter> {
    var payload := match t.parse(m.chargeUtileBrute)
      case Some(Obj(p)) => p
      case _ => map["valeurBrute" := Str(m.chargeUtileBrute)];
    match t.fromIso(m.horodatage)
    case None => None
    case Some(at) =>
      Some(DeadLetter(
        AuditRow(m.outboxId, m.typ, m.gsgOrgId, m.produitSource, at, RedactObject(payload)), tentatives, None))
  }

  /** The message that a manual replay feeds back into processing. */
  function ReplayMessage(t: Text, d: DeadLetter): StreamMessage {
    StreamMessage(d.row.evenementId, d.row.typ, d.row.gsgOrgId, t.toIso(d.row.horodatage), d.row.produitSource,
                  t.stringify(Obj(d.row.chargeUtile)))
  }

  /** The row that an event must have in the journal. */
  function ImageOf(e: Event): AuditRow {
    AuditRow(e.id, e.typ, OrNull(e.gsgOrgId), e.produitSource, e.horodatage, RedactObject(e.chargeUtile))
  }

  /** An event whose identifier or type is empty can never be audited. */
  predicate Auditable(e: Event) {
    e.id != "" && e.typ != ""
  }

  /** Processing an event's stream entry inserts its image, and rejects exactly what is not auditable. */
  lemma ProcessingInsertsTheImage(t: Text, e: Event, maintenant: string, audited: set<string>)
    requires Faithful(t)
    ensures Process(t, audited, ParseFields(Fields(t, e), maintenant)) ==
            if !Auditable(e) then Rejected
            else if e.id in audited then AlreadyAudited
            else ToInsert(ImageOf(e))
  {
    RoundTrip(t, e, maintenant);
  }

  /** A message is refused exactly when a required field is empty, or when its payload or its time is unusable. */
  lemma RejectedIff(t: Text, audited: set<string>, m: StreamMessage)
    ensures Process(t, audited, m) == Rejected <==>
            || m.outboxId == "" || m.typ == ""
            || (m.outboxId !in audited
                && (t.fromIso(m.horodatage).None? || forall payload :: t.parse(m.chargeUtileBrute) != Some(Obj(payload))))
  {
    match t.parse(m.chargeUtileBrute)
    case Some(Obj(payload)) => assert t.parse(m.chargeUtileBrute) == Some(Obj(payload));
    case _ =>
  }

  /** A dead letter made from an event's stream entry carries the event's image. */
  lemma DeadLetterCarriesTheImage(t: Text, e: Event, maintenant: string, tentatives: nat)
    requires Faithful(t)
    ensures DeadLetterOf(t, ParseFields(Fields(t, e), maintenant), tentatives) ==
            Some(DeadLetter(ImageOf(e), tentatives, None))
  {
    RoundTrip(t, e, maintenant);
  }

  lemma RawTextKey()
    ensures Normalise("valeurBrute") == "valeurbrute"
  {
    hide *;
    assert "valeur" + ['B'] + "rute" == "valeurBrute";
    assert "valeur" + ['b'] + "rute" == "valeurbrute";
    assert Lower('B') == 'b' by { LowerB(); }
    SpellingIgnored("valeur", 'B', "rute");
    PlainLetters("valeurbrute");
    PlainKeyIsNormal("valeurbrute");
  }

  lemma LowerB()
    ensures Lower('B') == 'b'
  {
  }

  lemma PlainLetters(key: string)
    requires forall i :: 0 <= i < |key| ==> 'a' <= key[i] <= 'z'
    ensures forall i :: 0 <= i < |key| ==> key[i] !in "_-" && Lower(key[i]) == key[i]
  {
  }

  lemma RawTextIsNotSensitive()
    ensures !Sensitive("valeurBrute") && "valeurBrute" != PROTO
  {
    RawTextKey();
    hide Normalise;
    assert "valeurBrute"[0] == 'v' && "valeurbrute"[0] == 'v' && PROTO[0] == '_';
    forall name | name in SENSITIVE_NAMES ensures name != "" && name[0] != 'v' {
    }
  }

  lemma RawTextIsKept(raw: string)
    ensures RedactObject(map["valeurBrute" := Str(raw)]) == map["valeurBrute" := Str(raw)]
  {
    RawTextIsNotSensitive();
    hide Sensitive;
    var payload: map<string, Json> := map["valeurBrute" := Str(raw)];
    assert RedactValue(Str(raw), 1) == Str(raw);
    assert RedactEntry(Obj(payload), 0, "valeurBrute") == Str(raw);
    forall k | k in payload ensures k == "valeurBrute" {
    }
    assert RedactObject(payload).Keys == payload.Keys;
  }

  /** A payload that is not an object is refused by processing; its dead letter keeps the raw text, unredacted. */
  lemma UnreadablePayloadIsKeptRaw(t: Text, m: StreamMessage, audited: set<string>, tentatives: nat)
    requires t.fromIso(m.horodatage).Some? && m.outboxId !in audited
    requires t.parse(m.chargeUtileBrute).None? || !t.parse(m.chargeUtileBrute).value.Obj?
    ensures Process(t, audited, m) == Rejected
    ensures var d := DeadLetterOf(t, m, tentatives);
            d.Some? && d.value.row.chargeUtile == map["valeurBrute" := Str(m.chargeUtileBrute)]
            && d.value.row.evenementId == m.outboxId && d.value.tentatives == tentatives && d.value.rejoueLe == None
  {
    RawTextIsKept(m.chargeUtileBrute);
    hide RedactObject;
  }

  /** Replaying a dead letter inserts the same row the stream would have inserted. */
  lemma ReplayInsertsTheImage(t: Text, e: Event, d: DeadLetter, audited: set<string>)
    requires Faithful(t) && d.row == ImageOf(e)
    ensures Process(t, audited, ReplayMessage(t, d)) ==
            if !Auditable(e) then Rejected
            else if e.id in audited then AlreadyAudited
            else ToInsert(ImageOf(e))
  {
    RedactObjectTwice(e.chargeUtile);
  }

  lemma RedactObjectTwice(payload: map<string, Json>)
    ensures RedactObject(RedactObject(payload)) == RedactObject(payload)
  {
    RedactObjectIsRedactValue(payload);
    RedactObjectIsRedactValue(RedactObject(payload));
    Idempotent(Obj(payload), 0);
  }
}
