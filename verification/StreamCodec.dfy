/**
 * The field list of one Redis stream entry: written by the relay
 * (src/common/kernel-infrastructure/outbox/outbox-relay.service.ts) and read back by the consumer
 * (src/audit/infrastructure/messaging/redis-streams-consumer.service.ts).
 */
module StreamCodec {
  import opened Prelude
  import opened Redaction

  /** A point in time the language can print, in milliseconds: a hundred million days around 1970. */
  type Instant = ms: int | -8_640_000_000_000_000 <= ms <= 8_640_000_000_000_000

  /** JSON.stringify, JSON.parse (None when it throws), Date.toISOString and new Date (None when invalid). */
  datatype Text = Text(
    stringify: Json -> string,
    parse: string -> Option<Json>,
    toIso: Instant -> string,
    fromIso: string -> Option<Instant>
  )

  /** Printing then reading gives the value back: assumed of the language's own library. */
  ghost predicate Faithful(t: Text) {
    && (forall v: Json :: t.parse(t.stringify(v)) == Some(v))
    && (forall d: Instant :: t.fromIso(t.toIso(d)) == Some(d))
  }

  /** The immutable part of an outbox row: what the event says. */
  datatype Event = Event(
    id: string,
    typ: string,
    gsgOrgId: Option<string>,
    horodatage: Instant,
    produitSource: string,
    chargeUtile: map<string, Json>
  )

  datatype StreamMessage = StreamMessage(
    outboxId: string,
    typ: string,
    gsgOrgId: Option<string>,
    horodatage: string,
    produitSource: string,
    chargeUtileBrute: string
  )

  /** The arguments of XADD after the stream key and `*`. */
  function Fields(t: Text, e: Event): seq<string> {
    [ "outboxId", e.id,
      "type", e.typ,
      "gsgOrgId", if e.gsgOrgId.Some? then e.gsgOrgId.value else "",
      "horodatage", t.toIso(e.horodatage),
      "produitSource", e.produitSource,
      "chargeUtile", t.stringify(Obj(e.chargeUtile)) ]
  }

  /** The bindings of a field list; a key without a value is bound to `undefined`, i.e. None. */
  function FieldMap(fields: seq<string>): map<string, Option<string>> {
    var n := |fields|;
    if n == 0 then map[]
    else if n % 2 == 1 then FieldMap(fields[..n - 1])[fields[n - 1] := None]
    else FieldMap(fields[..n - 2])[fields[n - 2] := Some(fields[n - 1])]
  }

  function Get(m: map<string, Option<string>>, key: string): Option<string> {
    if key in m then m[key] else None
  }

  function OrElse(v: Option<string>, default: string): string {
    if v.Some? then v.value else default
  }

  /** `v || null`: the empty string counts as absent. */
  function OrNull(v: Option<string>): Option<string> {
    if v == Some("") then None else v
  }

  /** `maintenant` is the text the clock gives when the entry carries no timestamp. */
  function ParseFields(fields: seq<string>, maintenant: string): StreamMessage {
    var m := FieldMap(fields);
    StreamMessage(
      OrElse(Get(m, "outboxId"), ""),
      OrElse(Get(m, "type"), ""),
      OrNull(Get(m, "gsgOrgId")),
      OrElse(Get(m, "horodatage"), maintenant),
      OrElse(Get(m, "produitSource"), "inconnu"),
      OrElse(Get(m, "chargeUtile"), "{}")
    )
  }

  /** `parseFields` as written: one pass over the list, two fields at a time. */
  method ParseFieldsByLoop(fields: seq<string>, maintenant: string) returns (r: StreamMessage)
    ensures r == ParseFields(fields, maintenant)
  {
    var m: map<string, Option<string>>, i := map[], 0;
    while i < |fields|
      invariant 0 <= i <= |fields| + 1 && i % 2 == 0
      invariant i <= |fields| ==> m == FieldMap(fields[..i])
      invariant i > |fields| ==> m == FieldMap(fields)
    {
      if i + 1 < |fields| {
        assert fields[..i + 2][..i] == fields[..i];
        m := m[fields[i] := Some(fields[i + 1])];
      } else {
        assert fields[..|fields| - 1] == fields[..i];
        m := m[fields[i] := None];
      }
      i := i + 2;
    }
    assert i == |fields| ==> fields[..i] == fields;
    r := StreamMessage(
      OrElse(Get(m, "outboxId"), ""),
      OrElse(Get(m, "type"), ""),
      OrNull(Get(m, "gsgOrgId")),
      OrElse(Get(m, "horodatage"), maintenant),
      OrElse(Get(m, "produitSource"), "inconnu"),
      OrElse(Get(m, "chargeUtile"), "{}")
    );
  }

  /** A lookup finds the value after the last even position that holds the key. */
  lemma {:induction false} LastBindingWins(fields: seq<string>, key: string, at: nat)
    requires at % 2 == 0 && at < |fields| && fields[at] == key
    requires forall j :: at < j < |fields| && j % 2 == 0 ==> fields[j] != key
    ensures Get(FieldMap(fields), key) == if at + 1 < |fields| then Some(fields[at + 1]) else None
    decreases |fields|
  {
    var n := |fields|;
    var last := if n % 2 == 1 then n - 1 else n - 2;
    if at < last {
      LastBindingWins(fields[..last], key, at);
    }
  }

  /** A key at no even position is not bound. */
  lemma {:induction false} AbsentKey(fields: seq<string>, key: string)
    requires forall j :: 0 <= j < |fields| && j % 2 == 0 ==> fields[j] != key
    ensures Get(FieldMap(fields), key) == None
    decreases |fields|
  {
    var n := |fields|;
    if n > 0 {
      AbsentKey(fields[..if n % 2 == 1 then n - 1 else n - 2], key);
    }
  }

  /** An entry that carries none of the six names is read as the defaults. */
  lemma DefaultsOfAnAlienEntry(fields: seq<string>, maintenant: string)
    requires forall j :: 0 <= j < |fields| && j % 2 == 0 ==>
               fields[j] !in ["outboxId", "type", "gsgOrgId", "horodatage", "produitSource", "chargeUtile"]
    ensures ParseFields(fields, maintenant) == StreamMessage("", "", None, maintenant, "inconnu", "{}")
  {
    hide FieldMap;
    AbsentKey(fields, "outboxId");
    AbsentKey(fields, "type");
    AbsentKey(fields, "gsgOrgId");
    AbsentKey(fields, "horodatage");
    AbsentKey(fields, "produitSource");
    AbsentKey(fields, "chargeUtile");
  }

  /** The relay writes each attribute under its own name. */
  lemma FieldNames(t: Text, e: Event)
    ensures var m := FieldMap(Fields(t, e));
            && Get(m, "outboxId") == Some(e.id) && Get(m, "type") == Some(e.typ)
            && Get(m, "gsgOrgId") == Some(if e.gsgOrgId.Some? then e.gsgOrgId.value else "")
            && Get(m, "horodatage") == Some(t.toIso(e.horodatage)) && Get(m, "produitSource") == Some(e.produitSource)
            && Get(m, "chargeUtile") == Some(t.stringify(Obj(e.chargeUtile)))
  {
    var f := Fields(t, e);
    hide FieldMap;
    LastBindingWins(f, "outboxId", 0);
    LastBindingWins(f, "type", 2);
    LastBindingWins(f, "gsgOrgId", 4);
    LastBindingWins(f, "horodatage", 6);
    LastBindingWins(f, "produitSource", 8);
    LastBindingWins(f, "chargeUtile", 10);
  }

  /** The message a consumer sees for an event. */
  function MessageOf(t: Text, e: Event): StreamMessage {
    StreamMessage(e.id, e.typ, OrNull(e.gsgOrgId), t.toIso(e.horodatage), e.produitSource, t.stringify(Obj(e.chargeUtile)))
  }

  /** Reading back what the relay wrote, whatever the fields hold. */
  lemma RoundTrip(t: Text, e: Event, maintenant: string)
    ensures ParseFields(Fields(t, e), maintenant) == MessageOf(t, e)
  {
    var f := Fields(t, e);
    LastBindingWins(f, "outboxId", 0);
    LastBindingWins(f, "type", 2);
    LastBindingWins(f, "gsgOrgId", 4);
    LastBindingWins(f, "horodatage", 6);
    LastBindingWins(f, "produitSource", 8);
    LastBindingWins(f, "chargeUtile", 10);
  }

  /** No field is lost, except that an empty organisation id comes back as none at all. */
  lemma RoundTripExactIff(t: Text, e: Event, maintenant: string)
    requires Faithful(t)
    ensures var m := ParseFields(Fields(t, e), maintenant);
            (m.gsgOrgId == e.gsgOrgId <==> e.gsgOrgId != Some(""))
            && m.outboxId == e.id && m.typ == e.typ && m.produitSource == e.produitSource
            && t.fromIso(m.horodatage) == Some(e.horodatage)
            && t.parse(m.chargeUtileBrute) == Some(Obj(e.chargeUtile))
  {
    RoundTrip(t, e, maintenant);
  }
}
