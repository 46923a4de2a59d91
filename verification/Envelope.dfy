/** The envelope of a domain event and its flat form on the stream. */
module Envelope {
  import opened Wrappers

  /** The payload values that this application publishes. */
  datatype Json = Null | Text(text: string) | Number(number: int)

  type Payload = map<string, Json>

  type Fields = map<string, string>

  datatype EventEnvelope = EventEnvelope(
    id: string,
    eventType: string,
    tenantId: Option<string>,
    actorId: Option<string>,
    payload: Payload,
    publishedAt: string)

  datatype Error = MissingField(name: string) | BadPayload

  /** The JSON encoder and decoder. */
  datatype Codec = Codec(dumps: Payload -> string, loads: string -> Option<Payload>)

  ghost predicate Inverse(codec: Codec) {
    forall p :: codec.loads(codec.dumps(p)) == Some(p)
  }

  function OrEmpty(s: Option<string>): string {
    if s.Some? then s.value else ""
  }

  function OrNone(s: string): Option<string> {
    if s == "" then None else Some(s)
  }

  function ToFields(codec: Codec, e: EventEnvelope): Fields {
    map["id" := e.id,
        "type" := e.eventType,
        "tenant_id" := OrEmpty(e.tenantId),
        "actor_id" := OrEmpty(e.actorId),
        "payload" := codec.dumps(e.payload),
        "published_at" := e.publishedAt]
  }

  /** The fields in the order in which they are read. */
  const REQUIRED := ["id", "type", "tenant_id", "actor_id", "payload", "published_at"]

  function FromFields(codec: Codec, f: Fields): Result<EventEnvelope, Error> {
    if "id" !in f then Failure(MissingField("id"))
    else if "type" !in f then Failure(MissingField("type"))
    else if "tenant_id" !in f then Failure(MissingField("tenant_id"))
    else if "actor_id" !in f then Failure(MissingField("actor_id"))
    else if "payload" !in f then Failure(MissingField("payload"))
    else if codec.loads(f["payload"]).None? then Failure(BadPayload)
    else if "published_at" !in f then Failure(MissingField("published_at"))
    else Success(EventEnvelope(f["id"], f["type"], OrNone(f["tenant_id"]), OrNone(f["actor_id"]),
                               codec.loads(f["payload"]).value, f["published_at"]))
  }

  /** An absent context and an empty one are written alike. */
  predicate Canonical(e: EventEnvelope) {
    e.tenantId != Some("") && e.actorId != Some("")
  }

  /** An envelope survives the stream unchanged exactly when its tenant and actor are not empty strings. */
  lemma RoundTripIff(codec: Codec, e: EventEnvelope)
    requires Inverse(codec)
    ensures FromFields(codec, ToFields(codec, e)) == Success(e) <==> Canonical(e)
  {
  }

  /** What always survives: everything but the difference between an absent and an empty context. */
  lemma RoundTripKeeps(codec: Codec, e: EventEnvelope)
    requires Inverse(codec)
    ensures FromFields(codec, ToFields(codec, e))
            == Success(e.(tenantId := OrNone(OrEmpty(e.tenantId)), actorId := OrNone(OrEmpty(e.actorId))))
  {
  }

  /** Reading succeeds exactly on fields that have every name and a payload that parses. */
  lemma ReadableIff(codec: Codec, f: Fields)
    ensures FromFields(codec, f).Success? <==>
            (forall name :: name in REQUIRED ==> name in f) && codec.loads(f["payload"]).Some?
  {
    assert "id" in REQUIRED && "type" in REQUIRED && "tenant_id" in REQUIRED;
    assert "actor_id" in REQUIRED && "payload" in REQUIRED && "published_at" in REQUIRED;
  }

  /** What is read and written again is what was read, for fields that the encoder could have written. */
  lemma WrittenBack(codec: Codec, f: Fields)
    requires FromFields(codec, f).Success?
    ensures ToFields(codec, FromFields(codec, f).value) == f <==>
            f.Keys == (set name | name in REQUIRED) && codec.dumps(codec.loads(f["payload"]).value) == f["payload"]
  {
    var e := FromFields(codec, f).value;
    assert ToFields(codec, e).Keys == set name | name in REQUIRED by {
      assert forall name :: name in REQUIRED <==>
        || name == REQUIRED[0] || name == REQUIRED[1] || name == REQUIRED[2]
        || name == REQUIRED[3] || name == REQUIRED[4] || name == REQUIRED[5];
    }
    if f.Keys == (set name | name in REQUIRED) && codec.dumps(codec.loads(f["payload"]).value) == f["payload"] {
      forall name | name in f ensures ToFields(codec, e)[name] == f[name] {
      }
      assert ToFields(codec, e) == f;
    }
  }
}
