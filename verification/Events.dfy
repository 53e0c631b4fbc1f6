/** The JSON envelope of every Kafka record (pkg/event/event.go), reduced to the keys its consumer reads. */
module Events {
  import opened Prelude

  /** The value under a key. A key that is missing differs from a key that holds null. */
  datatype Json =
    | Absent
    | Null
    | Bool(b: bool)
    | Number(n: int)
    | Id(id: Uuid)
    | Ids(ids: seq<Uuid>)
    | Other

  datatype Data =
    | NotAnObject
    | Object(userId: Json, telegramId: Json, isActive: Json, performerIds: Json, performerId: Json)

  const NO_KEYS: Data := Object(Absent, Absent, Absent, Absent, Absent)

  datatype Envelope = Envelope(eventId: Uuid, eventType: string, aggregate: Uuid, data: Data)

  /** The bytes of a record: an envelope, or bytes that do not decode to one. */
  datatype Message = Garbage | Decoded(envelope: Envelope)

  predicate IsUserType(eventType: string) {
    |eventType| >= 5 && eventType[..5] == "user."
  }

  predicate IsOrderType(eventType: string) {
    |eventType| >= 6 && eventType[..6] == "order."
  }

  /** The two routes of the consumer never overlap. */
  lemma TypesAreDisjoint(eventType: string)
    requires IsUserType(eventType)
    ensures !IsOrderType(eventType)
  {
    assert eventType[..5][0] == eventType[0] == 'u';
    if |eventType| >= 6 {
      assert eventType[..6][0] == eventType[0];
    }
  }
}

