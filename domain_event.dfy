/** Domain events (Domain/Core/DomainEvent.cs).

    `DomainEvent` is an object whose `IsPublished` flag only `MarkAsPublished`
    sets. The concrete `Event<T, TEnum>` carries an entity and an event kind;
    here every event carries a payload of type `P`, for `Event<T, TEnum>` an
    `EventPayload`. The clock reading is a constructor parameter. */
module DomainEvents {
  import opened Wrappers

  /** The `EventType` enumeration. */
  datatype EventType = Created | Updated | Deleted

  /** What an `Event<T, TEnum>` holds. */
  datatype EventPayload<T, K> = EventPayload(entity: T, eventType: K)

  class DomainEvent<P> {
    /** The event's runtime type name, under which it is published. */
    const typeName: TypeTag
    const payload: P
    const dateOccurred: int
    var isPublished: bool

    /** The protected constructor: stamps the time and starts unpublished. */
    constructor (typeName: TypeTag, payload: P, now: int)
      ensures this.typeName == typeName && this.payload == payload && dateOccurred == now
      ensures !isPublished
    {
      this.typeName := typeName;
      this.payload := payload;
      dateOccurred := now;
      isPublished := false;
    }

    /** `MarkAsPublished`: sets the flag whatever it was, so marking again
        changes nothing. No member clears it. */
    method MarkAsPublished()
      modifies this
      ensures isPublished
    {
      isPublished := true;
    }
  }

  /** `new Event<T, TEnum>(entity, eventType)`: the entity and kind it returns
      are exactly those it was given. */
  method NewEvent<T, K>(typeName: TypeTag, entity: T, eventType: K, now: int)
    returns (e: DomainEvent<EventPayload<T, K>>)
    ensures fresh(e)
    ensures e.payload.entity == entity && e.payload.eventType == eventType
    ensures e.typeName == typeName && e.dateOccurred == now && !e.isPublished
  {
    e := new DomainEvent(typeName, EventPayload(entity, eventType), now);
  }
}
