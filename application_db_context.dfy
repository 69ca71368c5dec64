/** The bookkeeping pass of `SaveChangesAsync` and the soft-delete query
    filter (Infrastructure/Persistence/ApplicationDbContext.cs).

    The change tracker is a sequence of `Entry` objects. Each entry points at
    its entity's domain-event list and holds the entry state plus the audit
    and soft-delete properties of the tracked entity. Three flags record
    whether the entry is selected by `Entries<IAuditableEntity<object>>()`,
    `Entries<ISoftDelete>()` and `Entries<BaseEntity<object>>()`. The clock,
    the current user and the outcome of the base `SaveChangesAsync` are
    parameters. */
module ApplicationDbContext {
  import opened Wrappers
  import opened DomainEvents
  import opened BaseEntity
  import P = DomainEventPublisher

  /** EF Core's `EntityState`. */
  datatype EntityState = Detached | Unchanged | Deleted | Modified | Added

  /** What the pass can change on one entry: its state and the audit and
      soft-delete properties. Times are `DateTime` ticks. */
  datatype Tracking = Tracking(
    state: EntityState,
    created: Option<int>, createdBy: Option<string>,
    lastModified: Option<int>, lastModifiedBy: Option<string>,
    deleted: Option<int>, deletedBy: Option<string>)

  /** The audit pass on one entry: Added entries get their creation stamp,
      Modified ones their modification stamp, any other entry is untouched. */
  function Audit(t: Tracking, auditable: bool, now: int, user: Option<string>): (r: Tracking)
    ensures r.state == t.state && r.deleted == t.deleted && r.deletedBy == t.deletedBy
    ensures r.created != t.created || r.createdBy != t.createdBy ==> auditable && t.state == Added
    ensures r.lastModified != t.lastModified || r.lastModifiedBy != t.lastModifiedBy ==> auditable && t.state == Modified
  {
    if !auditable then t
    else match t.state
      case Added => t.(created := Some(now), createdBy := user)
      case Modified => t.(lastModified := Some(now), lastModifiedBy := user)
      case _ => t
  }

  /** The soft-delete pass on one entry: a Deleted entry becomes Modified,
      stamped as deleted now by the current user; any other entry is untouched. */
  function SoftDelete(t: Tracking, softDeletable: bool, now: int, user: Option<string>): (r: Tracking)
    ensures r.created == t.created && r.createdBy == t.createdBy
    ensures r.lastModified == t.lastModified && r.lastModifiedBy == t.lastModifiedBy
    ensures r != t ==> softDeletable && t.state == EntityState.Deleted && r.state == Modified && r.deleted == Some(now)
  {
    if softDeletable && t.state == EntityState.Deleted then t.(state := Modified, deleted := Some(now), deletedBy := user)
    else t
  }

  /** Both passes, audit first. */
  function Bookkeeping(t: Tracking, auditable: bool, softDeletable: bool, now: int, user: Option<string>): (r: Tracking)
    ensures r.state == (if softDeletable && t.state == EntityState.Deleted then Modified else t.state)
    ensures r.created == (if auditable && t.state == Added then Some(now) else t.created)
    ensures r.createdBy == (if auditable && t.state == Added then user else t.createdBy)
    ensures r.lastModified == (if auditable && t.state == Modified then Some(now) else t.lastModified)
    ensures r.lastModifiedBy == (if auditable && t.state == Modified then user else t.lastModifiedBy)
    ensures r.deleted == (if softDeletable && t.state == EntityState.Deleted then Some(now) else t.deleted)
    ensures r.deletedBy == (if softDeletable && t.state == EntityState.Deleted then user else t.deletedBy)
  {
    SoftDelete(Audit(t, auditable, now, user), softDeletable, now, user)
  }

  /** What EF's `AcceptAllChanges` does to one entry once the base save has
      succeeded: Added and Modified entries become Unchanged, Deleted ones are
      detached, and the stamps stay as they were saved. */
  function Accepted(t: Tracking): (r: Tracking)
    ensures r.state != Added && r.state != Modified && r.state != EntityState.Deleted
    ensures r.state == Detached <==> t.state == Detached || t.state == EntityState.Deleted
    ensures r.(state := t.state) == t
  {
    match t.state
    case Added => t.(state := Unchanged)
    case Modified => t.(state := Unchanged)
    case Deleted => t.(state := Detached)
    case _ => t
  }

  /** The query filter `OnModelCreating` installs on every soft-deletable
      entity type: only rows whose `Deleted` is null are visible. */
  predicate Visible(softDeletable: bool, t: Tracking)
  {
    !softDeletable || t.deleted.None?
  }

  /** A soft-deleted entity stays in the database (its entry is Modified,
      not Deleted) but the query filter hides it from then on; the pass never
      hides or reveals any other soft-deletable row. */
  lemma SoftDeleteHides(t: Tracking, auditable: bool, now: int, user: Option<string>)
    ensures t.state == EntityState.Deleted ==>
      var r := Bookkeeping(t, auditable, true, now, user);
      r.state == Modified && !Visible(true, r)
    ensures t.state != EntityState.Deleted ==>
      Visible(true, Bookkeeping(t, auditable, true, now, user)) == Visible(true, t)
  {
  }

  /** After a successful save a soft-deleted entity is still tracked, as
      Unchanged, with its deletion stamp, and hidden by the query filter; an
      entity that is not soft-deletable and was deleted leaves the tracker. */
  lemma SavedSoftDeleteStaysTracked(t: Tracking, auditable: bool, softDeletable: bool, now: int, user: Option<string>)
    requires t.state == EntityState.Deleted
    ensures var r := Accepted(Bookkeeping(t, auditable, softDeletable, now, user));
      && (softDeletable ==> r.state == Unchanged && r.deleted == Some(now) && !Visible(true, r))
      && (!softDeletable ==> r.state == Detached)
  {
  }

  /** Because the audit pass runs first, an auditable entity deleted in this
      save gets no modification stamp, although its entry leaves the pass as
      Modified; had the passes run the other way round, it would have got one. */
  lemma AuditBeforeSoftDelete(t: Tracking, now: int, user: Option<string>)
    requires t.state == EntityState.Deleted
    ensures Bookkeeping(t, true, true, now, user).lastModified == t.lastModified
    ensures Audit(SoftDelete(t, true, now, user), true, now, user).lastModified == Some(now)
  {
  }

  /** One tracked entry. */
  class Entry<Ev> {
    const entity: Entity<Ev>
    const auditable: bool
    const softDeletable: bool
    const eventSource: bool
    var state: EntityState
    var created: Option<int>
    var createdBy: Option<string>
    var lastModified: Option<int>
    var lastModifiedBy: Option<string>
    var deleted: Option<int>
    var deletedBy: Option<string>

    constructor (entity: Entity<Ev>, auditable: bool, softDeletable: bool, eventSource: bool, state: EntityState)
      ensures this.entity == entity && this.auditable == auditable && this.softDeletable == softDeletable
      ensures this.eventSource == eventSource
      ensures Snapshot() == Tracking(state, None, None, None, None, None, None)
    {
      this.entity := entity;
      this.auditable := auditable;
      this.softDeletable := softDeletable;
      this.eventSource := eventSource;
      this.state := state;
      created, createdBy, lastModified, lastModifiedBy, deleted, deletedBy := None, None, None, None, None, None;
    }

    function Snapshot(): Tracking
      reads this
    {
      Tracking(state, created, createdBy, lastModified, lastModifiedBy, deleted, deletedBy)
    }
  }

  /** The change tracker keeps one entry per entity. */
  predicate Tracked<Ev>(entries: seq<Entry<Ev>>)
  {
    forall i, j :: 0 <= i < j < |entries| ==> entries[i] != entries[j] && entries[i].entity != entries[j].entity
  }

  /** The first pass: stamp every auditable entry, in tracker order. */
  method StampAudit<Ev>(entries: seq<Entry<Ev>>, now: int, user: Option<string>)
    requires Tracked(entries)
    modifies set e | e in entries
    ensures forall i :: 0 <= i < |entries| ==>
      entries[i].Snapshot() == Audit(old(entries[i].Snapshot()), entries[i].auditable, now, user)
  {
    for i := 0 to |entries|
      invariant forall j :: 0 <= j < i ==>
        entries[j].Snapshot() == Audit(old(entries[j].Snapshot()), entries[j].auditable, now, user)
      invariant forall j :: i <= j < |entries| ==> entries[j].Snapshot() == old(entries[j].Snapshot())
    {
      var entry := entries[i];
      if entry.auditable {
        match entry.state {
          case Added =>
            entry.created := Some(now);
            entry.createdBy := user;
          case Modified =>
            entry.lastModified := Some(now);
            entry.lastModifiedBy := user;
          case _ =>
        }
      }
    }
  }

  /** The second pass: turn deletions of soft-deletable entities into updates. */
  method ApplySoftDelete<Ev>(entries: seq<Entry<Ev>>, now: int, user: Option<string>)
    requires Tracked(entries)
    modifies set e | e in entries
    ensures forall i :: 0 <= i < |entries| ==>
      entries[i].Snapshot() == SoftDelete(old(entries[i].Snapshot()), entries[i].softDeletable, now, user)
  {
    for i := 0 to |entries|
      invariant forall j :: 0 <= j < i ==>
        entries[j].Snapshot() == SoftDelete(old(entries[j].Snapshot()), entries[j].softDeletable, now, user)
      invariant forall j :: i <= j < |entries| ==> entries[j].Snapshot() == old(entries[j].Snapshot())
    {
      var entry := entries[i];
      if entry.softDeletable && entry.state == EntityState.Deleted {
        entry.state := Modified;
        entry.deleted := Some(now);
        entry.deletedBy := user;
      }
    }
  }

  /** `Entries<BaseEntity<object>>().Where(e => e.Entity.DomainEvents.Any()).Select(e => e.Entity)`. */
  function EntitiesWithEvents<Ev>(entries: seq<Entry<Ev>>): (r: seq<Entity<Ev>>)
    reads set e | e in entries :: e.entity
    ensures forall i :: 0 <= i < |entries| && entries[i].eventSource && |entries[i].entity.domainEvents| > 0 ==>
      entries[i].entity in r
    ensures forall x :: x in r ==> exists i :: 0 <= i < |entries| && entries[i].entity == x && entries[i].eventSource
  {
    if |entries| == 0 then []
    else
      var rest := EntitiesWithEvents(entries[1..]);
      assert forall x :: x in rest ==> exists i :: 1 <= i < |entries| && entries[i].entity == x && entries[i].eventSource by {
        forall x | x in rest
          ensures exists i :: 1 <= i < |entries| && entries[i].entity == x && entries[i].eventSource
        {
          var k :| 0 <= k < |entries[1..]| && entries[1..][k].entity == x && entries[1..][k].eventSource;
          assert entries[k + 1] == entries[1..][k];
        }
      }
      (if entries[0].eventSource && |entries[0].entity.domainEvents| > 0 then [entries[0].entity] else []) + rest
  }

  /** `SelectMany(e => e.DomainEvents)`: the events of each entity in turn,
      each list in its own order. */
  function AllEvents<Ev>(entities: seq<Entity<Ev>>): (r: seq<DomainEvent<Ev>>)
    reads set x | x in entities
    ensures forall ev :: ev in r ==> exists x :: x in entities && ev in x.domainEvents
  {
    if |entities| == 0 then []
    else entities[0].domainEvents + AllEvents(entities[1..])
  }

  /** How many domain events the event-source entries hold. */
  function PendingCount<Ev>(entries: seq<Entry<Ev>>): nat
    reads set e | e in entries :: e.entity
  {
    if |entries| == 0 then 0
    else (if entries[0].eventSource then |entries[0].entity.domainEvents| else 0) + PendingCount(entries[1..])
  }

  /** Collecting loses no event and repeats none: it yields as many events as
      the event-source entries hold. */
  lemma {:induction false} CollectedCount<Ev>(entries: seq<Entry<Ev>>)
    ensures |AllEvents(EntitiesWithEvents(entries))| == PendingCount(entries)
  {
    if |entries| > 0 {
      CollectedCount(entries[1..]);
      var head := if entries[0].eventSource && |entries[0].entity.domainEvents| > 0 then [entries[0].entity] else [];
      AllEventsAppend(head, EntitiesWithEvents(entries[1..]));
    }
  }

  /** Collecting from two runs of entities collects the first run's events, then the second's. */
  lemma {:induction false} AllEventsAppend<Ev>(xs: seq<Entity<Ev>>, ys: seq<Entity<Ev>>)
    ensures AllEvents(xs + ys) == AllEvents(xs) + AllEvents(ys)
  {
    if |xs| > 0 {
      assert (xs + ys)[1..] == xs[1..] + ys;
      AllEventsAppend(xs[1..], ys);
    } else {
      assert xs + ys == ys;
    }
  }

  /** `entitiesWithEvents.ForEach(entity => entity.ClearDomainEvents())`. */
  method ClearAll<Ev>(entities: seq<Entity<Ev>>)
    modifies set x | x in entities
    ensures forall x :: x in entities ==> x.domainEvents == []
  {
    for i := 0 to |entities|
      invariant forall j :: 0 <= j < i ==> entities[j].domainEvents == []
    {
      entities[i].ClearDomainEvents();
    }
  }

  /** Every domain event held by any tracked entity. */
  function HeldEvents<Ev>(entries: seq<Entry<Ev>>): set<DomainEvent<Ev>>
    reads set e | e in entries :: e.entity
  {
    set e, ev | e in entries && ev in e.entity.domainEvents :: ev
  }

  /** Collecting and clearing the domain events: the entities with pending
      events, their events in tracker order, then each list cleared. Every
      event returned was held by a tracked entity when the step began. */
  method CollectDomainEvents<Ev>(entries: seq<Entry<Ev>>) returns (domainEvents: seq<DomainEvent<Ev>>)
    requires Tracked(entries)
    modifies set e | e in entries :: e.entity
    ensures domainEvents == old(AllEvents(EntitiesWithEvents(entries)))
    ensures forall ev :: ev in domainEvents ==> ev in old(HeldEvents(entries))
    ensures forall i :: 0 <= i < |entries| ==>
      entries[i].entity.domainEvents == if entries[i].eventSource then [] else old(entries[i].entity.domainEvents)
  {
    var entitiesWithEvents := EntitiesWithEvents(entries);
    domainEvents := AllEvents(entitiesWithEvents);
    forall ev | ev in domainEvents
      ensures ev in HeldEvents(entries)
    {
      var x :| x in entitiesWithEvents && ev in x.domainEvents;
      var i :| 0 <= i < |entries| && entries[i].entity == x && entries[i].eventSource;
      assert entries[i] in entries;
    }
    ClearAll(entitiesWithEvents);
  }

  /** Both passes over the tracker, audit first. */
  method StampEntries<Ev>(entries: seq<Entry<Ev>>, now: int, user: Option<string>)
    requires Tracked(entries)
    modifies set e | e in entries
    ensures forall i :: 0 <= i < |entries| ==>
      entries[i].Snapshot() == Bookkeeping(old(entries[i].Snapshot()), entries[i].auditable, entries[i].softDeletable, now, user)
  {
    StampAudit(entries, now, user);
    ApplySoftDelete(entries, now, user);
  }

  /** The part of `SaveChangesAsync` before the base save: the audit pass,
      the soft-delete pass, then collecting and clearing the domain events. */
  method PrepareSave<Ev>(entries: seq<Entry<Ev>>, now: int, user: Option<string>)
    returns (domainEvents: seq<DomainEvent<Ev>>)
    requires Tracked(entries)
    modifies set e | e in entries
    modifies set e | e in entries :: e.entity
    ensures forall i :: 0 <= i < |entries| ==>
      entries[i].Snapshot() == Bookkeeping(old(entries[i].Snapshot()), entries[i].auditable, entries[i].softDeletable, now, user)
    ensures domainEvents == old(AllEvents(EntitiesWithEvents(entries)))
    ensures forall ev :: ev in domainEvents ==> ev in old(HeldEvents(entries))
    ensures forall i :: 0 <= i < |entries| ==>
      entries[i].entity.domainEvents == if entries[i].eventSource then [] else old(entries[i].entity.domainEvents)
  {
    StampEntries(entries, now, user);
    StampingKeepsEvents(entries);
    label Stamped:
    domainEvents := CollectDomainEvents(entries);
    CollectingKeepsStamps@Stamped(entries);
  }

  /** The accept step of a successful base save, over every tracked entry. */
  method AcceptAllChanges<Ev>(entries: seq<Entry<Ev>>)
    requires Tracked(entries)
    modifies set e | e in entries
    ensures forall i :: 0 <= i < |entries| ==> entries[i].Snapshot() == Accepted(old(entries[i].Snapshot()))
  {
    for i := 0 to |entries|
      invariant forall j :: 0 <= j < i ==> entries[j].Snapshot() == Accepted(old(entries[j].Snapshot()))
      invariant forall j :: i <= j < |entries| ==> entries[j].Snapshot() == old(entries[j].Snapshot())
    {
      var entry := entries[i];
      match entry.state {
        case Added => entry.state := Unchanged;
        case Modified => entry.state := Unchanged;
        case Deleted => entry.state := Detached;
        case _ =>
      }
    }
  }

  /** The entry side of a save: the bookkeeping and the event collection,
      then, when the base save succeeded, the accept step. */
  method PrepareAndAccept<Ev>(entries: seq<Entry<Ev>>, now: int, user: Option<string>, saved: bool)
    returns (domainEvents: seq<DomainEvent<Ev>>)
    requires Tracked(entries)
    modifies set e | e in entries
    modifies set e | e in entries :: e.entity
    ensures forall i :: 0 <= i < |entries| ==>
      var stamped := Bookkeeping(old(entries[i].Snapshot()), entries[i].auditable, entries[i].softDeletable, now, user);
      entries[i].Snapshot() == if saved then Accepted(stamped) else stamped
    ensures domainEvents == old(AllEvents(EntitiesWithEvents(entries)))
    ensures forall ev :: ev in domainEvents ==> ev in old(HeldEvents(entries))
    ensures forall i :: 0 <= i < |entries| ==>
      entries[i].entity.domainEvents == if entries[i].eventSource then [] else old(entries[i].entity.domainEvents)
  {
    domainEvents := PrepareSave(entries, now, user);
    if saved {
      AcceptAllChanges(entries);
    }
  }

  /** Stamping touches the entries only, so the events they point at are as they were. */
  twostate lemma StampingKeepsEvents<Ev>(entries: seq<Entry<Ev>>)
    requires forall i :: 0 <= i < |entries| ==> unchanged(entries[i].entity)
    ensures HeldEvents(entries) == old(HeldEvents(entries))
    ensures AllEvents(EntitiesWithEvents(entries)) == old(AllEvents(EntitiesWithEvents(entries)))
  {
  }

  /** Collecting touches the entities only, so the entries keep their stamps. */
  twostate lemma CollectingKeepsStamps<Ev>(entries: seq<Entry<Ev>>)
    requires forall i :: 0 <= i < |entries| ==> unchanged(entries[i])
    ensures forall i :: 0 <= i < |entries| ==> entries[i].Snapshot() == old(entries[i].Snapshot())
  {
  }

  class ApplicationDbContext<Req, Resp, Ev> {
    const publisher: P.DomainEventPublisher<Req, Resp, Ev>

    constructor (publisher: P.DomainEventPublisher<Req, Resp, Ev>)
      ensures this.publisher == publisher
    {
      this.publisher := publisher;
    }

    /** `SaveChangesAsync`: audit, soft-delete, collect and clear the domain
        events, save, then publish the collected events one by one. A failed
        save publishes nothing (the events are already cleared); a failed
        publish surfaces instead of the saved count. */
    method SaveChangesAsync(entries: seq<Entry<Ev>>, now: int, user: Option<string>, baseSave: Outcome<int>)
      returns (result: Outcome<int>, ghost collected: seq<DomainEvent<Ev>>)
      requires Tracked(entries)
      modifies set e | e in entries
      modifies set e | e in entries :: e.entity
      modifies publisher, AllEvents(EntitiesWithEvents(entries))
      ensures forall i :: 0 <= i < |entries| ==>
        var saved := Bookkeeping(old(entries[i].Snapshot()), entries[i].auditable, entries[i].softDeletable, now, user);
        entries[i].Snapshot() == if baseSave.Ok? then Accepted(saved) else saved
      ensures collected == old(AllEvents(EntitiesWithEvents(entries)))
      ensures forall i :: 0 <= i < |entries| ==>
        entries[i].entity.domainEvents == if entries[i].eventSource then [] else old(entries[i].entity.domainEvents)
      ensures baseSave.Thrown? ==> result == baseSave && publisher.deliveries == old(publisher.deliveries)
      ensures baseSave.Thrown? ==> forall ev :: ev in collected ==> ev.isPublished == old(ev.isPublished)
      ensures baseSave.Ok? ==>
        var k := P.PublishedCount(publisher.mediator, collected);
        && result == (if k == |collected| then baseSave else Thrown(P.Deliver(publisher.mediator, collected[k]).outcome.exception))
        && publisher.deliveries == old(publisher.deliveries)
             + P.DeliverEach(publisher.mediator, collected[..if k == |collected| then k else k + 1])
        && forall ev :: ev in collected ==> ev.isPublished == (old(ev.isPublished) || ev in collected[..k])
    {
      var domainEvents := PrepareAndAccept(entries, now, user, baseSave.Ok?);
      collected := domainEvents;
      result := SaveThenPublish(domainEvents, baseSave);
    }

    /** The tail of `SaveChangesAsync`, once the events are collected: the
        base save, then the publishing of the events it returned. */
    method SaveThenPublish(domainEvents: seq<DomainEvent<Ev>>, baseSave: Outcome<int>) returns (result: Outcome<int>)
      modifies publisher, domainEvents
      ensures baseSave.Thrown? ==> result == baseSave && publisher.deliveries == old(publisher.deliveries)
      ensures baseSave.Thrown? ==> forall ev :: ev in domainEvents ==> ev.isPublished == old(ev.isPublished)
      ensures baseSave.Ok? ==>
        var k := P.PublishedCount(publisher.mediator, domainEvents);
        && result == (if k == |domainEvents| then baseSave else Thrown(P.Deliver(publisher.mediator, domainEvents[k]).outcome.exception))
        && publisher.deliveries == old(publisher.deliveries)
             + P.DeliverEach(publisher.mediator, domainEvents[..if k == |domainEvents| then k else k + 1])
        && forall ev :: ev in domainEvents ==> ev.isPublished == (old(ev.isPublished) || ev in domainEvents[..k])
    {
      if baseSave.Thrown? {
        return baseSave;
      }
      var published := publisher.PublishAll(domainEvents);
      if published.Thrown? {
        return Thrown(published.exception);
      }
      result := baseSave;
    }
  }
}
