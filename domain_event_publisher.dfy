/** Publishing domain events through the mediator
    (Application/Services/Events/DomainEventPublisher.cs).

    An event is wrapped in a `DomainEventNotification<TEvent>` and published
    under that runtime type, so the handlers registered for
    `DomainEventNotification<TEvent>` receive it. The reflective lookup of
    `IMediator.Publish` always succeeds and is not modelled. The publisher
    keeps a ghost log of what each mediator publish did. */
module DomainEventPublisher {
  import opened Wrappers
  import opened DomainEvents
  import M = Mediator

  /** DomainEventNotification<TDomainEvent>. */
  datatype DomainEventNotification<P> = DomainEventNotification(domainEvent: DomainEvent<P>)

  /** `CancellationToken.None`. */
  const NoCancellation: M.CancellationToken := 0

  /** The runtime type of the notification built for an event of type `eventType`. */
  function NotificationType(eventType: TypeTag): TypeTag
  {
    "DomainEventNotification<" + eventType + ">"
  }

  /** `CreateNotification`: the notification holds that very event. */
  function CreateNotification<P>(e: DomainEvent<P>): (n: DomainEventNotification<P>)
    ensures n.domainEvent == e
  {
    DomainEventNotification(e)
  }

  /** The mediator publish that `Publish(e)` performs. */
  function Deliver<Req, Resp, P>(m: M.Mediator<Req, Resp, DomainEventNotification<P>>, e: DomainEvent<P>)
    : M.Delivery<DomainEventNotification<P>>
  {
    M.Publish(m, NotificationType(e.typeName), CreateNotification(e), NoCancellation)
  }

  /** How many events at the head of the list publish successfully: each of
      those succeeds, and the event after them, if any, fails. */
  function PublishedCount<Req, Resp, P>(m: M.Mediator<Req, Resp, DomainEventNotification<P>>, events: seq<DomainEvent<P>>)
    : (k: nat)
    ensures k <= |events|
    ensures forall i :: 0 <= i < k ==> Deliver(m, events[i]).outcome.Ok?
    ensures k < |events| ==> Deliver(m, events[k]).outcome.Thrown?
  {
    if |events| == 0 then 0
    else if Deliver(m, events[0]).outcome.Thrown? then 0
    else 1 + PublishedCount(m, events[1..])
  }

  /** The deliveries of a list of events, one per event, in order. */
  function DeliverEach<Req, Resp, P>(m: M.Mediator<Req, Resp, DomainEventNotification<P>>, events: seq<DomainEvent<P>>)
    : (ds: seq<M.Delivery<DomainEventNotification<P>>>)
    ensures |ds| == |events| && forall i :: 0 <= i < |events| ==> ds[i] == Deliver(m, events[i])
  {
    seq(|events|, i requires 0 <= i < |events| => Deliver(m, events[i]))
  }

  class DomainEventPublisher<Req, Resp, P> {
    const mediator: M.Mediator<Req, Resp, DomainEventNotification<P>>
    ghost var deliveries: seq<M.Delivery<DomainEventNotification<P>>>

    constructor (mediator: M.Mediator<Req, Resp, DomainEventNotification<P>>)
      ensures this.mediator == mediator && deliveries == []
    {
      this.mediator := mediator;
      deliveries := [];
    }

    /** `Publish(domainEvent)`: publish the wrapped event under its runtime
        type, then, only if that completed, mark the event published. */
    method Publish(e: DomainEvent<P>) returns (outcome: Outcome<()>)
      modifies this, e
      ensures outcome == Deliver(mediator, e).outcome
      ensures deliveries == old(deliveries) + [Deliver(mediator, e)]
      ensures e.isPublished == (old(e.isPublished) || outcome.Ok?)
    {
      var notification := CreateNotification(e);
      var d := M.Publish(mediator, NotificationType(e.typeName), notification, NoCancellation);
      deliveries := deliveries + [d];
      outcome := d.outcome;
      if outcome.Ok? {
        e.MarkAsPublished();
      }
    }

    /** Event `i` of a list published; no other event of the list changes. */
    method PublishNext(events: seq<DomainEvent<P>>, i: nat) returns (outcome: Outcome<()>)
      requires i < |events|
      modifies this, events
      ensures outcome == Deliver(mediator, events[i]).outcome
      ensures deliveries == old(deliveries) + [Deliver(mediator, events[i])]
      ensures forall e :: e in events ==> e.isPublished == (old(e.isPublished) || (e == events[i] && outcome.Ok?))
    {
      outcome := Publish(events[i]);
    }

    /** `Publish(domainEvents)`: one event at a time, in list order, each
        finished before the next starts; the first failure ends the run. The
        events published are exactly the first `PublishedCount` of them. */
    method PublishAll(events: seq<DomainEvent<P>>) returns (outcome: Outcome<()>)
      modifies this, events
      ensures var k := PublishedCount(mediator, events);
        && outcome == (if k == |events| then Ok(()) else Deliver(mediator, events[k]).outcome)
        && deliveries == old(deliveries) + DeliverEach(mediator, events[..if k == |events| then k else k + 1])
        && forall e :: e in events ==> e.isPublished == (old(e.isPublished) || e in events[..k])
    {
      var i := 0;
      while i < |events|
        invariant 0 <= i <= |events|
        invariant forall j :: 0 <= j < i ==> Deliver(mediator, events[j]).outcome.Ok?
        invariant deliveries == old(deliveries) + DeliverEach(mediator, events[..i])
        invariant forall e :: e in events ==> e.isPublished == (old(e.isPublished) || e in events[..i])
      {
        outcome := PublishNext(events, i);
        DeliverEachStep(mediator, events, i);
        if outcome.Thrown? {
          PublishedCountAt(mediator, events, i);
          return;
        }
        PublishedPrefixStep(events, i);
        i := i + 1;
      }
      PublishedCountAt(mediator, events, i);
      assert events[..i] == events;
      outcome := Ok(());
    }
  }

  /** The deliveries of one more event extend those before it. */
  lemma DeliverEachStep<Req, Resp, P>(m: M.Mediator<Req, Resp, DomainEventNotification<P>>, events: seq<DomainEvent<P>>, i: nat)
    requires i < |events|
    ensures DeliverEach(m, events[..i + 1]) == DeliverEach(m, events[..i]) + [Deliver(m, events[i])]
  {
    assert events[..i + 1] == events[..i] + [events[i]];
  }

  /** An event lies among the first `i + 1` exactly when it lies among the
      first `i` or is event `i`. */
  lemma PublishedPrefixStep<X>(events: seq<X>, i: nat)
    requires i < |events|
    ensures forall e :: e in events[..i + 1] <==> e in events[..i] || e == events[i]
  {
    assert events[..i + 1] == events[..i] + [events[i]];
  }

  /** `PublishedCount` is the one position where the successes end. */
  lemma PublishedCountAt<Req, Resp, P>(m: M.Mediator<Req, Resp, DomainEventNotification<P>>, events: seq<DomainEvent<P>>, i: nat)
    requires i <= |events|
    requires forall j :: 0 <= j < i ==> Deliver(m, events[j]).outcome.Ok?
    requires i < |events| ==> Deliver(m, events[i]).outcome.Thrown?
    ensures PublishedCount(m, events) == i
  {
  }

  /** When every event's notification type has exactly the handler `h`, and
      `h` never throws, the whole list publishes: every event is delivered once
      to `h`, in list order, by one publisher call per event. */
  lemma {:induction false} EachHandledOnce<Req, Resp, P>(
    m: M.Mediator<Req, Resp, DomainEventNotification<P>>, events: seq<DomainEvent<P>>,
    h: M.NotificationHandler<DomainEventNotification<P>>)
    requires forall e :: e in events ==> M.HandlersFor(m, NotificationType(e.typeName)) == [h]
    requires forall n, t :: h.handle(n, t).Completes()
    ensures PublishedCount(m, events) == |events|
    ensures forall i :: 0 <= i < |events| ==>
      && Deliver(m, events[i]).invoked == [h.name]
      && Deliver(m, events[i]).publisherCalls == [M.PublisherCall([h], CreateNotification(events[i]), NoCancellation)]
  {
    forall i | 0 <= i < |events|
      ensures Deliver(m, events[i]).outcome.Ok? && Deliver(m, events[i]).invoked == [h.name]
    {
      var n := CreateNotification(events[i]);
      assert M.HandlersFor(m, NotificationType(events[i].typeName)) == [h];
      assert [h][1..] == [];
      assert M.StartAll([h], n, NoCancellation).0 == [h.handle(n, NoCancellation).task];
      assert M.HandlerNames([h]) == [h.name];
      assert M.RunWhenAll([h], n, NoCancellation).0.Ok? && M.RunWhenAll([h], n, NoCancellation).1 == [h.name];
    }
    if |events| > 0 {
      EachHandledOnce(m, events[1..], h);
    }
  }
}
