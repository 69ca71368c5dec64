/** The in-process mediator (Infrastructure/Mediator/Mediator.cs).

    `Send` resolves the one handler registered for the request's runtime type
    and the declared response type, wraps the registered pipeline behaviors
    around it (the first-registered behavior outermost) and runs the chain.
    `Publish` resolves every handler registered for a notification type and,
    unless there are none, hands them to the notification publisher strategy.

    The dependency-injection container becomes a registry of maps keyed by type
    tags. The delegate `Send` builds is kept as data (`Pipeline`), and running it
    yields the response together with a trace of what ran, in order. */
module Mediator {
  import opened Wrappers

  /** The cancellation token, passed along unchanged; only its identity matters. */
  type CancellationToken = nat

  /** What a pipeline behavior does before it would call `next`: go on, return a
      response of its own (short-circuit), or throw. */
  datatype Decision<Resp> = Proceed | Return(response: Resp) | Fail(exception: Exception)

  /** IRequestHandler<TRequest, TResponse>. */
  datatype RequestHandler<!Req, Resp> =
    RequestHandler(name: string, handle: (Req, CancellationToken) -> Outcome<Resp>)

  /** IPipelineBehavior<TRequest, TResponse>: the logic before `next`, and the
      logic applied to what awaiting `next` gave, a response or an exception.
      A behavior that lets the exception through returns it unchanged; one
      that catches it may answer or throw something else instead. */
  datatype PipelineBehavior<!Req, !Resp> = PipelineBehavior(
    name: string,
    before: (Req, CancellationToken) -> Decision<Resp>,
    after: (Req, Outcome<Resp>) -> Outcome<Resp>)

  /** RequestHandlerDelegate<TResponse> as `Send` builds it: the handler call,
      or a behavior call that captured the previous delegate as its `next`. */
  datatype Pipeline<!Req, !Resp> =
    | Terminal(handler: RequestHandler<Req, Resp>)
    | Wrapped(behavior: PipelineBehavior<Req, Resp>, next: Pipeline<Req, Resp>)

  /** What a run of the pipeline records: a behavior entered (with the request
      and token it was given), the handler run, a behavior resumed after `next`
      returned normally. */
  datatype Event<Req> =
    | Before(stage: string, request: Req, token: CancellationToken)
    | Handled(handlerName: string, request: Req, token: CancellationToken)
    | After(stage: string)

  datatype Execution<Req, Resp> = Execution(outcome: Outcome<Resp>, trace: seq<Event<Req>>)

  /** What calling a non-async `Task Handle` gives: a task, already finished
      with its outcome, or an exception thrown before any task is returned. */
  datatype HandleCall = Returns(task: Outcome<()>) | Throws(exception: Exception) {
    /** The handler returned a task that completed. */
    predicate Completes() { Returns? && task.Ok? }
  }

  /** INotificationHandler<TNotification>. */
  datatype NotificationHandler<!N> =
    NotificationHandler(name: string, handle: (N, CancellationToken) -> HandleCall)

  /** The mediator and what its service provider has registered. */
  datatype Mediator<!Req, !Resp, !N> = Mediator(
    runtimeType: Req -> TypeTag,
    handlers: map<(TypeTag, TypeTag), RequestHandler<Req, Resp>>,
    behaviors: map<(TypeTag, TypeTag), seq<PipelineBehavior<Req, Resp>>>,
    notificationHandlers: map<TypeTag, seq<NotificationHandler<N>>>)

  // ---------------------------------------------------------------------
  // Running a pipeline
  // ---------------------------------------------------------------------

  /** Calls a delegate: every stage gets the same request and token; a
      behavior reaches the inner stages only by proceeding to `next`. */
  function Invoke<Req, Resp>(p: Pipeline<Req, Resp>, request: Req, token: CancellationToken)
    : (e: Execution<Req, Resp>)
    ensures |e.trace| > 0
    ensures e.trace[0] == if p.Terminal? then Handled(p.handler.name, request, token)
                          else Before(p.behavior.name, request, token)
    ensures HandledCount(e.trace) <= 1
  {
    match p
    case Terminal(h) =>
      Execution(h.handle(request, token), [Handled(h.name, request, token)])
    case Wrapped(b, next) =>
      var entered := [Before(b.name, request, token)];
      match b.before(request, token)
      case Return(v) => Execution(Ok(v), entered)
      case Fail(x) => Execution(Thrown(x), entered)
      case Proceed =>
        var inner := Invoke(next, request, token);
        var resumed := if inner.outcome.Ok? then [After(b.name)] else [];
        TraceSplit(entered, inner.trace);
        TraceSplit(entered + inner.trace, resumed);
        assert HandledCount(entered) == 0 && HandledCount(resumed) == 0;
        Execution(b.after(request, inner.outcome), entered + inner.trace + resumed)
  }

  /** The behaviors folded around the handler, first-registered outermost. */
  function Compose<Req, Resp>(behaviors: seq<PipelineBehavior<Req, Resp>>, handler: RequestHandler<Req, Resp>)
    : Pipeline<Req, Resp>
  {
    if |behaviors| == 0 then Terminal(handler)
    else Wrapped(behaviors[0], Compose(behaviors[1..], handler))
  }

  /** `Enumerable.Reverse`. */
  function Reversed<T>(s: seq<T>): (r: seq<T>)
    ensures |r| == |s|
    ensures forall i :: 0 <= i < |s| ==> r[i] == s[|s| - 1 - i]
  {
    if |s| == 0 then [] else Reversed(s[1..]) + [s[0]]
  }

  /** The source's loop: each behavior taken in turn wraps the delegate built so far. */
  function WrapEach<Req, Resp>(behaviors: seq<PipelineBehavior<Req, Resp>>, inner: Pipeline<Req, Resp>)
    : Pipeline<Req, Resp>
  {
    if |behaviors| == 0 then inner
    else WrapEach(behaviors[1..], Wrapped(behaviors[0], inner))
  }

  lemma {:induction false} WrapEachReversed<Req, Resp>(
    behaviors: seq<PipelineBehavior<Req, Resp>>, k: nat, handler: RequestHandler<Req, Resp>)
    requires k <= |behaviors|
    ensures WrapEach(Reversed(behaviors[..k]), Compose(behaviors[k..], handler)) == Compose(behaviors, handler)
    decreases k
  {
    if k > 0 {
      var pre := behaviors[..k];
      var rev := Reversed(pre);
      assert rev[0] == behaviors[k - 1];
      assert rev[1..] == Reversed(behaviors[..k - 1]) by {
        var tail := Reversed(behaviors[..k - 1]);
        assert |rev[1..]| == |tail|;
        forall i | 0 <= i < |tail| ensures rev[1..][i] == tail[i] {
          assert rev[1..][i] == rev[i + 1] == pre[k - 2 - i];
        }
      }
      assert behaviors[k - 1..] == [behaviors[k - 1]] + behaviors[k..];
      assert Wrapped(behaviors[k - 1], Compose(behaviors[k..], handler)) == Compose(behaviors[k - 1..], handler);
      WrapEachReversed(behaviors, k - 1, handler);
    }
  }

  /** Looping over the reversed behavior list and rewrapping the delegate
      builds the same chain as the recursive fold. */
  lemma ReversedLoopIsCompose<Req, Resp>(behaviors: seq<PipelineBehavior<Req, Resp>>, handler: RequestHandler<Req, Resp>)
    ensures WrapEach(Reversed(behaviors), Terminal(handler)) == Compose(behaviors, handler)
  {
    WrapEachReversed(behaviors, |behaviors|, handler);
    assert behaviors[..|behaviors|] == behaviors;
  }

  // ---------------------------------------------------------------------
  // Send
  // ---------------------------------------------------------------------

  function HandlerKey<Req, Resp, N>(m: Mediator<Req, Resp, N>, request: Req, responseType: TypeTag): (TypeTag, TypeTag)
  {
    (m.runtimeType(request), responseType)
  }

  /** `GetService(IEnumerable<IPipelineBehavior<,>>) ?? Enumerable.Empty`. */
  function BehaviorsFor<Req, Resp, N>(m: Mediator<Req, Resp, N>, key: (TypeTag, TypeTag)): seq<PipelineBehavior<Req, Resp>>
  {
    if key in m.behaviors then m.behaviors[key] else []
  }

  /** What `Send` does, stated as a function: no handler for the request's
      runtime type and the response type means the lookup throws before any
      behavior runs; otherwise the composed pipeline runs. */
  function Dispatch<Req, Resp, N>(m: Mediator<Req, Resp, N>, request: Req, responseType: TypeTag, token: CancellationToken)
    : (e: Execution<Req, Resp>)
    ensures e.trace == [] <==> HandlerKey(m, request, responseType) !in m.handlers
    ensures HandlerKey(m, request, responseType) !in m.handlers ==>
      e.outcome == Thrown(NoServiceRegistered(m.runtimeType(request), responseType))
    ensures HandledCount(e.trace) <= 1
  {
    var key := HandlerKey(m, request, responseType);
    if key !in m.handlers then Execution(Thrown(NoServiceRegistered(key.0, key.1)), [])
    else Invoke(Compose(BehaviorsFor(m, key), m.handlers[key]), request, token)
  }

  /** Mediator.Send: resolve the handler, wrap the behaviors in reverse
      registration order, run the outermost delegate and return what it returns. */
  method Send<Req, Resp, N>(m: Mediator<Req, Resp, N>, request: Req, responseType: TypeTag, token: CancellationToken)
    returns (e: Execution<Req, Resp>)
    ensures e == Dispatch(m, request, responseType, token)
  {
    var key := (m.runtimeType(request), responseType);
    if key !in m.handlers {
      return Execution(Thrown(NoServiceRegistered(key.0, key.1)), []);
    }
    var handler := m.handlers[key];
    var behaviors := if key in m.behaviors then m.behaviors[key] else [];
    var handlerDelegate := Terminal(handler);
    var reversed := Reversed(behaviors);
    var n := |behaviors|;
    for j := 0 to n
      invariant handlerDelegate == Compose(behaviors[n - j..], handler)
    {
      var next := handlerDelegate;
      assert behaviors[n - j - 1..] == [reversed[j]] + behaviors[n - j..];
      handlerDelegate := Wrapped(reversed[j], next);
    }
    assert behaviors[0..] == behaviors;
    e := Invoke(handlerDelegate, request, token);
  }

  // ---------------------------------------------------------------------
  // What a run of the pipeline is known to do
  // ---------------------------------------------------------------------

  function Names<Req, Resp>(behaviors: seq<PipelineBehavior<Req, Resp>>): seq<string>
  {
    if |behaviors| == 0 then [] else [behaviors[0].name] + Names(behaviors[1..])
  }

  /** The stages entered, in the order they were entered. */
  function Entered<Req>(trace: seq<Event<Req>>): seq<string>
  {
    if |trace| == 0 then []
    else (if trace[0].Before? then [trace[0].stage] else []) + Entered(trace[1..])
  }

  /** How many times a handler ran. */
  function HandledCount<Req>(trace: seq<Event<Req>>): nat
  {
    if |trace| == 0 then 0
    else (if trace[0].Handled? then 1 else 0) + HandledCount(trace[1..])
  }

  lemma {:induction false} TraceSplit<Req>(a: seq<Event<Req>>, b: seq<Event<Req>>)
    ensures Entered(a + b) == Entered(a) + Entered(b)
    ensures HandledCount(a + b) == HandledCount(a) + HandledCount(b)
  {
    if |a| > 0 {
      assert (a + b)[1..] == a[1..] + b;
      TraceSplit(a[1..], b);
    } else {
      assert a + b == b;
    }
  }

  /** How many behaviors are entered: each one that proceeds lets the next one run. */
  function Reached<Req, Resp>(behaviors: seq<PipelineBehavior<Req, Resp>>, request: Req, token: CancellationToken): (k: nat)
    ensures k <= |behaviors|
  {
    if |behaviors| == 0 then 0
    else if behaviors[0].before(request, token).Proceed? then 1 + Reached(behaviors[1..], request, token)
    else 1
  }

  predicate AllProceed<Req, Resp>(behaviors: seq<PipelineBehavior<Req, Resp>>, request: Req, token: CancellationToken)
  {
    forall i :: 0 <= i < |behaviors| ==> behaviors[i].before(request, token).Proceed?
  }

  /** Exactly the first `Reached` behaviors run, outermost first, and the
      handler runs, once, exactly when every behavior proceeds to `next`. */
  lemma {:induction false} StagesReached<Req, Resp>(
    behaviors: seq<PipelineBehavior<Req, Resp>>, handler: RequestHandler<Req, Resp>,
    request: Req, token: CancellationToken)
    ensures var e := Invoke(Compose(behaviors, handler), request, token);
      && Entered(e.trace) == Names(behaviors[..Reached(behaviors, request, token)])
      && HandledCount(e.trace) == (if AllProceed(behaviors, request, token) then 1 else 0)
  {
    var e := Invoke(Compose(behaviors, handler), request, token);
    if |behaviors| == 0 {
      assert e.trace == [Handled(handler.name, request, token)];
    } else {
      var b := behaviors[0];
      var rest := behaviors[1..];
      var entered: seq<Event<Req>> := [Before(b.name, request, token)];
      assert Entered(entered) == [b.name];
      assert HandledCount(entered) == 0;
      assert Compose(behaviors, handler) == Wrapped(b, Compose(rest, handler));
      if b.before(request, token).Proceed? {
        var inner := Invoke(Compose(rest, handler), request, token);
        StagesReached(rest, handler, request, token);
        TraceSplit(entered, inner.trace);
        var resumed: seq<Event<Req>> := if inner.outcome.Ok? then [After(b.name)] else [];
        assert e.trace == entered + inner.trace + resumed;
        TraceSplit(entered + inner.trace, resumed);
        assert Entered(resumed) == [] && HandledCount(resumed) == 0;
        ReachedNamesStep(behaviors, request, token);
        AllProceedStep(behaviors, request, token);
      } else {
        assert e.trace == entered;
        assert behaviors[..1] == [b];
        AllProceedStep(behaviors, request, token);
      }
    }
  }

  /** Peeling the outermost behavior off the names of those entered. */
  lemma ReachedNamesStep<Req, Resp>(behaviors: seq<PipelineBehavior<Req, Resp>>, request: Req, token: CancellationToken)
    requires |behaviors| > 0 && behaviors[0].before(request, token).Proceed?
    ensures Names(behaviors[..Reached(behaviors, request, token)])
         == [behaviors[0].name] + Names(behaviors[1..][..Reached(behaviors[1..], request, token)])
  {
    assert behaviors[..Reached(behaviors, request, token)][1..] == behaviors[1..][..Reached(behaviors[1..], request, token)];
  }

  /** Every behavior proceeds exactly when the outermost one does and every
      one inside it does. */
  lemma AllProceedStep<Req, Resp>(behaviors: seq<PipelineBehavior<Req, Resp>>, request: Req, token: CancellationToken)
    requires |behaviors| > 0
    ensures AllProceed(behaviors, request, token)
        <==> behaviors[0].before(request, token).Proceed? && AllProceed(behaviors[1..], request, token)
  {
    var rest := behaviors[1..];
    if behaviors[0].before(request, token).Proceed? && AllProceed(rest, request, token) {
      forall i | 0 <= i < |behaviors| ensures behaviors[i].before(request, token).Proceed? {
        if i > 0 { assert behaviors[i] == rest[i - 1]; }
      }
    }
    if AllProceed(behaviors, request, token) {
      forall i | 0 <= i < |rest| ensures rest[i].before(request, token).Proceed? {
        assert rest[i] == behaviors[i + 1];
      }
    }
  }

  /** A behavior that returns (or throws) without calling `next` keeps the
      handler and every behavior inside it from running. */
  lemma ShortCircuit<Req, Resp>(
    behaviors: seq<PipelineBehavior<Req, Resp>>, handler: RequestHandler<Req, Resp>,
    request: Req, token: CancellationToken, k: nat)
    requires k < |behaviors|
    requires forall j :: 0 <= j < k ==> behaviors[j].before(request, token).Proceed?
    requires !behaviors[k].before(request, token).Proceed?
    ensures var e := Invoke(Compose(behaviors, handler), request, token);
      Entered(e.trace) == Names(behaviors[..k + 1]) && HandledCount(e.trace) == 0
  {
    StagesReached(behaviors, handler, request, token);
    ReachedAtShortCircuit(behaviors, request, token, k);
  }

  lemma {:induction false} ReachedAtShortCircuit<Req, Resp>(
    behaviors: seq<PipelineBehavior<Req, Resp>>, request: Req, token: CancellationToken, k: nat)
    requires k < |behaviors|
    requires forall j :: 0 <= j < k ==> behaviors[j].before(request, token).Proceed?
    requires !behaviors[k].before(request, token).Proceed?
    ensures Reached(behaviors, request, token) == k + 1
    ensures !AllProceed(behaviors, request, token)
  {
    if k > 0 {
      ReachedAtShortCircuit(behaviors[1..], request, token, k - 1);
    }
  }

  /** Every stage of a run sees the request and the token `Send` was given. */
  ghost predicate SeesOnly<Req>(trace: seq<Event<Req>>, request: Req, token: CancellationToken)
  {
    forall i :: 0 <= i < |trace| && !trace[i].After? ==> trace[i].request == request && trace[i].token == token
  }

  lemma {:induction false} SameRequestEverywhere<Req, Resp>(p: Pipeline<Req, Resp>, request: Req, token: CancellationToken)
    ensures SeesOnly(Invoke(p, request, token).trace, request, token)
  {
    match p
    case Terminal(h) =>
    case Wrapped(b, next) =>
      if b.before(request, token).Proceed? {
        SameRequestEverywhere(next, request, token);
      }
  }

  /** A behavior that proceeds and hands the response back untouched. */
  ghost predicate Transparent<Req(!new), Resp(!new)>(b: PipelineBehavior<Req, Resp>, request: Req, token: CancellationToken)
  {
    b.before(request, token) == Proceed && forall o :: b.after(request, o) == o
  }

  function Befores<Req, Resp>(behaviors: seq<PipelineBehavior<Req, Resp>>, request: Req, token: CancellationToken)
    : seq<Event<Req>>
  {
    if |behaviors| == 0 then [] else [Before(behaviors[0].name, request, token)] + Befores(behaviors[1..], request, token)
  }

  /** The `After` events of the behaviors, innermost first. */
  function Afters<Req, Resp>(behaviors: seq<PipelineBehavior<Req, Resp>>): seq<Event<Req>>
  {
    if |behaviors| == 0 then [] else Afters<Req, Resp>(behaviors[1..]) + [After(behaviors[0].name)]
  }

  /** Nesting order: with behaviors that only observe, the run enters them in
      registration order, runs the handler, and leaves them in reverse order;
      the response (or the handler's exception) comes out unchanged. */
  lemma {:induction false} NestedOrder<Req(!new), Resp(!new)>(
    behaviors: seq<PipelineBehavior<Req, Resp>>, handler: RequestHandler<Req, Resp>,
    request: Req, token: CancellationToken)
    requires forall i :: 0 <= i < |behaviors| ==> Transparent(behaviors[i], request, token)
    ensures Invoke(Compose(behaviors, handler), request, token)
         == Execution(handler.handle(request, token),
                      Befores(behaviors, request, token) + [Handled(handler.name, request, token)]
                      + (if handler.handle(request, token).Ok? then Afters<Req, Resp>(behaviors) else []))
  {
    if |behaviors| > 0 {
      var b := behaviors[0];
      var rest := behaviors[1..];
      assert Transparent(b, request, token);
      NestedOrder(rest, handler, request, token);
      var mid := [Handled(handler.name, request, token)];
      var inner := Befores(rest, request, token) + mid;
      if handler.handle(request, token).Ok? {
        assert [Before(b.name, request, token)] + (inner + Afters<Req, Resp>(rest)) + [After(b.name)]
            == ([Before(b.name, request, token)] + Befores(rest, request, token)) + mid
               + (Afters<Req, Resp>(rest) + [After(b.name)]);
      } else {
        assert [Before(b.name, request, token)] + (inner + [])
            == ([Before(b.name, request, token)] + Befores(rest, request, token)) + mid + [];
      }
    }
  }

  // ---------------------------------------------------------------------
  // Publish
  // ---------------------------------------------------------------------

  /** One call of the notification publisher. */
  datatype PublisherCall<!N> =
    PublisherCall(handlers: seq<NotificationHandler<N>>, notification: N, token: CancellationToken)

  /** What `Publish` did: its outcome, the calls it made to the publisher, and
      the handlers the publisher ran, in order. */
  datatype Delivery<!N> = Delivery(outcome: Outcome<()>, publisherCalls: seq<PublisherCall<N>>, invoked: seq<string>)

  /** `GetServices<INotificationHandler<TNotification>>()`: every handler
      registered for the notification type, in registration order. */
  function HandlersFor<Req, Resp, N>(m: Mediator<Req, Resp, N>, notificationType: TypeTag): seq<NotificationHandler<N>>
  {
    if notificationType in m.notificationHandlers then m.notificationHandlers[notificationType] else []
  }

  /** Enumerating `handlers.Select(h => h.Handle(notification, token))`: the
      tasks the handlers returned, in order, up to the first handler that throws
      instead of returning a task; no later handler is called. */
  function StartAll<N>(handlers: seq<NotificationHandler<N>>, n: N, token: CancellationToken)
    : (r: (seq<Outcome<()>>, Option<Exception>))
    ensures |r.0| <= |handlers|
    ensures forall j :: 0 <= j < |r.0| ==> handlers[j].handle(n, token) == Returns(r.0[j])
    ensures r.1.None? <==> |r.0| == |handlers|
    ensures r.1.Some? ==> handlers[|r.0|].handle(n, token) == Throws(r.1.value)
  {
    if |handlers| == 0 then ([], None)
    else match handlers[0].handle(n, token)
      case Throws(x) => ([], Some(x))
      case Returns(task) =>
        var rest := StartAll(handlers[1..], n, token);
        assert forall j :: 1 <= j < |handlers| ==> handlers[j] == handlers[1..][j - 1];
        ([task] + rest.0, rest.1)
  }

  /** Awaiting `Task.WhenAll` over finished tasks: it faults if any task
      faulted, and `await` rethrows the first exception in task order. */
  function FirstFault(tasks: seq<Outcome<()>>): (r: Outcome<()>)
    ensures r.Ok? <==> forall j :: 0 <= j < |tasks| ==> tasks[j].Ok?
    ensures r.Thrown? ==> exists k :: 0 <= k < |tasks| && tasks[k] == r && forall j :: 0 <= j < k ==> tasks[j].Ok?
  {
    if |tasks| == 0 then Ok(())
    else if tasks[0].Thrown? then tasks[0]
    else
      assert forall j :: 1 <= j < |tasks| ==> tasks[j] == tasks[1..][j - 1];
      FirstFault(tasks[1..])
  }

  /** ParallelNotificationPublisher.Publish: `Task.WhenAll` enumerates the
      handlers' tasks, then waits for them. A handler that throws while being
      called ends the enumeration, and its exception is the one that surfaces;
      otherwise every handler has run and the first fault surfaces. */
  function RunWhenAll<N>(handlers: seq<NotificationHandler<N>>, n: N, token: CancellationToken)
    : (r: (Outcome<()>, seq<string>))
  {
    var started := StartAll(handlers, n, token);
    match started.1
    case Some(x) => (Thrown(x), HandlerNames(handlers[..|started.0| + 1]))
    case None => (FirstFault(started.0), HandlerNames(handlers))
  }

  /** Mediator.Publish: with no handler for the notification type it returns at
      once and never calls the publisher; otherwise it calls the publisher
      exactly once with every resolved handler, the notification and the token. */
  function Publish<Req, Resp, N>(m: Mediator<Req, Resp, N>, notificationType: TypeTag, notification: N, token: CancellationToken)
    : (d: Delivery<N>)
    ensures |HandlersFor(m, notificationType)| == 0 <==> d.publisherCalls == []
    ensures |HandlersFor(m, notificationType)| == 0 ==> d.outcome == Ok(()) && d.invoked == []
    ensures |HandlersFor(m, notificationType)| > 0 ==>
      d.publisherCalls == [PublisherCall(HandlersFor(m, notificationType), notification, token)]
    ensures |HandlersFor(m, notificationType)| > 0 ==>
      (d.outcome, d.invoked) == RunWhenAll(HandlersFor(m, notificationType), notification, token)
  {
    var handlers := HandlersFor(m, notificationType);
    if |handlers| == 0 then Delivery(Ok(()), [], [])
    else
      var run := RunWhenAll(handlers, notification, token);
      Delivery(run.0, [PublisherCall(handlers, notification, token)], run.1)
  }

  function HandlerNames<N>(handlers: seq<NotificationHandler<N>>): seq<string>
  {
    if |handlers| == 0 then [] else [handlers[0].name] + HandlerNames(handlers[1..])
  }

  /** The position of the first handler that throws while being called, or
      |handlers| if every one returns a task. */
  function FirstEager<N>(handlers: seq<NotificationHandler<N>>, n: N, token: CancellationToken): (k: nat)
    ensures k <= |handlers|
    ensures forall j :: 0 <= j < k ==> handlers[j].handle(n, token).Returns?
    ensures k < |handlers| ==> handlers[k].handle(n, token).Throws?
  {
    if |handlers| == 0 then 0
    else if handlers[0].handle(n, token).Throws? then 0
    else 1 + FirstEager(handlers[1..], n, token)
  }

  /** The position of the first handler that fails in either way, or
      |handlers| if every one returns a task that completes. */
  function FirstFailure<N>(handlers: seq<NotificationHandler<N>>, n: N, token: CancellationToken): (k: nat)
    ensures k <= |handlers|
    ensures forall j :: 0 <= j < k ==> handlers[j].handle(n, token).Completes()
    ensures k < |handlers| ==> !handlers[k].handle(n, token).Completes()
  {
    if |handlers| == 0 then 0
    else if !handlers[0].handle(n, token).Completes() then 0
    else 1 + FirstFailure(handlers[1..], n, token)
  }

  /** What the WhenAll publisher does, for every list of handlers: the handlers
      up to and including the first that throws while being called are run, in
      order, and that exception surfaces even when an earlier task faulted.
      Without such a handler every handler runs, and the first failure in
      handler order is the exception the caller sees. */
  lemma WhenAllRun<N>(handlers: seq<NotificationHandler<N>>, n: N, token: CancellationToken)
    ensures var r := RunWhenAll(handlers, n, token);
      var e := FirstEager(handlers, n, token);
      var k := FirstFailure(handlers, n, token);
      && r.1 == HandlerNames(handlers[..if e < |handlers| then e + 1 else e])
      && r.0 == (if e < |handlers| then Thrown(handlers[e].handle(n, token).exception)
                 else if k < |handlers| then handlers[k].handle(n, token).task
                 else Ok(()))
  {
    var started := StartAll(handlers, n, token);
    var e := FirstEager(handlers, n, token);
    var k := FirstFailure(handlers, n, token);
    StartAllStopsAtEager(handlers, n, token);
    if e == |handlers| {
      assert handlers[..e] == handlers;
      if k < |handlers| {
        assert handlers[k].handle(n, token) == Returns(started.0[k]);
        FirstFaultAt(started.0, k);
      }
    }
  }

  /** The tasks started are exactly those of the handlers before the first
      that throws while being called. */
  lemma StartAllStopsAtEager<N>(handlers: seq<NotificationHandler<N>>, n: N, token: CancellationToken)
    ensures |StartAll(handlers, n, token).0| == FirstEager(handlers, n, token)
  {
  }

  /** The fault `await` rethrows is the task at the first faulted position. */
  lemma FirstFaultAt(tasks: seq<Outcome<()>>, k: nat)
    requires k < |tasks| && tasks[k].Thrown?
    requires forall j :: 0 <= j < k ==> tasks[j].Ok?
    ensures FirstFault(tasks) == tasks[k]
  {
    var r := FirstFault(tasks);
    var i :| 0 <= i < |tasks| && tasks[i] == r && forall j :: 0 <= j < i ==> tasks[j].Ok?;
  }

  // ---------------------------------------------------------------------
  // The scenarios of the mediator's unit tests
  // ---------------------------------------------------------------------

  /** TestRequestHandler: answers "Handled: " followed by the request's data. */
  function TestHandler(): RequestHandler<string, string>
  {
    RequestHandler("TestRequestHandler", (data: string, t: CancellationToken) => Ok("Handled: " + data))
  }

  /** TestPipelineBehavior: records its name before and after `next`, passes the response through. */
  function TestBehavior(name: string): PipelineBehavior<string, string>
  {
    PipelineBehavior(name, (data: string, t: CancellationToken) => Proceed, (data: string, o: Outcome<string>) => o)
  }

  function TestMediator(behaviors: seq<PipelineBehavior<string, string>>, handlers: seq<NotificationHandler<string>>)
    : Mediator<string, string, string>
  {
    Mediator((data: string) => "TestRequest",
             map[("TestRequest", "TestResponse") := TestHandler()],
             map[("TestRequest", "TestResponse") := behaviors],
             map["TestNotification" := handlers])
  }

  /** With no behavior the handler's response comes back as it is. */
  lemma SendWithoutBehaviorsScenario(token: CancellationToken)
    ensures Dispatch(TestMediator([], []), "Test Data", "TestResponse", token)
         == Execution(Ok("Handled: Test Data"), [Handled("TestRequestHandler", "Test Data", token)])
  {
    var m0 := TestMediator([], []);
    assert "Handled: " + "Test Data" == "Handled: Test Data";
    assert BehaviorsFor(m0, ("TestRequest", "TestResponse")) == [];
    assert Compose(BehaviorsFor(m0, ("TestRequest", "TestResponse")), TestHandler()) == Terminal(TestHandler());
  }

  /** With two behaviors they run as Before Behavior1, Before Behavior2,
      After Behavior2, After Behavior1 around the handler, and the response
      is still the handler's. */
  lemma SendWithBehaviorsScenario(token: CancellationToken)
    ensures Dispatch(TestMediator([TestBehavior("Behavior1"), TestBehavior("Behavior2")], []), "Test Data", "TestResponse", token)
         == Execution(Ok("Handled: Test Data"),
                      [Before("Behavior1", "Test Data", token), Before("Behavior2", "Test Data", token),
                       Handled("TestRequestHandler", "Test Data", token),
                       After("Behavior2"), After("Behavior1")])
  {
    assert "Handled: " + "Test Data" == "Handled: Test Data";
    var bs := [TestBehavior("Behavior1"), TestBehavior("Behavior2")];
    var key := ("TestRequest", "TestResponse");
    assert HandlerKey(TestMediator(bs, []), "Test Data", "TestResponse") == key;
    assert BehaviorsFor(TestMediator(bs, []), key) == bs;
    assert forall i :: 0 <= i < |bs| ==> Transparent(bs[i], "Test Data", token);
    NestedOrder(bs, TestHandler(), "Test Data", token);
    assert bs[1..][1..] == [];
    assert bs[0].name == "Behavior1" && bs[1..][0].name == "Behavior2";
    assert Befores(bs[1..], "Test Data", token) == [Before("Behavior2", "Test Data", token)];
    assert Afters<string, string>(bs[1..]) == [After("Behavior2")];
    assert Befores(bs, "Test Data", token) == [Before("Behavior1", "Test Data", token), Before("Behavior2", "Test Data", token)];
    assert Afters<string, string>(bs) == [After("Behavior2"), After("Behavior1")];
  }

  /** A request type nobody registered a handler for fails in the lookup, and nothing runs. */
  lemma SendUnregisteredScenario(token: CancellationToken)
    ensures Dispatch(TestMediator([TestBehavior("Behavior1")], []), "Test Data", "OtherResponse", token)
         == Execution(Thrown(NoServiceRegistered("TestRequest", "OtherResponse")), [])
  {
  }
}
