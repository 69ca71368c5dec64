# DataCapture core, modelled in Dafny

This project models the request-handling and persistence core of DataCapture,
a layered .NET application. The core has these parts:

- **The in-process mediator.** `Send` resolves the one handler registered for a
  request's runtime type and response type. It wraps the registered pipeline
  behaviors around that handler, the first-registered outermost, and runs the
  chain. `Publish` resolves every handler of a notification type and, unless
  there are none, hands them to the registered notification publisher, which
  starts them all and waits for them with `Task.WhenAll`.
- **Two pipeline behaviors.** The caching behavior answers from a key/value
  store or stores what the rest of the pipeline answered. The timing behavior
  counts requests in a shared 32-bit counter, times them after a warm-up of
  three, and logs the slow ones.
- **Paging.** `PagedList` computes the page arithmetic and `CreateAsync` takes
  one page of a query. The generic and sample paged queries supply cache keys,
  tags, filtering, sorting and includes.
- **The `Result` type**, with its factories and joined error message.
- **Domain events.** Entities keep a list of domain events; an event carries a
  published flag; the publisher wraps each event in a notification, publishes
  it through the mediator under its runtime type, then marks it published.
- **The save-time bookkeeping of the database context.** Audit stamps are
  applied, deletions of soft-deletable entities become updates, and domain
  events are collected and cleared before the save and published after it.
  A query filter hides soft-deleted rows.
- **The session-information service**: an initialisation from the
  authentication state that runs once for calls that do not overlap, and the
  client address taken from `X-Forwarded-For`.
- **The object mapper.** A configured mapper applies registered actions in
  order; a direct mapper copies same-name properties, and its build fails when
  a pair of same-name properties has no conversion between their types.

Each source file is one Dafny module; the file names follow the source's class names.

- **Where the source mutates state, the model does too.**
  - Classes with `modifies` clauses model `BaseEntity`, `DomainEvent`, the
    cache service, the request counter, the tracked entries of the change
    tracker, the session service and the mapping configuration.
  - Methods with loops and invariants model the source's loops: the
    behavior-wrapping loop of `Send`, the two passes of `SaveChangesAsync`,
    publishing domain events one at a time, and building the direct mapper.
  - Each such method is specified by a function, and lemmas state the
    properties of that function.
- **Pure code stays pure**: datatypes, functions and lemmas.

Error paths are values: `Outcome<T>` is `Ok(value)` or `Thrown(exception)`, and
`Option<T>` stands for a nullable value. The following are parameters of the
operations that use them:

- the clock;
- the elapsed time of a request;
- the current user;
- the outcome of the base EF Core save;
- the outcome of the `next` delegate of a behavior;
- the .NET type conversions the mapper calls.

## Model

| member | source | states |
|---|---|---|
| Mediator.Send | Infrastructure/Mediator/Mediator.cs:34-59 | The loop over the reversed behaviors, rewrapping the delegate, yields exactly the run `Dispatch` describes: lookup by (runtime type, response type), then the composed chain |
| Mediator.Invoke | Infrastructure/Mediator/Mediator.cs:46-58 | Running a delegate: the outermost stage is entered first, and the handler runs at most once. A behavior either answers or throws on its own, or proceeds to `next` and maps what `next` gave (a response or an exception). StagesReached, ShortCircuit, SameRequestEverywhere and NestedOrder state the rest |
| Mediator.Dispatch | Infrastructure/Mediator/Mediator.cs:37-58 | What `Send` does, as a function. Nothing runs iff no handler is registered for (runtime type, response type), and then the lookup's exception surfaces. Otherwise the behaviors, first-registered outermost, run around the handler, which runs at most once |
| Mediator.Reversed | Infrastructure/Mediator/Mediator.cs:50 | `Reverse()` gives the same length, with element i taken from position n-1-i |
| Mediator.WrapEachReversed | Infrastructure/Mediator/Mediator.cs:50-55 | After wrapping the last k behaviors in reverse, finishing the loop gives the composition with the first-registered behavior outermost |
| Mediator.ReversedLoopIsCompose | Infrastructure/Mediator/Mediator.cs:50-55 | The source's loop over the reversed list, starting from the handler, equals the recursive composition |
| Mediator.TraceSplit | Infrastructure/Mediator/Mediator.cs:46-58 | The stages entered and the handler runs of two consecutive trace parts add up |
| Mediator.Reached | Infrastructure/Mediator/Mediator.cs:52-54 | The number of behaviors a run enters never exceeds the number registered |
| Mediator.StagesReached | Infrastructure/Mediator/Mediator.cs:52-58 | A run enters exactly the first `Reached` behaviors, outermost first. The handler runs once if every behavior proceeds and never otherwise |
| Mediator.ReachedNamesStep | Infrastructure/Mediator/Mediator.cs:52-54 | When the outermost behavior proceeds, the behaviors entered are it followed by those its inner chain enters |
| Mediator.AllProceedStep | Infrastructure/Mediator/Mediator.cs:52-54 | Every behavior proceeds iff the outermost one does and every inner one does |
| Mediator.ShortCircuit | Infrastructure/Mediator/Mediator.cs:52-54 | A behavior that returns or throws without calling `next` determines the outcome. The handler and every inner behavior never run |
| Mediator.ReachedAtShortCircuit | Infrastructure/Mediator/Mediator.cs:52-54 | If behavior k is the first that does not proceed, exactly k+1 behaviors are entered and not all proceed |
| Mediator.SameRequestEverywhere | Infrastructure/Mediator/Mediator.cs:46-54 | Every behavior and the handler see the very request and cancellation token `Send` was given |
| Mediator.NestedOrder | Infrastructure/Mediator/Mediator.cs:48-58 | With pass-through behaviors (they proceed and return what `next` gave), the trace is every Before (outermost first), the handler, then every After (innermost first), and the handler's response or exception comes back unchanged |
| Mediator.Publish | Infrastructure/Mediator/Mediator.cs:69-80 | No registered handler means no publisher call and a successful return. Otherwise the publisher is called exactly once, with all the handlers, the notification and the token, and the outcome and the handlers run are those of RunWhenAll over those handlers |
| Mediator.HandlersFor | Infrastructure/Mediator/Mediator.cs:73 | `GetServices`: the handlers registered for the notification type, in registration order, or none |
| Mediator.BehaviorsFor | Infrastructure/Mediator/Mediator.cs:41-43 | The behaviors registered for (runtime request type, response type), or an empty list when none are |
| Mediator.Compose | Infrastructure/Mediator/Mediator.cs:50-55 | The pipeline with the first-registered behavior outermost and the handler innermost; ReversedLoopIsCompose proves the source's loop builds it |
| Mediator.StartAll | Infrastructure/Mediator/ParallelNotificationPublisher.cs:28-31 | Enumerating the lazy `Select`: the tasks returned by the handlers in order, up to the first handler that throws instead of returning a task, whose exception is kept and after which no handler is called |
| Mediator.FirstFault | Infrastructure/Mediator/ParallelNotificationPublisher.cs:31 | Awaiting `Task.WhenAll`: it completes iff every task completed; otherwise the exception of the first faulted task in order is rethrown |
| Mediator.RunWhenAll | Infrastructure/Mediator/ParallelNotificationPublisher.cs:21-32 | The publisher's run: StartAll, then either the exception that ended the enumeration or FirstFault of the started tasks; its closed form is WhenAllRun |
| Mediator.FirstEager | Infrastructure/Mediator/ParallelNotificationPublisher.cs:28 | The position of the first handler that throws while being called: every handler before it returned a task |
| Mediator.FirstFailure | Infrastructure/Mediator/ParallelNotificationPublisher.cs:28-31 | The position of the first handler that fails in either way: every handler before it returned a task that completed |
| Mediator.WhenAllRun | Infrastructure/Mediator/ParallelNotificationPublisher.cs:21-32 | For every handler list: the handlers up to and including the first that throws while being called run, in order, and that exception surfaces even if an earlier task faulted. Without one, every handler runs once, in order, and the first failure in handler order surfaces |
| Mediator.SendWithoutBehaviorsScenario | Infrastructure.Tests/Mediator/MediatorTests.cs:13-31 | With no behavior, "Test Data" is answered with "Handled: Test Data" and only the handler runs |
| Mediator.SendWithBehaviorsScenario | Infrastructure.Tests/Mediator/MediatorTests.cs:34-69 | With Behavior1 and Behavior2 the trace is Before 1, Before 2, handler, After 2, After 1, and the handler's response is returned |
| Mediator.SendUnregisteredScenario | Infrastructure/Mediator/Mediator.cs:37-38 | A request type with no handler fails in the lookup before any behavior runs |
| CacheBehavior.HandleSpec | Application/Pipeline/CacheBehavior.cs:10-29 | The key is looked up first. A non-null value is returned without calling `next` or writing. On a miss, `next`'s response is returned and, if it succeeded, stored under the key for 10 minutes. A failing `next` leaves the store unchanged |
| CacheBehavior.CacheService.constructor | Application/Services/Cache/CacheService.cs:5 | A new service over an empty cache has made no calls |
| CacheBehavior.CacheService.GetAsync | Application/Services/Cache/CacheService.cs:7-10 | Returns the stored value for the key, or null when absent, and logs one Get |
| CacheBehavior.CacheService.SetAsync | Application/Services/Cache/CacheService.cs:12-16 | Stores the value under the key with the lifetime and logs one Set; other keys are untouched |
| CacheBehavior.CacheBehavior.constructor | Application/Pipeline/CacheBehavior.cs:7 | The behavior keeps the cache service it was given |
| CacheBehavior.CacheBehavior.Handle | Application/Pipeline/CacheBehavior.cs:10-29 | The response, whether `next` ran, the new store and the calls made are exactly those of `HandleSpec` on the old store |
| CacheBehavior.MissThenHit | Application/Pipeline/CacheBehavior.cs:16-26 | After a miss stores a value, an immediately repeated request is a hit that returns it without calling `next` |
| CacheBehavior.NullIsMiss | Application/Pipeline/CacheBehavior.cs:17 | A stored null behaves like an absent key |
| CacheBehavior.HitSkipsHandler | Application/Pipeline/CacheBehavior.cs:17-20 | As the outermost behavior of the mediator pipeline, a hit answers with the cached value and no inner behavior or handler runs |
| CacheBehavior.AsPipelineBehavior | Application/Pipeline/CacheBehavior.cs:10-29 | The behavior as a pipeline stage over a snapshot of the store: a hit answers without `next`, a miss proceeds and passes on what `next` gave |
| CacheBehavior.CacheTestScenarios | Infrastructure.Tests/Mediator/CacheBehaviorTests.cs:19-70 | A cached "cached-value" is returned without calling the handler. On a miss, "handler-value" is returned and stored under "test-key" for 10 minutes |
| PerformanceBehavior.RequestCounter.constructor | Application/Pipeline/PerformanceBehavior.cs:50-53 | The counter starts at zero |
| PerformanceBehavior.RequestCounter.Increment | Application/Pipeline/PerformanceBehavior.cs:27 | The counter grows by one in wrapping 32-bit arithmetic, and the new value is returned |
| PerformanceBehavior.HandleSpec | Application/Pipeline/PerformanceBehavior.cs:22-46 | `next`'s outcome is returned unchanged. The counter grows by one, wrapping at int.MaxValue. Timing happens iff the new count exceeds 3. A warning is logged iff the call was timed, succeeded and took more than 500 ms, and it carries the request type's name, the time, the request itself and the user |
| PerformanceBehavior.PerformanceBehavior.constructor | Application/Pipeline/PerformanceBehavior.cs:14-20 | The behavior shares the counter it was given |
| PerformanceBehavior.PerformanceBehavior.Handle | Application/Pipeline/PerformanceBehavior.cs:22-46 | The response, the new counter value and the warning are those of `HandleSpec` on the old counter |
| PerformanceBehavior.RunWarnings | Application/Pipeline/PerformanceBehavior.cs:27-43 | A run of calls yields one warn/no-warn answer per call |
| PerformanceBehavior.RunWarningsRule | Application/Pipeline/PerformanceBehavior.cs:27-43 | Below int.MaxValue, call i of a run warns iff start+i+1 exceeds 3 and it took more than 500 ms |
| PerformanceBehavior.WarmUpNeverLogs | Application/Pipeline/PerformanceBehavior.cs:28 | From a fresh counter, the first three calls never warn; from then on, a call warns iff it exceeds 500 ms |
| PerformanceBehavior.CounterWrap | Application/Pipeline/PerformanceBehavior.cs:27 | The counter strictly grows below int.MaxValue and wraps to int.MinValue from it |
| PagedList.Saturate32 | Application/Models/PagedList.cs:18 | The `(int)` cast keeps every value in int's range |
| PagedList.CeilDivBounds | Application/Models/PagedList.cs:18 | The ceiling is the least number of whole steps that covers the count |
| PagedList.NewPagedList | Application/Models/PagedList.cs:15-22 | Items, count, page number and page size are stored as given. HasPreviousPage iff page > 1; HasNextPage iff page < TotalPages |
| PagedList.TotalPages | Application/Models/PagedList.cs:18 | `(int)Math.Ceiling(count / (double)pageSize)`: for a page size of zero or more there are pages exactly when there are items (a zero page size saturates, NaN giving 0). TotalPagesIsCeiling proves it is the exact ceiling for a positive page size |
| PagedList.TotalPagesIsCeiling | Application/Models/PagedList.cs:18 | For a positive page size, TotalPages is the exact ceiling of count / pageSize |
| PagedList.HasNextPageIffMoreItems | Application/Models/PagedList.cs:13-18 | For a positive page size, a next page exists iff page * pageSize < count. With a count of 0 there is none for any page from 0 up |
| PagedList.CeilingOrder | Application/Models/PagedList.cs:13 | Below the ceiling t of count/step, page p < t iff p * step < count |
| PagedList.Skip | Application/Models/PagedList.cs:34 | LINQ Skip: a non-positive count skips nothing; a count beyond the length leaves nothing |
| PagedList.Take | Application/Models/PagedList.cs:35 | LINQ-to-objects Take: a non-positive count takes nothing; otherwise a prefix of at most that length |
| PagedList.Limit | Application/Models/PagedList.cs:35 | SQLite's LIMIT, the translation of Take: a negative count takes every row, zero takes none, otherwise a prefix of at most that length |
| PagedList.TakeOn | Application/Models/PagedList.cs:35 | The two providers agree for a count of zero or more; for a negative count the in-memory query takes nothing and SQLite takes everything |
| PagedList.Offset | Application/Models/PagedList.cs:34 | `(pageNumber - 1) * pageSize` in unchecked int arithmetic, wrapping around on overflow; PageIsSlice uses that it is the exact product when that fits |
| PagedList.PagedList.HasPreviousPage | Application/Models/PagedList.cs:12 | A page before exists iff the page number exceeds 1 (stated by NewPagedList) |
| PagedList.PagedList.HasNextPage | Application/Models/PagedList.cs:13 | A page after exists iff the page number is below TotalPages; HasNextPageIffMoreItems relates it to the item count |
| PagedList.MapAll | Application/Models/PagedList.cs:38 | `Select` maps element by element, keeping length and order |
| PagedList.CreateAsync | Application/Models/PagedList.cs:24-41 | Overflow iff the source has more than int.MaxValue rows. Otherwise TotalCount is the number of rows, whatever the page; page number and size are as requested; TotalPages is derived from the count |
| PagedList.PageSizeBound | Application/Models/PagedList.cs:33-36 | A page holds at most pageSize items for a page size of 0 or more. For a negative page size it is empty in memory, and on SQLite it holds every row after the offset |
| PagedList.PageIsSlice | Application/Models/PagedList.cs:33-38 | The items are the mapped rows at positions [(p-1)s, (p-1)s+s), clipped to the source, in source order |
| PagedList.PagingExample | Application/Models/PagedList.cs:24-41 | Ten rows, three per page: page 4 holds the last row, TotalPages is 4, there is a previous page and no next one |
| PagedEntitiesQuery.NewQuery | Application/Features/Generic/Queries/GetPagedEntitiesQuery.cs:14-17 | A fresh query asks for page 1 of 10, unsorted, ascending |
| PagedEntitiesQuery.Tags | Application/Features/Generic/Queries/GetPagedEntitiesQuery.cs:21 | The tags are exactly the entity type name |
| PagedEntitiesQuery.CacheKey | Application/Features/Generic/Queries/GetPagedEntitiesQuery.cs:20 | The interpolated key `GetPaged_{entity}_{page}_{size}_{sortBy}_{descending}`: it starts with `GetPaged_`, the entity name and `_`, and ends with the descending flag. CacheKeySeparatesPages and CacheKeyFields state what it determines |
| PagedEntitiesQuery.DefaultCacheKey | Application/Features/Generic/Queries/GetPagedEntitiesQuery.cs:20 | A fresh SampleEntity query has the key "GetPaged_SampleEntity_1_10__False" |
| PagedEntitiesQuery.DefaultPageTexts | Application/Features/Generic/Queries/GetPagedEntitiesQuery.cs:14-15 | The default page number and size render as "1" and "10" |
| PagedEntitiesQuery.IntFieldDetermines | Application/Features/Generic/Queries/GetPagedEntitiesQuery.cs:20 | An integer rendered in the key before an underscore determines the integer and the rest of the key |
| PagedEntitiesQuery.CacheKeySeparatesPages | Application/Features/Generic/Queries/GetPagedEntitiesQuery.cs:20 | For one entity type, equal keys (even with a suffix appended) mean the same page number and page size |
| PagedEntitiesQuery.CacheKeyFields | Application/Features/Generic/Queries/GetPagedEntitiesQuery.cs:20 | The key reads as prefix, page number, underscore, page size, underscore, rest |
| PagedEntitiesQuery.NullAndEmptySortByCollide | Application/Features/Generic/Queries/GetPagedEntitiesQuery.cs:20 | A null SortBy and an empty one give the same key |
| PagedEntitiesQuery.ApplyFilters | Application/Features/Generic/Queries/GetPagedEntitiesQuery.cs:70-77 | The base filter leaves the rows unchanged |
| PagedEntitiesQuery.ApplyIncludes | Application/Features/Generic/Queries/GetPagedEntitiesQuery.cs:109-116 | The base includes leave the rows unchanged |
| PagedEntitiesQuery.Insert | Application/Features/Generic/Queries/GetPagedEntitiesQuery.cs:94-106 | Inserting into an ordered sequence keeps it ordered and adds exactly that row |
| PagedEntitiesQuery.SortByKey | Application/Features/Generic/Queries/GetPagedEntitiesQuery.cs:94-106 | OrderBy/OrderByDescending yields a permutation of the rows, ordered by key in the requested direction |
| PagedEntitiesQuery.SortedAllPairs | Application/Features/Generic/Queries/GetPagedEntitiesQuery.cs:94-106 | In an ordered result every earlier row may precede every later one |
| PagedEntitiesQuery.ApplySorting | Application/Features/Generic/Queries/GetPagedEntitiesQuery.cs:79-107 | Sorting keeps the same rows (a permutation). ApplySortingSpec adds the rest: unsorted for a null, empty or unknown SortBy, otherwise ordered by that property, descending when asked |
| PagedEntitiesQuery.ApplySortingSpec | Application/Features/Generic/Queries/GetPagedEntitiesQuery.cs:79-107 | Sorting keeps exactly the same rows. It leaves them unchanged when SortBy is null, empty or unknown. Otherwise the rows are ordered by that property, descending iff SortDescending |
| PagedSamplesQuery.NewSamplesQuery | Application/Features/Sample/Queries/GetPagedSamplesQuery.cs:12 | A fresh samples query has the generic defaults for SampleEntity and no name filter |
| PagedSamplesQuery.CacheKey | Application/Features/Sample/Queries/GetPagedSamplesQuery.cs:15 | A plain query keeps the generic key. A samples query appends `_` and the name filter (nothing for null) to it. SamplesKeyDeterminesFields states what the key determines |
| PagedSamplesQuery.NullAndEmptyFilterCollide | Application/Features/Sample/Queries/GetPagedSamplesQuery.cs:15 | A null name filter and an empty one give the same key |
| PagedSamplesQuery.SamplesKeyDeterminesFields | Application/Features/Sample/Queries/GetPagedSamplesQuery.cs:15 | Equal samples keys mean the same page number and page size. Over the same base query they also mean the same filter text |
| PagedSamplesQuery.DefaultSamplesKey | Application/Features/Sample/Queries/GetPagedSamplesQuery.cs:15 | A fresh samples query has the key "GetPaged_SampleEntity_1_10__False_" |
| PagedSamplesQuery.Where | Application/Features/Sample/Queries/GetPagedSamplesQuery.cs:37 | `Where` adds nothing, keeps exactly the rows satisfying the condition, and never grows the multiset |
| PagedSamplesQuery.WhereConcat | Application/Features/Sample/Queries/GetPagedSamplesQuery.cs:37 | Filtering keeps relative order: filtering two runs concatenates their filtered runs |
| PagedSamplesQuery.ApplyFilters | Application/Features/Sample/Queries/GetPagedSamplesQuery.cs:27-41 | Filtering never adds a row. ApplyFiltersSpec adds the rest: the name test applies only to a samples query with a non-empty filter, keeps exactly the matching rows and keeps their order |
| PagedSamplesQuery.ApplyFiltersSpec | Application/Features/Sample/Queries/GetPagedSamplesQuery.cs:27-41 | With no usable filter the rows are unchanged. Otherwise exactly the rows whose Name is non-null and contains the filter are kept, in order |
| PagedSamplesQuery.PlainRequestUnfiltered | Application/Features/Sample/Queries/GetPagedSamplesQuery.cs:35 | A request that is not a samples query is never name-filtered |
| PagedSamplesQuery.ApplyIncludes | Application/Features/Sample/Queries/GetPagedSamplesQuery.cs:43-55 | The samples includes leave the rows unchanged |
| ResultModel.Result.ErrorMessage | Application/Models/Result.cs:27 | The errors joined with ", ": the message is empty iff there are no errors or just one empty error; ErrorMessageLength and SingleErrorMessage state its length and the one-error case |
| ResultModel.Empty | Application/Models/Result.cs:16-19 | The internal constructor gives an unsuccessful result, no errors and an empty message |
| ResultModel.Success | Application/Models/Result.cs:33-34 | Success is successful, with no errors and an empty message |
| ResultModel.Failure | Application/Models/Result.cs:21-36 | Failure is unsuccessful and keeps the errors as given, in order. A null array throws ArgumentNullException from `ToArray` |
| ResultModel.ErrorMessageLength | Application/Models/Result.cs:27 | The message is the errors' total length plus ", " between each two |
| ResultModel.SingleErrorMessage | Application/Models/Result.cs:27 | The message of one error is that error |
| ResultModel.TypedFromDto | Application/Models/Result.cs:41-44 | `new Result<T>(dto)` throws NotImplementedException |
| ResultModel.TypedSuccessAsync | Application/Models/Result.cs:52-53 | Typed success throws NotImplementedException |
| ResultModel.TypedFailure | Application/Models/Result.cs:54-55 | Typed Failure and FailureAsync throw NotImplementedException |
| ResultModel.PrivateConstructor | Application/Models/Result.cs:46-49 | The private constructor always throws |
| ResultModel.TypedFailureOfOne | Application/Models/Result.cs:56 | `Result<T>.Failure(error)` does not throw; it is an unsuccessful plain Result whose one error is also its message |
| BaseEntity.FirstIndex | Domain/Core/BaseEntity.cs:51 | The position of the first occurrence of an event |
| BaseEntity.FirstIndexUnique | Domain/Core/BaseEntity.cs:51 | The first occurrence is the one position holding the event with none before it |
| BaseEntity.RemoveFirst | Domain/Core/BaseEntity.cs:51 | `List.Remove` drops the first occurrence only; an absent event leaves the list unchanged |
| BaseEntity.RemoveFirstCounts | Domain/Core/BaseEntity.cs:49-52 | Removing takes away exactly one copy of a present event and nothing else |
| BaseEntity.AddThenRemove | Domain/Core/BaseEntity.cs:40-52 | Adding an event the list did not hold and then removing it restores the list |
| BaseEntity.AddDuplicateThenRemove | Domain/Core/BaseEntity.cs:40-52 | Adding a duplicate and removing it removes the earlier copy, not the one just added |
| BaseEntity.Entity.constructor | Domain/Core/BaseEntity.cs:16 | A new entity has no domain events |
| BaseEntity.Entity.DomainEvents | Domain/Core/BaseEntity.cs:22 | The read-only view holds exactly the current events, in order |
| BaseEntity.Entity.AddDomainEvent | Domain/Core/BaseEntity.cs:40-43 | Appends the event at the end, duplicates allowed |
| BaseEntity.Entity.RemoveDomainEvent | Domain/Core/BaseEntity.cs:49-52 | Drops the first occurrence of the event, if any |
| BaseEntity.Entity.ClearDomainEvents | Domain/Core/BaseEntity.cs:58-61 | Leaves the list empty |
| DomainEvents.DomainEvent.constructor | Domain/Core/DomainEvent.cs:6-10 | A new event is stamped with the current time and starts unpublished |
| DomainEvents.DomainEvent.MarkAsPublished | Domain/Core/DomainEvent.cs:13-16 | Sets the flag, whatever it was, so marking twice is marking once |
| DomainEvents.NewEvent | Domain/Core/DomainEvent.cs:19-24 | `new Event<T,TEnum>` returns exactly the entity and event type it was given, unpublished |
| DomainEventPublisher.NotificationType | Application/Services/Events/DomainEventPublisher.cs:27 | The runtime type of the notification: `DomainEventNotification<>` closed over the event's type |
| DomainEventPublisher.Deliver | Application/Services/Events/DomainEventPublisher.cs:27-36 | The mediator publish under the notification's runtime type, with the wrapped event and `CancellationToken.None`; Publish and PublishAll are stated through it |
| DomainEventPublisher.CreateNotification | Application/Services/Events/DomainEventPublisher.cs:46-61 | The notification wraps that very event |
| DomainEventPublisher.PublishedCount | Application/Services/Events/DomainEventPublisher.cs:63-69 | The events before it publish successfully and the one at it fails |
| DomainEventPublisher.DeliverEach | Application/Services/Events/DomainEventPublisher.cs:63-69 | One mediator publish per event, in list order |
| DomainEventPublisher.DeliverEachStep | Application/Services/Events/DomainEventPublisher.cs:65-68 | Publishing one more event adds its delivery at the end |
| DomainEventPublisher.PublishedCountAt | Application/Services/Events/DomainEventPublisher.cs:63-69 | PublishedCount is the one position where the successes end |
| DomainEventPublisher.DomainEventPublisher.constructor | Application/Services/Events/DomainEventPublisher.cs:11-14 | The publisher keeps its mediator and has delivered nothing |
| DomainEventPublisher.DomainEventPublisher.Publish | Application/Services/Events/DomainEventPublisher.cs:16-44 | Publishes the wrapped event under its runtime type. The event is marked published iff that publish succeeded, and stays as it was if it failed |
| DomainEventPublisher.DomainEventPublisher.PublishNext | Application/Services/Events/DomainEventPublisher.cs:65-68 | One turn of the loop: the event at that position is published as `Publish(event)` does, and no other event of the list changes its flag |
| DomainEventPublisher.DomainEventPublisher.PublishAll | Application/Services/Events/DomainEventPublisher.cs:63-69 | Events are published one at a time, in order, up to and including the first that fails. Exactly those that succeeded are newly marked, and the first failure surfaces |
| DomainEventPublisher.EachHandledOnce | Infrastructure.Tests/Mediator/MediatorIntegrationTests.cs:103-151 | With one succeeding handler per event type, the list publishes in full and each event is handled exactly once by that handler |
| ApplicationDbContext.Audit | Infrastructure/Persistence/ApplicationDbContext.cs:109-124 | The audit pass never changes the state or the deletion stamps, and changes the creation stamps only of an auditable Added entry and the modification stamps only of an auditable Modified one |
| ApplicationDbContext.SoftDelete | Infrastructure/Persistence/ApplicationDbContext.cs:126-138 | The soft-delete pass never touches the audit stamps, and changes an entry only when it is a soft-deletable Deleted one, which becomes Modified and deleted now |
| ApplicationDbContext.Visible | Infrastructure/Persistence/ApplicationDbContext.cs:77-91 | The query filter: a soft-deletable row is visible iff its Deleted is null; SoftDeleteHides states its effect |
| ApplicationDbContext.Bookkeeping | Infrastructure/Persistence/ApplicationDbContext.cs:109-138 | Auditable Added entries get Created/CreatedBy; auditable Modified entries get LastModified/LastModifiedBy. Soft-deletable Deleted entries become Modified with Deleted/DeletedBy. All stamps use one `now` and one user, and every other field is untouched |
| ApplicationDbContext.SoftDeleteHides | Infrastructure/Persistence/ApplicationDbContext.cs:79-138 | A soft-deleted row becomes Modified, not Deleted, and the query filter hides it. Any other row's visibility is unchanged |
| ApplicationDbContext.AuditBeforeSoftDelete | Infrastructure/Persistence/ApplicationDbContext.cs:109-138 | Because audit runs first, an entity soft-deleted in this save gets no LastModified stamp; in the other order it would |
| ApplicationDbContext.Entry.constructor | Infrastructure/Persistence/ApplicationDbContext.cs:109 | A tracked entry starts in its state with no stamps |
| ApplicationDbContext.StampAudit | Infrastructure/Persistence/ApplicationDbContext.cs:109-124 | Every entry afterwards is the audit rule applied to it before |
| ApplicationDbContext.ApplySoftDelete | Infrastructure/Persistence/ApplicationDbContext.cs:128-138 | Every entry afterwards is the soft-delete rule applied to it before |
| ApplicationDbContext.EntitiesWithEvents | Infrastructure/Persistence/ApplicationDbContext.cs:142-145 | Every selected entity holding events is included, and only selected entities are |
| ApplicationDbContext.AllEvents | Infrastructure/Persistence/ApplicationDbContext.cs:148-150 | Every collected event comes from one of the entities |
| ApplicationDbContext.CollectedCount | Infrastructure/Persistence/ApplicationDbContext.cs:142-150 | Collecting yields exactly as many events as the selected entities hold: none lost, none repeated |
| ApplicationDbContext.AllEventsAppend | Infrastructure/Persistence/ApplicationDbContext.cs:148-150 | Collecting from two runs of entities gives the first run's events, then the second's |
| ApplicationDbContext.ClearAll | Infrastructure/Persistence/ApplicationDbContext.cs:153 | Every collected entity's event list is empty afterwards |
| ApplicationDbContext.CollectDomainEvents | Infrastructure/Persistence/ApplicationDbContext.cs:142-153 | Returns the events in entity order, then list order; each was held by a tracked entity. Selected entities end with no events and others keep theirs |
| ApplicationDbContext.StampEntries | Infrastructure/Persistence/ApplicationDbContext.cs:109-138 | Every entry afterwards is the bookkeeping rule (audit, then soft delete) applied to it before |
| ApplicationDbContext.PrepareSave | Infrastructure/Persistence/ApplicationDbContext.cs:104-153 | Entries are stamped by the bookkeeping rule; the events held before are returned in order and the selected entities' lists are cleared |
| ApplicationDbContext.Accepted | Infrastructure/Persistence/ApplicationDbContext.cs:156 | What the base save's accept step does to one entry: no entry stays Added, Modified or Deleted; an entry is detached iff it was Deleted or already detached; the stamps are kept |
| ApplicationDbContext.AcceptAllChanges | Infrastructure/Persistence/ApplicationDbContext.cs:156 | Every entry afterwards is the accept rule applied to it before |
| ApplicationDbContext.SavedSoftDeleteStaysTracked | Infrastructure/Persistence/ApplicationDbContext.cs:128-156 | After a successful save, a soft-deletable entry that was Deleted is tracked as Unchanged, stamped deleted now and hidden by the query filter; a deleted entry that is not soft-deletable leaves the tracker |
| ApplicationDbContext.PrepareAndAccept | Infrastructure/Persistence/ApplicationDbContext.cs:104-156 | As PrepareSave, and when the base save succeeded every entry is then the accept rule applied to its bookkeeping result |
| ApplicationDbContext.ApplicationDbContext.constructor | Infrastructure/Persistence/ApplicationDbContext.cs:101 | The context keeps the domain-event publisher it was given |
| ApplicationDbContext.ApplicationDbContext.SaveChangesAsync | Infrastructure/Persistence/ApplicationDbContext.cs:101-166 | Stamps, collects and clears events as PrepareSave does. After a successful base save every entry is the accept rule applied to its stamped state (Added and Modified become Unchanged, Deleted is detached); after a failed one it keeps the stamped state. A failed save publishes nothing (events stay cleared) and surfaces its error. After a successful save, events are published in order until one fails; that failure surfaces, else the save's count is returned. The frame lets only the collected events change, so every other event keeps its published flag |
| ApplicationDbContext.ApplicationDbContext.SaveThenPublish | Infrastructure/Persistence/ApplicationDbContext.cs:156-165 | After the base save: nothing is published if it failed. Otherwise the collected events are published in order, and the count or the first publishing failure is returned |
| SessionInfoService.FindFirst | Application/Services/SessionInfoService.cs:39-41 | `FindFirst(type)?.Value`: the value of the first claim whose type equals the given one ignoring case; null iff there is none |
| SessionInfoService.FindAll | Application/Services/SessionInfoService.cs:42 | The values of exactly the claims whose type equals the given one ignoring case |
| SessionInfoService.FindFirstIgnoresCase | Application/Services/SessionInfoService.cs:39-41 | Looking up a claim type spelt in another case finds the same claim |
| SessionInfoService.FindAllAppend | Application/Services/SessionInfoService.cs:42 | Role values come in claim order |
| SessionInfoService.UserIpAddress | Application/Services/SessionInfoService.cs:54-64 | No context gives null. With X-Forwarded-For, the address is exactly Trim of the part of the first value before its first comma, and the remote address is ignored; null only when the header has no values. Otherwise it is the remote address |
| SessionInfoService.TrimmedFieldClean | Application/Services/SessionInfoService.cs:61 | Trimming a field without a comma leaves no comma and no white space at either end |
| SessionInfoService.ForwardedSingleValue | Application/Services/SessionInfoService.cs:59-62 | A first forwarded value without a comma is reported trimmed, whatever the remote address is |
| SessionInfoService.ForwardedClientWins | Application/Services/SessionInfoService.cs:59-62 | The client before the first comma is reported, whatever follows and whatever the remote address is |
| SessionInfoService.Populate | Application/Services/SessionInfoService.cs:33-50 | Start time and address are always set. An authenticated identity gets IsAuthenticated, status "Active", user id, name (falling back to Identity.Name), email and roles from claims. Otherwise "Anonymous", "Guest", and the other fields are left as they were |
| SessionInfoService.PopulateIdempotent | Application/Services/SessionInfoService.cs:33-50 | Populating twice from the same inputs is populating once |
| SessionInfoService.ResetForgetsUser | Application/Services/SessionInfoService.cs:45-50 | An anonymous session on a fresh SessionInfo shows no user id, email or roles |
| SessionInfoService.SessionInfo.constructor | Application/Models/SessionInfo.cs:3-13 | A new SessionInfo has every field at its default |
| SessionInfoService.SessionInfoService.constructor | Application/Services/SessionInfoService.cs:11-20 | A new service holds a fresh default SessionInfo and is not populated |
| SessionInfoService.SessionInfoService.InitializeAsync | Application/Services/SessionInfoService.cs:25-52 | When already populated, nothing changes. Otherwise the same SessionInfo is populated in place and the flag is set |
| SessionInfoService.SessionInfoService.Reset | Application/Services/SessionInfoService.cs:66-71 | A fresh default SessionInfo replaces the old one and the flag is cleared |
| SessionInfoService.SessionInfoService.UpdateUserStatus | Application/Services/SessionInfoService.cs:74-78 | Only Status changes |
| SessionInfoService.ResetThenInitialize | Application/Services/SessionInfoService.cs:25-71 | Reset then initialise always runs in full, on a fresh default SessionInfo |
| Mapper.FindProperty | Application/Services/Mapper/Mapper.cs:112-115 | `GetProperty(name)` finds a property of that name iff the type has one |
| Mapper.ApplyAll | Application/Services/Mapper/Mapper.cs:233-242 | Mappings run in order. The run succeeds iff every action succeeds, and properties no action assigns keep their value. Otherwise the first failing action's exception surfaces |
| Mapper.LastMappingWins | Application/Services/Mapper/Mapper.cs:233-242 | A property ends with what the last mapping to it wrote |
| Mapper.NoMappingsGiveDefaults | Application/Services/Mapper/Mapper.cs:42-44 | With nothing registered, the result is the default-constructed target |
| Mapper.NullSourceFails | Application/Services/Mapper/Mapper.cs:221 | A null source fails with a null reference at the first property read |
| Mapper.WritableTarget | Application/Services/Mapper/Mapper.cs:203-208 | A target is accepted only if it is a writable property of the target type |
| Mapper.MappingConfig.constructor | Application/Services/Mapper/Mapper.cs:184 | A new configuration has no mappings |
| Mapper.MappingConfig.Map | Application/Services/Mapper/Mapper.cs:195-227 | A non-writable target throws ArgumentException and registers nothing. Otherwise exactly one action is appended, converting with the converter or with Convert.ChangeType |
| Mapper.MappingConfig.Compile | Application/Services/Mapper/Mapper.cs:233-242 | The compiled mapper holds the registered mappings and the target type |
| Mapper.RunCompiled | Application/Services/Mapper/Mapper.cs:235-241 | The loop over the mappings, from a fresh default target, computes exactly `ApplyAll` |
| Mapper.DirectActions | Application/Services/Mapper/Mapper.cs:108-126 | Every emitted assignment targets a property of the target type |
| Mapper.BuildError | Application/Services/Mapper/Mapper.cs:110-121 | `Expression.Convert` fails, when the tree is built, for a writable target property whose readable same-name source property has another type with no conversion to it |
| Mapper.DirectBuild | Application/Services/Mapper/Mapper.cs:98-137 | The build succeeds iff no target property has a build error, and then yields exactly `DirectActions`. Otherwise it fails with the first build error in property order |
| Mapper.BuildDirectMapper | Application/Services/Mapper/Mapper.cs:98-137 | The loop over the target's properties, stopping at the first impossible conversion, computes exactly `DirectBuild` |
| Mapper.IncompatiblePropertyFailsBuild | Application/Services/Mapper/Mapper.cs:119-121 | One property with no conversion between its source and target types makes the whole direct mapper fail to build |
| Mapper.ApplyAllAppend | Application/Services/Mapper/Mapper.cs:238-239 | Running two lists of actions in turn is running their concatenation |
| Mapper.DirectMapping | Application/Services/Mapper/Mapper.cs:108-126 | A writable property with a readable same-name source property gets that value, converted when the types differ. Every other property keeps its default |
| Mapper.ReadAfterHead | Application/Services/Mapper/Mapper.cs:124-125 | One emitted assignment changes only its own property |
| Mapper.EarlierNamesDiffer | Application/Services/Mapper/Mapper.cs:108-126 | With unique property names, no earlier assignment touches a later property |
| Mapper.MapEach | Application/Services/Mapper/Mapper.cs:80 | `Select` keeps count and order: element i is the mapping of source i. Otherwise the first failing element's exception surfaces |
| Mapper.NullElementWithoutMappings | Application/Services/Mapper/Mapper.cs:80 | Elements are not null-checked: without mappings a null element maps to a default target |
| Mapper.Mapper.constructor | Application/Services/Mapper/Mapper.cs:24-45 | The configured mapper is the compiled configuration, and the direct mapper is the outcome of building it, a failure included |
| Mapper.Mapper.Map | Application/Services/Mapper/Mapper.cs:53-57 | A null source throws ArgumentNullException; otherwise the registered mappings are applied to a default target |
| Mapper.Mapper.MapDirect | Application/Services/Mapper/Mapper.cs:65-69 | A null source throws ArgumentNullException. Otherwise a failed build rethrows its exception, and a built mapper applies the same-name assignments to a default target |
| Mapper.Mapper.MapCollection | Application/Services/Mapper/Mapper.cs:77-81 | A null collection throws ArgumentNullException; otherwise each element is mapped with the configured mapper |
| Mapper.Mapper.MapDirectCollection | Application/Services/Mapper/Mapper.cs:89-93 | A null collection throws ArgumentNullException. Otherwise a failed build rethrows its exception, even for an empty collection, and a built mapper maps each element in order |
| Text.Wrap32 | Application/Pipeline/PerformanceBehavior.cs:27 | Unchecked int arithmetic keeps in-range values and agrees with the exact value modulo 2^32 |
| Text.Join | Application/Models/Result.cs:27 | `string.Join`: the parts with the separator between each two; JoinLength and JoinEmptyIff state its properties |
| Text.IntToString | Application/Features/Generic/Queries/GetPagedEntitiesQuery.cs:20 | An int interpolated into text: a minus sign for a negative value, then its decimal digits; IntToStringRoundTrip proves it loses nothing |
| Text.BoolToString | Application/Features/Generic/Queries/GetPagedEntitiesQuery.cs:20 | A bool interpolated into text: "True" or "False" |
| Text.Contains | Application/Features/Sample/Queries/GetPagedSamplesQuery.cs:37 | Ordinal `string.Contains`: the text occurs at some position of the other |
| Text.Trim | Application/Services/SessionInfoService.cs:61 | Trimming both ends; TrimSpec proves it keeps a contiguous middle part and drops only white space |
| Text.JoinLength | Application/Models/Result.cs:27 | `string.Join` holds every part and one separator between each two |
| Text.JoinEmptyIff | Application/Models/Result.cs:27 | Joining with a non-empty separator is empty iff no parts or one empty part |
| Text.DigitChar | Application/Features/Generic/Queries/GetPagedEntitiesQuery.cs:20 | A digit value renders as a decimal digit |
| Text.DigitValue | Application/Features/Generic/Queries/GetPagedEntitiesQuery.cs:20 | Reading a digit back is the inverse of rendering it |
| Text.NatToString | Application/Features/Generic/Queries/GetPagedEntitiesQuery.cs:20 | A number renders as a non-empty string of digits |
| Text.NatToStringRoundTrip | Application/Features/Generic/Queries/GetPagedEntitiesQuery.cs:20 | Parsing the rendered digits gives the number back |
| Text.IntToStringRoundTrip | Application/Features/Generic/Queries/GetPagedEntitiesQuery.cs:20 | Interpolating an int loses nothing: parsing the text gives it back |
| Text.IntToStringChars | Application/Features/Generic/Queries/GetPagedEntitiesQuery.cs:20 | Integer text holds only digits and a minus sign, so never an underscore |
| Text.EqualsIgnoreCase | Application/Services/SessionInfoService.cs:39-42 | `StringComparison.OrdinalIgnoreCase`: equal length and the same characters once ASCII letters are upper-cased |
| Text.EqualsIgnoreCaseEquivalence | Application/Services/SessionInfoService.cs:39-42 | The comparison is reflexive, symmetric and transitive |
| Text.CaseOnlyDiffers | Application/Services/SessionInfoService.cs:39-42 | Texts that differ only in the case of ASCII letters compare equal |
| Text.TrimStart | Application/Services/SessionInfoService.cs:61 | Drops exactly the leading white space |
| Text.TrimEnd | Application/Services/SessionInfoService.cs:61 | Drops exactly the trailing white space |
| Text.TrimSpec | Application/Services/SessionInfoService.cs:61 | `Trim` keeps a contiguous middle part, drops only white space around it, and leaves no white space at either end |
| Text.TrimKeepsMiddle | Application/Services/SessionInfoService.cs:61 | The trimmed text is a contiguous slice of the input |
| Text.TrimDropsEnds | Application/Services/SessionInfoService.cs:61 | Everything cut from either end is white space |
| Text.TrimLeavesNoEdge | Application/Services/SessionInfoService.cs:61 | The trimmed text neither starts nor ends with white space |
| Text.FirstField | Application/Services/SessionInfoService.cs:61 | `Split(',').FirstOrDefault()` is the longest prefix without a comma, ended by a comma or by the end of the text |
| Text.FirstFieldOf | Application/Services/SessionInfoService.cs:61 | A comma-free text followed by a comma and anything else has that text as its first field |

## Left out

- Mediator.RunWhenAll: Infrastructure/Mediator/ParallelNotificationPublisher.cs lets the handlers' tasks run concurrently. The model calls the handlers in order and finishes each task before the next handler is called. A handler that throws while being called ends the enumeration, as in the source. Interleavings are not modelled. The `AggregateException` that `Task.WhenAll` holds is not modelled: `await` rethrows its first inner exception, which is the one the model gives.
- Mediator.Publish: the only notification publisher registered is ParallelNotificationPublisher (Infrastructure/DependencyInjection.cs:22), and it is the one modelled. The interface's documentation also names a serial strategy (Application/Abstraction/Mediator/INotificationPublisher.cs:5), but no such implementation exists, so none is modelled.
- Mediator.PipelineBehavior: a behavior either answers or throws without calling `next`, or calls `next` exactly once and then maps what `next` gave (a response or an exception) to what it returns. This covers catching and replacing an exception. A behavior that calls `next` more than once, or that chooses whether to call `next` from anything but the request and the token, is not modelled; none of the application's behaviors does either.
- Reflection and `dynamic` are replaced by registries keyed by type tags: `MakeGenericType`, `GetService`, `MethodInfo.Invoke`, `Activator.CreateInstance` and compiled expression trees. The `InvalidOperationException` branches of the domain-event publisher need a missing `IMediator.Publish` or a failed `Activator.CreateInstance`. Neither can happen, so they are not modelled.
- The clock, the stopwatch, logging, the current-user service and the base EF Core `SaveChangesAsync` are parameters of the operations that use them. Database queries (`CountAsync`, `ToListAsync`) are sequences.
- Application/Services/Cache/CacheService.cs is modelled only for the two calls the caching behavior makes. Entry expiry is not modelled. `RemoveAsync` is not modelled because the core never calls it. `ClearAsync` does nothing, so there is nothing to model.
- CacheBehavior.HandleSpec: a missing key reads as null. For a non-nullable value-type response .NET would return `default(T)`, which counts as a hit; every response type in the application is a reference type.
- PerformanceBehavior.HandleSpec: the source reads the shared counter again after incrementing it. Under concurrency another request may have incremented it in between; the model is sequential. `Interlocked` atomicity is not modelled.
- PerformanceBehavior.CounterWrap: the counter is monotone only below int.MaxValue. There `Interlocked.Increment` wraps to int.MinValue, so monotonicity is stated for that range only.
- PagedList.Take and PagedList.PageSizeBound: the application registers SQLite (Infrastructure/DependencyInjection.cs:17), where a negative `LIMIT` means no limit. `CreateAsync` takes the provider as a parameter, and PageSizeBound states both. Which provider an `IQueryable` belongs to is not modelled.
- SessionInfoService.SessionInfoService.InitializeAsync: the source tests the populated flag (Application/Services/SessionInfoService.cs:28), awaits the authentication state (:30) and sets the flag only at the end (:51). Two calls that overlap can both pass the test and both populate. The model runs each call to completion, so it promises once-only initialisation only for calls that do not overlap.
- PagedList.PageIsSlice: stated for a positive page size when `(pageNumber - 1) * pageSize` does not overflow. `CreateAsync` itself models the wrap-around, and the other cases are covered only by PagedList.PageSizeBound.
- PagedList.TotalPages: for a zero page size, `(int)` of an infinity or a NaN is runtime dependent. The model saturates, taking NaN to zero.
- PagedEntitiesQuery.ApplySortingSpec: a property's values are compared through an integer rank supplied as a parameter. The stability of LINQ `OrderBy` is not proved.
- The EF `Handle` of the paged query handlers is not modelled. It calls `Result.OkAsync`/`ErrorAsync`, which Application/Models/Result.cs does not define.
- The EF translation of `Contains` in the samples filter (database collation) is not modelled. The model uses ordinal substring matching.
- ResultModel.Result.ErrorMessage: the array may hold null strings, which `string.Join` renders as empty text. The model has no null elements. A null array passed to `Failure` is modelled: it throws from `ToArray`. A `Result` whose `Errors` an object initializer set to null, the case the `?? []` guard in `ErrorMessage` handles, is not represented.
- `SaveChangesAsync` selects entries with `Entries<IAuditableEntity<object>>()` and `Entries<BaseEntity<object>>()`. Which entries those generic filters match is not modelled: each entry carries flags for the filters that select it. The model does not claim that int-keyed entities such as `SampleEntity` are stamped.
- ApplicationDbContext.ApplicationDbContext.SaveChangesAsync publishes through `DomainEventPublisher.Publish(list)`. The source loops over `Publish(event)` itself, which does the same thing in the same order.
- Domain events carry one payload type per model instance rather than a class hierarchy.
- The `Session` property of the session service is never assigned, so it always reads null; it is not modelled.
- HTTP header names are matched exactly. ASP.NET Core matches them case-insensitively.
- Text.EqualsIgnoreCase folds only the ASCII letters. `OrdinalIgnoreCase` also folds other letters through the invariant culture's upper-case mapping.
- White space for `Trim` is the Latin-1 white space set; the full Unicode set is not modelled.
- Mapper.Mapper.constructor builds the direct mapper at construction. The source builds it lazily, on the first direct call, once per type pair, and shares it across instances. The `Lazy` is thread-safe, so a failed build is cached and rethrown by every later direct call. The model stores the build's outcome, a failure included, without throwing, and every direct call rethrows a stored failure; so nothing observable differs.
- Mapper.MapEach evaluates eagerly. `MapCollection`'s `Select` is lazy, so in the source a failing element surfaces only when it is enumerated.
- Mapper.Mapper.MapDirect and Mapper.Mapper.MapDirectCollection: which .NET type pairs `Expression.Convert` accepts is the parameter `Conversions.coercible`, and a conversion that exists is the parameter `Conversions.convert`, which may throw when the assignment runs. The .NET conversion rules themselves are not modelled.
- Mapper.MappingConfig.Map: the source getter is any compiled lambda, modelled as an arbitrary function. The config action is modelled as a configuration that is already filled in. `Compile` captures the mapping list by reference; the model takes a snapshot.
- JSON value conversions, dependency-injection wiring, the controllers, the design-time factory and the architecture tests are not part of this model.
