# A verified model of the DAL.Core.EF data-access layer

The layer puts three collaborating objects over Entity Framework: a generic
repository (create, read, update, delete for one entity type), a repository
factory that prefers a custom repository registered for a type over a new
generic one, and a unit of work that hands out repositories, adopts them as
their owner, and commits by running an optional action and flushing the
context, returning failure as a value rather than throwing it. Beside these
sit the mapping from the layer's `RecordState` to Entity Framework's
`EntityState` and the context's `ChangeState`, which writes that mapped state
into an entity's change-tracker entry.

The model works against an abstract Entity Framework context
(`EF.EFDbContext`). It holds one sequence of rows per type tag (`Set<T>()`),
where an absent tag stands for a null set. It has a change tracker that maps
each tracked entity to its entry state (`Entry(e).State`), and a ghost log of
every call the layer makes into it (`Find`, `Add`, `ChangeState`,
`SaveChanges`). The unit tests count calls in "exactly once" and "never"
terms; in the model, those counts are postconditions over the log. Entities
are objects with a constant `Id`, so a caller's copy and the stored instance
with the same `Id` stay distinct. CLR types are type tags (strings).

Modules, one per source file:

- `wrappers.dfy` (`Wrappers`): `Option`, `Result`, and the exceptions, with the source's messages.
- `states.dfy` (`States`): `RecordState`, `EntityState`, `ToEntityState` and its inverse reading.
- `entities.dfy` (`Entities`): entities, lookup by Id, filtering, and the query behind `Get(filter)`.
- `ef_db_context.dfy` (`EF`): the context class, its change tracker and its call log.
- `generic_repository.dfy` (`Repositories`): `GenericRepository`.
- `repository_factory.dfy` (`Factories`): `RepositoryFactory`.
- `unit_of_work.dfy` (`UnitOfWork`): `UoW`, `DataResult` and `Commit`.
- `scenarios.dfy` (`Scenarios`): client methods that use only the contracts above. Some replay the unit tests, and others exercise properties the tests do not check; each method's comment says which of its assertions a unit test also checks.

Constructors that throw in the source become static `Create` methods. Each
returns `Result<Object, Exception>` and fails with the source's exception and
message. The Dafny constructor behind `Create` takes the arguments that have
already passed those guards. Where Entity Framework's `DbSet.Find` returns a
row, it also attaches that row to the change tracker as `Unchanged`, as
Entity Framework 6 does. As a result, `Update` and `Delete` of a found entity
visibly change its entry.

One test, `Update_UnExisting_Object_Must_NOT_Update`
(DAL.Core.EF.Test/GenericRepositoryTest.cs:316-341), calls `Delete` rather
than `Update`. The model states the unknown-entity behaviour for both
methods (`MarkedByLookup`).

## Model

| member | source | states |
|---|---|---|
| States.ToEntityState | DAL.Core.EF/DALExtensions.cs:13-30 | The mapping is total over the four record states and never yields Detached. |
| States.FromEntityState | DAL.Core.EF/DALExtensions.cs:15-28 | The reverse reading of the switch: Detached is the only entry state that no record state asks for. |
| States.ToEntityStateRoundTrip | DAL.Core.EF/DALExtensions.cs:17-27 | Reading back a mapped state gives the original record state: Added to Added, Deleted to Deleted, Updated to Modified, and the default Unchanged to Unchanged. |
| States.FromEntityStateRoundTrip | DAL.Core.EF/DALExtensions.cs:15-28 | Each entry state other than Detached is produced by mapping the record state read back from it. |
| States.ToEntityStateInjective | DAL.Core/Interfaces/IRepository.cs:22-28 | Distinct record states map to distinct entry states. |
| States.ToEntityStateOnto | DAL.Core.EF/DALExtensions.cs:15-28 | Every entry state except Detached is the image of some record state. |
| Entities.FindById | DAL.Core.EF/GenericRepository.cs:44-47 | The lookup returns a row of the set that has the requested Id. It returns null exactly when no row has that Id. |
| Entities.Filter | DAL.Core.EF/GenericRepository.cs:110-113 | Filtering keeps exactly the rows the predicate accepts and never grows the set. When every row is accepted, the result is the whole set. |
| Entities.Query | DAL.Core.EF/GenericRepository.cs:110-113 | A null filter gives the whole set. A filter gives exactly the rows it accepts. |
| Entities.FilterNone | DAL.Core.EF/GenericRepository.cs:112 | A filter that accepts no row yields an empty result. |
| Entities.FindIsFirstMatch | DAL.Core.EF/GenericRepository.cs:44-47 | Lookup by Id returns the first row that filtering by that Id keeps, and null when filtering keeps none. |
| Entities.FindUniqueId | DAL.Core.EF/GenericRepository.cs:44-47 | When Ids are unique, looking up a row's Id returns that same row object. |
| Entities.FilterUniqueId | DAL.Core.EF/GenericRepository.cs:110-113 | When Ids are unique, filtering by a row's Id yields exactly that row. |
| Entities.FilterAppend | DAL.Core.EF/GenericRepository.cs:110-113 | Filtering keeps the rows' order: a row appended to the set is appended to the result exactly when the predicate accepts it. |
| EF.Attach | DAL.Core.EF/GenericRepository.cs:46 | A found row joins the change tracker as Unchanged if it was not tracked. Every existing entry keeps its state. |
| EF.ChangedEntries | DAL.Core.EF/EFDbContext.cs:8-23 | A null entity, or one with no entry, leaves the tracker as it was. Otherwise that entity's entry becomes the mapped state, and every other entry keeps its state. |
| EF.ChangeStateIdempotent | DAL.Core.EF/EFDbContext.cs:22 | Changing an entity to the same state twice gives the same tracker as doing it once. |
| EF.ChangeStateLastWins | DAL.Core.EF/EFDbContext.cs:22 | Of two state changes to one entity, the later one decides its entry. |
| EF.AcceptChanges | DAL.Core.EF/UoW.cs:66 | After a successful flush, deleted entries are no longer tracked, and every other tracked entity is Unchanged. No entity that was untracked becomes tracked. |
| EF.AcceptChangesIdempotent | DAL.Core.EF/UoW.cs:66 | A second flush with no change in between leaves the tracker as the first left it. |
| EF.EFDbContext.Find | DAL.Core.EF/GenericRepository.cs:46 | One Find call is logged. The result is the set's lookup by Id, and the found row is attached. |
| EF.EFDbContext.Add | DAL.Core.EF/GenericRepository.cs:61 | One Add call is logged. The entity is tracked as Added and returned. |
| EF.EFDbContext.ChangeState | DAL.Core.EF/EFDbContext.cs:8-23 | One ChangeState call is logged, and the tracker becomes ChangedEntries of the old tracker. |
| EF.EFDbContext.SaveChanges | DAL.Core.EF/UoW.cs:66 | One SaveChanges call is logged. It throws (returns the exception) exactly when the flush fails. A failed flush leaves the tracker as it was, and a successful one accepts the changes (AcceptChanges). |
| Repositories.GenericRepository.Create | DAL.Core.EF/GenericRepository.cs:21-36 | A null context fails with ArgumentNullException. A context without a set for the type fails with NullReferenceException. Otherwise the result is a new repository over that context and type, with no owner. |
| Repositories.GenericRepository.GetAll | DAL.Core.EF/GenericRepository.cs:49-52 | The result is the context's entity set for the type, unchanged: no row is added, dropped or reordered. |
| Repositories.GenericRepository.Get | DAL.Core.EF/GenericRepository.cs:110-113 | Get(filter) is the query of GetAll() by the filter, so Get(null) is GetAll(). As a function, it changes nothing. |
| Repositories.GenericRepository.GetById | DAL.Core.EF/GenericRepository.cs:44-47 | Exactly one Find call is made. The result is the set's row with that Id, or null. |
| Repositories.GenericRepository.Add | DAL.Core.EF/GenericRepository.cs:54-63 | Add(null) returns null and leaves the context untouched, with zero Add calls. Add(e) makes exactly one Add call, tracks e as Added and returns e. |
| Repositories.GenericRepository.Delete | DAL.Core.EF/GenericRepository.cs:65-79 | Delete(null) makes no call. For an unknown Id, it makes one Find call and no ChangeState call. For a known Id, it makes one Find call, then one ChangeState call on the looked-up instance, which ends up Deleted. |
| Repositories.GenericRepository.DeleteById | DAL.Core.EF/GenericRepository.cs:81-85 | An unknown Id gives one Find call and no state change. A known Id gives the GetById lookup, then the lookup inside Delete(entity), then one ChangeState to Deleted on the row found. |
| Repositories.GenericRepository.Update | DAL.Core.EF/GenericRepository.cs:87-103 | Update(null) makes no call. For an unknown Id, it makes one Find call and no ChangeState call. For a known Id, it makes one Find call, then one ChangeState call on the looked-up instance, which ends up Modified. |
| Factories.Lookup | DAL.Core.EF/RepositoryFactory.cs:41-49 | A registration is found only when the dictionary exists and holds the type. What is found is the stored repository, null included. |
| Factories.Register | DAL.Core.EF/RepositoryFactory.cs:24-37 | After registration, the dictionary exists, has the type's tag, and sends it to the given repository, null included. Every other type's entry stays as it was. |
| Factories.RegisterLastWins | DAL.Core.EF/RepositoryFactory.cs:28-36 | Registering twice for one type gives the same dictionary as registering only the second repository. |
| Factories.RegisterThenLookup | DAL.Core.EF/RepositoryFactory.cs:24-51 | A later lookup of the registered type finds the registered repository. A lookup of any other type finds what it found before. |
| Factories.RepositoryFactory.Create | DAL.Core.EF/RepositoryFactory.cs:14-22 | A null context fails with ArgumentNullException. Otherwise the new factory keeps the context, and its dictionary is still null. |
| Factories.RepositoryFactory.SetCustomRepo | DAL.Core.EF/RepositoryFactory.cs:24-37 | The dictionary becomes the registration of the repository for the type, allocated on first use. The factory invariant is kept. |
| Factories.RepositoryFactory.GetRepository | DAL.Core.EF/RepositoryFactory.cs:39-51 | A registered type gives the registered instance unchanged, null included. Otherwise the result is a new generic repository over the factory's context, or NullReferenceException when the context has no set for the type. The dictionary is never modified. |
| UnitOfWork.Adopt | DAL.Core.EF/UoW.cs:47-50 | After adoption, the back-reference is never null. It is the unit of work if it was unset, and unchanged otherwise. |
| UnitOfWork.AdoptSetOnce | DAL.Core.EF/UoW.cs:47 | Once set, a back-reference is not overwritten by any later unit of work. |
| UnitOfWork.CommitResult | DAL.Core.EF/UoW.cs:55-86 | Status is true exactly when no exception was captured, which is exactly when the action did not throw and the flush did not fail. The captured exception is the action's, if it threw, and otherwise the flush's. |
| UnitOfWork.UoW.Create | DAL.Core.EF/UoW.cs:20-34 | A null context fails with ArgumentException. A null factory also fails with ArgumentException, independently of the context. Otherwise both are kept exactly as passed. |
| UnitOfWork.UoW.GetRepository | DAL.Core.EF/UoW.cs:40-53 | The result is exactly what the factory returns, null included, and a failure propagates. A returned repository with no owner is adopted by this unit of work, and one with an owner keeps it. No other repository changes. |
| UnitOfWork.UoW.Commit | DAL.Core.EF/UoW.cs:55-86 | The result is CommitResult and never an exception. A given action runs exactly once. A throwing action means no SaveChanges call. Otherwise exactly one SaveChanges call follows. The tracker is unchanged when the action throws or the flush fails, and the changes are accepted when the flush succeeds. |
| UnitOfWork.UoW.Get | DAL.Core.EF/UoW.cs:88-98 | A null repository gives null. Otherwise the result is the repository's GetAll() queried by the filter, or the factory's failure. As with GetRepository, a registered repository without an owner is adopted by this unit of work, one with an owner keeps it, and every other registered repository keeps its owner. |

## Left out

- Entity Framework internals are not modelled: query translation, connections, and the SQL that `SaveChanges` issues. `SaveChanges` is reduced to a logged call whose success or failure is a parameter. Its effect on the change tracker is modelled (changes are accepted on success), but its effect on the rows is not, so the context's rows are constant.
- `DbSet.Find` consults only the stored rows. Entities that were added and are not yet flushed are not found, although Entity Framework would find them in its tracker.
- EF.EFDbContext.ChangeState: in Entity Framework 6, `DbContext.Entry` of an untracked entity returns a Detached entry and never null, and the assignment to its `State` (DAL.Core.EF/EFDbContext.cs:22) is what starts tracking the entity, in the mapped state. The model reads the source's null guard as "the entity has no tracker entry" and leaves an untracked entity untracked. The repository only ever passes entities that `Find` has just attached, so this differs only for other callers of `ChangeState`.
- LINQ laziness is not modelled: `IQueryable` and expression trees become sequences and total predicates (`Entity -> bool`), evaluated at once.
- `typeof(T)` and the `(IRepository<T>)` cast become string type tags. The factory invariant (`RepositoryFactory.Valid`) states that a registered repository serves its own tag. `SetCustomRepo<T>` guarantees this through its type parameter, but `CustomRepositoriesMappedByType` is a public settable `Dictionary<Type, object>` (DAL.Core.EF/RepositoryFactory.cs:12), so other code can file any object under any type.
- RepositoryFactory.GetRepository: the `InvalidCastException` that the cast at DAL.Core.EF/RepositoryFactory.cs:49 throws for an object filed under the wrong type is not modelled, because the method requires the invariant above, which excludes such entries.
- `UoW.Context` and `UoW.repositoryFactory` are public settable properties (DAL.Core.EF/UoW.cs:13-14); the model makes them `const`. Reassigning them after construction is not modelled: for example, a null context would make `Commit` capture a `NullReferenceException` from `SaveChanges`, and a null factory would make `GetRepository` throw.
- UnitOfWork.UoW.Get: when the factory builds a new generic repository, that repository is adopted and then discarded, since `Get` returns only the rows; the contract states its result, not the unreachable repository's back-reference.
- Interfaces and test doubles are not modelled. Custom repositories (any `IRepository<T>`) are `GenericRepository` objects, the factory is the concrete `RepositoryFactory` rather than any `IRepositoryFactory`, and the `IUoW` back-reference is an `object?`.
- The commit action's own effects (for example, repository calls made inside it) are not modelled. The model records only that the action ran, and whether it returned or threw.
- Exception objects are reduced to their class and message. Exceptions thrown by the action or by `SaveChanges` are the tags `ActionFailed` and `SaveFailed`.
- `DataResult.cs` and `IDataResult.cs` are the `DataResult` datatype. The interface files carry no logic beyond the `RecordState` enum.
- Concurrency: the source has none.
