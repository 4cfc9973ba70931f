/** Client code that exercises the contracts alone. Some of it replays the
    layer's unit tests; the rest goes beyond them, and each method's comment
    says which of its assertions a unit test also checks. */
module Scenarios {
  import opened Wrappers
  import opened States
  import opened Entities
  import opened EF
  import opened Repositories
  import opened Factories
  import opened UnitOfWork

  /** Ten entities with Ids 1 to 10. A unit test checks that GetAll returns all
      ten, the first with Id 1. Beyond the tests: over the same rows, Get
      filtering by Id 1 returns exactly that one, and Get without a filter
      returns all ten. */
  method GetAllReturnsAll()
  {
    var rows: seq<Entity> := [];
    var k := 1;
    while k <= 10
      invariant 1 <= k <= 11
      invariant |rows| == k - 1
      invariant forall i :: 0 <= i < |rows| ==> rows[i].Id == i + 1
    {
      var e := new Entity(k);
      rows := rows + [e];
      k := k + 1;
    }
    var context := new EFDbContext(map["IModel" := rows]);
    var created := GenericRepository.Create(context, "IModel");
    var repository := created.value;
    var all := repository.GetAll();
    assert |all| == 10 && all[0].Id == 1;
    assert UniqueIds(all);
    FilterUniqueId(all, all[0]);
    assert repository.Get(Some(HasId(1))) == [all[0]];
    assert repository.Get(None) == all;
  }

  /** Constructors fail on a missing context, a missing entity set or a missing
      factory; unit tests check each of these failures and its exception class.
      Beyond the tests: that a unit of work keeps exactly the arguments passed. */
  method ConstructorsGuardTheirArguments()
  {
    var context := new EFDbContext(map[]);
    var noContext := GenericRepository.Create(null, "IModel");
    assert noContext.Failure? && noContext.error.ArgumentNull?;
    var noSet := GenericRepository.Create(context, "IModel");
    assert noSet.Failure? && noSet.error.NullReference?;
    var noFactoryContext := RepositoryFactory.Create(null);
    assert noFactoryContext.Failure?;
    var factory := new RepositoryFactory(context);
    var noFactory := UoW.Create(context, null);
    assert noFactory.Failure? && noFactory.error.Argument?;
    var noUoWContext := UoW.Create(null, factory);
    assert noUoWContext.Failure? && noUoWContext.error.Argument?;
    var uow := UoW.Create(context, factory);
    assert uow.Success? && uow.value.Context == context && uow.value.Factory == factory;
  }

  /** Add(null) makes no Add call and Add(e) makes exactly one, as unit tests
      check. Beyond the tests: Add(null) returns null, Add(e) returns e, and e
      is tracked as Added. */
  method AddCallsTheSetOnce()
  {
    var context := new EFDbContext(map["IModel" := []]);
    var repository := new GenericRepository(context, "IModel");
    var none := repository.Add(null);
    assert none == null && context.calls == [];
    var e := new Entity(1);
    var added := repository.Add(e);
    assert added == e && context.calls == [AddCall("IModel", e)];
    assert context.entries[e] == EntityState.Added;
  }

  /** Beyond the tests, which have the lookup return the caller's own object:
      Update of a caller's copy marks the stored instance with the same Id,
      not the copy. A unit test checks only that one ChangeState call is made. */
  method UpdateMarksTheStoredInstance()
  {
    var stored := new Entity(1);
    var copy := new Entity(1);
    var context := new EFDbContext(map["IModel" := [stored]]);
    var repository := new GenericRepository(context, "IModel");
    repository.Update(copy);
    assert FindById([stored], 1) == stored;
    assert context.calls == [FindCall("IModel", 1), ChangeStateCall(stored, RecordState.Updated)];
    assert context.entries[stored] == EntityState.Modified;
    assert copy !in context.entries;
  }

  /** Delete of null, of an unknown entity or of an unknown Id makes no
      ChangeState call, and Delete of a known Id makes one, as unit tests
      check. Beyond the tests: the exact call log and the entry states. */
  method DeleteOfUnknownChangesNothing()
  {
    var stored := new Entity(1);
    var stranger := new Entity(2);
    var context := new EFDbContext(map["IModel" := [stored]]);
    var repository := new GenericRepository(context, "IModel");
    repository.Delete(null);
    assert context.calls == [];
    assert FindById([stored], 2) == null;
    repository.Delete(stranger);
    assert context.calls == [FindCall("IModel", 2)];
    repository.DeleteById(999);
    assert context.calls == [FindCall("IModel", 2), FindCall("IModel", 999)];
    assert context.entries == map[];
    assert FindById([stored], 1) == stored;
    repository.DeleteById(1);
    assert context.entries[stored] == EntityState.Deleted;
  }

  /** Beyond the tests, which register once and adopt with one unit of work:
      the factory prefers the last registration for a type, a unit of work
      adopts that repository once, and a second unit of work does not take it
      over. */
  method RegistrationAndAdoption()
  {
    var context := new EFDbContext(map["IModel" := []]);
    var first := new GenericRepository(context, "IModel");
    var second := new GenericRepository(context, "IModel");
    var factory := new RepositoryFactory(context);
    factory.SetCustomRepo("IModel", first);
    factory.SetCustomRepo("IModel", second);
    var uow1 := new UoW(context, factory);
    var uow2 := new UoW(context, factory);
    var got1 := uow1.GetRepository("IModel");
    assert got1 == Success(second) && second.UoW == uow1 && first.UoW == null;
    var got2 := uow2.GetRepository("IModel");
    assert got2 == Success(second) && second.UoW == uow1;
    var generic := uow2.GetRepository("Other");
    assert generic.Failure?;
  }

  /** Beyond the tests: Get through a unit of work adopts the registered
      repository it reads from. */
  method GetAdoptsTheRepository()
  {
    var context := new EFDbContext(map["IModel" := []]);
    var repository := new GenericRepository(context, "IModel");
    var factory := new RepositoryFactory(context);
    factory.SetCustomRepo("IModel", repository);
    var uow := new UoW(context, factory);
    var rows := uow.Get("IModel", None);
    assert rows == Success(Some([])) && repository.UoW == uow;
  }

  /** Unit tests check that a given action runs once, and that a throwing
      action means no flush and a captured exception. Beyond the tests: the
      failed status, the tracker kept after the throw, the single flush and
      successful result after a returning action, and that flush accepting the
      update made before it. */
  method CommitReportsFailureAsAValue()
  {
    var stored := new Entity(1);
    var context := new EFDbContext(map["IModel" := [stored]]);
    var repository := new GenericRepository(context, "IModel");
    var factory := new RepositoryFactory(context);
    var uow := new UoW(context, factory);
    repository.Update(stored);
    assert FindById([stored], 1) == stored;
    var log := context.calls;
    var failed := uow.Commit(Throws, false);
    assert context.calls == log && !failed.Status && failed.Exception.Some?;
    assert context.entries[stored] == EntityState.Modified;
    var committed := uow.Commit(Succeeds, false);
    assert uow.actionsRun == [Throws, Succeeds];
    assert context.calls == log + [SaveChangesCall] && committed == DataResult(true, None);
    assert context.entries[stored] == EntityState.Unchanged;
  }
}
