/** The unit of work: hands out repositories from the factory, adopting each
    one that has no owner yet, and commits by running an optional action and
    flushing the context, reporting failure as a value. */
module UnitOfWork {
  import opened Wrappers
  import opened Entities
  import opened EF
  import opened Repositories
  import opened Factories

  /** The optional action passed to Commit: none, one that returns, or one that throws. */
  datatype CommitAction = NoAction | Succeeds | Throws

  /** DataResult: the commit's status and the exception it captured, if any. */
  datatype DataResult = DataResult(Status: bool, Exception: Option<Exception>)

  /** A repository's back-reference once a unit of work has offered to adopt
      it: set when it was null, kept as it was otherwise. */
  function Adopt(current: object?, uow: object): (owner: object?)
    ensures owner != null
    ensures current != null ==> owner == current
    ensures current == null ==> owner == uow
  {
    if current == null then uow else current
  }

  /** Once set, a back-reference stays with its first owner whoever offers next. */
  lemma AdoptSetOnce(current: object?, first: object, second: object)
    ensures Adopt(Adopt(current, first), second) == Adopt(current, first)
    ensures current != null ==> Adopt(Adopt(current, first), second) == current
  {
  }

  /** What Commit reports: success exactly when neither the action nor the
      flush throws, and otherwise the first exception raised. */
  function CommitResult(action: CommitAction, saveFails: bool): (r: DataResult)
    ensures r.Status <==> r.Exception.None?
    ensures r.Status <==> action != Throws && !saveFails
    ensures action == Throws ==> r.Exception == Some(ActionFailed)
    ensures action != Throws && saveFails ==> r.Exception == Some(SaveFailed)
  {
    if action == Throws then DataResult(false, Some(ActionFailed))
    else if saveFails then DataResult(false, Some(SaveFailed))
    else DataResult(true, None)
  }

  class UoW {
    /** The context Commit flushes. */
    const Context: EFDbContext
    /** The factory repositories come from (repositoryFactory). */
    const Factory: RepositoryFactory
    /** The actions Commit has run, in order. */
    ghost var actionsRun: seq<CommitAction>

    ghost predicate Valid()
      reads this, Factory
    {
      Factory.Valid()
    }

    constructor (context: EFDbContext, factory: RepositoryFactory)
      ensures Context == context && Factory == factory && actionsRun == []
    {
      Context := context;
      Factory := factory;
      actionsRun := [];
    }

    /** The source's constructor: a null context and a null factory each throw
        ArgumentException, the context being checked first; otherwise both are
        kept exactly as passed. */
    static method Create(context: EFDbContext?, factory: RepositoryFactory?) returns (r: Result<UoW, Exception>)
      ensures context == null ==> r == Failure(Argument("context cannot be null"))
      ensures context != null && factory == null ==> r == Failure(Argument("repositoryFactory cannot be null"))
      ensures context != null && factory != null
              ==> r.Success? && fresh(r.value) && r.value.Context == context && r.value.Factory == factory
                  && r.value.actionsRun == []
    {
      if context == null {
        return Failure(Argument("context cannot be null"));
      }
      if factory == null {
        return Failure(Argument("repositoryFactory cannot be null"));
      }
      var uow := new UoW(context, factory);
      return Success(uow);
    }

    /** GetRepository<T>(): what the factory returns, null included; a non-null
        repository without an owner is adopted by this unit of work, and one that
        has an owner keeps it. No other repository changes. */
    method GetRepository(tag: TypeTag) returns (r: Result<GenericRepository?, Exception>)
      requires Valid()
      modifies Factory.Registered()
      ensures Valid()
      ensures var found := Lookup(Factory.CustomRepositories, tag);
              found.Some? ==> r == Success(found.value)
                              && (found.value != null ==> found.value.UoW == Adopt(old(found.value.UoW), this))
      ensures Lookup(Factory.CustomRepositories, tag).None? && tag !in Factory.Context.tables
              ==> r == Failure(NullReference("There is no entity defined in this DbContext"))
      ensures Lookup(Factory.CustomRepositories, tag).None? && tag in Factory.Context.tables
              ==> r.Success? && r.value != null && fresh(r.value)
                  && r.value.Context == Factory.Context && r.value.Tag == tag && r.value.UoW == this
      ensures r.Success? && r.value != null ==> r.value.Tag == tag && r.value.Valid()
      ensures forall repo :: repo in Factory.Registered() && (r.Failure? || repo != r.value)
                             ==> repo.UoW == old(repo.UoW)
    {
      r := Factory.GetRepository(tag);
      if r.Success? && r.value != null && r.value.UoW == null {
        r.value.UoW := this;
      }
    }

    /** Commit(action): run the action if there is one, then flush; an exception
        from either is caught and returned, and a throwing action means no flush. */
    method Commit(action: CommitAction, saveFails: bool) returns (result: DataResult)
      modifies Context`calls, Context`entries, this`actionsRun
      ensures result == CommitResult(action, saveFails)
      ensures actionsRun == old(actionsRun) + (if action == NoAction then [] else [action])
      ensures Context.calls == old(Context.calls) + (if action == Throws then [] else [SaveChangesCall])
      ensures Context.entries == if action == Throws || saveFails then old(Context.entries)
                                 else AcceptChanges(old(Context.entries))
    {
      var error: Option<Exception> := None;
      if action != NoAction {
        actionsRun := actionsRun + [action];
        if action == Throws {
          error := Some(ActionFailed);
        }
      }
      if error.None? {
        error := Context.SaveChanges(saveFails);
      }
      if error.None? {
        result := DataResult(true, None);
      } else {
        result := DataResult(false, error);
      }
    }

    /** Get<T>(filter): null when there is no repository for T, otherwise its
        GetAll(), filtered when a filter is given. The repository is obtained
        through GetRepository, so a registered one without an owner is adopted
        and every other registered repository keeps its owner. */
    method Get(tag: TypeTag, filter: Option<Entity -> bool>) returns (r: Result<Option<seq<Entity>>, Exception>)
      requires Valid()
      modifies Factory.Registered()
      ensures Valid()
      ensures var found := Lookup(Factory.CustomRepositories, tag);
              && (found == Some(null) ==> r == Success(None))
              && (found.Some? && found.value != null ==> r == Success(Some(Query(found.value.GetAll(), filter))))
              && (found.None? && tag in Factory.Context.tables
                  ==> r == Success(Some(Query(Factory.Context.tables[tag], filter))))
              && (found.None? && tag !in Factory.Context.tables
                  ==> r == Failure(NullReference("There is no entity defined in this DbContext")))
      ensures var found := Lookup(Factory.CustomRepositories, tag);
              found.Some? && found.value != null ==> found.value.UoW == Adopt(old(found.value.UoW), this)
      ensures forall repo :: repo in Factory.Registered() && Lookup(Factory.CustomRepositories, tag) != Some(repo)
                             ==> repo.UoW == old(repo.UoW)
    {
      var repository := GetRepository(tag);
      if repository.Failure? {
        return Failure(repository.error);
      }
      if repository.value == null {
        return Success(None);
      }
      var all := repository.value.GetAll();
      return Success(Some(Query(all, filter)));
    }
  }
}
