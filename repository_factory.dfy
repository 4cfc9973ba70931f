/** The repository factory: custom repositories registered per entity type take
    precedence; every other type gets a new generic repository. */
module Factories {
  import opened Wrappers
  import opened Entities
  import opened EF
  import opened Repositories

  /** The custom dictionary, None while it has not been allocated. */
  type CustomMap = Option<map<TypeTag, GenericRepository?>>

  /** What the dictionary holds for `tag`: Some(repository), possibly
      Some(null), or None when the dictionary is null or lacks the tag. */
  function Lookup(custom: CustomMap, tag: TypeTag): (r: Option<GenericRepository?>)
    ensures r.Some? <==> custom.Some? && tag in custom.value
    ensures r.Some? ==> r.value == custom.value[tag]
  {
    if custom.Some? && tag in custom.value then Some(custom.value[tag]) else None
  }

  /** The dictionary after SetCustomRepo: allocated if it was null, with `tag`
      sent to `repository` and every other entry kept. */
  function Register(custom: CustomMap, tag: TypeTag, repository: GenericRepository?): (r: CustomMap)
    ensures r.Some?
    ensures r.value.Keys == (if custom.Some? then custom.value.Keys else {}) + {tag}
    ensures r.value[tag] == repository
    ensures forall t :: t != tag ==> Lookup(r, t) == Lookup(custom, t)
  {
    var m := if custom.Some? then custom.value else map[];
    Some(m[tag := repository])
  }

  /** Registering twice for one type: the last registration wins. */
  lemma RegisterLastWins(custom: CustomMap, tag: TypeTag, first: GenericRepository?, second: GenericRepository?)
    ensures Register(Register(custom, tag, first), tag, second) == Register(custom, tag, second)
  {
    var m := if custom.Some? then custom.value else map[];
    assert Register(Register(custom, tag, first), tag, second).value == m[tag := second];
  }

  /** A registration is seen by every later lookup of its type, and by no other. */
  lemma RegisterThenLookup(custom: CustomMap, tag: TypeTag, repository: GenericRepository?, other: TypeTag)
    ensures Lookup(Register(custom, tag, repository), tag) == Some(repository)
    ensures other != tag ==> Lookup(Register(custom, tag, repository), other) == Lookup(custom, other)
  {
  }

  class RepositoryFactory {
    /** The context generic repositories are built over (readonly). */
    const Context: EFDbContext
    /** CustomRepositoriesMappedByType; None stands for the null dictionary. */
    var CustomRepositories: CustomMap

    /** Every registered repository serves the type it is filed under (the cast
        to IRepository<T> in the source) and has an entity set. */
    ghost predicate Valid()
      reads this
    {
      CustomRepositories.Some? ==>
        forall t :: t in CustomRepositories.value && CustomRepositories.value[t] != null ==>
          CustomRepositories.value[t].Tag == t && CustomRepositories.value[t].Valid()
    }

    /** The registered repositories, the objects a unit of work may adopt. */
    ghost function Registered(): set<GenericRepository>
      reads this
    {
      if CustomRepositories.None? then {}
      else set t | t in CustomRepositories.value && CustomRepositories.value[t] != null :: CustomRepositories.value[t]
    }

    constructor (context: EFDbContext)
      ensures Context == context && CustomRepositories == None
      ensures Valid()
    {
      Context := context;
      CustomRepositories := None;
    }

    /** The source's constructor: a null context throws ArgumentNullException. */
    static method Create(context: EFDbContext?) returns (r: Result<RepositoryFactory, Exception>)
      ensures context == null ==> r == Failure(ArgumentNull("context", "Context cannot be null"))
      ensures context != null ==> r.Success? && fresh(r.value) && r.value.Valid()
                                  && r.value.Context == context && r.value.CustomRepositories == None
    {
      if context == null {
        return Failure(ArgumentNull("context", "Context cannot be null"));
      }
      var factory := new RepositoryFactory(context);
      return Success(factory);
    }

    /** SetCustomRepo<T>(repository): allocate the dictionary on first use, then
        set or add the entry for T. A null repository is accepted. */
    method SetCustomRepo(tag: TypeTag, repository: GenericRepository?)
      requires Valid()
      requires repository != null ==> repository.Tag == tag && repository.Valid()
      modifies this`CustomRepositories
      ensures Valid()
      ensures CustomRepositories == Register(old(CustomRepositories), tag, repository)
    {
      if CustomRepositories.None? {
        CustomRepositories := Some(map[]);
      }
      // The indexer overwrites an existing entry and Add inserts a new one;
      // either way the entry for the tag becomes the repository.
      CustomRepositories := Some(CustomRepositories.value[tag := repository]);
    }

    /** GetRepository<T>(): the registered repository for T, null included, or
        else a new generic repository over the factory's context, whose
        construction fails when the context has no set for T. */
    method GetRepository(tag: TypeTag) returns (r: Result<GenericRepository?, Exception>)
      requires Valid()
      ensures Lookup(CustomRepositories, tag).Some? ==> r == Success(Lookup(CustomRepositories, tag).value)
      ensures Lookup(CustomRepositories, tag).None? && tag !in Context.tables
              ==> r == Failure(NullReference("There is no entity defined in this DbContext"))
      ensures Lookup(CustomRepositories, tag).None? && tag in Context.tables
              ==> r.Success? && r.value != null && fresh(r.value)
                  && r.value.Context == Context && r.value.Tag == tag && r.value.UoW == null
      ensures r.Success? && r.value != null ==> r.value.Tag == tag && r.value.Valid()
    {
      if CustomRepositories.None? || tag !in CustomRepositories.value {
        var created := GenericRepository.Create(Context, tag);
        if created.Failure? {
          return Failure(created.error);
        }
        return Success(created.value);
      }
      return Success(CustomRepositories.value[tag]);
    }
  }
}
