/** The generic repository: create, read, update and delete for the entities of
    one type, against the context's entity set for that type. */
module Repositories {
  import opened Wrappers
  import opened States
  import opened Entities
  import opened EF

  class GenericRepository {
    /** The context the repository works against (readonly). */
    const Context: EFDbContext
    /** The entity type the repository serves; dbSet is Context.Set<T>(). */
    const Tag: TypeTag
    /** The owning unit of work (the IUoW property); null until one adopts it. */
    var UoW: object?

    /** dbSet is not null: the context defines an entity set for the type. */
    ghost predicate Valid()
    {
      Tag in Context.tables
    }

    constructor (context: EFDbContext, tag: TypeTag)
      requires tag in context.tables
      ensures Context == context && Tag == tag && UoW == null
      ensures Valid()
    {
      Context := context;
      Tag := tag;
      UoW := null;
    }

    /** The source's constructor: a null context throws ArgumentNullException, a
        context without a set for the type throws NullReferenceException. */
    static method Create(context: EFDbContext?, tag: TypeTag) returns (r: Result<GenericRepository, Exception>)
      ensures context == null ==> r == Failure(ArgumentNull("context", "context cannot be null"))
      ensures context != null && tag !in context.tables
              ==> r == Failure(NullReference("There is no entity defined in this DbContext"))
      ensures context != null && tag in context.tables
              ==> r.Success? && fresh(r.value) && r.value.Valid()
                  && r.value.Context == context && r.value.Tag == tag && r.value.UoW == null
    {
      if context == null {
        return Failure(ArgumentNull("context", "context cannot be null"));
      }
      if tag !in context.tables {
        return Failure(NullReference("There is no entity defined in this DbContext"));
      }
      var repository := new GenericRepository(context, tag);
      return Success(repository);
    }

    /** GetAll: the context's entity set for the type, as it stands. */
    function GetAll(): (rows: seq<Entity>)
      requires Valid()
      ensures rows == Context.tables[Tag]
    {
      Context.tables[Tag]
    }

    /** Get(filter): GetAll() for a null filter, the set filtered otherwise. */
    function Get(filter: Option<Entity -> bool>): (rows: seq<Entity>)
      requires Valid()
      ensures rows == Query(GetAll(), filter)
    {
      Query(GetAll(), filter)
    }

    /** GetById: the set's lookup by Id; one Find call into the context. */
    method GetById(id: int) returns (found: Entity?)
      requires Valid()
      modifies Context`entries, Context`calls
      ensures found == FindById(GetAll(), id)
      ensures found != null ==> found in GetAll() && found.Id == id
      ensures Context.entries == Attach(old(Context.entries), found)
      ensures Context.calls == old(Context.calls) + [FindCall(Tag, id)]
    {
      found := Context.Find(Tag, id);
    }

    /** Add: null is ignored and returned; any other entity goes through the
        set's Add exactly once and its result is returned. */
    method Add(entity: Entity?) returns (added: Entity?)
      requires Valid()
      modifies Context`entries, Context`calls
      ensures entity == null ==> added == null && unchanged(Context)
      ensures entity != null ==> added == entity
      ensures entity != null ==> Context.entries == old(Context.entries)[entity := EntityState.Added]
      ensures entity != null ==> Context.calls == old(Context.calls) + [AddCall(Tag, entity)]
    {
      if entity == null {
        return null;
      }
      added := Context.Add(Tag, entity);
    }

    /** Delete(entity): null is ignored without a lookup; otherwise the entity is
        looked up by its Id, and the instance found, if any, is marked Deleted. */
    method Delete(entity: Entity?)
      requires Valid()
      modifies Context`entries, Context`calls
      ensures entity == null ==> unchanged(Context)
      ensures entity != null ==> MarkedByLookup(old(Context.entries), old(Context.calls), entity.Id, RecordState.Deleted)
    {
      if entity == null {
        return;
      }
      var existing := GetById(entity.Id);
      if existing == null {
        return;
      }
      Context.ChangeState(existing, RecordState.Deleted);
    }

    /** Delete(id): GetById followed by Delete(entity). */
    method DeleteById(id: int)
      requires Valid()
      modifies Context`entries, Context`calls
      ensures var found := FindById(GetAll(), id);
              if found == null then
                Context.calls == old(Context.calls) + [FindCall(Tag, id)]
                && Context.entries == old(Context.entries)
              else
                Context.calls == old(Context.calls) + [FindCall(Tag, id), FindCall(Tag, id), ChangeStateCall(found, RecordState.Deleted)]
                && Context.entries == ChangedEntries(Attach(old(Context.entries), found), found, RecordState.Deleted)
    {
      var entity := GetById(id);
      Delete(entity);
    }

    /** Update(entity): as Delete(entity), but the instance found is marked Updated. */
    method Update(entity: Entity?)
      requires Valid()
      modifies Context`entries, Context`calls
      ensures entity == null ==> unchanged(Context)
      ensures entity != null ==> MarkedByLookup(old(Context.entries), old(Context.calls), entity.Id, RecordState.Updated)
    {
      if entity == null {
        return;
      }
      var existing := GetById(entity.Id);
      if existing == null {
        return;
      }
      Context.ChangeState(existing, RecordState.Updated);
    }

    /** The context after looking `id` up and marking what was found with `state`:
        one Find call, then one ChangeState call on the instance found, or none
        when nothing was found; the instance found ends up in `state`. */
    ghost predicate MarkedByLookup(entries0: map<Entity, EntityState>, calls0: seq<Call>, id: int, state: RecordState)
      requires Valid()
      reads Context
    {
      var found := FindById(GetAll(), id);
      if found == null then
        Context.calls == calls0 + [FindCall(Tag, id)] && Context.entries == entries0
      else
        && Context.calls == calls0 + [FindCall(Tag, id), ChangeStateCall(found, state)]
        && Context.entries == ChangedEntries(Attach(entries0, found), found, state)
        && Context.entries[found] == ToEntityState(state)
    }
  }
}
