/** The Entity Framework context as the layer sees it: one entity set per type
    tag, a change tracker that holds an entry state per tracked entity, and a
    log of the calls the layer makes into it. */
module EF {
  import opened Wrappers
  import opened States
  import opened Entities

  /** One call into the context, as a test double would record it. */
  datatype Call =
    | FindCall(tag: TypeTag, id: int)
    | AddCall(tag: TypeTag, entity: Entity)
    | ChangeStateCall(target: Entity?, state: RecordState)
    | SaveChangesCall

  /** The change tracker after a lookup that found `e`: a row that was not yet
      tracked is attached as Unchanged, a tracked one keeps its state. */
  function Attach(entries: map<Entity, EntityState>, e: Entity?): (m: map<Entity, EntityState>)
    ensures e != null ==> m.Keys == entries.Keys + {e}
    ensures e == null ==> m == entries
    ensures forall x :: x in entries ==> x in m && m[x] == entries[x]
    ensures e != null && e !in entries ==> m[e] == EntityState.Unchanged
  {
    if e != null && e !in entries then entries[e := EntityState.Unchanged] else entries
  }

  /** The change tracker after ChangeState(entity, state): the entity's entry,
      when it has one, takes the mapped state; every other entry is kept. */
  function ChangedEntries(entries: map<Entity, EntityState>, entity: Entity?, state: RecordState)
    : (m: map<Entity, EntityState>)
    ensures m.Keys == entries.Keys
    ensures forall x :: x in entries && x != entity ==> m[x] == entries[x]
    ensures entity in entries ==> m[entity] == ToEntityState(state)
  {
    if entity == null then entries
    else if entity !in entries then entries
    else entries[entity := ToEntityState(state)]
  }

  /** Changing an entity's state twice to the same state is the same as once. */
  lemma ChangeStateIdempotent(entries: map<Entity, EntityState>, entity: Entity?, state: RecordState)
    ensures ChangedEntries(ChangedEntries(entries, entity, state), entity, state)
         == ChangedEntries(entries, entity, state)
  {
  }

  /** Of two state changes of one entity, the later one decides its entry. */
  lemma ChangeStateLastWins(entries: map<Entity, EntityState>, entity: Entity?, first: RecordState, second: RecordState)
    ensures ChangedEntries(ChangedEntries(entries, entity, first), entity, second)
         == ChangedEntries(entries, entity, second)
  {
  }

  /** The change tracker after a successful flush: deleted entries are
      detached, and every other entry is accepted as Unchanged. */
  function AcceptChanges(entries: map<Entity, EntityState>): (m: map<Entity, EntityState>)
    ensures forall x :: x in m ==> x in entries && entries[x] != EntityState.Deleted
                                   && entries[x] != EntityState.Detached
    ensures forall x ::
              x in entries && entries[x] != EntityState.Deleted && entries[x] != EntityState.Detached ==> x in m
    ensures forall x :: x in m ==> m[x] == EntityState.Unchanged
  {
    map x | x in entries && entries[x] != EntityState.Deleted && entries[x] != EntityState.Detached
      :: EntityState.Unchanged
  }

  /** A second flush with nothing changed in between changes nothing. */
  lemma AcceptChangesIdempotent(entries: map<Entity, EntityState>)
    ensures AcceptChanges(AcceptChanges(entries)) == AcceptChanges(entries)
  {
  }

  /** The context (EFDbContext over DbContext). */
  class EFDbContext {
    /** Set<T>() for each type tag the context defines; a tag that is absent
        stands for a context whose Set<T>() is null. */
    const tables: map<TypeTag, seq<Entity>>
    /** Entry(e).State for each tracked entity; an untracked entity has no entry. */
    var entries: map<Entity, EntityState>
    /** Every call the layer has made into the context, in order. */
    ghost var calls: seq<Call>

    constructor (tables: map<TypeTag, seq<Entity>>)
      ensures this.tables == tables && entries == map[] && calls == []
    {
      this.tables := tables;
      entries := map[];
      calls := [];
    }

    /** DbSet<T>.Find(id): the row with that Id, attached to the tracker. */
    method Find(tag: TypeTag, id: int) returns (found: Entity?)
      requires tag in tables
      modifies this`entries, this`calls
      ensures found == FindById(tables[tag], id)
      ensures entries == Attach(old(entries), found)
      ensures calls == old(calls) + [FindCall(tag, id)]
    {
      calls := calls + [FindCall(tag, id)];
      found := FindById(tables[tag], id);
      entries := Attach(entries, found);
    }

    /** DbSet<T>.Add(entity): the entity is tracked as Added and returned. */
    method Add(tag: TypeTag, entity: Entity) returns (added: Entity)
      requires tag in tables
      modifies this`entries, this`calls
      ensures added == entity
      ensures entries == old(entries)[entity := EntityState.Added]
      ensures calls == old(calls) + [AddCall(tag, entity)]
    {
      calls := calls + [AddCall(tag, entity)];
      entries := entries[entity := EntityState.Added];
      added := entity;
    }

    /** ChangeState: a null entity, or one without an entry, is left alone;
        otherwise its entry takes the mapped state. */
    method ChangeState(entity: Entity?, state: RecordState)
      modifies this`entries, this`calls
      ensures entries == ChangedEntries(old(entries), entity, state)
      ensures calls == old(calls) + [ChangeStateCall(entity, state)]
    {
      calls := calls + [ChangeStateCall(entity, state)];
      if entity == null {
        return;
      }
      if entity !in entries {
        return;
      }
      entries := entries[entity := ToEntityState(state)];
    }

    /** SaveChanges: the flush, which succeeds or throws as `saveFails` says.
        A successful flush accepts the tracked changes; a failed one leaves the
        tracker as it was. What a flush writes to the store is not part of
        this model. */
    method SaveChanges(saveFails: bool) returns (error: Option<Exception>)
      modifies this`calls, this`entries
      ensures error == if saveFails then Some(SaveFailed) else None
      ensures entries == if saveFails then old(entries) else AcceptChanges(old(entries))
      ensures calls == old(calls) + [SaveChangesCall]
    {
      calls := calls + [SaveChangesCall];
      if saveFails {
        error := Some(SaveFailed);
      } else {
        error := None;
        entries := AcceptChanges(entries);
      }
    }
  }
}
