/** Record states that repositories ask for, Entity Framework's entry states,
    and the extension that maps the one onto the other. */
module States {
  import opened Wrappers

  /** The pending disposition of an entity, as repositories express it. */
  datatype RecordState = Added | Updated | Deleted | Unchanged

  /** The state of an entry in Entity Framework's change tracker. */
  datatype EntityState = Detached | Unchanged | Added | Deleted | Modified

  /** The extension method ToEntityState: a switch with a default branch. */
  function ToEntityState(state: RecordState): (e: EntityState)
    ensures e != EntityState.Detached
  {
    match state
    case Added => EntityState.Added
    case Deleted => EntityState.Deleted
    case Updated => EntityState.Modified
    case _ => EntityState.Unchanged
  }

  /** The inverse reading of an entry state: which record state asks for it.
      Detached is asked for by none. */
  function FromEntityState(e: EntityState): (s: Option<RecordState>)
    ensures s.None? <==> e == EntityState.Detached
  {
    match e
    case Detached => None
    case Unchanged => Some(RecordState.Unchanged)
    case Added => Some(RecordState.Added)
    case Deleted => Some(RecordState.Deleted)
    case Modified => Some(RecordState.Updated)
  }

  /** Mapping a record state and reading it back gives the record state. */
  lemma ToEntityStateRoundTrip(state: RecordState)
    ensures FromEntityState(ToEntityState(state)) == Some(state)
  {
  }

  /** Reading an entry state back and mapping it again gives the entry state. */
  lemma FromEntityStateRoundTrip(e: EntityState)
    requires e != EntityState.Detached
    ensures ToEntityState(FromEntityState(e).value) == e
  {
  }

  /** The mapping is injective: distinct record states give distinct entry states. */
  lemma ToEntityStateInjective(a: RecordState, b: RecordState)
    ensures ToEntityState(a) == ToEntityState(b) ==> a == b
  {
  }

  /** The mapping is onto every entry state except Detached. */
  lemma ToEntityStateOnto(e: EntityState)
    requires e != EntityState.Detached
    ensures exists s :: ToEntityState(s) == e
  {
    FromEntityStateRoundTrip(e);
  }
}
