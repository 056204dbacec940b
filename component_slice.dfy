/**
 * The `component` slice of the Redux store: the component being viewed or
 * edited, a loading flag and an error message. Each reducer assigns fields
 * of the state draft in place; here the draft is a `ComponentSlice` object.
 */
module ComponentSlice {
  import opened Wrappers

  /** An inventory item as the API returns it (`type` is named `kind`; numbers are integers). */
  datatype ComponentData = ComponentData(
    id: int,
    name: string,
    kind: string,
    specification: string,
    manufacturer: string,
    packageField: string,
    unit: string,
    stockQuantity: int,
    location: string,
    createdAt: string)

  /** `Partial<ComponentData>`: each field either given or absent. */
  datatype ComponentPatch = ComponentPatch(
    id: Option<int>,
    name: Option<string>,
    kind: Option<string>,
    specification: Option<string>,
    manufacturer: Option<string>,
    packageField: Option<string>,
    unit: Option<string>,
    stockQuantity: Option<int>,
    location: Option<string>,
    createdAt: Option<string>)

  const NoChange: ComponentPatch := ComponentPatch(None, None, None, None, None, None, None, None, None, None)

  /** The patch that gives every field of `c`. */
  function Whole(c: ComponentData): ComponentPatch {
    ComponentPatch(Some(c.id), Some(c.name), Some(c.kind), Some(c.specification), Some(c.manufacturer),
                   Some(c.packageField), Some(c.unit), Some(c.stockQuantity), Some(c.location), Some(c.createdAt))
  }

  /** `{ ...c, ...p }`: the fields `p` gives replace those of `c`; the rest are kept. */
  function Spread(c: ComponentData, p: ComponentPatch): (r: ComponentData)
    ensures Whole(r) == Combine(Whole(c), p)
  {
    ComponentData(
      p.id.GetOr(c.id), p.name.GetOr(c.name), p.kind.GetOr(c.kind),
      p.specification.GetOr(c.specification), p.manufacturer.GetOr(c.manufacturer),
      p.packageField.GetOr(c.packageField), p.unit.GetOr(c.unit),
      p.stockQuantity.GetOr(c.stockQuantity), p.location.GetOr(c.location),
      p.createdAt.GetOr(c.createdAt))
  }

  /** `{ ...p, ...q }` on two patches: a field is given when either gives it, `q` winning. */
  function Combine(p: ComponentPatch, q: ComponentPatch): (r: ComponentPatch)
    ensures q == NoChange ==> r == p
    ensures p == NoChange ==> r == q
    ensures forall d :: q == Whole(d) ==> r == q
  {
    ComponentPatch(
      if q.id.Some? then q.id else p.id,
      if q.name.Some? then q.name else p.name,
      if q.kind.Some? then q.kind else p.kind,
      if q.specification.Some? then q.specification else p.specification,
      if q.manufacturer.Some? then q.manufacturer else p.manufacturer,
      if q.packageField.Some? then q.packageField else p.packageField,
      if q.unit.Some? then q.unit else p.unit,
      if q.stockQuantity.Some? then q.stockQuantity else p.stockQuantity,
      if q.location.Some? then q.location else p.location,
      if q.createdAt.Some? then q.createdAt else p.createdAt)
  }

  /** An empty patch changes nothing; a whole patch replaces everything. */
  lemma SpreadExtremes(c: ComponentData, d: ComponentData)
    ensures Spread(c, NoChange) == c
    ensures Spread(c, Whole(d)) == d
  {
  }

  /** Applying the same patch twice is applying it once. */
  lemma SpreadIdempotent(c: ComponentData, p: ComponentPatch)
    ensures Spread(Spread(c, p), p) == Spread(c, p)
  {
  }

  /** Two updates in a row are one update with the combined patch. */
  lemma SpreadComposes(c: ComponentData, p: ComponentPatch, q: ComponentPatch)
    ensures Spread(Spread(c, p), q) == Spread(c, Combine(p, q))
  {
  }

  datatype ComponentState = ComponentState(component: Option<ComponentData>, loading: bool, error: Option<string>)

  /** `initialState`: no component, not loading, no error. */
  const InitialState: ComponentState := ComponentState(None, false, None)

  class ComponentSliceState {
    var component: Option<ComponentData>
    var loading: bool
    var error: Option<string>

    function State(): ComponentState
      reads this
    {
      ComponentState(component, loading, error)
    }

    constructor ()
      ensures State() == InitialState
    {
      component, loading, error := None, false, None;
    }

    /** `setComponent`: stores the payload and clears the error; `loading` is kept. */
    method SetComponent(payload: ComponentData)
      modifies this
      ensures State() == old(State()).(component := Some(payload), error := None)
    {
      component := Some(payload);
      error := None;
    }

    /**
     * `updateComponent`: with no component, nothing happens; otherwise the
     * patch's fields override the component's. `loading` and `error` are kept.
     */
    method UpdateComponent(patch: ComponentPatch)
      modifies this
      ensures old(component).None? ==> State() == old(State())
      ensures old(component).Some? ==> State() == old(State()).(component := Some(Spread(old(component).value, patch)))
    {
      if component.Some? {
        component := Some(Spread(component.value, patch));
      }
    }

    /** `clearComponent`: back to the initial state, whatever the state was (so twice is once). */
    method ClearComponent()
      modifies this
      ensures State() == InitialState
    {
      component := None;
      error := None;
      loading := false;
    }

    /** `setLoading`: changes `loading` only. */
    method SetLoading(payload: bool)
      modifies this
      ensures State() == old(State()).(loading := payload)
    {
      loading := payload;
    }

    /** `setError`: changes `error` only. */
    method SetError(payload: Option<string>)
      modifies this
      ensures State() == old(State()).(error := payload)
    {
      error := payload;
    }
  }
}
