/** The filter bar above the issue list: three dropdowns (status, type, sort)
    held as local state, and four handlers that update the state and emit a
    filter spec to the list. Each handler is a pure transition returning the
    new dropdown state together with the spec it emits. */
module IssueFilter {
  import opened Types
  import opened ViewPipeline

  /** A dropdown that offers "all" besides its values. */
  datatype Selection<T> = All | Only(value: T)

  datatype FilterState = FilterState(status: Selection<StatusType>, kind: Selection<IssueType>, sortBy: string)

  /** What a handler produces: the new dropdown state and the emitted spec. */
  datatype Transition = Transition(state: FilterState, emitted: FilterSpec)

  /** "all" means no filter on that dimension. */
  function Narrowing<T>(sel: Selection<T>): (r: Option<T>)
    ensures r.None? <==> sel.All?
    ensures sel.Only? ==> r == Some(sel.value)
  {
    match sel
    case All => None
    case Only(v) => Some(v)
  }

  /** Dropdowns on first render: all statuses, all types, newest first,
      which is what the list's own initial spec asks for. */
  function InitialState(): (r: FilterState)
    ensures Shown(r) == ListInitialSpec()
  {
    FilterState(All, All, "newest")
  }

  /** The spec the list starts with, before any handler runs. */
  function ListInitialSpec(): FilterSpec
  {
    FilterSpec(None, None, Some("newest"))
  }

  /** The spec that matches what the dropdowns show. */
  function Shown(st: FilterState): FilterSpec
  {
    FilterSpec(Narrowing(st.status), Narrowing(st.kind), Some(st.sortBy))
  }

  /** `handleStatusChange`: the status dropdown takes `v`; type and sort are
      carried through from the current state. */
  function HandleStatusChange(st: FilterState, v: Selection<StatusType>): (r: Transition)
    ensures r.state.status == v && r.state.kind == st.kind && r.state.sortBy == st.sortBy
    ensures r.emitted.status.None? <==> v.All?
    ensures v.Only? ==> r.emitted.status == Some(v.value)
    ensures r.emitted.kind == Narrowing(st.kind) && r.emitted.sortBy == Some(st.sortBy)
    ensures r.emitted == Shown(r.state)
  {
    Transition(st.(status := v), FilterSpec(Narrowing(v), Narrowing(st.kind), Some(st.sortBy)))
  }

  /** `handleTypeChange`: the mirror image for the type dropdown. */
  function HandleTypeChange(st: FilterState, v: Selection<IssueType>): (r: Transition)
    ensures r.state.kind == v && r.state.status == st.status && r.state.sortBy == st.sortBy
    ensures r.emitted.kind.None? <==> v.All?
    ensures v.Only? ==> r.emitted.kind == Some(v.value)
    ensures r.emitted.status == Narrowing(st.status) && r.emitted.sortBy == Some(st.sortBy)
    ensures r.emitted == Shown(r.state)
  {
    Transition(st.(kind := v), FilterSpec(Narrowing(st.status), Narrowing(v), Some(st.sortBy)))
  }

  /** `handleSortChange`: the new sort value with the current filters. */
  function HandleSortChange(st: FilterState, v: string): (r: Transition)
    ensures r.state.sortBy == v && r.state.status == st.status && r.state.kind == st.kind
    ensures r.emitted.sortBy == Some(v)
    ensures r.emitted.status == Narrowing(st.status) && r.emitted.kind == Narrowing(st.kind)
    ensures r.emitted == Shown(r.state)
  {
    Transition(st.(sortBy := v), FilterSpec(Narrowing(st.status), Narrowing(st.kind), Some(v)))
  }

  /** `resetFilters` as written: the dropdowns return to their initial
      values, but the emitted spec is empty, with no `sortBy`. */
  function ResetFilters(st: FilterState): (r: Transition)
    ensures r.state == InitialState()
    ensures r.emitted.status.None? && r.emitted.kind.None? && r.emitted.sortBy.None?
  {
    Transition(InitialState(), FilterSpec(None, None, None))
  }

  /** `resetFilters` as evidently intended: emit the spec the reset dropdowns
      show, which is also the list's initial spec. */
  function ResetFiltersConsistent(st: FilterState): (r: Transition)
    ensures r.state == InitialState()
    ensures r.emitted == Shown(r.state)
    ensures r.emitted == ListInitialSpec()
  {
    Transition(InitialState(), Shown(InitialState()))
  }

  /** On first render the list's spec is exactly what the dropdowns show, and
      it sorts newest first with no filter. */
  lemma InitialStatesAgree()
    ensures Shown(InitialState()) == ListInitialSpec()
    ensures OrderOf(ListInitialSpec().sortBy) == Some(Newest)
    ensures forall x :: Admits(ListInitialSpec(), x)
  {
  }

  /** The as-written reset breaks the agreement the other three handlers keep:
      the dropdown reads "newest" but the emitted spec selects no comparator,
      so the list is shown in store order. */
  lemma ResetDisagreesWithDropdowns(st: FilterState)
    ensures ResetFilters(st).emitted != Shown(ResetFilters(st).state)
    ensures OrderOf(ResetFilters(st).emitted.sortBy).None?
    ensures OrderOf(Shown(ResetFilters(st).state).sortBy) == Some(Newest)
    ensures forall s :: Project(s, ResetFilters(st).emitted) == s
  {
    forall s ensures Project(s, ResetFilters(st).emitted) == s {
      var e := ResetFilters(st).emitted;
      var a := KeepIf(s, None);
      assert Selected(s, e) == KeepIf(a, None);
    }
  }
}
