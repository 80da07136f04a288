/** The filter store and the selection engine of the zoneless filter panel,
    on values: the two-level catalogue of filters and sub-filters, the
    transformations behind each mutation, the counts behind each query, and
    the lemmas relating them. */
module FilterModel {
  import opened Wrappers

  datatype SubFilter = SubFilter(id: string, name: string, selected: bool)

  /** A top-level filter; `subFilters` is absent for a filter without children. */
  datatype Filter = Filter(id: string, name: string, selected: bool, subFilters: Option<seq<SubFilter>>)

  /** The children of `f`; an absent list reads as an empty one. */
  function Subs(f: Filter): seq<SubFilter> {
    if f.subFilters.Some? then f.subFilters.value else []
  }

  /** The fixed catalogue every session starts from: five filters, of which
      only "sales" has children (four of them), nothing selected. */
  function DefaultCatalogue(): seq<Filter> {
    [
      Filter("sales", "Продажи", false, Some([
        SubFilter("unsorted", "Неразобранное", false),
        SubFilter("negotiation", "Переговоры", false),
        SubFilter("decision", "Принимают решение", false),
        SubFilter("successful", "Успешно", false)
      ])),
      Filter("staff", "Сотрудники", false, None),
      Filter("partners", "Партнёры", false, None),
      Filter("event", "Ивент", false, None),
      Filter("incoming_requests", "Входящие обращения", false, None)
    ]
  }

  // ---------------------------------------------------------------------
  // Predicates over flags
  // ---------------------------------------------------------------------

  predicate SomeSubSelected(subs: seq<SubFilter>) {
    exists k :: 0 <= k < |subs| && subs[k].selected
  }

  predicate SomeSubUnselected(subs: seq<SubFilter>) {
    exists k :: 0 <= k < |subs| && !subs[k].selected
  }

  predicate AllSubsSelected(subs: seq<SubFilter>) {
    forall k :: 0 <= k < |subs| ==> subs[k].selected
  }

  /** A filter takes part in the selection: its own flag or one of its children's is set. */
  predicate Active(f: Filter) {
    f.selected || SomeSubSelected(Subs(f))
  }

  /** Something anywhere in the list is selected. */
  predicate AnySelected(fs: seq<Filter>) {
    exists i :: 0 <= i < |fs| && Active(fs[i])
  }

  /** A filter with its whole subtree selected. */
  predicate FullySelected(f: Filter) {
    match f.subFilters
    case Some(subs) => f.selected && AllSubsSelected(subs)
    case None => f.selected
  }

  /** Every filter and every sub-filter is selected. */
  predicate AllFiltersSelected(fs: seq<Filter>) {
    forall i :: 0 <= i < |fs| ==> FullySelected(fs[i])
  }

  /** The parent/child invariant: a filter with children is selected exactly
      when all of its children are. */
  predicate FilterConsistent(f: Filter) {
    |Subs(f)| > 0 ==> (f.selected <==> AllSubsSelected(Subs(f)))
  }

  predicate Consistent(fs: seq<Filter>) {
    forall i :: 0 <= i < |fs| ==> FilterConsistent(fs[i])
  }

  // ---------------------------------------------------------------------
  // Shape: everything but the flags
  // ---------------------------------------------------------------------

  predicate SameFilterShape(a: Filter, b: Filter) {
    a.id == b.id && a.name == b.name &&
    a.subFilters.Some? == b.subFilters.Some? &&
    |Subs(a)| == |Subs(b)| &&
    forall k :: 0 <= k < |Subs(a)| ==> Subs(a)[k].id == Subs(b)[k].id && Subs(a)[k].name == Subs(b)[k].name
  }

  /** Same ids, names, hierarchy and order; only `selected` flags may differ. */
  predicate SameShape(a: seq<Filter>, b: seq<Filter>) {
    |a| == |b| && forall i :: 0 <= i < |a| ==> SameFilterShape(a[i], b[i])
  }

  // ---------------------------------------------------------------------
  // Transformations behind the mutations
  // ---------------------------------------------------------------------

  /** Every sub-filter with its flag set to `v`. */
  function MarkSubs(subs: seq<SubFilter>, v: bool): seq<SubFilter> {
    seq(|subs|, k requires 0 <= k < |subs| => subs[k].(selected := v))
  }

  /** `f` and all of its children with their flags set to `v`. */
  function WithSelection(f: Filter, v: bool): Filter {
    f.(selected := v,
       subFilters := if f.subFilters.Some? then Some(MarkSubs(f.subFilters.value, v)) else None)
  }

  /** The store after selectAll (`v` true) or clearSelection (`v` false). */
  function WithAllSelections(fs: seq<Filter>, v: bool): seq<Filter> {
    seq(|fs|, i requires 0 <= i < |fs| => WithSelection(fs[i], v))
  }

  /** The filter after toggleFilter: its flag negated and pushed down to its children. */
  function ToggledFilter(f: Filter): Filter {
    WithSelection(f, !f.selected)
  }

  /** The filter after toggleSubFilter on child `j`: that child negated, then
      the parent cleared if some child is unselected and set otherwise. */
  function ToggledSubFilter(f: Filter, j: nat): Filter
    requires j < |Subs(f)|
  {
    var subs := f.subFilters.value;
    var subs' := subs[j := subs[j].(selected := !subs[j].selected)];
    f.(subFilters := Some(subs'), selected := !SomeSubUnselected(subs'))
  }

  // ---------------------------------------------------------------------
  // Counts
  // ---------------------------------------------------------------------

  function CountSelectedSubs(subs: seq<SubFilter>): nat {
    if |subs| == 0 then 0
    else CountSelectedSubs(subs[..|subs| - 1]) + (if subs[|subs| - 1].selected then 1 else 0)
  }

  /** Number of filters whose own flag is set. */
  function FilterFlagCount(fs: seq<Filter>): nat {
    if |fs| == 0 then 0
    else FilterFlagCount(fs[..|fs| - 1]) + (if fs[|fs| - 1].selected then 1 else 0)
  }

  /** Number of sub-filters, over the whole list, whose flag is set. */
  function SubFlagCount(fs: seq<Filter>): nat {
    if |fs| == 0 then 0
    else SubFlagCount(fs[..|fs| - 1]) + CountSelectedSubs(Subs(fs[|fs| - 1]))
  }

  /** What getSelectedCount computes: every set flag, parents and children alike. */
  function SelectedCount(fs: seq<Filter>): nat {
    FilterFlagCount(fs) + SubFlagCount(fs)
  }

  /** Number of flags in the list: one per filter and one per sub-filter. */
  function TotalItems(fs: seq<Filter>): nat {
    if |fs| == 0 then 0
    else TotalItems(fs[..|fs| - 1]) + 1 + |Subs(fs[|fs| - 1])|
  }

  /** Number of filters that take part in the selection (the summary's first count). */
  function ActiveFilterCount(fs: seq<Filter>): nat {
    if |fs| == 0 then 0
    else ActiveFilterCount(fs[..|fs| - 1]) + (if Active(fs[|fs| - 1]) then 1 else 0)
  }

  // ---------------------------------------------------------------------
  // The default catalogue
  // ---------------------------------------------------------------------

  lemma DefaultCatalogueFacts()
    ensures var c := DefaultCatalogue();
      |c| == 5 && c[0].id == "sales" && |Subs(c[0])| == 4 &&
      (forall i :: 1 <= i < 5 ==> c[i].subFilters == None) &&
      Consistent(c) && !AnySelected(c) && TotalItems(c) == 9
  {
    var c := DefaultCatalogue();
    assert TotalItems(c[..1]) == 5 by { assert c[..1][..0] == []; }
    assert TotalItems(c[..2]) == 6 by { assert c[..2][..1] == c[..1]; }
    assert TotalItems(c[..3]) == 7 by { assert c[..3][..2] == c[..2]; }
    assert TotalItems(c[..4]) == 8 by { assert c[..4][..3] == c[..3]; }
    assert c[..5][..4] == c[..4] && c[..5] == c;
    assert !AllSubsSelected(Subs(c[0])) by { assert !Subs(c[0])[0].selected; }
  }

  // ---------------------------------------------------------------------
  // Mutations: what each one does to flags and shape
  // ---------------------------------------------------------------------

  lemma WithSelectionFacts(f: Filter, v: bool)
    ensures var g := WithSelection(f, v);
      SameFilterShape(f, g) && g.selected == v &&
      (forall k :: 0 <= k < |Subs(g)| ==> Subs(g)[k].selected == v) &&
      FilterConsistent(g) && (FullySelected(g) <==> v) && (Active(g) <==> v)
  {
    var g := WithSelection(f, v);
    assert forall k :: 0 <= k < |Subs(g)| ==> Subs(g)[k].selected == v;
    if |Subs(g)| > 0 {
      if v {
        assert AllSubsSelected(Subs(g));
      } else {
        assert !Subs(g)[0].selected;
      }
    }
  }

  /** selectAll / clearSelection set every flag to `v` and leave the shape alone. */
  lemma {:induction false} WithAllSelectionsFacts(fs: seq<Filter>, v: bool)
    ensures var r := WithAllSelections(fs, v);
      SameShape(fs, r) &&
      (forall i :: 0 <= i < |r| ==> r[i].selected == v) &&
      (forall i, k :: 0 <= i < |r| && 0 <= k < |Subs(r[i])| ==> Subs(r[i])[k].selected == v) &&
      Consistent(r) &&
      (v ==> AllFiltersSelected(r)) && (!v ==> !AnySelected(r))
  {
    var r := WithAllSelections(fs, v);
    forall i | 0 <= i < |r|
      ensures SameFilterShape(fs[i], r[i]) && r[i].selected == v && FilterConsistent(r[i])
      ensures forall k :: 0 <= k < |Subs(r[i])| ==> Subs(r[i])[k].selected == v
      ensures FullySelected(r[i]) == v && Active(r[i]) == v
    {
      WithSelectionFacts(fs[i], v);
    }
  }

  /** selectAll and clearSelection are idempotent. */
  lemma WithAllSelectionsIdempotent(fs: seq<Filter>, v: bool)
    ensures WithAllSelections(WithAllSelections(fs, v), v) == WithAllSelections(fs, v)
  {
    var once := WithAllSelections(fs, v);
    var twice := WithAllSelections(once, v);
    forall i | 0 <= i < |fs| ensures twice[i] == once[i] {
      var f := once[i];
      if f.subFilters.Some? {
        assert MarkSubs(f.subFilters.value, v) == f.subFilters.value;
      }
    }
  }

  /** toggleFilter: the flag is negated, every child takes the new value, the shape stays. */
  lemma ToggledFilterFacts(f: Filter)
    ensures var g := ToggledFilter(f);
      SameFilterShape(f, g) && g.selected == !f.selected &&
      (forall k :: 0 <= k < |Subs(g)| ==> Subs(g)[k].selected == g.selected) &&
      FilterConsistent(g)
  {
    WithSelectionFacts(f, !f.selected);
  }

  /** toggleSubFilter: only child `j` is negated, its siblings are untouched,
      and the parent's flag becomes "every child is selected". */
  lemma ToggledSubFilterFacts(f: Filter, j: nat)
    requires j < |Subs(f)|
    ensures var g := ToggledSubFilter(f, j);
      SameFilterShape(f, g) &&
      Subs(g)[j].selected == !Subs(f)[j].selected &&
      (forall k :: 0 <= k < |Subs(f)| && k != j ==> Subs(g)[k] == Subs(f)[k]) &&
      (g.selected <==> AllSubsSelected(Subs(g))) &&
      FilterConsistent(g)
  {
  }

  // The parent/child invariant holds at start-up (DefaultCatalogueFacts) and
  // every mutation keeps it.

  lemma ConsistentAfterToggleFilter(fs: seq<Filter>, i: nat)
    requires i < |fs| && Consistent(fs)
    ensures Consistent(fs[i := ToggledFilter(fs[i])])
  {
    ToggledFilterFacts(fs[i]);
  }

  lemma ConsistentAfterToggleSubFilter(fs: seq<Filter>, i: nat, j: nat)
    requires i < |fs| && j < |Subs(fs[i])| && Consistent(fs)
    ensures Consistent(fs[i := ToggledSubFilter(fs[i], j)])
  {
    ToggledSubFilterFacts(fs[i], j);
  }

  lemma ConsistentAfterWithAllSelections(fs: seq<Filter>, v: bool)
    ensures Consistent(WithAllSelections(fs, v))
  {
    WithAllSelectionsFacts(fs, v);
  }

  // ---------------------------------------------------------------------
  // Counting identities
  // ---------------------------------------------------------------------

  lemma {:induction false} CountSelectedSubsFacts(subs: seq<SubFilter>)
    ensures CountSelectedSubs(subs) <= |subs|
    ensures CountSelectedSubs(subs) == 0 <==> !SomeSubSelected(subs)
    ensures CountSelectedSubs(subs) == |subs| <==> AllSubsSelected(subs)
  {
    if |subs| > 0 {
      var init := subs[..|subs| - 1];
      CountSelectedSubsFacts(init);
      assert forall k :: 0 <= k < |init| ==> init[k] == subs[k];
      if SomeSubSelected(subs) && !subs[|subs| - 1].selected {
        var k :| 0 <= k < |subs| && subs[k].selected;
        assert init[k].selected;
      }
      if AllSubsSelected(init) && subs[|subs| - 1].selected {
        assert AllSubsSelected(subs);
      }
    }
  }

  /** getSelectedCount is zero exactly when nothing at all is selected. */
  lemma {:induction false} SelectedCountZeroIff(fs: seq<Filter>)
    ensures SelectedCount(fs) == 0 <==> !AnySelected(fs)
  {
    if |fs| > 0 {
      var init, last := fs[..|fs| - 1], fs[|fs| - 1];
      SelectedCountZeroIff(init);
      CountSelectedSubsFacts(Subs(last));
      assert forall i :: 0 <= i < |init| ==> init[i] == fs[i];
      if AnySelected(fs) && !Active(last) {
        var i :| 0 <= i < |fs| && Active(fs[i]);
        assert Active(init[i]);
      }
      if AnySelected(init) {
        var i :| 0 <= i < |init| && Active(init[i]);
        assert Active(fs[i]);
      }
    }
  }

  /** getSelectedCount never exceeds the number of items, and reaches it exactly
      when allFiltersSelected holds. */
  lemma {:induction false} SelectedCountFullIff(fs: seq<Filter>)
    ensures SelectedCount(fs) <= TotalItems(fs)
    ensures SelectedCount(fs) == TotalItems(fs) <==> AllFiltersSelected(fs)
  {
    if |fs| > 0 {
      var init, last := fs[..|fs| - 1], fs[|fs| - 1];
      SelectedCountFullIff(init);
      CountSelectedSubsFacts(Subs(last));
      assert forall i :: 0 <= i < |init| ==> init[i] == fs[i];
      assert FullySelected(last) <==> last.selected && AllSubsSelected(Subs(last));
    }
  }

  lemma {:induction false} TotalItemsOfSameShape(a: seq<Filter>, b: seq<Filter>)
    requires SameShape(a, b)
    ensures TotalItems(a) == TotalItems(b)
  {
    if |a| > 0 {
      TotalItemsOfSameShape(a[..|a| - 1], b[..|b| - 1]);
    }
  }

  /** After selectAll the count equals the item count; after clearSelection it is zero. */
  lemma SelectedCountAfterWithAllSelections(fs: seq<Filter>, v: bool)
    ensures SelectedCount(WithAllSelections(fs, v)) == if v then TotalItems(fs) else 0
  {
    var r := WithAllSelections(fs, v);
    WithAllSelectionsFacts(fs, v);
    TotalItemsOfSameShape(fs, r);
    if v { SelectedCountFullIff(r); } else { SelectedCountZeroIff(r); }
  }

  /** The summary's filter count: zero exactly when nothing is selected, at
      most the number of filters, and positive whenever a child is selected. */
  lemma {:induction false} ActiveFilterCountFacts(fs: seq<Filter>)
    ensures ActiveFilterCount(fs) <= |fs|
    ensures ActiveFilterCount(fs) == 0 <==> !AnySelected(fs)
    ensures SubFlagCount(fs) > 0 ==> ActiveFilterCount(fs) > 0
  {
    if |fs| > 0 {
      var init, last := fs[..|fs| - 1], fs[|fs| - 1];
      ActiveFilterCountFacts(init);
      CountSelectedSubsFacts(Subs(last));
      assert forall i :: 0 <= i < |init| ==> init[i] == fs[i];
      if AnySelected(fs) && !Active(last) {
        var i :| 0 <= i < |fs| && Active(fs[i]);
        assert Active(init[i]);
      }
      if AnySelected(init) {
        var i :| 0 <= i < |init| && Active(init[i]);
        assert Active(fs[i]);
      }
    }
  }
}
