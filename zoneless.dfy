/** The zoneless filter panel component: the filter list and the open flag it
    mutates in place, and the browser store it writes through to, reduced to
    one slot under the fixed key. Filters and sub-filters are addressed by
    their positions in the list. */
module Zoneless {
  import opened Wrappers
  import opened FilterModel
  import opened Display

  /** The inner forEach of selectAll, clearSelection and toggleFilter: every
      sub-filter's flag set to `v`. */
  method MarkSubFilters(subs: seq<SubFilter>, v: bool) returns (r: seq<SubFilter>)
    ensures r == MarkSubs(subs, v)
  {
    r := subs;
    var k := 0;
    while k < |r|
      invariant 0 <= k <= |r| == |subs|
      invariant forall m :: 0 <= m < k ==> r[m] == subs[m].(selected := v)
      invariant forall m :: k <= m < |r| ==> r[m] == subs[m]
    {
      r := r[k := r[k].(selected := v)];
      k := k + 1;
    }
  }

  /** The outer forEach of selectAll (`v` true) and clearSelection (`v` false). */
  method MarkFilters(fs: seq<Filter>, v: bool) returns (r: seq<Filter>)
    ensures r == WithAllSelections(fs, v)
  {
    r := fs;
    var i := 0;
    while i < |r|
      invariant 0 <= i <= |r| == |fs|
      invariant forall m :: 0 <= m < i ==> r[m] == WithSelection(fs[m], v)
      invariant forall m :: i <= m < |r| ==> r[m] == fs[m]
    {
      var filter := r[i].(selected := v);
      if filter.subFilters.Some? {
        var subs := MarkSubFilters(filter.subFilters.value, v);
        filter := filter.(subFilters := Some(subs));
      }
      r := r[i := filter];
      i := i + 1;
    }
  }

  class ZonelessComponent {
    var filters: seq<Filter>
    var isListOpen: bool
    /** The store's single slot under the fixed key; None until first written. */
    var stored: Option<seq<Filter>>
    /** Every snapshot written to the slot, oldest first. */
    ghost var saves: seq<seq<Filter>>

    /** A new component: empty list, closed panel, and whatever an earlier
        session left in the store. */
    constructor (slot: Option<seq<Filter>>)
      ensures filters == [] && !isListOpen
      ensures stored == slot && saves == []
    {
      filters := [];
      isListOpen := false;
      stored := slot;
      saves := [];
    }

    /** ngOnInit: the default catalogue, then the stored snapshot if there is one. */
    method NgOnInit()
      modifies this
      ensures filters == if stored.Some? then stored.value else DefaultCatalogue()
      ensures isListOpen == old(isListOpen) && stored == old(stored) && saves == old(saves)
    {
      InitFilters();
      LoadStateFromDB();
    }

    method InitFilters()
      modifies this
      ensures filters == DefaultCatalogue() && Consistent(filters)
      ensures isListOpen == old(isListOpen) && stored == old(stored) && saves == old(saves)
    {
      filters := DefaultCatalogue();
      DefaultCatalogueFacts();
    }

    /** loadStateFromDB: a present snapshot replaces the list, an absent one
        leaves it as it is. */
    method LoadStateFromDB()
      modifies this
      ensures filters == if stored.Some? then stored.value else old(filters)
      ensures isListOpen == old(isListOpen) && stored == old(stored) && saves == old(saves)
    {
      if stored.Some? {
        filters := stored.value;
      }
    }

    /** saveStateToDB: one write of the current list to the slot. */
    method SaveStateToDB()
      modifies this
      ensures stored == Some(filters) && saves == old(saves) + [filters]
      ensures filters == old(filters) && isListOpen == old(isListOpen)
    {
      stored := Some(filters);
      saves := saves + [filters];
    }

    /** toggleList: set the panel to `open` when given, flip it otherwise;
        a panel that ends up closed is saved. */
    method ToggleList(open: Option<bool>)
      modifies this
      ensures isListOpen == if open.Some? then open.value else !old(isListOpen)
      ensures filters == old(filters)
      ensures !isListOpen ==> stored == Some(filters) && saves == old(saves) + [filters]
      ensures isListOpen ==> stored == old(stored) && saves == old(saves)
    {
      if open.Some? {
        isListOpen := open.value;
      } else {
        isListOpen := !isListOpen;
      }
      if !isListOpen {
        SaveStateToDB();
      }
    }

    /** selectAll: every flag set, then one save. */
    method SelectAll()
      modifies this
      ensures filters == WithAllSelections(old(filters), true)
      ensures AllFiltersSelected(filters) && SelectedCount(filters) == TotalItems(old(filters))
      ensures SameShape(old(filters), filters) && Consistent(filters)
      ensures isListOpen == old(isListOpen)
      ensures stored == Some(filters) && saves == old(saves) + [filters]
    {
      filters := MarkFilters(filters, true);
      WithAllSelectionsFacts(old(filters), true);
      SelectedCountAfterWithAllSelections(old(filters), true);
      SaveStateToDB();
    }

    /** clearSelection: every flag cleared, then one save. */
    method ClearSelection()
      modifies this
      ensures filters == WithAllSelections(old(filters), false)
      ensures !AnySelected(filters) && SelectedCount(filters) == 0
      ensures SameShape(old(filters), filters) && Consistent(filters)
      ensures isListOpen == old(isListOpen)
      ensures stored == Some(filters) && saves == old(saves) + [filters]
    {
      filters := MarkFilters(filters, false);
      WithAllSelectionsFacts(old(filters), false);
      SelectedCountAfterWithAllSelections(old(filters), false);
      SaveStateToDB();
    }

    /** toggleFilter on the filter at position `i`: its flag negated and
        copied to its children, nothing else touched, then one save. */
    method ToggleFilter(i: nat)
      requires i < |filters|
      modifies this
      ensures filters == old(filters)[i := ToggledFilter(old(filters)[i])]
      ensures filters[i].selected == !old(filters)[i].selected
      ensures forall k :: 0 <= k < |Subs(filters[i])| ==> Subs(filters[i])[k].selected == filters[i].selected
      ensures SameShape(old(filters), filters)
      ensures Consistent(old(filters)) ==> Consistent(filters)
      ensures isListOpen == old(isListOpen)
      ensures stored == Some(filters) && saves == old(saves) + [filters]
    {
      var filter := filters[i];
      filter := filter.(selected := !filter.selected);
      if filter.subFilters.Some? {
        var subs := MarkSubFilters(filter.subFilters.value, filter.selected);
        filter := filter.(subFilters := Some(subs));
      }
      filters := filters[i := filter];
      ToggledFilterFacts(old(filters)[i]);
      if Consistent(old(filters)) {
        ConsistentAfterToggleFilter(old(filters), i);
      }
      SaveStateToDB();
    }

    /** toggleSubFilter on child `j` of the filter at position `i`: that child
        negated, the parent recomputed from its children, then one save. */
    method ToggleSubFilter(i: nat, j: nat)
      requires i < |filters| && j < |Subs(filters[i])|
      modifies this
      ensures filters == old(filters)[i := ToggledSubFilter(old(filters)[i], j)]
      ensures Subs(filters[i])[j].selected == !Subs(old(filters)[i])[j].selected
      ensures forall k :: 0 <= k < |Subs(filters[i])| && k != j ==> Subs(filters[i])[k] == Subs(old(filters)[i])[k]
      ensures filters[i].selected <==> AllSubsSelected(Subs(filters[i]))
      ensures SameShape(old(filters), filters)
      ensures Consistent(old(filters)) ==> Consistent(filters)
      ensures isListOpen == old(isListOpen)
      ensures stored == Some(filters) && saves == old(saves) + [filters]
    {
      var filter := filters[i];
      var subs := filter.subFilters.value;
      subs := subs[j := subs[j].(selected := !subs[j].selected)];
      if SomeSubUnselected(subs) {
        filter := filter.(subFilters := Some(subs), selected := false);
      } else {
        filter := filter.(subFilters := Some(subs), selected := true);
      }
      filters := filters[i := filter];
      ToggledSubFilterFacts(old(filters)[i], j);
      if Consistent(old(filters)) {
        ConsistentAfterToggleSubFilter(old(filters), i, j);
      }
      SaveStateToDB();
    }

    /** getSelectedCount: every set flag, parents and children alike. */
    method GetSelectedCount() returns (count: nat)
      ensures count == FilterFlagCount(filters) + SubFlagCount(filters)
      ensures count == 0 <==> !AnySelected(filters)
    {
      count := 0;
      var i := 0;
      while i < |filters|
        invariant 0 <= i <= |filters|
        invariant count == FilterFlagCount(filters[..i]) + SubFlagCount(filters[..i])
      {
        var filter := filters[i];
        if filter.selected {
          count := count + 1;
        }
        if filter.subFilters.Some? {
          count := count + CountSelectedSubs(filter.subFilters.value);
        }
        assert filters[..i + 1][..i] == filters[..i];
        i := i + 1;
      }
      assert filters[..i] == filters;
      SelectedCountZeroIff(filters);
    }

    /** handleButtonClick: a closed panel opens without touching the
        selection or the store; an open one stays open and clears the
        selection when something is selected, selects everything otherwise,
        saving once either way. */
    method HandleButtonClick()
      modifies this
      ensures isListOpen
      ensures !old(isListOpen) ==>
        filters == old(filters) && stored == old(stored) && saves == old(saves)
      ensures old(isListOpen) ==>
        filters == WithAllSelections(old(filters), !AnySelected(old(filters))) &&
        stored == Some(filters) && saves == old(saves) + [filters]
      ensures old(isListOpen) && AnySelected(old(filters)) ==> SelectedCount(filters) == 0
      ensures old(isListOpen) && !AnySelected(old(filters)) ==> AllFiltersSelected(filters)
    {
      if !isListOpen {
        ToggleList(Some(true));
      } else {
        if AnySelected(filters) {
          ClearSelection();
        } else {
          SelectAll();
        }
      }
    }

    /** clickout: a click outside an open panel closes it and saves once;
        a click inside, a closed panel or a missing container changes nothing. */
    method Clickout(hasContainer: bool, clickedInside: bool)
      modifies this
      ensures filters == old(filters)
      ensures old(isListOpen) && hasContainer && !clickedInside ==>
        !isListOpen && stored == Some(filters) && saves == old(saves) + [filters]
      ensures !(old(isListOpen) && hasContainer && !clickedInside) ==>
        isListOpen == old(isListOpen) && stored == old(stored) && saves == old(saves)
    {
      if isListOpen && hasContainer {
        if !clickedInside {
          isListOpen := false;
          SaveStateToDB();
        }
      }
    }
  }

  /** Save, then start a new session over the same store: the new component
      shows exactly the list the old one saved, with its panel closed. */
  method SaveThenReload(c: ZonelessComponent) returns (next: ZonelessComponent)
    modifies c
    ensures fresh(next)
    ensures next.filters == old(c.filters) && !next.isListOpen
    ensures next.stored == Some(old(c.filters))
    ensures c.filters == old(c.filters) && c.isListOpen == old(c.isListOpen)
    ensures c.stored == Some(old(c.filters)) && c.saves == old(c.saves) + [old(c.filters)]
  {
    c.SaveStateToDB();
    next := new ZonelessComponent(c.stored);
    next.NgOnInit();
  }
}
