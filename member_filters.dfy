/**
 * The filter panel above the team list: three selects (broker, segment,
 * specialization), a "clear all" button and one removable chip per active
 * criterion. The panel keeps its own copy of the criteria and reports every
 * new value to its parent through `onFilterChange`.
 */
module MemberFilters {
  import opened Entities
  import Text

  /** The three keys `handleFilterChange` is called with. */
  datatype FilterName = BrokerFilter | SegmentFilter | SpecializationFilter

  /** `filters[name]`. */
  function Get(f: Filters, name: FilterName): string {
    match name
    case BrokerFilter => f.broker
    case SegmentFilter => f.segment
    case SpecializationFilter => f.specialization
  }

  /** `{ ...filters, [name]: value }`: the named field takes `value`, the other two keep theirs. */
  function WithFilter(f: Filters, name: FilterName, value: string): (r: Filters)
    ensures Get(r, name) == value
    ensures forall other :: other != name ==> Get(r, other) == Get(f, other)
  {
    match name
    case BrokerFilter => f.(broker := value)
    case SegmentFilter => f.(segment := value)
    case SpecializationFilter => f.(specialization := value)
  }

  /** `filters.broker || filters.segment || filters.specialization`, read as a truth value. */
  function HasActiveFilters(f: Filters): (active: bool)
    ensures active <==> exists name :: Get(f, name) != ""
    ensures !active <==> f == NoFilters
  {
    assert Get(f, BrokerFilter) == f.broker;
    assert Get(f, SegmentFilter) == f.segment;
    assert Get(f, SpecializationFilter) == f.specialization;
    f.broker != "" || f.segment != "" || f.specialization != ""
  }

  /** The chip text for a specialization: every underscore becomes a space. */
  function SpecializationLabel(s: string): (caption: string)
    ensures |caption| == |s|
    ensures '_' !in caption
    ensures forall i :: 0 <= i < |s| && s[i] != '_' ==> caption[i] == s[i]
    ensures forall i :: 0 <= i < |s| && s[i] == '_' ==> caption[i] == ' '
  {
    Text.ReplaceAll(s, '_', ' ')
  }

  /**
   * Removing one chip clears exactly that criterion, and filters stay active
   * exactly when one of the other two criteria is still set.
   */
  lemma RemovingChipClearsOnlyIt(f: Filters, name: FilterName)
    ensures Get(WithFilter(f, name, ""), name) == ""
    ensures forall other :: other != name ==> Get(WithFilter(f, name, ""), other) == Get(f, other)
    ensures HasActiveFilters(WithFilter(f, name, "")) <==> exists other :: other != name && Get(f, other) != ""
  {
    var r := WithFilter(f, name, "");
    if HasActiveFilters(r) {
      var other :| Get(r, other) != "";
      assert other != name && Get(f, other) != "";
    }
  }

  /** Setting a criterion to a non-empty value always makes the filters active. */
  lemma SettingMakesActive(f: Filters, name: FilterName, value: string)
    requires value != ""
    ensures HasActiveFilters(WithFilter(f, name, value))
  {
    assert Get(WithFilter(f, name, value), name) != "";
  }

  /** The panel's own state: its copy of the criteria. */
  class MemberFiltersPanel {
    var filters: Filters

    /** `useState(currentFilters)`. */
    constructor (currentFilters: Filters)
      ensures filters == currentFilters
    {
      filters := currentFilters;
    }

    /** Whether the "Clear all filters" button and the chip row are shown. */
    function ShowsActiveFilters(): (shown: bool)
      reads this
      ensures shown <==> filters != NoFilters
    {
      HasActiveFilters(filters)
    }

    /**
     * A select changed: the new criteria are stored locally and the same
     * value is handed to `onFilterChange` (returned here as `emitted`).
     */
    method HandleFilterChange(name: FilterName, value: string) returns (emitted: Filters)
      modifies this
      ensures emitted == WithFilter(old(filters), name, value)
      ensures filters == emitted
    {
      emitted := WithFilter(filters, name, value);
      filters := emitted;
    }

    /** The "×" on a chip: `handleFilterChange(name, '')`. */
    method RemoveChip(name: FilterName) returns (emitted: Filters)
      modifies this
      ensures filters == emitted
      ensures Get(filters, name) == ""
      ensures forall other :: other != name ==> Get(filters, other) == Get(old(filters), other)
    {
      emitted := HandleFilterChange(name, "");
    }

    /** "Clear all filters": every criterion empty, stored and emitted. */
    method ClearFilters() returns (emitted: Filters)
      modifies this
      ensures emitted == NoFilters && filters == emitted
      ensures filters.broker == "" && filters.segment == "" && filters.specialization == ""
      ensures !HasActiveFilters(filters)
    {
      emitted := NoFilters;
      filters := emitted;
    }

    /** The effect on `currentFilters`: the local copy is reset to the prop. */
    method SyncWithProps(currentFilters: Filters)
      modifies this
      ensures filters == currentFilters
    {
      filters := currentFilters;
    }
  }
}
