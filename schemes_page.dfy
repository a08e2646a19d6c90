/**
 * The scheme filter of src/pages/SchemesPage.tsx: the `filteredSchemes`
 * computation, and the `filter` state updated by the toggle group's
 * `onValueChange` only when the toggled value is truthy. The filter is held as
 * the string the toggle group reports, since the page casts it unchecked.
 */
module SchemesPage {
  import opened SharedTypes

  /** The toggle values the page offers. */
  const FilterValues: set<string> := {"All", "Loan", "Subsidy"}

  /** A scheme's `type` as the string the filter compares with. */
  function TypeName(k: SchemeType): (name: string)
    ensures name in FilterValues && name != "All"
  {
    match k
    case Loan => "Loan"
    case Subsidy => "Subsidy"
  }

  /** `schemes.filter(scheme => scheme.type === name)`. */
  function OfType(schemes: seq<Scheme>, name: string): (r: seq<Scheme>)
    ensures |r| <= |schemes|
    ensures forall s :: s in r ==> s in schemes && TypeName(s.kind) == name
    ensures forall s :: s in schemes && TypeName(s.kind) == name ==> s in r
  {
    if schemes == [] then []
    else (if TypeName(schemes[0].kind) == name then [schemes[0]] else []) + OfType(schemes[1..], name)
  }

  /** `filteredSchemes`: every scheme under 'All', otherwise those whose type is the filter. */
  function FilteredSchemes(schemes: seq<Scheme>, filter: string): (r: seq<Scheme>)
    ensures filter == "All" ==> r == schemes
    ensures |r| <= |schemes|
    ensures forall s :: s in r ==> s in schemes
    ensures forall s :: s in r && filter != "All" ==> TypeName(s.kind) == filter
    ensures forall s :: s in schemes && (filter == "All" || TypeName(s.kind) == filter) ==> s in r
  {
    if filter == "All" then schemes else OfType(schemes, filter)
  }

  /** 'All' shows the list unchanged. */
  lemma FilterAllIsIdentity(schemes: seq<Scheme>)
    ensures FilteredSchemes(schemes, "All") == schemes
  {
  }

  /** Under 'Loan' or 'Subsidy' every scheme shown has that type. */
  lemma FilterKeepsType(schemes: seq<Scheme>, k: SchemeType)
    ensures forall s :: s in FilteredSchemes(schemes, TypeName(k)) ==> s.kind == k
    ensures |FilteredSchemes(schemes, TypeName(k))| <= |schemes|
  {
  }

  /** Filtering a concatenation filters each part and keeps them in order. */
  lemma {:induction false} OfTypeAppend(a: seq<Scheme>, b: seq<Scheme>, name: string)
    ensures OfType(a + b, name) == OfType(a, name) + OfType(b, name)
  {
    if a == [] {
      assert a + b == b;
    } else {
      assert (a + b)[0] == a[0];
      assert (a + b)[1..] == a[1..] + b;
      OfTypeAppend(a[1..], b, name);
    }
  }

  /**
   * Nothing matching is dropped and nothing is duplicated: each scheme occurs
   * in the result as often as in the input when its type matches, else never.
   */
  lemma {:induction false} OfTypeCounts(schemes: seq<Scheme>, name: string)
    ensures forall s :: multiset(OfType(schemes, name))[s]
                     == if TypeName(s.kind) == name then multiset(schemes)[s] else 0
  {
    if schemes != [] {
      OfTypeCounts(schemes[1..], name);
      assert schemes == [schemes[0]] + schemes[1..];
    }
  }

  /** Filtering twice with the same value is filtering once. */
  lemma {:induction false} OfTypeIdempotent(schemes: seq<Scheme>, name: string)
    ensures OfType(OfType(schemes, name), name) == OfType(schemes, name)
  {
    if schemes != [] {
      var head, tail := schemes[0], schemes[1..];
      var kept := if TypeName(head.kind) == name then [head] else [];
      assert OfType(schemes, name) == kept + OfType(tail, name);
      OfTypeAppend(kept, OfType(tail, name), name);
      assert OfType(kept, name) == kept by {
        if kept != [] {
          assert kept[1..] == [];
        }
      }
      OfTypeIdempotent(tail, name);
    }
  }

  /** `filteredSchemes` applied to its own result changes nothing. */
  lemma FilterIdempotent(schemes: seq<Scheme>, filter: string)
    ensures FilteredSchemes(FilteredSchemes(schemes, filter), filter) == FilteredSchemes(schemes, filter)
  {
    if filter != "All" {
      OfTypeIdempotent(schemes, filter);
    }
  }

  /** A filter value that names no type shows nothing. */
  lemma {:induction false} UnknownFilterShowsNothing(schemes: seq<Scheme>, filter: string)
    requires filter !in FilterValues
    ensures FilteredSchemes(schemes, filter) == []
  {
    if schemes != [] {
      UnknownFilterShowsNothing(schemes[1..], filter);
    }
  }

  /** The page's state that the filter reads: the loaded schemes and the current filter. */
  class SchemesView {
    var schemes: seq<Scheme>
    var filter: string

    /** `useState<Scheme[]>([])` and `useState(...)('All')`. */
    constructor ()
      ensures schemes == [] && filter == "All"
    {
      schemes := [];
      filter := "All";
    }

    /** The memoised `filteredSchemes` for the current state. */
    function Shown(): seq<Scheme>
      reads this
    {
      FilteredSchemes(schemes, filter)
    }

    /** `setSchemes(data)` once the list is fetched. */
    method SetSchemes(data: seq<Scheme>)
      modifies this
      ensures schemes == data && filter == old(filter)
    {
      schemes := data;
    }

    /**
     * `onValueChange`: a truthy (non-empty) value becomes the filter; an empty
     * one, which the toggle group reports when the pressed item is pressed
     * again, leaves the filter as it was. The schemes are untouched.
     */
    method OnValueChange(value: string)
      modifies this
      ensures filter == if value != "" then value else old(filter)
      ensures schemes == old(schemes)
      ensures old(filter) in FilterValues && (value == "" || value in FilterValues) ==> filter in FilterValues
    {
      if value != "" {
        filter := value;
      }
    }
  }
}
