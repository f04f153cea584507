/** The table's filter bar: setting the filter on one column, clearing one
    column's filter, and clearing them all. */
module DataTable {
  import opened Seqs
  import opened UdiTypes
  import opened FilterUtils
  import opened TableState

  /** At most one filter per column. */
  predicate OnePerColumn(filters: seq<FilterOption>)
  {
    forall i, j :: 0 <= i < j < |filters| ==> filters[i].column != filters[j].column
  }

  /** `clearColumnFilter`: drops exactly the filters on `c`, keeping the others in order. */
  function ClearColumnFilter(filters: seq<FilterOption>, c: Column): (out: seq<FilterOption>)
    ensures forall f :: f in out <==> f in filters && f.column != c
    ensures IsSubsequence(out, filters)
    ensures !IsColumnFiltered(out, c)
    ensures forall d :: d != c ==> (IsColumnFiltered(out, d) <==> IsColumnFiltered(filters, d))
    ensures forall f :: multiset(out)[f] == if f.column != c then multiset(filters)[f] else 0
  {
    KeepIsSubsequence(filters, (f: FilterOption) => f.column != c);
    KeepMultiset(filters, (f: FilterOption) => f.column != c);
    Keep(filters, (f: FilterOption) => f.column != c)
  }

  /** `applyFilter`: the filters on other columns, in their order, followed
      by `newFilter`, the filter `createColumnFilter` built for `c`. */
  function ApplyFilter(filters: seq<FilterOption>, c: Column, newFilter: FilterOption): (out: seq<FilterOption>)
    ensures |out| >= 1 && out[|out| - 1] == newFilter
    ensures forall f :: f in out[..|out| - 1] <==> f in filters && f.column != c
    ensures IsSubsequence(out[..|out| - 1], filters)
    ensures forall f :: multiset(out[..|out| - 1])[f] == if f.column != c then multiset(filters)[f] else 0
    ensures IsColumnFiltered(out, newFilter.column)
    ensures forall d :: d != c && d != newFilter.column ==>
      (IsColumnFiltered(out, d) <==> IsColumnFiltered(filters, d))
  {
    var others := ClearColumnFilter(filters, c);
    assert (others + [newFilter])[..|others|] == others;
    assert newFilter in others + [newFilter];
    others + [newFilter]
  }

  /** Clearing a column changes the filter list exactly when the column is filtered. */
  lemma ClearChangesIffFiltered(filters: seq<FilterOption>, c: Column)
    ensures ClearColumnFilter(filters, c) == filters <==> !IsColumnFiltered(filters, c)
  {
    if !IsColumnFiltered(filters, c) {
      KeepAll(filters, (f: FilterOption) => f.column != c);
    } else {
      var f :| f in filters && f.column == c;
      assert f !in ClearColumnFilter(filters, c);
    }
  }

  /** The clear-all button's filter list: no filters, so every record shows. */
  function ClearAllFilters(): (out: seq<FilterOption>)
    ensures forall c :: !IsColumnFiltered(out, c)
    ensures forall records :: FilterRecords(records, out) == records
  {
    []
  }

  /** Dropping filters never breaks the one-filter-per-column shape. */
  lemma {:induction false} KeepOnePerColumn(filters: seq<FilterOption>, p: FilterOption -> bool)
    requires OnePerColumn(filters)
    ensures OnePerColumn(Keep(filters, p))
  {
    if filters != [] {
      var rest := filters[1..];
      assert OnePerColumn(rest) by {
        forall i, j | 0 <= i < j < |rest|
          ensures rest[i].column != rest[j].column
        {
          assert rest[i] == filters[i + 1] && rest[j] == filters[j + 1];
        }
      }
      KeepOnePerColumn(rest, p);
      var kept := Keep(rest, p);
      if p(filters[0]) {
        var out := [filters[0]] + kept;
        assert forall g :: g in kept ==> g.column != filters[0].column by {
          forall g | g in kept
            ensures g.column != filters[0].column
          {
            var k :| 0 <= k < |rest| && rest[k] == g;
            assert g == filters[k + 1];
          }
        }
        forall i, j | 0 <= i < j < |out|
          ensures out[i].column != out[j].column
        {
          if i == 0 {
            assert out[j] == kept[j - 1];
            assert out[j] in kept;
          } else {
            assert out[i] == kept[i - 1] && out[j] == kept[j - 1];
          }
        }
      }
    }
  }

  /** Setting a column's filter keeps at most one filter per column. */
  lemma ApplyKeepsOnePerColumn(filters: seq<FilterOption>, c: Column, newFilter: FilterOption)
    requires OnePerColumn(filters) && newFilter.column == c
    ensures OnePerColumn(ApplyFilter(filters, c, newFilter))
  {
    var others := ClearColumnFilter(filters, c);
    KeepOnePerColumn(filters, (f: FilterOption) => f.column != c);
    var out := others + [newFilter];
    forall i, j | 0 <= i < j < |out|
      ensures out[i].column != out[j].column
    {
      assert out[i] == others[i] && out[i] in others;
      if j < |others| {
        assert out[j] == others[j];
      }
    }
  }

  /** Clearing a column right after setting its filter is the same as clearing it. */
  lemma ApplyThenClear(filters: seq<FilterOption>, c: Column, newFilter: FilterOption)
    requires newFilter.column == c
    ensures ClearColumnFilter(ApplyFilter(filters, c, newFilter), c) == ClearColumnFilter(filters, c)
  {
    var p := (f: FilterOption) => f.column != c;
    var others := Keep(filters, p);
    KeepAppend(others, [newFilter], p);
    KeepIdempotent(filters, p);
    assert Keep([newFilter], p) == [];
    assert others + [] == others;
  }

  /** Setting the same column twice: the second filter replaces the first. */
  lemma ApplyTwice(filters: seq<FilterOption>, c: Column, first: FilterOption, second: FilterOption)
    requires first.column == c
    ensures ApplyFilter(ApplyFilter(filters, c, first), c, second) == ApplyFilter(filters, c, second)
  {
    ApplyThenClear(filters, c, first);
  }

  /** The rows shown after setting a filter are the rows the other columns'
      filters let through, narrowed by the new filter. */
  lemma ApplyNarrows(records: seq<UdiRecord>, filters: seq<FilterOption>, c: Column, newFilter: FilterOption)
    ensures FilterRecords(records, ApplyFilter(filters, c, newFilter)) ==
      FilterRecords(FilterRecords(records, ClearColumnFilter(filters, c)), [newFilter])
  {
    FilterCompose(records, ClearColumnFilter(filters, c), [newFilter]);
  }
}
