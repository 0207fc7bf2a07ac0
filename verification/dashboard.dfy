/** The dashboard's process table: a type filter ('All' or one process type)
    combined with a case-insensitive substring search on the process name, and
    the per-filter counts shown on the filter buttons. */
module Dashboard {
  import opened Common
  import opened Text

  datatype ProcessStatus = Active | Pending | Inactive

  /** `Process`; `kind` is TypeScript's `type` field. */
  datatype Process = Process(
    id: string,
    name: string,
    kind: string,
    stages: int,
    status: ProcessStatus,
    lastUpdate: string,
    createdBy: string)

  datatype FilterType = All | Hiring | Onboarding | Custom

  /** The string value of a filter button. */
  function FilterName(f: FilterType): string {
    match f
    case All => "All"
    case Hiring => "Hiring"
    case Onboarding => "Onboarding"
    case Custom => "Custom"
  }

  /** `filter === 'All' || p.type === filter`. */
  predicate MatchesFilter(p: Process, f: FilterType) {
    f == All || p.kind == FilterName(f)
  }

  /** `p.name.toLowerCase().includes(search.toLowerCase())`. */
  predicate MatchesSearch(p: Process, search: string) {
    Contains(ToLower(p.name), ToLower(search))
  }

  /** `filteredData`. */
  function FilteredData(ps: seq<Process>, f: FilterType, search: string): seq<Process> {
    Filter(ps, (p: Process) => MatchesFilter(p, f) && MatchesSearch(p, search))
  }

  /** `getCount(type)`: the list length for 'All', otherwise the number of
      processes of that type. */
  function GetCount(ps: seq<Process>, f: FilterType): nat {
    if f == All then |ps| else |Filter(ps, (p: Process) => p.kind == FilterName(f))|
  }

  /** "No processes found" is shown. */
  predicate ShowEmptyState(ps: seq<Process>, f: FilterType, search: string) {
    |FilteredData(ps, f, search)| == 0
  }

  /** The table shows processes of the list in list order, and shows a process
      exactly when it passes both the type filter and the search. */
  lemma FilteredDataExact(ps: seq<Process>, f: FilterType, search: string)
    ensures IsSubsequence(FilteredData(ps, f, search), ps)
    ensures forall p :: p in FilteredData(ps, f, search) <==>
      p in ps && (f == All || p.kind == FilterName(f)) && Contains(ToLower(p.name), ToLower(search))
  {
    FilterIsSubsequence(ps, (p: Process) => MatchesFilter(p, f) && MatchesSearch(p, search));
    FilterMembership(ps, (p: Process) => MatchesFilter(p, f) && MatchesSearch(p, search));
  }

  /** Every copy of a process that passes is shown, and none of one that fails. */
  lemma FilteredDataCounts(ps: seq<Process>, f: FilterType, search: string)
    ensures forall p ::
      multiset(FilteredData(ps, f, search))[p] ==
      (if (f == All || p.kind == FilterName(f)) && Contains(ToLower(p.name), ToLower(search)) then multiset(ps)[p] else 0)
  {
    var shown := (p: Process) => MatchesFilter(p, f) && MatchesSearch(p, search);
    assert FilteredData(ps, f, search) == Filter(ps, shown);
    FilterCounts(ps, shown);
    forall p ensures multiset(FilteredData(ps, f, search))[p] == (if shown(p) then multiset(ps)[p] else 0) {
      assert multiset(Filter(ps, shown))[p] == if shown(p) then multiset(ps)[p] else 0;
    }
  }

  /** With an empty search, every filter shows exactly as many rows as its button
      counts; with 'All' and an empty search the table is the whole list. */
  lemma EmptySearchShowsCount(ps: seq<Process>, f: FilterType)
    ensures |FilteredData(ps, f, "")| == GetCount(ps, f)
    ensures FilteredData(ps, All, "") == ps
  {
    forall p: Process ensures MatchesSearch(p, "") {
      ContainsIff(ToLower(p.name), ToLower(""));
    }
    FilterKeepsAll(ps, (p: Process) => MatchesFilter(p, All) && MatchesSearch(p, ""));
    if f != All {
      FilterExtensional(ps, (p: Process) => MatchesFilter(p, f) && MatchesSearch(p, ""),
                            (p: Process) => p.kind == FilterName(f));
    }
  }

  /** The search only narrows: a filter never shows more rows than its count. */
  lemma FilteredWithinCount(ps: seq<Process>, f: FilterType, search: string)
    ensures |FilteredData(ps, f, search)| <= GetCount(ps, f)
  {
    if f != All {
      FilterMonotone(ps, (p: Process) => MatchesFilter(p, f) && MatchesSearch(p, search),
                         (p: Process) => p.kind == FilterName(f));
    }
  }

  /** The empty-state message is shown exactly when no process of the list passes
      both the filter and the search. */
  lemma EmptyStateIff(ps: seq<Process>, f: FilterType, search: string)
    ensures ShowEmptyState(ps, f, search) <==>
      forall i :: 0 <= i < |ps| ==> !(MatchesFilter(ps[i], f) && MatchesSearch(ps[i], search))
  {
    FilterMembership(ps, (p: Process) => MatchesFilter(p, f) && MatchesSearch(p, search));
    if !ShowEmptyState(ps, f, search) {
      var p := FilteredData(ps, f, search)[0];
      assert p in FilteredData(ps, f, search);
    }
  }
}
