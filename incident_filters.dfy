/**
 * The incident list page's search and filters: a chain of `filter` steps over the list
 * fetched from the store, the count of active filters, and the reset of the filters.
 */
module IncidentFilters {
  import Text
  import opened Sequences
  import opened IncidentsStore

  /** `'all'` or one status. */
  datatype StatusFilter = AnyStatus | OnlyStatus(status: Status)

  /** `'all'` or one priority. */
  datatype PriorityFilter = AnyPriority | OnlyPriority(priority: Priority)

  /** The filter dialog's state; the two dates are the raw text of the date inputs. */
  datatype FilterState = FilterState(
    status: StatusFilter,
    priority: PriorityFilter,
    dateFrom: string,
    dateTo: string,
    sourceComponent: string)

  /** The test one `filter` step applies to each incident; queries are already lower-cased. */
  datatype Criterion =
    | Search(query: string)
    | HasStatus(status: Status)
    | HasPriority(priority: Priority)
    | ComponentLike(query: string)

  predicate Holds(c: Criterion, inc: Incident) {
    match c
    case Search(q) =>
      || Text.Contains(Text.ToLower(inc.title), q)
      || Text.Contains(Text.DecimalString(inc.id), q)
      || Text.Contains(Text.ToLower(inc.description), q)
    case HasStatus(s) => inc.status == s
    case HasPriority(p) => inc.priority == p
    case ComponentLike(q) =>
      exists k | 0 <= k < |inc.sourceComponents| :: Text.Contains(Text.ToLower(inc.sourceComponents[k].name), q)
  }

  predicate HoldsAll(cs: seq<Criterion>, inc: Incident) {
    forall i :: 0 <= i < |cs| ==> Holds(cs[i], inc)
  }

  /** How many elements of `s` meet `c`. */
  function Passing(s: seq<Incident>, c: Criterion): (n: nat)
    ensures n <= |s|
  {
    if s == [] then 0 else Passing(s[..|s| - 1], c) + (if Holds(c, s[|s| - 1]) then 1 else 0)
  }

  /** How many elements of `s` meet every criterion of `cs`. */
  function PassingAll(s: seq<Incident>, cs: seq<Criterion>): (n: nat)
    ensures n <= |s|
  {
    if s == [] then 0 else PassingAll(s[..|s| - 1], cs) + (if HoldsAll(cs, s[|s| - 1]) then 1 else 0)
  }

  /**
   * One step of the chain, `filtered.filter(inc => Holds(c, inc))`: a subsequence holding only
   * elements that meet `c`, as long as the number that do, so every copy of each is kept.
   */
  function Keep(s: seq<Incident>, c: Criterion): (r: seq<Incident>)
    ensures forall x :: x in r <==> x in s && Holds(c, x)
    ensures |r| == Passing(s, c)
    ensures IsSubsequence(r, s)
  {
    if s == [] then []
    else
      var init := Keep(s[..|s| - 1], c);
      if Holds(c, s[|s| - 1]) then init + [s[|s| - 1]] else init
  }

  /**
   * The reference filter: the incidents meeting every criterion of `cs`, in their order, every
   * copy of each kept.
   */
  function KeepAll(s: seq<Incident>, cs: seq<Criterion>): (r: seq<Incident>)
    ensures forall x :: x in r <==> x in s && HoldsAll(cs, x)
    ensures |r| == PassingAll(s, cs)
    ensures IsSubsequence(r, s)
  {
    if s == [] then []
    else
      var init := KeepAll(s[..|s| - 1], cs);
      if HoldsAll(cs, s[|s| - 1]) then init + [s[|s| - 1]] else init
  }

  /** The page's `filteredIncidents` with the date-range steps left out. */
  function FilteredIncidents(incidents: seq<Incident>, searchQuery: string, filters: FilterState): (r: seq<Incident>)
    ensures forall x :: x in r ==> x in incidents
    ensures |r| <= |incidents|
  {
    var afterSearch :=
      if Text.Trim(searchQuery) != "" then Keep(incidents, Search(Text.ToLower(searchQuery))) else incidents;
    var afterStatus :=
      if filters.status.OnlyStatus? then Keep(afterSearch, HasStatus(filters.status.status)) else afterSearch;
    var afterPriority :=
      if filters.priority.OnlyPriority? then Keep(afterStatus, HasPriority(filters.priority.priority)) else afterStatus;
    if Text.Trim(filters.sourceComponent) != "" then
      Keep(afterPriority, ComponentLike(Text.ToLower(filters.sourceComponent)))
    else
      afterPriority
  }

  /** The criterion of a step that runs only when `active` holds. */
  function Optional(active: bool, c: Criterion): seq<Criterion> {
    if active then [c] else []
  }

  /** The criterion of the status step, if the status filter is set. */
  function StatusCriteria(f: StatusFilter): seq<Criterion> {
    match f
    case AnyStatus => []
    case OnlyStatus(status) => [HasStatus(status)]
  }

  /** The criterion of the priority step, if the priority filter is set. */
  function PriorityCriteria(f: PriorityFilter): seq<Criterion> {
    match f
    case AnyPriority => []
    case OnlyPriority(priority) => [HasPriority(priority)]
  }

  /** A step of the chain that filters by its criterion when there is one. */
  function Step(s: seq<Incident>, o: seq<Criterion>): seq<Incident> {
    if o == [] then s else Keep(s, o[0])
  }

  /** The criteria the chain applies, in the order it applies them. */
  function Criteria(searchQuery: string, filters: FilterState): seq<Criterion> {
    Optional(Text.Trim(searchQuery) != "", Search(Text.ToLower(searchQuery)))
    + StatusCriteria(filters.status)
    + PriorityCriteria(filters.priority)
    + Optional(Text.Trim(filters.sourceComponent) != "", ComponentLike(Text.ToLower(filters.sourceComponent)))
  }

  /**
   * What the page promises of one incident: blankness of the search box and of the component
   * box is judged on the trimmed text, but the untrimmed text, lower-cased, is what is searched.
   */
  predicate Admits(searchQuery: string, filters: FilterState, inc: Incident) {
    && SearchAdmits(searchQuery, inc)
    && StatusAdmits(filters.status, inc)
    && PriorityAdmits(filters.priority, inc)
    && ComponentAdmits(filters.sourceComponent, inc)
  }

  /** A non-blank search matches the title, the id in decimal, or the description, case-insensitively. */
  predicate SearchAdmits(searchQuery: string, inc: Incident) {
    Text.Trim(searchQuery) != "" ==>
      || Text.Contains(Text.ToLower(inc.title), Text.ToLower(searchQuery))
      || Text.Contains(Text.DecimalString(inc.id), Text.ToLower(searchQuery))
      || Text.Contains(Text.ToLower(inc.description), Text.ToLower(searchQuery))
  }

  predicate StatusAdmits(f: StatusFilter, inc: Incident) {
    f.OnlyStatus? ==> inc.status == f.status
  }

  predicate PriorityAdmits(f: PriorityFilter, inc: Incident) {
    f.OnlyPriority? ==> inc.priority == f.priority
  }

  /** A non-blank component query is contained in some component's name, case-insensitively. */
  predicate ComponentAdmits(query: string, inc: Incident) {
    Text.Trim(query) != "" ==>
      exists k | 0 <= k < |inc.sourceComponents| ::
        Text.Contains(Text.ToLower(inc.sourceComponents[k].name), Text.ToLower(query))
  }

  /** `clearFilters`: every field back to its default. */
  function ClearedFilters(): (f: FilterState)
    ensures ActiveFilterCount(f) == 0
  {
    FilterState(AnyStatus, AnyPriority, "", "", "")
  }

  /** `activeFilterCount`: one for each filter field away from its default. */
  function ActiveFilterCount(filters: FilterState): (n: nat)
    ensures n <= 5
  {
    (if filters.status.OnlyStatus? then 1 else 0)
    + (if filters.priority.OnlyPriority? then 1 else 0)
    + (if filters.dateFrom != "" then 1 else 0)
    + (if filters.dateTo != "" then 1 else 0)
    + (if Text.Trim(filters.sourceComponent) != "" then 1 else 0)
  }

  // ---------------------------------------------------------------------------
  // The chain and the reference filter

  /** With no criteria the reference filter keeps everything. */
  lemma {:induction false} KeepAllNone(s: seq<Incident>)
    ensures KeepAll(s, []) == s
  {
    if s != [] {
      var init := s[..|s| - 1];
      KeepAllNone(init);
      assert HoldsAll([], s[|s| - 1]);
      assert KeepAll(s, []) == KeepAll(init, []) + [s[|s| - 1]];
      assert init + [s[|s| - 1]] == s;
    }
  }

  /** The reference filter of a list with one more element at the end. */
  lemma KeepAllSnoc(init: seq<Incident>, x: Incident, cs: seq<Criterion>)
    ensures KeepAll(init + [x], cs) == if HoldsAll(cs, x) then KeepAll(init, cs) + [x] else KeepAll(init, cs)
  {
    assert (init + [x])[..|init|] == init;
  }

  /** One more criterion adds one more conjunct. */
  lemma HoldsAllSnoc(cs: seq<Criterion>, c: Criterion, inc: Incident)
    ensures HoldsAll(cs + [c], inc) <==> HoldsAll(cs, inc) && Holds(c, inc)
  {
    assert forall i :: 0 <= i < |cs| ==> (cs + [c])[i] == cs[i];
    assert (cs + [c])[|cs|] == c;
  }

  /** One more `filter` step after the reference filter adds its criterion to the conjunction. */
  lemma {:induction false} KeepAfterKeepAll(s: seq<Incident>, cs: seq<Criterion>, c: Criterion)
    ensures Keep(KeepAll(s, cs), c) == KeepAll(s, cs + [c])
  {
    if s != [] {
      var last := s[|s| - 1];
      KeepAfterKeepAll(s[..|s| - 1], cs, c);
      HoldsAllSnoc(cs, c, last);
      var init := KeepAll(s[..|s| - 1], cs);
      if HoldsAll(cs, last) {
        assert (init + [last])[..|init|] == init;
      }
    }
  }

  /** A step that may or may not run extends the conjunction by its optional criterion. */
  lemma StepAfterKeepAll(s: seq<Incident>, cs: seq<Criterion>, o: seq<Criterion>)
    requires |o| <= 1
    ensures Step(KeepAll(s, cs), o) == KeepAll(s, cs + o)
  {
    if o == [] {
      assert cs + [] == cs;
    } else {
      assert o == [o[0]];
      KeepAfterKeepAll(s, cs, o[0]);
    }
  }

  /** Four optional steps in a row filter by the conjunction of their criteria. */
  lemma ChainOfFour(s: seq<Incident>, o1: seq<Criterion>, o2: seq<Criterion>, o3: seq<Criterion>, o4: seq<Criterion>)
    requires |o1| <= 1 && |o2| <= 1 && |o3| <= 1 && |o4| <= 1
    ensures Step(Step(Step(Step(s, o1), o2), o3), o4) == KeepAll(s, o1 + o2 + o3 + o4)
  {
    KeepAllNone(s);
    StepAfterKeepAll(s, [], o1);
    assert [] + o1 == o1;
    StepAfterKeepAll(s, o1, o2);
    StepAfterKeepAll(s, o1 + o2, o3);
    StepAfterKeepAll(s, o1 + o2 + o3, o4);
  }

  lemma StepOptional(s: seq<Incident>, active: bool, c: Criterion)
    ensures Step(s, Optional(active, c)) == if active then Keep(s, c) else s
  {
  }

  lemma StepStatus(s: seq<Incident>, f: StatusFilter)
    ensures Step(s, StatusCriteria(f)) == if f.OnlyStatus? then Keep(s, HasStatus(f.status)) else s
  {
  }

  lemma StepPriority(s: seq<Incident>, f: PriorityFilter)
    ensures Step(s, PriorityCriteria(f)) == if f.OnlyPriority? then Keep(s, HasPriority(f.priority)) else s
  {
  }

  /** The step-by-step chain equals one filter by the conjunction of its active criteria. */
  lemma FilteredIsKeepAll(incidents: seq<Incident>, searchQuery: string, filters: FilterState)
    ensures FilteredIncidents(incidents, searchQuery, filters) == KeepAll(incidents, Criteria(searchQuery, filters))
  {
    var search := Search(Text.ToLower(searchQuery));
    var component := ComponentLike(Text.ToLower(filters.sourceComponent));
    var o1 := Optional(Text.Trim(searchQuery) != "", search);
    var o2 := StatusCriteria(filters.status);
    var o3 := PriorityCriteria(filters.priority);
    var o4 := Optional(Text.Trim(filters.sourceComponent) != "", component);
    var afterSearch := Step(incidents, o1);
    StepOptional(incidents, Text.Trim(searchQuery) != "", search);
    var afterStatus := Step(afterSearch, o2);
    StepStatus(afterSearch, filters.status);
    var afterPriority := Step(afterStatus, o3);
    StepPriority(afterStatus, filters.priority);
    StepOptional(afterPriority, Text.Trim(filters.sourceComponent) != "", component);
    ChainOfFour(incidents, o1, o2, o3, o4);
  }

  /** The conjunction of two lists of criteria is the conjunction of each. */
  lemma HoldsAllConcat(a: seq<Criterion>, b: seq<Criterion>, inc: Incident)
    ensures HoldsAll(a + b, inc) <==> HoldsAll(a, inc) && HoldsAll(b, inc)
  {
    if HoldsAll(a, inc) && HoldsAll(b, inc) {
      forall i | 0 <= i < |a + b|
        ensures Holds((a + b)[i], inc)
      {
        if i >= |a| {
          assert (a + b)[i] == b[i - |a|];
        }
      }
    }
    if HoldsAll(a + b, inc) {
      forall i | 0 <= i < |a|
        ensures Holds(a[i], inc)
      {
        assert (a + b)[i] == a[i];
      }
      forall i | 0 <= i < |b|
        ensures Holds(b[i], inc)
      {
        assert (a + b)[|a| + i] == b[i];
      }
    }
  }

  /** The conjunction of four lists of criteria is the conjunction of each. */
  lemma HoldsAllOfFour(o1: seq<Criterion>, o2: seq<Criterion>, o3: seq<Criterion>, o4: seq<Criterion>, inc: Incident)
    ensures HoldsAll(o1 + o2 + o3 + o4, inc) <==>
            HoldsAll(o1, inc) && HoldsAll(o2, inc) && HoldsAll(o3, inc) && HoldsAll(o4, inc)
  {
    HoldsAllConcat(o1 + o2 + o3, o4, inc);
    HoldsAllConcat(o1 + o2, o3, inc);
    HoldsAllConcat(o1, o2, inc);
  }

  /** An optional criterion holds when it is inactive, and otherwise when the criterion does. */
  lemma HoldsOptional(active: bool, c: Criterion, inc: Incident)
    ensures HoldsAll(Optional(active, c), inc) <==> (active ==> Holds(c, inc))
  {
    if active {
      assert Optional(active, c)[0] == c;
    }
  }

  lemma HoldsSearchCriteria(searchQuery: string, inc: Incident)
    ensures HoldsAll(Optional(Text.Trim(searchQuery) != "", Search(Text.ToLower(searchQuery))), inc) <==>
            SearchAdmits(searchQuery, inc)
  {
    HoldsOptional(Text.Trim(searchQuery) != "", Search(Text.ToLower(searchQuery)), inc);
  }

  lemma HoldsComponentCriteria(query: string, inc: Incident)
    ensures HoldsAll(Optional(Text.Trim(query) != "", ComponentLike(Text.ToLower(query))), inc) <==>
            ComponentAdmits(query, inc)
  {
    var lowered := Text.ToLower(query);
    HoldsOptional(Text.Trim(query) != "", ComponentLike(lowered), inc);
    assert Holds(ComponentLike(lowered), inc) <==>
           exists k | 0 <= k < |inc.sourceComponents| :: Text.Contains(Text.ToLower(inc.sourceComponents[k].name), lowered);
  }

  lemma HoldsStatusCriteria(f: StatusFilter, inc: Incident)
    ensures HoldsAll(StatusCriteria(f), inc) <==> StatusAdmits(f, inc)
  {
    if f.OnlyStatus? {
      assert StatusCriteria(f)[0] == HasStatus(f.status);
    }
  }

  lemma HoldsPriorityCriteria(f: PriorityFilter, inc: Incident)
    ensures HoldsAll(PriorityCriteria(f), inc) <==> PriorityAdmits(f, inc)
  {
    if f.OnlyPriority? {
      assert PriorityCriteria(f)[0] == HasPriority(f.priority);
    }
  }

  /** An incident meets all active criteria exactly when the page's conjunction admits it. */
  lemma AdmitsIffHoldsAll(searchQuery: string, filters: FilterState, inc: Incident)
    ensures Admits(searchQuery, filters, inc) <==> HoldsAll(Criteria(searchQuery, filters), inc)
  {
    HoldsAllOfFour(Optional(Text.Trim(searchQuery) != "", Search(Text.ToLower(searchQuery))),
                   StatusCriteria(filters.status), PriorityCriteria(filters.priority),
                   Optional(Text.Trim(filters.sourceComponent) != "", ComponentLike(Text.ToLower(filters.sourceComponent))), inc);
    HoldsSearchCriteria(searchQuery, inc);
    HoldsStatusCriteria(filters.status, inc);
    HoldsPriorityCriteria(filters.priority, inc);
    HoldsComponentCriteria(filters.sourceComponent, inc);
  }

  /**
   * The filtered list is drawn from the fetched list in its order, and holds exactly the
   * incidents that every active filter admits.
   */
  lemma FilteredIsAdmittedSubsequence(incidents: seq<Incident>, searchQuery: string, filters: FilterState)
    ensures IsSubsequence(FilteredIncidents(incidents, searchQuery, filters), incidents)
    ensures forall x :: x in FilteredIncidents(incidents, searchQuery, filters) <==>
                        x in incidents && Admits(searchQuery, filters, x)
  {
    FilteredIsKeepAll(incidents, searchQuery, filters);
    forall x
      ensures HoldsAll(Criteria(searchQuery, filters), x) <==> Admits(searchQuery, filters, x)
    {
      AdmitsIffHoldsAll(searchQuery, filters, x);
    }
  }

  /** Filtering by criteria the incidents already meet changes nothing. */
  lemma {:induction false} KeepAllUnchanged(s: seq<Incident>, cs: seq<Criterion>)
    requires forall i :: 0 <= i < |s| ==> HoldsAll(cs, s[i])
    ensures KeepAll(s, cs) == s
  {
    if s != [] {
      var init, last := s[..|s| - 1], s[|s| - 1];
      assert s == init + [last];
      forall i | 0 <= i < |init|
        ensures HoldsAll(cs, init[i])
      {
        assert init[i] == s[i];
      }
      KeepAllUnchanged(init, cs);
      KeepAllSnoc(init, last, cs);
    }
  }

  /** Applying the same search and filters to the filtered list returns it unchanged. */
  lemma FilteredIdempotent(incidents: seq<Incident>, searchQuery: string, filters: FilterState)
    ensures FilteredIncidents(FilteredIncidents(incidents, searchQuery, filters), searchQuery, filters)
            == FilteredIncidents(incidents, searchQuery, filters)
  {
    var cs := Criteria(searchQuery, filters);
    var once := FilteredIncidents(incidents, searchQuery, filters);
    FilteredIsKeepAll(incidents, searchQuery, filters);
    assert once == KeepAll(incidents, cs);
    forall i | 0 <= i < |once|
      ensures HoldsAll(cs, once[i])
    {
      assert once[i] in once;
    }
    KeepAllUnchanged(once, cs);
    FilteredIsKeepAll(once, searchQuery, filters);
  }

  /** A blank search with every filter at its default shows the whole list. */
  lemma DefaultsKeepEverything(incidents: seq<Incident>, searchQuery: string)
    requires Text.Trim(searchQuery) == ""
    ensures FilteredIncidents(incidents, searchQuery, ClearedFilters()) == incidents
  {
    assert Text.Trim("") == "";
  }

  /** `activeFilterCount` is zero exactly when every filter field is at its default. */
  lemma ActiveFilterCountZeroIff(filters: FilterState)
    ensures ActiveFilterCount(filters) == 0 <==>
              && filters.status == AnyStatus && filters.priority == AnyPriority
              && filters.dateFrom == "" && filters.dateTo == ""
              && Text.Trim(filters.sourceComponent) == ""
  {
  }

  /**
   * Without dates, the active filters are the criteria of the chain other than the search:
   * each counted filter adds exactly one `filter` step.
   */
  lemma ActiveFiltersAreCriteria(searchQuery: string, filters: FilterState)
    requires filters.dateFrom == "" && filters.dateTo == ""
    ensures |Criteria(searchQuery, filters)| ==
            ActiveFilterCount(filters) + (if Text.Trim(searchQuery) != "" then 1 else 0)
  {
    var o1 := Optional(Text.Trim(searchQuery) != "", Search(Text.ToLower(searchQuery)));
    var o2 := StatusCriteria(filters.status);
    var o3 := PriorityCriteria(filters.priority);
    var o4 := Optional(Text.Trim(filters.sourceComponent) != "", ComponentLike(Text.ToLower(filters.sourceComponent)));
    assert |o1| == if Text.Trim(searchQuery) != "" then 1 else 0;
    assert |o2| == if filters.status.OnlyStatus? then 1 else 0;
    assert |o3| == if filters.priority.OnlyPriority? then 1 else 0;
    assert |o4| == if Text.Trim(filters.sourceComponent) != "" then 1 else 0;
    assert Criteria(searchQuery, filters) == o1 + o2 + o3 + o4;
    assert |o1 + o2 + o3 + o4| == |o1| + |o2| + |o3| + |o4|;
  }

  /** Typing an incident's id into the search box, with no other filter set, keeps that incident. */
  lemma SearchByIdFindsIt(incidents: seq<Incident>, inc: Incident)
    requires inc in incidents && inc.id >= 0
    ensures inc in FilteredIncidents(incidents, Text.DecimalString(inc.id), ClearedFilters())
  {
    var digits := Text.DecimalString(inc.id);
    Text.DecimalIsTrimmedLower(inc.id);
    Text.ContainsItself(digits);
    assert SearchAdmits(digits, inc);
    assert Text.Trim(ClearedFilters().sourceComponent) == "" by {
      Text.TrimBlank("");
    }
    assert Admits(digits, ClearedFilters(), inc);
    FilteredIsAdmittedSubsequence(incidents, digits, ClearedFilters());
  }
}
