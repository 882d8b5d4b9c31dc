/** The client store: `jobReducer` over `{jobs, filteredJobs, loading,
    error, filters, applications}` with its eight action kinds, and the
    dispatch sequences the provider issues when it loads jobs, re-queries
    after a filter change and submits an application. Fetch results are
    parameters: `Some(data)` for a successful response, `None` for a failed
    or unsuccessful one. */
module Store {
  import opened Wrappers
  import opened Catalog
  import opened Json
  import Query

  datatype State = State(
    jobs: seq<Job>,
    filteredJobs: seq<Job>,
    loading: bool,
    error: Option<string>,
    filters: Query.Filters,
    applications: seq<Json>)

  const InitialState := State([], [], false, None, Query.InitialFilters, [])

  /** The payload of SET_FILTERS: the filter keys it carries. */
  datatype FilterPatch = FilterPatch(
    category: Option<string>,
    location: Option<string>,
    experienceLevel: Option<string>,
    searchTerm: Option<string>,
    remote: Option<bool>)

  const EmptyPatch := FilterPatch(None, None, None, None, None)

  /** `{...filters, ...patch}`: keys in the patch win. */
  function Merge(f: Query.Filters, p: FilterPatch): Query.Filters {
    Query.Filters(
      p.category.GetOr(f.category),
      p.location.GetOr(f.location),
      p.experienceLevel.GetOr(f.experienceLevel),
      p.searchTerm.GetOr(f.searchTerm),
      p.remote.GetOr(f.remote))
  }

  /** `{...p, ...q}` on patches. */
  function Combine(p: FilterPatch, q: FilterPatch): FilterPatch {
    FilterPatch(
      if q.category.Some? then q.category else p.category,
      if q.location.Some? then q.location else p.location,
      if q.experienceLevel.Some? then q.experienceLevel else p.experienceLevel,
      if q.searchTerm.Some? then q.searchTerm else p.searchTerm,
      if q.remote.Some? then q.remote else p.remote)
  }

  datatype Action =
    | SetLoading(loading: bool)
    | SetJobs(jobs: seq<Job>)
    | SetError(message: string)
    | SetFilters(patch: FilterPatch)
    | FilterJobs
    | AddApplication(application: Json)
    | ClearFilters
    | ClearError
    | Other(kind: string)

  /** The store keeps `filteredJobs` an order-preserving selection from
      `jobs`. */
  predicate Consistent(s: State) {
    Query.IsSubsequence(s.filteredJobs, s.jobs)
  }

  /** `jobReducer`. Every case keeps the store consistent. */
  function Reduce(s: State, a: Action): (r: State)
    ensures Consistent(s) ==> Consistent(r)
  {
    match a
    case SetLoading(b) => s.(loading := b)
    case SetJobs(d) =>
      Query.SubsequenceReflexive(d);
      s.(jobs := d, filteredJobs := d, loading := false)
    case SetError(e) => s.(error := Some(e), loading := false)
    case SetFilters(p) => s.(filters := Merge(s.filters, p))
    case FilterJobs =>
      Query.FilterJobsIsSelect(s.jobs, s.filters);
      s.(filteredJobs := Query.FilterJobs(s.jobs, s.filters))
    case AddApplication(x) => s.(applications := s.applications + [x])
    case ClearFilters =>
      Query.SubsequenceReflexive(s.jobs);
      s.(filters := Query.InitialFilters, filteredJobs := s.jobs)
    case ClearError => s.(error := None)
    case Other(_) => s
  }

  /** Dispatching actions one after another. */
  function Run(s: State, actions: seq<Action>): State
    decreases |actions|
  {
    if actions == [] then s else Run(Reduce(s, actions[0]), actions[1..])
  }

  /** Running a sequence of actions runs its parts in turn. */
  lemma {:induction false} RunAppend(s: State, xs: seq<Action>, ys: seq<Action>)
    ensures Run(s, xs + ys) == Run(Run(s, xs), ys)
    decreases |xs|
  {
    if xs == [] {
      assert xs + ys == ys;
    } else {
      assert (xs + ys)[0] == xs[0];
      assert (xs + ys)[1..] == xs[1..] + ys;
      RunAppend(Reduce(s, xs[0]), xs[1..], ys);
    }
  }

  /** Any dispatch sequence keeps the store consistent. */
  lemma {:induction false} RunConsistent(s: State, actions: seq<Action>)
    requires Consistent(s)
    ensures Consistent(Run(s, actions))
    decreases |actions|
  {
    if actions != [] {
      RunConsistent(Reduce(s, actions[0]), actions[1..]);
    }
  }

  /** Running one, two or three actions. */
  lemma RunShort(s: State, a: Action, b: Action, c: Action)
    ensures Run(s, [a]) == Reduce(s, a)
    ensures Run(s, [a, b]) == Reduce(Reduce(s, a), b)
    ensures Run(s, [a, b, c]) == Reduce(Reduce(Reduce(s, a), b), c)
  {
    var s1 := Reduce(s, a);
    var s2 := Reduce(s1, b);
    var s3 := Reduce(s2, c);
    assert [a, b, c][1..] == [b, c];
    assert [a, b][1..] == [b];
    assert [b, c][1..] == [c];
    assert [a][1..] == [] && [b][1..] == [] && [c][1..] == [];
    assert Run(s2, [c]) == s3;
    assert Run(s1, [b, c]) == s3;
    assert Run(s1, [b]) == s2;
  }

  lemma InitialConsistent()
    ensures Consistent(InitialState)
  {
  }

  /** FILTER_JOBS recomputes `filteredJobs` from `jobs` and `filters`: the
      jobs that pass every active filter, in catalog order. Nothing else
      changes. */
  lemma FilterJobsSelects(s: State)
    ensures Reduce(s, FilterJobs) == s.(filteredJobs := Reduce(s, FilterJobs).filteredJobs)
    ensures Query.IsSubsequence(Reduce(s, FilterJobs).filteredJobs, s.jobs)
    ensures forall j :: j in Reduce(s, FilterJobs).filteredJobs <==>
                        j in s.jobs && Query.Passes(j, Query.LocalCriteria(s.filters))
  {
    var c := Query.LocalCriteria(s.filters);
    var sel := Query.Select(s.jobs, c);
    assert Reduce(s, FilterJobs).filteredJobs == sel by {
      Query.FilterJobsIsSelect(s.jobs, s.filters);
    }
    assert Query.IsSubsequence(sel, s.jobs);
    assert forall j :: j in sel <==> j in s.jobs && Query.Passes(j, c);
  }

  /** With the initial selection, FILTER_JOBS copies `jobs` unchanged. */
  lemma FilterJobsUnfiltered(s: State)
    requires s.filters == Query.InitialFilters
    ensures Reduce(s, FilterJobs).filteredJobs == s.jobs
  {
    Query.FilterJobsInitial(s.jobs);
  }

  /** A location-only selection: "Remote" keeps exactly the remote jobs, any
      other location exactly the jobs at that literal location. */
  lemma FilterJobsByLocation(s: State, location: string)
    requires s.filters == Query.InitialFilters.(location := location)
    requires location != AllLocations
    ensures location == RemoteLocation ==>
              forall j :: j in Reduce(s, FilterJobs).filteredJobs <==> j in s.jobs && j.remote
    ensures location != RemoteLocation ==>
              forall j :: j in Reduce(s, FilterJobs).filteredJobs <==> j in s.jobs && j.location == location
  {
    FilterJobsSelects(s);
  }

  /** SET_FILTERS: the keys in the payload take their new values, the other
      filter keys keep theirs, and nothing outside `filters` changes. */
  lemma SetFiltersMerges(s: State, p: FilterPatch)
    ensures var r := Reduce(s, SetFilters(p));
            && r == s.(filters := r.filters)
            && r.filters.category == (if p.category.Some? then p.category.value else s.filters.category)
            && r.filters.location == (if p.location.Some? then p.location.value else s.filters.location)
            && r.filters.experienceLevel == (if p.experienceLevel.Some? then p.experienceLevel.value else s.filters.experienceLevel)
            && r.filters.searchTerm == (if p.searchTerm.Some? then p.searchTerm.value else s.filters.searchTerm)
            && r.filters.remote == (if p.remote.Some? then p.remote.value else s.filters.remote)
  {
  }

  /** Two SET_FILTERS in a row are one with the combined payload, and an
      empty payload changes nothing. */
  lemma SetFiltersCompose(s: State, p: FilterPatch, q: FilterPatch)
    ensures Reduce(Reduce(s, SetFilters(p)), SetFilters(q)) == Reduce(s, SetFilters(Combine(p, q)))
    ensures Reduce(s, SetFilters(EmptyPatch)) == s
  {
  }

  /** CLEAR_FILTERS restores the initial selection and shows all of `jobs`;
      `jobs` and everything else stay as they were. */
  lemma ClearFiltersResets(s: State)
    ensures var r := Reduce(s, ClearFilters);
            && r.filters == Query.InitialFilters
            && r.filteredJobs == s.jobs
            && r == s.(filters := r.filters, filteredJobs := r.filteredJobs)
  {
  }

  /** CLEAR_FILTERS is idempotent, and FILTER_JOBS right after it changes
      nothing. */
  lemma ClearFiltersStable(s: State)
    ensures Reduce(Reduce(s, ClearFilters), ClearFilters) == Reduce(s, ClearFilters)
    ensures Reduce(Reduce(s, ClearFilters), FilterJobs) == Reduce(s, ClearFilters)
  {
    Query.FilterJobsInitial(s.jobs);
  }

  /** SET_JOBS replaces both job lists and ends loading; a warning already
      in `error` survives it. */
  lemma SetJobsReplaces(s: State, d: seq<Job>)
    ensures var r := Reduce(s, SetJobs(d));
            && r.jobs == d && r.filteredJobs == d && !r.loading
            && r.error == s.error && r.filters == s.filters && r.applications == s.applications
  {
  }

  /** ADD_APPLICATION appends exactly its payload at the end. */
  lemma AddApplicationAppends(s: State, x: Json)
    ensures var r := Reduce(s, AddApplication(x));
            && |r.applications| == |s.applications| + 1
            && r.applications[..|s.applications|] == s.applications
            && r.applications[|s.applications|] == x
            && r == s.(applications := r.applications)
  {
  }

  /** SET_LOADING, SET_ERROR and CLEAR_ERROR touch only their own fields;
      SET_ERROR also ends loading. */
  lemma FlagActions(s: State, b: bool, e: string)
    ensures Reduce(s, SetLoading(b)) == s.(loading := b)
    ensures Reduce(s, SetError(e)) == s.(error := Some(e), loading := false)
    ensures Reduce(s, ClearError) == s.(error := None)
  {
  }

  /** An action of any other kind returns the state unchanged. */
  lemma UnknownActionIgnored(s: State, kind: string)
    ensures Reduce(s, Other(kind)) == s
  {
  }

  /** The warning shown when the initial load falls back to the bundled
      jobs. */
  const CachedDataWarning := "Unable to fetch live data. Showing cached job listings."

  /** The dispatches of the initial load: SET_LOADING, then SET_JOBS with
      the fetched jobs, or SET_JOBS with the bundled jobs and SET_ERROR with
      the warning when the fetch fails. */
  function LoadJobsActions(reply: Option<seq<Job>>): seq<Action> {
    match reply
    case Some(d) => [SetLoading(true), SetJobs(d)]
    case None => [SetLoading(true), SetJobs(MockJobs), SetError(CachedDataWarning)]
  }

  /** After the initial load both job lists hold the fetched jobs, or the
      bundled ones with the warning set; loading has ended either way. */
  lemma LoadJobsOutcome(s: State, reply: Option<seq<Job>>)
    ensures var r := Run(s, LoadJobsActions(reply));
            && !r.loading
            && r.jobs == r.filteredJobs
            && r.jobs == (if reply.Some? then reply.value else MockJobs)
            && r.error == (if reply.Some? then s.error else Some(CachedDataWarning))
            && r.filters == s.filters && r.applications == s.applications
  {
    RunShort(s, SetLoading(true), SetJobs(MockJobs), SetError(CachedDataWarning));
    if reply.Some? {
      RunShort(s, SetLoading(true), SetJobs(reply.value), ClearError);
    }
  }

  /** The re-query after a filter change, as written: a successful response
      is dispatched with SET_JOBS, which replaces `jobs` as well as
      `filteredJobs`; a failure falls back to FILTER_JOBS. */
  function ApplyFilters(s: State, reply: Option<seq<Job>>): State {
    match reply
    case Some(d) => Reduce(s, SetJobs(d))
    case None => Reduce(s, FilterJobs)
  }

  /** When the server filters the store's own jobs with the encoded query,
      and the selection survives encoding, both paths show the same jobs. */
  lemma ApplyFiltersPathsAgree(s: State)
    requires Query.ServerReproducible(s.filters)
    ensures ApplyFilters(s, Some(Query.JobsGet(s.jobs, Query.EncodeQuery(s.filters)).data)).filteredJobs
            == ApplyFilters(s, None).filteredJobs
  {
    Query.LocalAgreesWithServer(s.jobs, s.filters);
  }

  /** As written, a successful re-query narrows `jobs` itself: after
      clearing the filters, a failed re-query can only show the narrowed
      list. */
  lemma ServerPathNarrowsCatalog(s: State, d: seq<Job>)
    ensures var s1 := ApplyFilters(s, Some(d));
            var s2 := ApplyFilters(Reduce(s1, ClearFilters), None);
            s2.jobs == d && s2.filteredJobs == d
  {
    Query.FilterJobsInitial(d);
  }

  /** On the bundled jobs: a `location=Remote` re-query, a clear and a
      failed re-query leave four of the six jobs in the store. */
  lemma NarrowedCatalogExample(s: State)
    requires s.jobs == MockJobs
    ensures var d := Query.JobsGet(MockJobs, [("location", RemoteLocation)]).data;
            var s2 := ApplyFilters(Reduce(ApplyFilters(s, Some(d)), ClearFilters), None);
            |s2.filteredJobs| == 4 && s2.filteredJobs != s.jobs
  {
    Query.RemoteLocationOnMockJobs();
    MockJobIds();
    var d := Query.JobsGet(MockJobs, [("location", RemoteLocation)]).data;
    ServerPathNarrowsCatalog(s, d);
  }

  /** The re-query as its comment describes it: a successful response
      updates `filteredJobs` only. */
  function ApplyFiltersIntended(s: State, reply: Option<seq<Job>>): State {
    match reply
    case Some(d) => s.(filteredJobs := d, loading := false)
    case None => Reduce(s, FilterJobs)
  }

  /** With the intended update, `jobs` is never narrowed; the server path
      keeps the store consistent when the server filters the store's jobs;
      and clearing followed by a failed re-query shows every job again. */
  lemma ApplyFiltersIntendedKeepsCatalog(s: State, reply: Option<seq<Job>>)
    ensures ApplyFiltersIntended(s, reply).jobs == s.jobs
    ensures Consistent(ApplyFiltersIntended(s, Some(Query.JobsGet(s.jobs, Query.EncodeQuery(s.filters)).data)))
    ensures ApplyFiltersIntended(Reduce(ApplyFiltersIntended(s, reply), ClearFilters), None).filteredJobs == s.jobs
  {
    var d := Query.JobsGet(s.jobs, Query.EncodeQuery(s.filters)).data;
    assert Query.IsSubsequence(d, s.jobs);
    var c := Reduce(ApplyFiltersIntended(s, reply), ClearFilters);
    assert c.jobs == s.jobs && c.filters == Query.InitialFilters;
    Query.FilterJobsInitial(s.jobs);
  }

  /** The dispatches of `addApplication`: SET_LOADING, ADD_APPLICATION with
      the server's record when the submission succeeds, and SET_LOADING
      false in every case. */
  function SubmitActions(reply: Option<Json>): seq<Action> {
    match reply
    case Some(x) => [SetLoading(true), AddApplication(x), SetLoading(false)]
    case None => [SetLoading(true), SetLoading(false)]
  }

  /** A submission ends with loading off and adds one record exactly when
      it succeeds. */
  lemma SubmitOutcome(s: State, reply: Option<Json>)
    ensures var r := Run(s, SubmitActions(reply));
            && !r.loading
            && r.applications == (if reply.Some? then s.applications + [reply.value] else s.applications)
            && r.jobs == s.jobs && r.filteredJobs == s.filteredJobs
            && r.filters == s.filters && r.error == s.error
  {
    RunShort(s, SetLoading(true), SetLoading(false), ClearError);
    if reply.Some? {
      RunShort(s, SetLoading(true), AddApplication(reply.value), SetLoading(false));
    }
  }
}
