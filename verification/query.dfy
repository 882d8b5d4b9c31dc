/** The job filter engine, which exists twice: in the client reducer's
    FILTER_JOBS case (`FilterJobs`) and in the `GET /api/jobs` handler
    (`JobsGet`). Both run one `.filter` pass per active filter. `Select`
    is the single-pass reference: keep a job iff it passes every active
    predicate of a `Criteria`. The client turns its filter state into query
    parameters with `EncodeQuery`. */
module Query {
  import opened Wrappers
  import opened Text
  import opened Catalog

  /** The client's filter selection (the `filters` part of the store). */
  datatype Filters = Filters(
    category: string,
    location: string,
    experienceLevel: string,
    searchTerm: string,
    remote: bool)

  /** The selection the store starts from and CLEAR_FILTERS restores. */
  const InitialFilters := Filters(AllCategories, AllLocations, AllLevels, "", false)

  /** The active predicates of one query; `None` switches a facet off. */
  datatype Criteria = Criteria(
    category: Option<string>,
    location: Option<string>,
    level: Option<string>,
    remoteOnly: bool,
    search: Option<string>)

  const NoCriteria := Criteria(None, None, None, false, None)

  /** The location predicate: "Remote" selects on the remote flag, whatever
      the job's city; any other value is compared literally. */
  predicate AtLocation(job: Job, location: string) {
    if location == RemoteLocation then job.remote else job.location == location
  }

  /** Case-insensitive substring search over title, company and description
      (never the category). */
  predicate SearchHit(job: Job, term: string) {
    var t := Lower(term);
    Includes(Lower(job.title), t) || Includes(Lower(job.company), t) || Includes(Lower(job.description), t)
  }

  /** A job passes a query when it passes every active predicate. */
  predicate Passes(job: Job, c: Criteria) {
    && (c.category.None? || job.category == c.category.value)
    && (c.location.None? || AtLocation(job, c.location.value))
    && (c.level.None? || job.experienceLevel == c.level.value)
    && (!c.remoteOnly || job.remote)
    && (c.search.None? || SearchHit(job, c.search.value))
  }

  /** `a` is `b` with some elements removed, the rest in their order. */
  predicate IsSubsequence<T(==)>(a: seq<T>, b: seq<T>)
    decreases |b|
  {
    if a == [] then true
    else if b == [] then false
    else if a[0] == b[0] then IsSubsequence(a[1..], b[1..])
    else IsSubsequence(a, b[1..])
  }

  lemma {:induction false} SubsequenceReflexive<T>(a: seq<T>)
    ensures IsSubsequence(a, a)
    decreases |a|
  {
    if a != [] {
      SubsequenceReflexive(a[1..]);
    }
  }

  /** The reference query: one pass keeping the jobs that pass `c`. It keeps
      catalog order, keeps a job iff it passes, and keeps every copy of a
      passing job. */
  function Select(jobs: seq<Job>, c: Criteria): (r: seq<Job>)
    ensures IsSubsequence(r, jobs)
    ensures forall j :: j in r <==> j in jobs && Passes(j, c)
    ensures forall j :: multiset(r)[j] == if Passes(j, c) then multiset(jobs)[j] else 0
  {
    if jobs == [] then []
    else
      var rest := Select(jobs[1..], c);
      assert jobs == [jobs[0]] + jobs[1..];
      if Passes(jobs[0], c) then [jobs[0]] + rest else rest
  }

  /** With no active predicate the query returns its input unchanged. */
  lemma {:induction false} SelectNothing(jobs: seq<Job>)
    ensures Select(jobs, NoCriteria) == jobs
  {
    if jobs != [] {
      SelectNothing(jobs[1..]);
    }
  }

  /** One `.filter` step of either implementation. */
  datatype Stage =
    | CategoryIs(category: string)
    | LocationIs(location: string)
    | RemoteOnly
    | LevelIs(level: string)
    | Mentions(term: string)

  predicate Keeps(st: Stage, job: Job) {
    match st
    case CategoryIs(c) => job.category == c
    case LocationIs(l) => job.location == l
    case RemoteOnly => job.remote
    case LevelIs(l) => job.experienceLevel == l
    case Mentions(t) => SearchHit(job, t)
  }

  /** `jobs.filter(...)` with the predicate of one stage. */
  function Apply(jobs: seq<Job>, st: Stage): seq<Job> {
    if jobs == [] then []
    else if Keeps(st, jobs[0]) then [jobs[0]] + Apply(jobs[1..], st)
    else Apply(jobs[1..], st)
  }

  /** Filtering the result of a query by one more stage is the query with
      that stage added to its predicates. */
  lemma {:induction false} ApplyNarrows(jobs: seq<Job>, c: Criteria, st: Stage, c': Criteria)
    requires forall j :: Passes(j, c') == (Passes(j, c) && Keeps(st, j))
    ensures Apply(Select(jobs, c), st) == Select(jobs, c')
  {
    if jobs != [] {
      ApplyNarrows(jobs[1..], c, st, c');
      assert Passes(jobs[0], c') == (Passes(jobs[0], c) && Keeps(st, jobs[0]));
    }
  }

  /** The criteria the FILTER_JOBS case applies for a filter selection. A
      facet is active unless it holds its sentinel; the search is active
      for any non-empty term, white space included. */
  function LocalCriteria(f: Filters): Criteria {
    Criteria(
      if f.category != AllCategories then Some(f.category) else None,
      if f.location != AllLocations then Some(f.location) else None,
      if f.experienceLevel != AllLevels then Some(f.experienceLevel) else None,
      f.remote,
      if f.searchTerm != "" then Some(f.searchTerm) else None)
  }

  /** The FILTER_JOBS reducer case: a copy of `jobs`, narrowed by category,
      location, experience level, search term and remote flag, in that
      order. */
  function FilterJobs(jobs: seq<Job>, f: Filters): seq<Job> {
    var byCategory :=
      if f.category != AllCategories then Apply(jobs, CategoryIs(f.category)) else jobs;
    var byLocation :=
      if f.location == AllLocations then byCategory
      else if f.location == RemoteLocation then Apply(byCategory, RemoteOnly)
      else Apply(byCategory, LocationIs(f.location));
    var byLevel :=
      if f.experienceLevel != AllLevels then Apply(byLocation, LevelIs(f.experienceLevel)) else byLocation;
    var bySearch :=
      if f.searchTerm != "" then Apply(byLevel, Mentions(f.searchTerm)) else byLevel;
    if f.remote then Apply(bySearch, RemoteOnly) else bySearch
  }

  /** The five narrowing steps, each stated once for both pipelines: from
      the query of `c`, whose own predicate for the facet is off, one more
      `.filter` (or none) yields the query with that predicate set. */
  lemma CategoryStep(jobs: seq<Job>, c: Criteria, category: Option<string>)
    requires c.category.None?
    ensures (if category.Some? then Apply(Select(jobs, c), CategoryIs(category.value)) else Select(jobs, c))
            == Select(jobs, c.(category := category))
  {
    if category.Some? {
      ApplyNarrows(jobs, c, CategoryIs(category.value), c.(category := category));
    } else {
      assert c.(category := category) == c;
    }
  }

  lemma LocationStep(jobs: seq<Job>, c: Criteria, location: Option<string>)
    requires c.location.None?
    ensures (if location.None? then Select(jobs, c)
             else if location.value == RemoteLocation then Apply(Select(jobs, c), RemoteOnly)
             else Apply(Select(jobs, c), LocationIs(location.value)))
            == Select(jobs, c.(location := location))
  {
    if location.None? {
      assert c.(location := location) == c;
    } else if location.value == RemoteLocation {
      ApplyNarrows(jobs, c, RemoteOnly, c.(location := location));
    } else {
      ApplyNarrows(jobs, c, LocationIs(location.value), c.(location := location));
    }
  }

  lemma LevelStep(jobs: seq<Job>, c: Criteria, level: Option<string>)
    requires c.level.None?
    ensures (if level.Some? then Apply(Select(jobs, c), LevelIs(level.value)) else Select(jobs, c))
            == Select(jobs, c.(level := level))
  {
    if level.Some? {
      ApplyNarrows(jobs, c, LevelIs(level.value), c.(level := level));
    } else {
      assert c.(level := level) == c;
    }
  }

  lemma RemoteStep(jobs: seq<Job>, c: Criteria, remoteOnly: bool)
    requires !c.remoteOnly
    ensures (if remoteOnly then Apply(Select(jobs, c), RemoteOnly) else Select(jobs, c))
            == Select(jobs, c.(remoteOnly := remoteOnly))
  {
    if remoteOnly {
      ApplyNarrows(jobs, c, RemoteOnly, c.(remoteOnly := remoteOnly));
    } else {
      assert c.(remoteOnly := remoteOnly) == c;
    }
  }

  lemma SearchStep(jobs: seq<Job>, c: Criteria, search: Option<string>)
    requires c.search.None?
    ensures (if search.Some? then Apply(Select(jobs, c), Mentions(search.value)) else Select(jobs, c))
            == Select(jobs, c.(search := search))
  {
    if search.Some? {
      ApplyNarrows(jobs, c, Mentions(search.value), c.(search := search));
    } else {
      assert c.(search := search) == c;
    }
  }

  /** The staged FILTER_JOBS pipeline computes the single-pass query of its
      criteria: an order-preserving subsequence of `jobs` holding exactly the
      jobs that pass every active client predicate. */
  lemma FilterJobsIsSelect(jobs: seq<Job>, f: Filters)
    ensures FilterJobs(jobs, f) == Select(jobs, LocalCriteria(f))
  {
    var lc := LocalCriteria(f);
    SelectNothing(jobs);
    var c1 := NoCriteria.(category := lc.category);
    CategoryStep(jobs, NoCriteria, lc.category);
    var c2 := c1.(location := lc.location);
    LocationStep(jobs, c1, lc.location);
    var c3 := c2.(level := lc.level);
    LevelStep(jobs, c2, lc.level);
    var c4 := c3.(search := lc.search);
    SearchStep(jobs, c3, lc.search);
    RemoteStep(jobs, c4, lc.remoteOnly);
    assert c4.(remoteOnly := lc.remoteOnly) == lc;
  }

  /** With the initial selection FILTER_JOBS keeps every job, in order. */
  lemma FilterJobsInitial(jobs: seq<Job>)
    ensures FilterJobs(jobs, InitialFilters) == jobs
  {
    FilterJobsIsSelect(jobs, InitialFilters);
    assert LocalCriteria(InitialFilters) == NoCriteria;
    SelectNothing(jobs);
  }

  /** Query parameters, in the order they were appended. */
  type Params = seq<(string, string)>

  /** `URLSearchParams.get`: the first value stored under `key`, if any. */
  function Param(ps: Params, key: string): Option<string> {
    if ps == [] then None
    else if ps[0].0 == key then Some(ps[0].1)
    else Param(ps[1..], key)
  }

  /** `URLSearchParams.append`, as seen by `get`: an earlier value under the
      key still wins; otherwise the appended pair answers for its own key. */
  lemma {:induction false} ParamAppend(ps: Params, key: string, value: string, k: string)
    ensures Param(ps + [(key, value)], k)
            == if Param(ps, k).Some? then Param(ps, k) else if k == key then Some(value) else None
  {
    if ps == [] {
      assert ps + [(key, value)] == [(key, value)];
    } else {
      assert (ps + [(key, value)])[0] == ps[0];
      assert (ps + [(key, value)])[1..] == ps[1..] + [(key, value)];
      ParamAppend(ps[1..], key, value, k);
    }
  }

  /** The body of a successful `GET /api/jobs` response. */
  datatype JobList = JobList(data: seq<Job>, total: nat)

  /** A query no job passes returns nothing. */
  lemma SelectNone(jobs: seq<Job>, c: Criteria)
    requires forall j :: j in jobs ==> !Passes(j, c)
    ensures Select(jobs, c) == []
  {
    assert multiset(Select(jobs, c)) == multiset{};
  }

  lemma InTail<T>(s: seq<T>, x: T)
    requires |s| >= 1 && x in s[1..]
    ensures x in s
  {
  }

  /** A one-pair query answers for its own key only. */
  lemma SingleParam(key: string, value: string)
    ensures forall k :: Param([(key, value)], k) == if k == key then Some(value) else None
  {
  }

  /** A facet parameter switches its filter on when it is present, non-empty
      and not the sentinel. */
  predicate FacetActive(p: Option<string>, sentinel: string) {
    p.Some? && p.value != "" && p.value != sentinel
  }

  /** A search parameter switches the search on when it is present and not
      blank. */
  predicate SearchActive(p: Option<string>) {
    p.Some? && !IsBlank(p.value)
  }

  /** The filtering part of the `GET /api/jobs` handler over `catalog`:
      narrowed by category, location, experience level, remote flag and
      search, in that order. */
  function ServerFilter(catalog: seq<Job>, ps: Params): seq<Job> {
    var category := Param(ps, "category");
    var location := Param(ps, "location");
    var level := Param(ps, "experienceLevel");
    var remote := Param(ps, "remote");
    var search := Param(ps, "search");
    var byCategory :=
      if FacetActive(category, AllCategories) then Apply(catalog, CategoryIs(category.value)) else catalog;
    var byLocation :=
      if !FacetActive(location, AllLocations) then byCategory
      else if location.value == RemoteLocation then Apply(byCategory, RemoteOnly)
      else Apply(byCategory, LocationIs(location.value));
    var byLevel :=
      if FacetActive(level, AllLevels) then Apply(byLocation, LevelIs(level.value)) else byLocation;
    var byRemote :=
      if remote == Some("true") then Apply(byLevel, RemoteOnly) else byLevel;
    if SearchActive(search) then Apply(byRemote, Mentions(search.value)) else byRemote
  }

  /** `GET /api/jobs`: the `{success: true, data, total}` body. `data` is an
      order-preserving subsequence of the catalog holding exactly the jobs
      that pass the server's criteria, and `total` counts it. */
  function JobsGet(catalog: seq<Job>, ps: Params): (r: JobList)
    ensures r.total == |r.data|
    ensures IsSubsequence(r.data, catalog)
    ensures forall j :: j in r.data <==> j in catalog && Passes(j, ServerCriteria(ps))
  {
    var data := ServerFilter(catalog, ps);
    ServerFilterIsSelect(catalog, ps);
    JobList(data, |data|)
  }

  /** The criteria the server applies for a parameter list. The remote
      filter is on only for the exact value "true"; a blank search is off,
      a non-blank one is matched untrimmed. */
  function ServerCriteria(ps: Params): Criteria {
    var category := Param(ps, "category");
    var location := Param(ps, "location");
    var level := Param(ps, "experienceLevel");
    var search := Param(ps, "search");
    Criteria(
      if FacetActive(category, AllCategories) then category else None,
      if FacetActive(location, AllLocations) then location else None,
      if FacetActive(level, AllLevels) then level else None,
      Param(ps, "remote") == Some("true"),
      if SearchActive(search) then search else None)
  }

  /** The staged handler pipeline computes the single-pass query of the
      server's criteria. */
  lemma ServerFilterIsSelect(catalog: seq<Job>, ps: Params)
    ensures ServerFilter(catalog, ps) == Select(catalog, ServerCriteria(ps))
  {
    var sc := ServerCriteria(ps);
    SelectNothing(catalog);
    var c1 := NoCriteria.(category := sc.category);
    CategoryStep(catalog, NoCriteria, sc.category);
    var c2 := c1.(location := sc.location);
    LocationStep(catalog, c1, sc.location);
    var c3 := c2.(level := sc.level);
    LevelStep(catalog, c2, sc.level);
    var c4 := c3.(remoteOnly := sc.remoteOnly);
    RemoteStep(catalog, c3, sc.remoteOnly);
    SearchStep(catalog, c4, sc.search);
    assert c4.(search := sc.search) == sc;
  }

  /** Two queries whose predicates agree on every job return the same jobs. */
  lemma {:induction false} SelectEquivalent(jobs: seq<Job>, c: Criteria, c': Criteria)
    requires forall j :: Passes(j, c) == Passes(j, c')
    ensures Select(jobs, c) == Select(jobs, c')
  {
    if jobs != [] {
      SelectEquivalent(jobs[1..], c, c');
    }
  }

  /** The search predicate means: the lowercased term occurs in the
      lowercased title, company or description. */
  lemma SearchHitMeans(job: Job, term: string)
    ensures SearchHit(job, term) <==>
            || Contains(Lower(job.title), Lower(term))
            || Contains(Lower(job.company), Lower(term))
            || Contains(Lower(job.description), Lower(term))
  {
    IncludesIff(Lower(job.title), Lower(term));
    IncludesIff(Lower(job.company), Lower(term));
    IncludesIff(Lower(job.description), Lower(term));
  }

  /** `queryParams.append(key, value)` when `cond` holds. */
  function AppendIf(ps: Params, cond: bool, key: string, value: string): Params {
    if cond then ps + [(key, value)] else ps
  }

  /** The query parameters `applyFilters` builds from a filter selection,
      appended in the order category, location, experienceLevel, remote,
      search. */
  function EncodeQuery(f: Filters): Params {
    var withCategory := AppendIf([], f.category != "" && f.category != AllCategories, "category", f.category);
    var withLocation := AppendIf(withCategory, f.location != "" && f.location != AllLocations, "location", f.location);
    var withLevel := AppendIf(withLocation, f.experienceLevel != "" && f.experienceLevel != AllLevels, "experienceLevel", f.experienceLevel);
    var withRemote := AppendIf(withLevel, f.remote, "remote", "true");
    AppendIf(withRemote, f.searchTerm != "" && Trim(f.searchTerm) != "", "search", Trim(f.searchTerm))
  }

  /** Reading one key back from a conditional append. */
  lemma ParamAppendIf(ps: Params, cond: bool, key: string, value: string, k: string)
    ensures Param(AppendIf(ps, cond, key, value), k)
            == if Param(ps, k).Some? then Param(ps, k) else if cond && k == key then Some(value) else None
  {
    if cond {
      ParamAppend(ps, key, value, k);
    }
  }

  /** Reading any key back from an encoded selection: the value of the one
      append made under that key, if it was made. */
  lemma EncodeQueryParam(f: Filters, k: string)
    ensures Param(EncodeQuery(f), k)
            == if k == "category" && f.category != "" && f.category != AllCategories then Some(f.category)
               else if k == "location" && f.location != "" && f.location != AllLocations then Some(f.location)
               else if k == "experienceLevel" && f.experienceLevel != "" && f.experienceLevel != AllLevels then Some(f.experienceLevel)
               else if k == "remote" && f.remote then Some("true")
               else if k == "search" && f.searchTerm != "" && Trim(f.searchTerm) != "" then Some(Trim(f.searchTerm))
               else None
  {
    var withCategory := AppendIf([], f.category != "" && f.category != AllCategories, "category", f.category);
    var withLocation := AppendIf(withCategory, f.location != "" && f.location != AllLocations, "location", f.location);
    var withLevel := AppendIf(withLocation, f.experienceLevel != "" && f.experienceLevel != AllLevels, "experienceLevel", f.experienceLevel);
    var withRemote := AppendIf(withLevel, f.remote, "remote", "true");
    ParamAppendIf([], f.category != "" && f.category != AllCategories, "category", f.category, k);
    ParamAppendIf(withCategory, f.location != "" && f.location != AllLocations, "location", f.location, k);
    ParamAppendIf(withLocation, f.experienceLevel != "" && f.experienceLevel != AllLevels, "experienceLevel", f.experienceLevel, k);
    ParamAppendIf(withLevel, f.remote, "remote", "true", k);
    ParamAppendIf(withRemote, f.searchTerm != "" && Trim(f.searchTerm) != "", "search", Trim(f.searchTerm), k);
  }

  /** What the server reads back from an encoded selection: an empty or
      sentinel facet is absent, `remote` is "true" exactly when the flag is
      set, and the search is the trimmed term, present only when the term is
      not blank. */
  lemma EncodeQueryParams(f: Filters)
    ensures Param(EncodeQuery(f), "category")
            == if FacetActive(Some(f.category), AllCategories) then Some(f.category) else None
    ensures Param(EncodeQuery(f), "location")
            == if FacetActive(Some(f.location), AllLocations) then Some(f.location) else None
    ensures Param(EncodeQuery(f), "experienceLevel")
            == if FacetActive(Some(f.experienceLevel), AllLevels) then Some(f.experienceLevel) else None
    ensures Param(EncodeQuery(f), "remote") == if f.remote then Some("true") else None
    ensures Param(EncodeQuery(f), "search") == if IsBlank(f.searchTerm) then None else Some(Trim(f.searchTerm))
  {
    EncodeQueryParam(f, "category");
    EncodeQueryParam(f, "location");
    EncodeQueryParam(f, "experienceLevel");
    EncodeQueryParam(f, "remote");
    EncodeQueryParam(f, "search");
    if f.searchTerm == "" {
      assert IsBlank(f.searchTerm);
    }
  }

  /** Selections the server reproduces: no facet is the empty string and the
      search term carries no surrounding white space. */
  predicate ServerReproducible(f: Filters) {
    && f.category != ""
    && f.location != ""
    && f.experienceLevel != ""
    && Trim(f.searchTerm) == f.searchTerm
  }

  /** The criteria the server derives from parameters whose five values
      are those of an encoded selection. */
  lemma CriteriaFromParams(ps: Params, f: Filters)
    requires Param(ps, "category") == if FacetActive(Some(f.category), AllCategories) then Some(f.category) else None
    requires Param(ps, "location") == if FacetActive(Some(f.location), AllLocations) then Some(f.location) else None
    requires Param(ps, "experienceLevel")
             == if FacetActive(Some(f.experienceLevel), AllLevels) then Some(f.experienceLevel) else None
    requires Param(ps, "remote") == if f.remote then Some("true") else None
    requires Param(ps, "search") == if IsBlank(f.searchTerm) then None else Some(Trim(f.searchTerm))
    ensures ServerCriteria(ps).category == EncodedCriteria(f).category
    ensures ServerCriteria(ps).location == EncodedCriteria(f).location
    ensures ServerCriteria(ps).level == EncodedCriteria(f).level
    ensures ServerCriteria(ps).remoteOnly == EncodedCriteria(f).remoteOnly
    ensures ServerCriteria(ps).search == EncodedCriteria(f).search
  {
    SearchFromParam(Param(ps, "search"), f.searchTerm);
  }

  /** A trimmed, non-blank search parameter is read back unchanged. */
  lemma SearchFromParam(p: Option<string>, term: string)
    requires p == if IsBlank(term) then None else Some(Trim(term))
    ensures (if SearchActive(p) then p else None) == p
  {
    BlankIffTrimEmpty(term);
    BlankIffTrimEmpty(Trim(term));
  }

  /** The criteria an encoded selection stands for. */
  function EncodedCriteria(f: Filters): Criteria {
    Criteria(
      if FacetActive(Some(f.category), AllCategories) then Some(f.category) else None,
      if FacetActive(Some(f.location), AllLocations) then Some(f.location) else None,
      if FacetActive(Some(f.experienceLevel), AllLevels) then Some(f.experienceLevel) else None,
      f.remote,
      if IsBlank(f.searchTerm) then None else Some(Trim(f.searchTerm)))
  }

  /** The criteria the server derives from an encoded selection. */
  lemma ServerCriteriaOfEncoded(f: Filters)
    ensures ServerCriteria(EncodeQuery(f)) == EncodedCriteria(f)
  {
    EncodeQueryParams(f);
    CriteriaFromParams(EncodeQuery(f), f);
  }

  /** The server's search (trimmed, dropped when blank) equals the client's
      (untrimmed, dropped only when empty) exactly for terms without
      surrounding white space. */
  lemma SearchReadBackIff(term: string)
    ensures (if IsBlank(term) then None else Some(Trim(term))) == (if term != "" then Some(term) else None)
            <==> Trim(term) == term
  {
    if term == "" {
      assert Trim(term) == [];
    }
  }

  /** The server reads back exactly the client's criteria from the encoded
      selection if and only if the selection is server-reproducible. */
  lemma EncodedCriteriaIff(f: Filters)
    ensures ServerCriteria(EncodeQuery(f)) == LocalCriteria(f) <==> ServerReproducible(f)
  {
    ServerCriteriaOfEncoded(f);
    SearchReadBackIff(f.searchTerm);
    FacetReadBackIff(f.category, AllCategories);
    FacetReadBackIff(f.location, AllLocations);
    FacetReadBackIff(f.experienceLevel, AllLevels);
    var sc := EncodedCriteria(f);
    var lc := LocalCriteria(f);
    assert sc == lc <==> (sc.category == lc.category && sc.location == lc.location && sc.level == lc.level
                          && sc.remoteOnly == lc.remoteOnly && sc.search == lc.search);
  }

  /** The server reads a facet back as the client meant it exactly when the
      facet is not the empty string, which the encoder drops. */
  lemma FacetReadBackIff(v: string, sentinel: string)
    requires sentinel != ""
    ensures (if FacetActive(Some(v), sentinel) then Some(v) else None) == (if v != sentinel then Some(v) else None)
            <==> v != ""
  {
  }

  /** The two paths agree: for a server-reproducible selection, the server's
      answer to the encoded query and the local FILTER_JOBS fallback return
      the same jobs in the same order. */
  lemma LocalAgreesWithServer(jobs: seq<Job>, f: Filters)
    requires ServerReproducible(f)
    ensures JobsGet(jobs, EncodeQuery(f)).data == FilterJobs(jobs, f)
  {
    EncodedCriteriaIff(f);
    ServerFilterIsSelect(jobs, EncodeQuery(f));
    FilterJobsIsSelect(jobs, f);
  }

  /** A whitespace-only search term breaks the agreement: the client filters
      on it as typed, while the encoder drops it and the server returns
      everything. */
  lemma BlankSearchDiverges()
    ensures var job := Job(7, "Dev", "Acme", "Austin, TX", "Design", "Senior", "", "Full-time", false, "x", [], [], "", "");
            var f := InitialFilters.(searchTerm := " ");
            FilterJobs([job], f) == [] && JobsGet([job], EncodeQuery(f)).data == [job]
  {
    var job := Job(7, "Dev", "Acme", "Austin, TX", "Design", "Senior", "", "Full-time", false, "x", [], [], "", "");
    var f := InitialFilters.(searchTerm := " ");
    assert NoSpace(job.title) && NoSpace(job.company) && NoSpace(job.description);
    BlankSearchDropsLocally(job, f);
    BlankSearchKeepsOnServer(job, f);
  }

  /** Locally, a one-space search drops a job without white space in its
      title, company and description. */
  lemma BlankSearchDropsLocally(job: Job, f: Filters)
    requires NoSpace(job.title) && NoSpace(job.company) && NoSpace(job.description)
    requires f == InitialFilters.(searchTerm := " ")
    ensures FilterJobs([job], f) == []
  {
    FilterJobsIsSelect([job], f);
    SearchHitMeans(job, " ");
    SpaceFreeExcludes(job.title, " ");
    SpaceFreeExcludes(job.company, " ");
    SpaceFreeExcludes(job.description, " ");
    assert !Passes(job, LocalCriteria(f));
    SelectNone([job], LocalCriteria(f));
  }

  /** The encoder drops a one-space search, so the server keeps every job. */
  lemma BlankSearchKeepsOnServer(job: Job, f: Filters)
    requires f == InitialFilters.(searchTerm := " ")
    ensures JobsGet([job], EncodeQuery(f)).data == [job]
  {
    BlankIffTrimEmpty(" ");
    ServerCriteriaOfEncoded(f);
    assert ServerCriteria(EncodeQuery(f)) == NoCriteria;
    ServerFilterIsSelect([job], EncodeQuery(f));
    SelectNothing([job]);
  }

  /** An empty facet value breaks the agreement too: locally it is compared
      literally and matches nothing, while the encoder omits it. */
  lemma EmptyCategoryDiverges()
    ensures var job := Job(7, "Dev", "Acme", "Austin, TX", "Design", "Senior", "", "Full-time", false, "x", [], [], "", "");
            var f := InitialFilters.(category := "");
            FilterJobs([job], f) == [] && JobsGet([job], EncodeQuery(f)).data == [job]
  {
    var job := Job(7, "Dev", "Acme", "Austin, TX", "Design", "Senior", "", "Full-time", false, "x", [], [], "", "");
    var f := InitialFilters.(category := "");
    FilterJobsIsSelect([job], f);
    ServerCriteriaOfEncoded(f);
    assert ServerCriteria(EncodeQuery(f)) == NoCriteria;
    ServerFilterIsSelect([job], EncodeQuery(f));
    SelectNothing([job]);
  }

  /** With every parameter absent, empty or at its sentinel, the handler
      returns the whole catalog in order. */
  lemma JobsGetUnfiltered(catalog: seq<Job>, ps: Params)
    requires !FacetActive(Param(ps, "category"), AllCategories)
    requires !FacetActive(Param(ps, "location"), AllLocations)
    requires !FacetActive(Param(ps, "experienceLevel"), AllLevels)
    requires Param(ps, "remote") != Some("true")
    requires !SearchActive(Param(ps, "search"))
    ensures JobsGet(catalog, ps).data == catalog
    ensures JobsGet(catalog, ps).total == |catalog|
  {
    assert ServerCriteria(ps) == NoCriteria;
    ServerFilterIsSelect(catalog, ps);
    SelectNothing(catalog);
  }

  /** A request without parameters lists the six bundled jobs. */
  lemma MockJobsUnfiltered()
    ensures JobsGet(MockJobs, []).data == MockJobs
    ensures JobsGet(MockJobs, []).total == 6
  {
    JobsGetUnfiltered(MockJobs, []);
  }

  /** A location query: "Remote" keeps exactly the remote jobs, whatever
      their city; any other value keeps exactly the jobs at that literal
      location. */
  lemma LocationQuery(catalog: seq<Job>, location: string)
    requires location != "" && location != AllLocations
    ensures location == RemoteLocation ==>
              forall j :: j in JobsGet(catalog, [("location", location)]).data <==> j in catalog && j.remote
    ensures location != RemoteLocation ==>
              forall j :: j in JobsGet(catalog, [("location", location)]).data <==> j in catalog && j.location == location
  {
    SingleParam("location", location);
    assert ServerCriteria([("location", location)]) == NoCriteria.(location := Some(location));
  }

  /** The remote filter is switched on by the exact value "true" and by
      nothing else. */
  lemma RemoteQuery(catalog: seq<Job>, value: string)
    ensures value == "true" ==>
              forall j :: j in JobsGet(catalog, [("remote", value)]).data <==> j in catalog && j.remote
    ensures value != "true" ==> JobsGet(catalog, [("remote", value)]).data == catalog
  {
    if value != "true" {
      SingleParam("remote", value);
      JobsGetUnfiltered(catalog, [("remote", value)]);
    } else {
      SingleParam("remote", value);
      assert ServerCriteria([("remote", value)]) == NoCriteria.(remoteOnly := true);
    }
  }

  /** A blank search is ignored; any other search keeps exactly the jobs
      whose lowercased title, company or description contains the lowercased
      term. */
  lemma SearchQuery(catalog: seq<Job>, term: string)
    ensures IsBlank(term) ==> JobsGet(catalog, [("search", term)]).data == catalog
    ensures !IsBlank(term) ==>
              forall j :: j in JobsGet(catalog, [("search", term)]).data <==>
                          && j in catalog
                          && (|| Contains(Lower(j.title), Lower(term))
                              || Contains(Lower(j.company), Lower(term))
                              || Contains(Lower(j.description), Lower(term)))
  {
    if IsBlank(term) {
      SingleParam("search", term);
      JobsGetUnfiltered(catalog, [("search", term)]);
    } else {
      SingleParam("search", term);
      assert ServerCriteria([("search", term)]) == NoCriteria.(search := Some(term));
      forall j ensures SearchHit(j, term) <==>
                       || Contains(Lower(j.title), Lower(term))
                       || Contains(Lower(j.company), Lower(term))
                       || Contains(Lower(j.description), Lower(term)) {
        SearchHitMeans(j, term);
      }
    }
  }

  /** Filtering by a job's own category keeps that job, and only jobs of
      that category. */
  lemma CategoryQueryKeepsJob(catalog: seq<Job>, job: Job)
    requires job in catalog
    requires job.category != "" && job.category != AllCategories
    ensures job in JobsGet(catalog, [("category", job.category)]).data
    ensures forall j :: j in JobsGet(catalog, [("category", job.category)]).data ==> j.category == job.category
  {
    SingleParam("category", job.category);
    assert ServerCriteria([("category", job.category)]) == NoCriteria.(category := Some(job.category));
  }

  /** The filters are conjunctive, so `remote=true` on top of
      `location=Remote` changes nothing. */
  lemma RemoteFlagRedundantWithRemoteLocation(catalog: seq<Job>, ps: Params)
    requires Param(ps, "location") == Some(RemoteLocation)
    requires Param(ps, "remote").None?
    ensures JobsGet(catalog, ps + [("remote", "true")]).data == JobsGet(catalog, ps).data
  {
    var ps' := ps + [("remote", "true")];
    ParamAppend(ps, "remote", "true", "category");
    ParamAppend(ps, "remote", "true", "location");
    ParamAppend(ps, "remote", "true", "experienceLevel");
    ParamAppend(ps, "remote", "true", "remote");
    ParamAppend(ps, "remote", "true", "search");
    var c := ServerCriteria(ps);
    var c' := ServerCriteria(ps');
    assert c'.category == c.category && c'.location == c.location && c'.level == c.level;
    assert c'.search == c.search;
    assert c'.remoteOnly;
    assert c.location == Some(RemoteLocation);
    SelectEquivalent(catalog, c, c');
    ServerFilterIsSelect(catalog, ps);
    ServerFilterIsSelect(catalog, ps');
  }

  /** A category that is not on the bundled list matches no bundled job, and
      the request still succeeds. */
  lemma UnlistedCategoryMatchesNothing(ps: Params, category: string)
    requires Param(ps, "category") == Some(category)
    requires category != "" && category !in JobCategories
    ensures JobsGet(MockJobs, ps).data == []
    ensures JobsGet(MockJobs, ps).total == 0
  {
    MockCategoriesListed();
    assert category != AllCategories;
    forall j | j in MockJobs ensures !Passes(j, ServerCriteria(ps)) {
      InTail(JobCategories, j.category);
    }
    SelectNone(MockJobs, ServerCriteria(ps));
    ServerFilterIsSelect(MockJobs, ps);
  }

  /** Likewise for an experience level that is not on the bundled list. */
  lemma UnlistedLevelMatchesNothing(ps: Params, level: string)
    requires Param(ps, "experienceLevel") == Some(level)
    requires level != "" && level !in ExperienceLevels
    ensures JobsGet(MockJobs, ps).data == []
  {
    MockLevelsListed();
    assert level != AllLevels;
    forall j | j in MockJobs ensures !Passes(j, ServerCriteria(ps)) {
      InTail(ExperienceLevels, j.experienceLevel);
    }
    SelectNone(MockJobs, ServerCriteria(ps));
    ServerFilterIsSelect(MockJobs, ps);
  }

  /** On the bundled catalog, `location=Remote` lists jobs 1, 3, 4 and 6, in
      that order. */
  lemma RemoteLocationOnMockJobs()
    ensures JobsGet(MockJobs, [("location", RemoteLocation)]).data
            == [MockJobs[0], MockJobs[2], MockJobs[3], MockJobs[5]]
  {
    RemoteLocationIsRemoteOnly(MockJobs);
    MockRemoteFlags();
    RemoteOnlyOfSix(MockJobs);
    assert JobsGet(MockJobs, [("location", RemoteLocation)]).data == ServerFilter(MockJobs, [("location", RemoteLocation)]);
  }

  /** `location=Remote` alone runs only the remote stage. */
  lemma RemoteLocationIsRemoteOnly(catalog: seq<Job>)
    ensures ServerFilter(catalog, [("location", RemoteLocation)]) == Apply(catalog, RemoteOnly)
  {
    var ps := [("location", RemoteLocation)];
    SingleParam("location", RemoteLocation);
    assert Param(ps, "category") == None && Param(ps, "experienceLevel") == None;
    assert Param(ps, "remote") == None && Param(ps, "search") == None;
    assert Param(ps, "location") == Some(RemoteLocation);
  }

  /** The remote stage over six jobs whose remote flags follow the bundled
      pattern. */
  lemma RemoteOnlyOfSix(js: seq<Job>)
    requires |js| == 6
    requires js[0].remote && !js[1].remote && js[2].remote
    requires js[3].remote && !js[4].remote && js[5].remote
    ensures Apply(js, RemoteOnly) == [js[0], js[2], js[3], js[5]]
  {
    assert js[5..][1..] == [];
    assert Apply(js[5..], RemoteOnly) == [js[5]];
    assert js[4..][1..] == js[5..];
    assert Apply(js[4..], RemoteOnly) == [js[5]];
    assert js[3..][1..] == js[4..];
    assert Apply(js[3..], RemoteOnly) == [js[3], js[5]];
    assert js[2..][1..] == js[3..];
    assert Apply(js[2..], RemoteOnly) == [js[2], js[3], js[5]];
    assert js[1..][1..] == js[2..];
    assert Apply(js[1..], RemoteOnly) == [js[2], js[3], js[5]];
  }

  /** `search=frontend` finds job 1 through its title. */
  lemma FrontendFindsJobOne()
    ensures MockJobs[0] in JobsGet(MockJobs, [("search", "frontend")]).data
  {
    FrontendInTitle();
    assert MockJobs[0].title == "Senior Frontend Developer";
    assert MockJobs[0] in MockJobs;
    assert !IsSpace('f');
    TitleHitFound(MockJobs, MockJobs[0], "frontend", 7);
  }

  lemma FrontendInTitle()
    ensures OccursAt(Lower("Senior Frontend Developer"), Lower("frontend"), 7)
  {
    assert Lower("Senior Frontend Developer")[7..15] == "frontend";
    assert Lower("frontend") == "frontend";
  }

  /** A job whose title holds a non-blank term is found by searching for
      that term. */
  lemma TitleHitFound(catalog: seq<Job>, job: Job, term: string, i: nat)
    requires job in catalog && term != [] && !IsSpace(term[0])
    requires OccursAt(Lower(job.title), Lower(term), i)
    ensures job in JobsGet(catalog, [("search", term)]).data
  {
    SearchParamCriteria(term);
    TitleHitPasses(job, term, i);
  }

  lemma SearchParamCriteria(term: string)
    requires term != [] && !IsSpace(term[0])
    ensures ServerCriteria([("search", term)]) == NoCriteria.(search := Some(term))
  {
    SingleParam("search", term);
    BlankIffTrimEmpty(term);
  }

  lemma TitleHitPasses(job: Job, term: string, i: nat)
    requires OccursAt(Lower(job.title), Lower(term), i)
    ensures Passes(job, NoCriteria.(search := Some(term)))
  {
    SearchHitMeans(job, term);
  }

  /** The search never reads the category: two jobs that differ only there
      are found by the same terms. */
  lemma SearchIgnoresCategory(job: Job, category: string, term: string)
    ensures SearchHit(job.(category := category), term) == SearchHit(job, term)
  {
  }
}
