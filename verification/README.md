# Job board core in Dafny

This project models the core of a Next.js job board: a catalog of six
bundled listings, the client store, the server's job query, and the
application form. It states properties of that core and proves them.

- **Job query.** The same filter engine exists twice.
  - In the store's `FILTER_JOBS` reducer case (`Query.FilterJobs`).
  - In the `GET /api/jobs` handler (`Query.JobsGet`).
  - Both are proved equal to one single-pass reference query, `Query.Select`: keep a job iff it passes every active predicate of a `Query.Criteria`.
  - The client turns its filter state into query parameters (`Query.EncodeQuery`). The model shows exactly when the server reads back the client's own criteria, and that for those selections both paths return the same jobs.
- **Store.** `jobReducer` over `{jobs, filteredJobs, loading, error, filters, applications}` with its eight action kinds (`Store.Reduce`). Every action keeps `filteredJobs` an order-preserving selection of `jobs`. The provider's dispatch sequences for the initial load, the re-query after a filter change and the submission of an application are modelled as action lists run through the reducer.
- **Application intake.** The `POST /api/applications` handler (`Intake.Submit`). It checks the six required fields in order and reports only the first failure, then the anchored e-mail pattern, then the untrimmed cover-letter length. A success is answered with a record built by object spread.
- **Application modal.** The form handlers (`handleInputChange`, `handleFileChange`, `handleClose`), `validateForm` and its unanchored e-mail pattern, and the application record that `handleSubmit` builds.
- **Text.** JavaScript string behaviour the code relies on is written out in module `Text`: `trim` over the ECMAScript white-space set, `toLowerCase`, `includes`, and decimal rendering of `Date.now()`. Strings are sequences of Unicode scalar values, and `length` is their UTF-16 code-unit count (`Text.Utf16Length`).

Modules, one file each:
- `Wrappers`: the `Option` type.
- `Text`: string primitives.
- `Catalog`: the `Job` record, the six listings and the facet lists.
- `Query`: both filter pipelines, the encoder and their agreement.
- `Json`: JSON values and truthiness.
- `Store`: the reducer and its dispatch sequences.
- `Email`: both e-mail patterns.
- `Intake`: the POST handler.
- `Modal`: the form.

Values that come from the outside world are parameters:
- fetch results: `Some(data)` for a successful reply, `None` for a failure;
- `Date.now()` and the ISO time stamp;
- the random id suffix;
- the outcome of `onSubmit`.

## Model

| member | source | states |
|---|---|---|
| Text.Trim | job-board-platform/src/contexts/JobContext.js:190-191 | `trim` removes exactly the white space at both ends. The result is a contiguous infix of the input; what was cut off is all white space; the result neither begins nor ends with white space. |
| Text.BlankIffTrimEmpty | job-board-platform/src/app/api/applications/route.js:10 | `s.trim() === ''` holds exactly when every character of `s` is white space. |
| Text.TrimIdempotent | job-board-platform/src/contexts/JobContext.js:190-191 | Trimming the already-trimmed search term again changes nothing. |
| Text.TrimFixedIff | job-board-platform/src/contexts/JobContext.js:190-191 | `trim` leaves a string unchanged iff it is empty or neither its first nor its last character is white space. |
| Text.Lower | job-board-platform/src/app/api/jobs/route.js:40-44 | Lowercasing keeps the length and maps every character on its own; no upper-case ASCII letter survives. |
| Text.LowerIdempotent | job-board-platform/src/app/api/jobs/route.js:40-44 | Lowercasing a lowercased string changes nothing. |
| Text.IncludesIff | job-board-platform/src/app/api/jobs/route.js:42-44 | The left-to-right `includes` scan answers true exactly when the needle occurs at some offset of the haystack. |
| Text.DecimalRoundTrip | job-board-platform/src/app/api/applications/route.js:48 | The decimal rendering of the clock value reads back as the same number. |
| Text.DecimalInjective | job-board-platform/src/app/api/applications/route.js:48 | Distinct clock values render as distinct digit strings. |
| Text.Utf16Length | job-board-platform/src/app/api/applications/route.js:34 | `length` counts UTF-16 code units: at least one and at most two per character, exactly one per character iff none lies outside the Basic Multilingual Plane, and two per character iff all do. |
| Text.Utf16LengthAppend | job-board-platform/src/app/api/applications/route.js:34 | The code units of a concatenation are the sum of the parts' code units. |
| Text.Utf16LengthInfix | job-board-platform/src/components/JobApplicationModal.js:77 | Any infix has no more code units than the whole string. |
| Text.TrimUtf16Length | job-board-platform/src/components/JobApplicationModal.js:77 | `trim` never adds code units: the trimmed length is at most the untrimmed one. |
| Catalog.MockJobIds | job-board-platform/src/data/mockJobs.js:2-159 | The catalog holds six jobs with ids 1 to 6 in order, so ids are distinct. |
| Catalog.FacetListsStartWithSentinel | job-board-platform/src/data/mockJobs.js:161-190 | Each facet option list starts with its "All …" sentinel. |
| Catalog.MockCategoriesListed | job-board-platform/src/data/mockJobs.js:2-172 | Every job's category is a non-sentinel option of the category list. |
| Catalog.MockLevelsListed | job-board-platform/src/data/mockJobs.js:2-179 | Every job's experience level is a non-sentinel option of the level list. |
| Catalog.MockLocationsListed | job-board-platform/src/data/mockJobs.js:2-190 | Every job's location is on the location list and is a city, never "Remote". |
| Catalog.RemoteMockJobs | job-board-platform/src/data/mockJobs.js:2-159 | Exactly jobs 1, 3, 4 and 6 are remote. |
| Query.LocalCriteria | job-board-platform/src/contexts/JobContext.js:74-105 | No contract. It reads the store's filters as criteria: a facet is active unless it equals its "All …" sentinel, and the search unless it is empty. `Query.FilterJobsIsSelect` proves that FILTER_JOBS keeps exactly the jobs meeting them. |
| Query.FilterJobs | job-board-platform/src/contexts/JobContext.js:69-110 | No contract. It models the five staged `.filter` passes of FILTER_JOBS. `Query.FilterJobsIsSelect` equates it to `Query.Select` of `Query.LocalCriteria`. |
| Query.Select | job-board-platform/src/app/api/jobs/route.js:16-46 | The reference query returns an order-preserving subsequence of its input. A job is in it iff it is in the input and passes every active predicate. Every copy of a passing job is kept (multiset equality). |
| Query.SelectNothing | job-board-platform/src/contexts/JobContext.js:71 | With no active predicate the query is the input unchanged. |
| Query.ApplyNarrows | job-board-platform/src/contexts/JobContext.js:73-105 | One more `.filter` stage over a query result equals the query with that stage's predicate added. |
| Query.FilterJobsIsSelect | job-board-platform/src/contexts/JobContext.js:69-110 | The five staged `.filter` passes of FILTER_JOBS compute the single-pass query of the client criteria: sentinels switch facets off, "Remote" selects on the remote flag, and any non-empty search term is matched. |
| Query.FilterJobsInitial | job-board-platform/src/contexts/JobContext.js:69-110 | With the initial filter selection, FILTER_JOBS returns every job in order. |
| Query.ParamAppend | job-board-platform/src/contexts/JobContext.js:176-192 | After `append(key, value)`, `get` still returns an earlier value under the same key; otherwise the new pair answers for its own key and no other. |
| Query.Param | job-board-platform/src/app/api/jobs/route.js:10-14 | No contract. `URLSearchParams.get` answers the first value appended under a key, or nothing. `Query.ParamAppend` characterises it under `append`. |
| Query.ServerFilter | job-board-platform/src/app/api/jobs/route.js:16-46 | No contract. It models the handler's staged filters over the bundled catalog. `Query.ServerFilterIsSelect` equates it to `Query.Select` of `Query.ServerCriteria`. |
| Query.ServerCriteria | job-board-platform/src/app/api/jobs/route.js:10-46 | No contract. It reads the parameters as criteria: a facet is active when present, non-empty and not its sentinel; `remote` only for "true"; the search when it is non-blank. `Query.ServerFilterIsSelect` proves the handler keeps exactly the jobs meeting them. |
| Query.JobsGet | job-board-platform/src/app/api/jobs/route.js:9-52 | `total` is the length of `data`. `data` is an order-preserving subsequence of the catalog holding exactly the jobs that pass the server's criteria. |
| Query.ServerFilterIsSelect | job-board-platform/src/app/api/jobs/route.js:16-46 | The handler's staged filters compute the single-pass query of the server criteria. Absent, empty and sentinel facets are off; remote is on only for "true"; a blank search is off. |
| Query.SearchHitMeans | job-board-platform/src/app/api/jobs/route.js:39-45 | A job matches a search iff the lowercased term occurs in the lowercased title, company or description. |
| Query.EncodeQuery | job-board-platform/src/contexts/JobContext.js:176-192 | No contract. It models the guarded `append` calls that build the query. `Query.EncodeQueryParams` states what each key reads back as, and `Query.EncodedCriteriaIff` when the server recovers the client's criteria. |
| Query.EncodeQueryParam | job-board-platform/src/contexts/JobContext.js:176-192 | Reading any key back from the encoded parameters gives the value of that key's single append, or nothing when the append was skipped. |
| Query.EncodeQueryParams | job-board-platform/src/contexts/JobContext.js:176-192 | What the server reads back: empty or sentinel facets are absent, `remote` is "true" iff the flag is set, and the search is the trimmed term, present only when the term is not blank. |
| Query.FacetReadBackIff | job-board-platform/src/contexts/JobContext.js:178-186 | A facet is read back as the client meant it iff it is not the empty string. |
| Query.ServerCriteriaOfEncoded | job-board-platform/src/contexts/JobContext.js:172-197 | The criteria the server derives from an encoded selection, per component. |
| Query.SearchReadBackIff | job-board-platform/src/contexts/JobContext.js:190-191 | The server's search (trimmed, dropped when blank) equals the client's (untrimmed, dropped only when empty) iff the term has no surrounding white space. |
| Query.EncodedCriteriaIff | job-board-platform/src/contexts/JobContext.js:172-197 | The server reads back exactly the client's criteria iff no facet is the empty string and the search term is already trimmed. |
| Query.LocalAgreesWithServer | job-board-platform/src/contexts/JobContext.js:197-206 | For such selections, the server's answer to the encoded query and the local FILTER_JOBS fallback list the same jobs in the same order. |
| Query.BlankSearchDiverges | job-board-platform/src/contexts/JobContext.js:190-191 | Counterexample for a search term of one space: the local filter drops a job, while the encoder omits the search and the server keeps the job. |
| Query.EmptyCategoryDiverges | job-board-platform/src/contexts/JobContext.js:178-180 | Counterexample for an empty category: the local filter compares it literally and keeps nothing, while the encoder omits it and the server keeps the job. |
| Query.JobsGetUnfiltered | job-board-platform/src/app/api/jobs/route.js:16-52 | With every parameter absent, empty, at its sentinel or (for remote) not "true", the handler returns the whole catalog in order, with its length as `total`. |
| Query.MockJobsUnfiltered | job-board-platform/src/app/api/jobs/route.js:16 | A request without parameters lists the six bundled jobs. |
| Query.LocationQuery | job-board-platform/src/app/api/jobs/route.js:23-29 | `location=Remote` keeps exactly the remote jobs, whatever their city; any other location keeps exactly the jobs at that literal location. |
| Query.RemoteQuery | job-board-platform/src/app/api/jobs/route.js:35-37 | `remote` filters only for the exact value "true"; any other value returns the catalog unchanged. |
| Query.SearchQuery | job-board-platform/src/app/api/jobs/route.js:39-46 | A blank search returns the catalog. Any other search keeps exactly the jobs whose lowercased title, company or description contains the lowercased term. |
| Query.CategoryQueryKeepsJob | job-board-platform/src/app/api/jobs/route.js:19-21 | Filtering by a job's own category keeps that job, and only jobs of that category. |
| Query.RemoteFlagRedundantWithRemoteLocation | job-board-platform/src/app/api/jobs/route.js:23-37 | With `location=Remote`, adding `remote=true` does not change the result. |
| Query.UnlistedCategoryMatchesNothing | job-board-platform/src/app/api/jobs/route.js:19-21 | A category that is not on the category list matches no bundled job, and `total` is 0. |
| Query.UnlistedLevelMatchesNothing | job-board-platform/src/app/api/jobs/route.js:31-33 | An experience level that is not on the level list matches no bundled job. |
| Query.RemoteLocationOnMockJobs | job-board-platform/src/app/api/jobs/route.js:24-25 | On the bundled catalog, `location=Remote` lists jobs 1, 3, 4 and 6, in that order. |
| Query.FrontendFindsJobOne | job-board-platform/src/app/api/jobs/route.js:39-45 | `search=frontend` finds job 1 through its title. |
| Query.TitleHitFound | job-board-platform/src/app/api/jobs/route.js:39-45 | A job whose lowercased title contains a lowercased term that does not start with white space is in the result of searching for that term. |
| Query.SearchIgnoresCategory | job-board-platform/src/app/api/jobs/route.js:41-45 | The search never reads the category: jobs that differ only in category are found by the same terms. |
| Store.Merge | job-board-platform/src/contexts/JobContext.js:60-67 | No contract. It is the shallow merge `{...state.filters, ...action.payload}`, with absent payload keys keeping their value. `Store.SetFiltersMerges` and `Store.SetFiltersCompose` characterise it. |
| Store.Reduce | job-board-platform/src/contexts/JobContext.js:36-134 | Every reducer case preserves the store invariant: `filteredJobs` is an order-preserving subsequence of `jobs`. |
| Store.RunAppend | job-board-platform/src/contexts/JobContext.js:141 | Dispatching two action sequences one after the other is dispatching their concatenation. |
| Store.RunConsistent | job-board-platform/src/contexts/JobContext.js:36-134 | Any sequence of dispatches preserves the store invariant. |
| Store.InitialConsistent | job-board-platform/src/contexts/JobContext.js:8-21 | The initial state satisfies the store invariant. |
| Store.FilterJobsSelects | job-board-platform/src/contexts/JobContext.js:69-110 | FILTER_JOBS changes only `filteredJobs`. The new list is an order-preserving subsequence of `jobs` holding exactly the jobs that pass the client criteria of `filters`. |
| Store.FilterJobsUnfiltered | job-board-platform/src/contexts/JobContext.js:69-110 | With the initial filters, FILTER_JOBS shows every job. |
| Store.FilterJobsByLocation | job-board-platform/src/contexts/JobContext.js:78-85 | With only a location selected, "Remote" keeps exactly the remote jobs and any other location exactly the jobs there. |
| Store.SetFiltersMerges | job-board-platform/src/contexts/JobContext.js:60-67 | SET_FILTERS: keys in the payload take their new values, the other filter keys keep theirs, and nothing outside `filters` changes. |
| Store.SetFiltersCompose | job-board-platform/src/contexts/JobContext.js:60-67 | Two SET_FILTERS in a row equal one with the right-biased combined payload, and an empty payload changes nothing. |
| Store.ClearFiltersResets | job-board-platform/src/contexts/JobContext.js:118-123 | CLEAR_FILTERS restores the initial filters, shows all of `jobs`, and changes nothing else. |
| Store.ClearFiltersStable | job-board-platform/src/contexts/JobContext.js:118-123 | CLEAR_FILTERS is idempotent, and FILTER_JOBS right after it changes nothing. |
| Store.SetJobsReplaces | job-board-platform/src/contexts/JobContext.js:44-51 | SET_JOBS sets both job lists to the payload and ends loading. An error or warning already shown survives it. |
| Store.AddApplicationAppends | job-board-platform/src/contexts/JobContext.js:112-116 | ADD_APPLICATION appends exactly its payload after the existing applications and changes nothing else. |
| Store.FlagActions | job-board-platform/src/contexts/JobContext.js:38-129 | SET_LOADING, SET_ERROR and CLEAR_ERROR touch only their own fields; SET_ERROR also ends loading. |
| Store.UnknownActionIgnored | job-board-platform/src/contexts/JobContext.js:131-132 | An unknown action type returns the state unchanged. |
| Store.LoadJobsActions | job-board-platform/src/contexts/JobContext.js:144-169 | No contract. These are the actions `loadJobs` dispatches on a successful or failed fetch. `Store.LoadJobsOutcome` states the resulting state. |
| Store.LoadJobsOutcome | job-board-platform/src/contexts/JobContext.js:144-169 | After the initial load, loading has ended and both job lists hold either the fetched jobs, with the error untouched, or the bundled jobs with the cached-data warning. |
| Store.ApplyFilters | job-board-platform/src/contexts/JobContext.js:197-210 | No contract. It models the dispatch after a re-query: SET_JOBS with the reply, or FILTER_JOBS when the request fails. `Store.ApplyFiltersPathsAgree` and `Store.ServerPathNarrowsCatalog` characterise it. |
| Store.ApplyFiltersPathsAgree | job-board-platform/src/contexts/JobContext.js:197-210 | When the server answers the encoded query over the store's own jobs and the selection survives encoding, the success path and the fallback show the same jobs. |
| Store.ServerPathNarrowsCatalog | job-board-platform/src/contexts/JobContext.js:200-205 | As written, a successful re-query replaces `jobs` as well. After clearing the filters, a failed re-query can only show the narrowed list. |
| Store.NarrowedCatalogExample | job-board-platform/src/contexts/JobContext.js:200-205 | On the bundled jobs, a `location=Remote` reply, a clear and a failed re-query leave four of the six jobs in view. |
| Store.ApplyFiltersIntendedKeepsCatalog | job-board-platform/src/contexts/JobContext.js:200-202 | With the update the comment describes, `jobs` is never narrowed, the success path keeps the store invariant, and clearing followed by a failed re-query shows every job again. |
| Store.SubmitActions | job-board-platform/src/contexts/JobContext.js:226-244 | No contract. These are the actions `addApplication` dispatches on success or failure. `Store.SubmitOutcome` states the resulting state. |
| Store.SubmitOutcome | job-board-platform/src/contexts/JobContext.js:226-244 | A submission ends with loading off and appends the server's record exactly when it succeeds; nothing else changes. |
| Email.ServerEmailOk | job-board-platform/src/app/api/applications/route.js:22-23 | No contract. It is a direct check of the anchored pattern. `Email.ServerEmailOkIff` proves it equal to the existence of a match. |
| Email.ServerEmailOkIff | job-board-platform/src/app/api/applications/route.js:22-23 | The server's e-mail check accepts exactly the strings matching `^[^\s@]+@[^\s@]+\.[^\s@]+$`. |
| Email.ClientEmailOk | job-board-platform/src/components/JobApplicationModal.js:67 | No contract. It checks for the shortest window of the unanchored pattern. `Email.ClientEmailOkIff` proves it equal to the existence of a match. |
| Email.ClientEmailOkIff | job-board-platform/src/components/JobApplicationModal.js:67 | The modal's check accepts exactly the strings that contain a match of `\S+@\S+\.\S+`. |
| Email.ServerEmailImpliesClient | job-board-platform/src/components/JobApplicationModal.js:65-69 | Every address the server accepts, the modal accepts. |
| Email.ClientAcceptsWhatServerRejects | job-board-platform/src/app/api/applications/route.js:22-23 | "x y@a.b" passes the modal's check and fails the server's. |
| Intake.Submit | job-board-platform/src/app/api/applications/route.js:3-73 | No contract. It models the whole handler on a parsed or broken body. `Intake.AcceptedIff` characterises acceptance; `Intake.FirstFailingFieldReported`, `Intake.EmailCheckedAfterFields` and `Intake.CoverLetterLengthDecides` characterise each rejection. |
| Intake.Status | job-board-platform/src/app/api/applications/route.js:10 | A required value is present iff it is a non-blank string. It throws (`trim` is not a function) iff it is truthy and not a string. |
| Intake.CheckRequired | job-board-platform/src/app/api/applications/route.js:8-19 | The field loop reports nothing iff every required field is present, and a report is never a success. |
| Intake.CheckRequiredFirst | job-board-platform/src/app/api/applications/route.js:9-19 | The first field that is not present decides the loop's report. |
| Intake.FirstFailingFieldReported | job-board-platform/src/app/api/applications/route.js:9-19 | If field k is the first that is not present, the handler answers 400 "<field> is required" when it is missing or blank, and 500 when it is a non-string. |
| Intake.MissingFieldResponse | job-board-platform/src/app/api/applications/route.js:9-19 | The response actually sent when field k is the first missing or blank field: status 400 with `error` "<field> is required". |
| Intake.FieldStatusCases | job-board-platform/src/app/api/applications/route.js:10 | A white-space string counts as missing, like an absent or falsy value; a truthy non-string throws. |
| Intake.BrokenBodyFails | job-board-platform/src/app/api/applications/route.js:64-73 | An unparseable body, or `null`, gets a 500. |
| Intake.NonObjectBodyRejected | job-board-platform/src/app/api/applications/route.js:9-19 | Any other non-object body is rejected with "firstName is required". |
| Intake.EmailCheckedAfterFields | job-board-platform/src/app/api/applications/route.js:21-31 | Once all fields are present, the answer is "Invalid email format" iff the address does not match the anchored pattern. |
| Intake.CoverLetterLengthDecides | job-board-platform/src/app/api/applications/route.js:33-42 | After the e-mail passes, an untrimmed cover letter shorter than 50 code units is rejected and a longer one accepted. |
| Intake.AcceptedIff | job-board-platform/src/app/api/applications/route.js:3-62 | The handler accepts exactly the objects whose six fields are non-blank strings, whose e-mail matches, and whose cover letter has at least 50 code units. |
| Intake.PaddedCoverLetterPasses | job-board-platform/src/app/api/applications/route.js:34 | Ten visible characters padded with forty spaces pass the length check. |
| Intake.AstralCoverLetterPasses | job-board-platform/src/app/api/applications/route.js:34 | A cover letter of 25 astral characters has length 50 and is accepted. |
| Intake.ApplicationId | job-board-platform/src/app/api/applications/route.js:48 | The id starts with "APP_" and is longer than five characters. |
| Intake.Record | job-board-platform/src/app/api/applications/route.js:54-59 | The record's keys are the payload's keys plus `id`, `appliedAt` and `status`. |
| Intake.RecordFields | job-board-platform/src/app/api/applications/route.js:54-59 | Spread order: payload fields override `id`, while `appliedAt` and `status` override the payload. |
| Intake.AcceptedRecord | job-board-platform/src/app/api/applications/route.js:48-60 | An accepted submission's record copies every payload field except `appliedAt` and `status`. `status` is "pending" and `appliedAt` is the server's stamp. `id` is the generated id unless the payload brings its own. |
| Intake.ApplicationIdInjective | job-board-platform/src/app/api/applications/route.js:48 | Different clock readings or suffixes give different ids. |
| Intake.Respond | job-board-platform/src/app/api/applications/route.js:11-73 | Status 201, 400 and 500 correspond exactly to acceptance, rejection and failure, and `success` is true exactly for 201. A 400 carries only the rejection's `error`. A 201 carries the generated `applicationId`, the stored record as `data` and the success message. A 500 carries the fixed "Internal server error" and "Failed to submit application". |
| Modal.InputChange | job-board-platform/src/components/JobApplicationModal.js:19-33 | No contract. It sets the named field and clears that field's error if it is truthy. `Modal.InputChangeIsLocal` characterises it. |
| Modal.InputChangeIsLocal | job-board-platform/src/components/JobApplicationModal.js:19-33 | An input change sets only the named field. Its error is blanked if one is showing; no other field or error changes, and no key is added. |
| Modal.FileChange | job-board-platform/src/components/JobApplicationModal.js:35-52 | A PDF becomes the resume and blanks the resume error. Anything else, or no file, keeps the resume and shows "Please upload a PDF file". Other errors and fields are untouched. |
| Modal.Validate | job-board-platform/src/components/JobApplicationModal.js:54-87 | The collected errors use only the six form keys. `Modal.ValidateReports` states when each key is reported and `Modal.ValidateMessages` which message it carries. |
| Modal.ValidateForm | job-board-platform/src/components/JobApplicationModal.js:54-87 | The collected errors replace the shown ones, and the form passes exactly when there are none. `Modal.ValidateOkIff` ties that to the reference definition of a valid form. |
| Modal.ValidateMessages | job-board-platform/src/components/JobApplicationModal.js:57-83 | Each reported field carries its own message: "… is required" when the field is blank after trimming; otherwise "Email is invalid" for the e-mail and "Cover letter must be at least 50 characters" for the cover letter. |
| Modal.ValidateReports | job-board-platform/src/components/JobApplicationModal.js:57-83 | A field is reported exactly when it is blank. For the e-mail, also when it has no match of the pattern; for the cover letter, when it is shorter than 50 code units once trimmed; for the resume, when none is attached. |
| Modal.ValidateOkIff | job-board-platform/src/components/JobApplicationModal.js:54-87 | `validateForm` finds no error exactly when the form is valid under the reference definition. |
| Modal.ClientCoverLetterStricter | job-board-platform/src/components/JobApplicationModal.js:77 | A cover letter the modal accepts also passes the server's length check. |
| Modal.PaddedCoverLetterSplitsRules | job-board-platform/src/components/JobApplicationModal.js:77 | 49 letters and a space pass the server's length check but not the modal's. |
| Modal.AstralCoverLetterAccepted | job-board-platform/src/components/JobApplicationModal.js:77 | A cover letter of 25 astral characters has trimmed length 50, so the modal reports no cover-letter error. |
| Modal.BuildApplication | job-board-platform/src/components/JobApplicationModal.js:99-110 | The application carries exactly the ten keys the handler builds. |
| Modal.ApplicationCopiesForm | job-board-platform/src/components/JobApplicationModal.js:99-110 | The application copies the form fields verbatim. It sends the job id as a number, the job's title and company, and the given time stamp. `resumeFileName` is the resume's name, or null iff there is no resume or its name is empty. |
| Modal.ApplicationStatuses | job-board-platform/src/components/JobApplicationModal.js:99-108 | For the server, the five text fields of a valid form are present. The numeric `jobId` throws, or counts as missing when it is 0. |
| Modal.ValidFormNonBlank | job-board-platform/src/components/JobApplicationModal.js:54-87 | A form `validateForm` accepts has non-blank first name, last name, e-mail, phone and cover letter. |
| Modal.ModalApplicationNeverAccepted | job-board-platform/src/components/JobApplicationModal.js:100 | No application the modal builds from a form with five non-blank text fields, which includes every form `validateForm` accepts, is accepted by the POST handler: it answers 500, or 400 "jobId is required" for job id 0. |
| Modal.HandleSubmit | job-board-platform/src/components/JobApplicationModal.js:89-136 | An application is sent iff the form validates, and it is the built application. An invalid form only shows its errors. After sending, submitting is off and `isSubmitted` is set on success. A thrown submit shows only the submit error; otherwise every shown error, a stale submit error included, is cleared. |
| Modal.HandleClose | job-board-platform/src/components/JobApplicationModal.js:138-152 | Closing is ignored while submitting; otherwise the modal returns to its initial state. |
| Modal.HandleCloseIdempotent | job-board-platform/src/components/JobApplicationModal.js:138-152 | Closing twice is closing once. |

## Left out

- Network, `fetch`, `await` and timing.
  - Replies are parameters, and the simulated delays are dropped.
  - Two overlapping re-queries can race. Only sequential dispatch is modelled.
- The `setTimeout` that resets the modal two seconds after a successful submit is not modelled. Only the state right after `onSubmit` returns is.
- `URLSearchParams.toString` and percent-encoding are not modelled; parameters are read back with `get` on the appended pairs. This assumes serialisation followed by parsing is the identity, which holds for the standard.
- Text.Lower: folds only ASCII letters. `toLowerCase` also folds non-ASCII letters, so a search is modelled case-insensitively for ASCII only.
- Strings are sequences of Unicode scalar values, one `char` per code point, where JavaScript's are sequences of UTF-16 code units. `length` is modelled as the code-unit count (`Text.Utf16Length`): two for a character outside the Basic Multilingual Plane, one otherwise. Lone surrogates cannot be represented, so strings that are not well-formed UTF-16 are left out. `trim`, `includes` and the patterns agree on well-formed strings either way, because white space, `@` and `.` all lie in the Basic Multilingual Plane.
- Intake.CoverLetterLengthDecides: counts the cover letter's UTF-16 code units as `length` does, but only for well-formed strings; a letter holding a lone surrogate cannot be represented.
- Intake.AcceptedIff: the same restriction to well-formed UTF-16 strings applies to the cover-letter length and to every field.
- Modal.ValidateReports: the trimmed cover-letter length is counted in UTF-16 code units, for well-formed strings only; lone surrogates cannot be represented.
- JSON numbers are integers. `NaN`, fractions and their truthiness are left out; only 0 is a falsy number.
- SET_FILTERS is modelled with the five known filter keys, each optional. Extra or mistyped keys in the payload are left out.
- SET_ERROR is modelled with string payloads only.
- Query.FrontendFindsJobOne: proves only that job 1 is found. The negative half, that no other bundled job mentions "frontend", would need the verifier to evaluate searches over the long description literals, which it cannot do at acceptable cost. Job 5's title, company and description do not contain "frontend"; its category does, and the search never reads the category (Query.SearchIgnoresCategory).
- The page, `JobCard`, `FilterBar`, `Table` and the API service wrapper are rendering or transport code and are not part of this model.
- Query.JobsGet: the reply's constant `success: true` field and the handler's catch branch (status 500, `success: false`) are not modelled. Over the in-memory catalog nothing in the filtering path throws, and `success` is the same on every reply that path produces.
- The API service's own error shape (`response.error || 'Failed to fetch jobs'`) only feeds a log message and is not modelled.

## Findings

| source | as written | input that shows it | evidently intended | confidence | as-written member | corrected member |
|---|---|---|---|---|---|---|
| job-board-platform/src/contexts/JobContext.js:200-202 | A successful re-query dispatches SET_JOBS, which replaces `jobs` as well as `filteredJobs`. | Bundled jobs. A `location=Remote` reply leaves 4 jobs in `jobs`. After CLEAR_FILTERS and a failed re-query, only those 4 jobs can be shown. | The comment says "Update filtered jobs with API response". Only `filteredJobs` should change, so that clearing the filters brings back the full catalog. | medium, not executed | Store.NarrowedCatalogExample | Store.ApplyFiltersIntendedKeepsCatalog |
