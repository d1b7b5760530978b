# ELRR-synchronised learning plans: a Dafny model of the portal backend core

The portal backend keeps learners' learning plans in its own database and
mirrors each plan goal, with its KSAs and courses, into the external ELRR
learning-record service. It resolves KSAs and competencies in the ECCR
registry and courses in the XDS catalog, and it reports a learner's course
progress from the xAPI statements in an LRS. This project models that core
in Dafny and proves properties of the model:

- `ElrrClient` and `Elrr`: the ELRR client. This covers URL normalisation,
  the payload validators and the mapping of HTTP statuses to outcomes. It
  also covers the person and goal round trips, the goal date (start plus N
  calendar months), the goal document, and the reconciliation of a goal's
  competency and learning-resource id arrays. The network is a scripted
  service object: it logs every request it is sent and answers with the
  next reply of its script (`Remote`).
- `PlanSync`, `LearningPlans` and `Catalog`: the goal, KSA-link, course-link
  and plan-competency create, update and delete flows.
  - Local rows are written first and the remote side is called next. A
    remote failure rolls the local rows back, which models
    `transaction.atomic` as a snapshot that is restored.
  - Deletes call the remote side first.
  - Catalog rows (courses, KSAs, competencies) are resolved by reference,
    outside the transaction.
  - The model also covers the `save` overrides that stamp the owning plan.
- `Applications`, `ApiModels`, `ExternalModels`, `Vacancies` and
  `Configurations`: the validation rules and the table constraints. These
  are the editable-status guard, the date order, the code-of-ethics
  acknowledgement, the submission stamp and the reviewers' permissions. They
  also include the uniqueness and check constraints, the learner-record
  protection, the job get-or-create and the single `Configuration` row.
- `Views` and `Xapi`: the view layer. This covers the owner-field stripping,
  the parent-permission gate on creates, and the course-progress endpoint
  with its LRS fetch, statement processing, de-duplication, exclusion,
  platform filter and status mapping.
- `Xds`, `Eccr`, `Homoglyphs`, `PortalRegex`, `Organizations`, `Permissions`,
  `Calendar` and `ApiUrls`: the pure helpers. These are the XDS metadata
  reshaping, the ECCR queries, the recursive homoglyph check, and the
  input-validation regular language over code points. They also include the
  organisation chain rendering and the method-to-permission table.

Payloads are modelled as JSON values (`JsonValues`). Python's `dict.get`,
iteration and indexing are partial operations that raise on the wrong
shape; the model makes each failure an explicit `Err`. Exceptions are the
`Outcomes.Exc` values. `ConnectionError` is the builtin exception, and
`RequestError` is the HTTP library's own connection failure.

Where the specification and the code disagree, the model follows the code:
- A goal's `timeline` is taken as the integer month count that
  `calculate_goal_achieved_by_date` documents
  (app/external/utils/elrr_utils.py:213), not a duration code. A zero count,
  not only a missing one, gives no achieved-by date. The column itself is a
  string; see "Left out".
- ELRR failures are the `ValueError` and `ConnectionError` the client
  raises, not separate rejected, unavailable and invalid-response kinds.
- The KSA and competency validator imported by the serializers is not part of
  this model. It is a stand-in object that answers a scripted name or
  exception (`Catalog.EccrValidator`).

## Model

| member | source | states |
|---|---|---|
| ApiUrls.ApiBase | app/external/utils/elrr_utils.py:13-22 | the URL starts with the configured base and ends in "api/"; it is the base itself, base + "/", base + "api/" or base + "/api/"; a base already ending in "api/" is kept as it is |
| ApiUrls.ApiBaseIdempotent | app/external/utils/elrr_utils.py:17-20 | normalising a normalised URL changes nothing |
| ApiUrls.ApiBaseMinimal | app/external/utils/elrr_utils.py:17-20 | which suffix is appended in each case: "api/" after a trailing slash, "/" alone before a final "api", "/api/" otherwise |
| ApiUrls.ApiBaseAddsSlashAndApi | app/external/utils/elrr_utils.py:17-20 | a base with neither slash nor "api/" gets both |
| ApiUrls.ApiBaseAddsSlash | app/external/utils/elrr_utils.py:17-20 | a base ending in "api" only gets the slash |
| ApiUrls.ApiBaseKeepsNormalised | app/external/utils/elrr_utils.py:19-20 | a base ending in "api/" is returned unchanged |
| ApiUrls.ApiPath | app/external/utils/elrr_utils.py:13-22 | an endpoint path appended to the normalised base gives a URL that starts with the base and ends in "api/" followed by the path |
| ApiUrls.AuthorizationHeader | app/external/utils/elrr_utils.py:34-38 | the header is the scheme ("Bearer" by default), one space, then the token, and both parts can be read back from it |
| Permissions.PermsMap | app/portal/permissions.py:10-18 | exactly GET, OPTIONS, HEAD, POST, PUT, PATCH and DELETE have an entry, each with one template |
| Permissions.RequiredPermissions | app/portal/permissions.py:8-18 | a method has required permissions exactly when the table has it, and the one codename is its template filled with app label and model name |
| Permissions.PermissionPerMethod | app/portal/permissions.py:8-18 | reading methods need "<app>.view_<model>", POST "<app>.add_<model>", PUT and PATCH "<app>.change_<model>", DELETE "<app>.delete_<model>" |
| Permissions.DistinctActions | app/portal/permissions.py:8-18 | different actions never give the same codename for one model |
| PortalRegex.AsciiMatches | app/portal/regex.py:1-11 | every string of tab, line feed, carriage return and printable ASCII matches, the empty string included |
| PortalRegex.MatchesOnlyAllowed | app/portal/regex.py:1-11 | a matching string holds only characters that some alternative mentions |
| PortalRegex.RejectsForbidden | app/portal/regex.py:1-11 | one character above U+00FF, a control character other than tab, line feed and carriage return, U+007F, U+00C0, U+00C1 or U+00F5..U+00FF makes the whole string fail |
| PortalRegex.MatchesConcat | app/portal/regex.py:2-11 | the accepted language is closed under concatenation (the pattern is a starred group anchored at both ends) |
| PortalRegex.TokenLength | app/portal/regex.py:2-11 | a matching string can always be split into a first alternative and a matching rest, and the class of the first character fixes the alternative's length |
| PortalRegex.ThreeByteLeadRunFromStart | app/portal/regex.py:6 | a maximal run of the `{2}` class at the start of a matching string has even length |
| PortalRegex.ThreeByteLeadRunsEven | app/portal/regex.py:6 | every maximal run of U+00E1..U+00EC, U+00EE, U+00EF in a matching string has even length |
| PortalRegex.Planes4To15RunFromStart | app/portal/regex.py:9 | a maximal run of the `{3}` class at the start of a matching string has a length divisible by three |
| PortalRegex.Planes4To15RunsInTriples | app/portal/regex.py:9 | every maximal run of U+00F1..U+00F3 in a matching string has a length divisible by three |
| PortalRegex.ThreeByteLeadOnly | app/portal/regex.py:6 | a string made only of that class matches exactly when its length is even |
| PortalRegex.Planes4To15Only | app/portal/regex.py:9 | a string made only of U+00F1..U+00F3 matches exactly when its length is a multiple of three |
| PortalRegex.AccentedE | app/portal/regex.py:6 | "é" on its own is rejected, doubled it is accepted |
| Homoglyphs.Check | app/configuration/utils/portal_utils.py:8-24 | the flag is true exactly when no string value at any depth of nested dicts is dangerous; every key is visited |
| Homoglyphs.SafeAppend | app/configuration/utils/portal_utils.py:11-24 | a payload is safe exactly when each of its parts is |
| Homoglyphs.TopLevelDangerous | app/configuration/utils/portal_utils.py:15-17 | a dangerous string directly under a key makes the payload unsafe |
| Homoglyphs.NestedUnsafe | app/configuration/utils/portal_utils.py:20-23 | an unsafe nested dict makes its parent unsafe |
| Homoglyphs.OtherValuesIgnored | app/configuration/utils/portal_utils.py:14-23 | values that are neither strings nor dicts never change the verdict |
| Organizations.Str | app/users/models.py:17-18 | the rendering starts with the organisation's own name and is just that name without a parent |
| Organizations.Chain | app/users/models.py:14-18 | the chain of names up to the root starts with the organisation's own name |
| Organizations.StrIsJoinedChain | app/users/models.py:17-18 | the rendering is the chain of names up to the root, joined with " - " |
| Organizations.ParentRenderingIsSuffix | app/users/models.py:17-18 | a child's rendering continues, after its name and " - ", with its parent's rendering |
| Organizations.Directory.Delete | app/users/models.py:14-24 | the organisation and every descendant are removed (CASCADE on `parent`), nothing else; members of a removed organisation keep their row with no organisation (SET_NULL) |
| Calendar.AddMonths | app/external/utils/elrr_utils.py:221 | `relativedelta(months=n)`: the month index moves by exactly n, the day is kept but clamped to the target month's length, and a year outside 1..9999 raises ValueError |
| Calendar.AddZeroMonths | app/external/utils/elrr_utils.py:221 | adding no months changes nothing |
| Calendar.AddMonthsKeepsEarlyDays | app/external/utils/elrr_utils.py:221 | a day of month up to 28 is always kept |
| Calendar.AddMonthsClampExamples | app/external/utils/elrr_utils.py:221 | 31 January + 1 month is 28 February (29 in a leap year); month addition is not associative; year 9999 + 1 month raises |
| Calendar.IsoDate | app/external/utils/elrr_utils.py:242 | "YYYY-MM-DD": ten characters with dashes at positions 4 and 7 |
| Calendar.IsoDateRoundTrip | app/external/utils/elrr_utils.py:242 | the printed date reads back as the same date |
| Calendar.IsoDateInjective | app/external/utils/elrr_utils.py:242 | different dates print differently |
| Eccr.SearchUrl | app/external/utils/eccr_utils.py:14-24 | the URL starts with the configured base and ends in "api/sky/repo/search/" |
| Eccr.DataUrl | app/external/utils/eccr_utils.py:27-37 | the URL starts with the configured base and ends in "api/data/" |
| Eccr.SearchQuery | app/external/utils/eccr_utils.py:56-61 | every query ends with the exclusion of progression records |
| Eccr.SearchQueryShape | app/external/utils/eccr_utils.py:56-61 | without a type the query is "(q)" plus the exclusion; with a type (even an empty one) it is wrapped in the type-or-encrypted-type filter |
| Eccr.SearchPayloadFields | app/external/utils/eccr_utils.py:55-61 | the search body holds exactly "searchParams" (start and size) and "data" (the query), in that order |
| Eccr.ItemUrlUnderDataEndpoint | app/external/utils/eccr_utils.py:104-108 | the item URL is the data endpoint followed by "<type>/<id>" |
| Eccr.SearchAndDataUrlsDiffer | app/external/utils/eccr_utils.py:14-37 | the search and data endpoints of one base never coincide |
| Remote.DecodedBody | app/external/utils/elrr_utils.py:117-137 | a body that does not decode is turned into ConnectionError by the `except RequestException` clause; a decoded body is passed on |
| Xds.GetCourseName | app/external/utils/xds_utils.py:14-29 | `p2881-core.Title` when the body has both keys, None when either is missing, an uncaught error when the body or the core value cannot be searched |
| Xds.CoursesApiUrl | app/external/utils/xds_utils.py:75-86 | the URL starts with the configured base and ends in "api/experiences/<id>" |
| Xds.ValidateXdsCourse | app/external/utils/xds_utils.py:133-163 | 200 gives the course name (ValueError for a body that is not JSON), 404 ValueError, any other status ConnectionError; a request that fails outright raises the HTTP library's error |
| Xds.FormatMetadata | app/external/utils/xds_utils.py:32-50 | None without `metadata` or without `Metadata_Ledger`; otherwise a ledger holding `meta` and `Supplemental_Ledger` |
| Xds.FormatMetadataWellFormed | app/external/utils/xds_utils.py:32-50 | on a well-formed record exactly two keys are assigned: `Supplemental_Ledger` (the metadata's, or None) and `meta` (identifier and hash); every other key of the ledger keeps its value |
| Xds.MetadataToTarget | app/external/utils/xds_utils.py:53-72 | a list is formatted record by record into a list of the same length and order, a dict gives its one formatted record, anything else None |
| Elrr.ValidatePerson | app/external/utils/elrr_utils.py:41-55 | a person is valid exactly when it has a truthy first name or full name, and a truthy last name or full name |
| Elrr.CheckRecord | app/external/utils/elrr_utils.py:58-86 | a record passes exactly when it is a dict with a truthy `id`; an empty payload or a dict without one raises ValueError, any other truthy value fails uncaught |
| Elrr.CheckPerson | app/external/utils/elrr_utils.py:88-97 | a person record passes exactly when it is a record with a truthy `id` that also satisfies `validate_person` |
| Elrr.FirstElement | app/external/utils/elrr_utils.py:121 | indexing `[0]` on a truthy body succeeds exactly on a list, giving its first element (also at lines 464 and 564) |
| Elrr.PersonLookup | app/external/utils/elrr_utils.py:99-138 | 200 with a non-empty list gives the first person's (truthy) id, 200 with an empty body or 404 gives None, any other status or no answer ConnectionError |
| Elrr.PersonCreated | app/external/utils/elrr_utils.py:140-183 | only 200 or 201 with a valid person succeeds, and then gives that person's truthy id; anything else is ConnectionError or a validation error |
| Elrr.AcceptedRecord | app/external/utils/elrr_utils.py:273-276 | an accepted reply yields its body exactly as validated; a body that does not decode is ConnectionError (also at lines 307-310 and 344-347) |
| Elrr.GoalFetched | app/external/utils/elrr_utils.py:256-289 | 200 gives the validated goal, 404 ValueError, any other status or no answer ConnectionError |
| Elrr.RecordCreated | app/external/utils/elrr_utils.py:292-319 | only 200 or 201 give a record, the validated body; anything else is ConnectionError (also at lines 474-481 and 574-588) |
| Elrr.GoalUpdated | app/external/utils/elrr_utils.py:344-356 | only 200 gives the validated goal; any other status or no answer is ConnectionError |
| Elrr.GoalRemoved | app/external/utils/elrr_utils.py:359-390 | success exactly on 204 (giving True); 404 is ValueError, anything else ConnectionError |
| Elrr.LookupSettled | app/external/utils/elrr_utils.py:445-466 | a failed request settles with ConnectionError; a 200 with a non-empty list settles with its validated first element; any other status or an empty body falls through to the create step (also at lines 553-566) |
| Elrr.PersonPayloadIsValid | app/external/utils/elrr_utils.py:151-159 | the person the portal creates always passes `validate_person`, even with empty first and last names, because the full name holds a space |
| Elrr.AchievedBy | app/external/utils/elrr_utils.py:206-221 | None for a zero month count; otherwise the start moved by that many calendar months with the time of day kept, or ValueError when the year leaves 1..9999 |
| Elrr.NatText | app/external/utils/elrr_utils.py:239 | the decimal text of an id is a non-empty string of digits |
| Elrr.GoalData | app/external/utils/elrr_utils.py:224-253 | the document starts with personId, goalId "portal-goal-<id>", name, type "SELF" and the ISO start date, in that order; it fails exactly when the achieved-by date cannot be computed |
| Elrr.GoalDataAchievedBy | app/external/utils/elrr_utils.py:245-251 | the document carries `achievedByDate` exactly when the timeline is not zero, and it is the ISO form of the start moved by the timeline |
| Elrr.RemoveFirst | app/external/utils/elrr_utils.py:511 | `list.remove` shortens the list by one when the element is present and changes nothing otherwise (also at lines 536, 623 and 649) |
| Elrr.RemoveFirstSplices | app/external/utils/elrr_utils.py:511 | removal splices out exactly the first occurrence, keeping the order of the rest (also at lines 536, 623 and 649) |
| Elrr.CountRemoveFirst | app/external/utils/elrr_utils.py:511 | removal lowers the count of the removed id by one and keeps every other count (also at lines 536, 623 and 649) |
| Elrr.ReconciledCounts | app/external/utils/elrr_utils.py:506-517 | after a store the new id is in the array; a truthy old id that differs from it has lost one copy; every other id keeps its count (also at lines 618-629) |
| Elrr.ReconciledKeepsOrder | app/external/utils/elrr_utils.py:506-517 | the result is the array with at most the first copy of the old id spliced out, then possibly the new id appended (also at lines 618-629) |
| Elrr.ReconciledDistinct | app/external/utils/elrr_utils.py:506-517 | a duplicate-free array stays duplicate-free, and an old id other than the new one is gone (also at lines 618-629) |
| Elrr.ReconciledIdempotent | app/external/utils/elrr_utils.py:506-517 | storing the same link a second time changes nothing when the array has no duplicates and the old id is not the new one (also at lines 618-629) |
| Elrr.Unlinked | app/external/utils/elrr_utils.py:532-539 | the array is rewritten exactly when the id is in it, and then holds one copy fewer (also at lines 644-651) |
| Elrr.ResourcePayload | app/external/utils/elrr_utils.py:467-473 | the created record carries the reference under the key the lookup searches by (`identifier` / `iri`) (also at lines 569-572) |
| Elrr.IdValue | app/external/utils/elrr_utils.py:507 | a missing key reads as the empty list, a present key as its value (also at lines 534, 619 and 647) |
| Elrr.SubstringBounds | app/external/utils/elrr_utils.py:510 | a string that is `in` another is no longer than it, and every string is `in` itself followed by anything |
| Elrr.Contains | app/external/utils/elrr_utils.py:510 | Python's `in` on the value read: list membership, a substring test on a string, a key test on a dict; a non-string needle on a string, an unhashable one on a dict, and null, numbers and booleans raise (also at lines 514, 535, 622, 626 and 648) |
| Elrr.StoredIds | app/external/utils/elrr_utils.py:510-517 | on a list the old id's first copy is dropped and the new id added when missing; any other value goes back unchanged exactly when the old id is not removed and the new id is already `in` it, and raises otherwise (also at lines 622-629) |
| Elrr.RemovedIds | app/external/utils/elrr_utils.py:535-537 | on a list the first copy of a present id is removed and nothing is written for an absent one; on another value an absent id writes nothing and a present one makes `remove` raise (also at lines 648-650) |
| Elrr.Renamed | app/external/utils/elrr_utils.py:409-410 | when the name changed the document's `name` becomes the goal name; otherwise the document is unchanged; `achievedByDate` is untouched either way |
| Elrr.SyncedDocument | app/external/utils/elrr_utils.py:409-418 | `name` is overwritten exactly when the goal name was updated, `achievedByDate` exactly when the timeline was, with the recomputed date; it fails exactly when the timeline was updated and the date cannot be computed |
| Elrr.SyncKeepsOtherFields | app/external/utils/elrr_utils.py:406-420 | every other field of the fetched goal is written back unchanged |
| ElrrClient.GetPersonIdByEmail | app/external/utils/elrr_utils.py:99-138 | one GET of the person endpoint by e-mail is sent, one reply consumed, and the result is the lookup's reading of it |
| ElrrClient.CreatePerson | app/external/utils/elrr_utils.py:140-183 | one POST of the person payload is sent and the result is the reading of its reply |
| ElrrClient.PersonResolved | app/external/utils/elrr_utils.py:185-203 | a resolved person id is truthy; failures are the client errors |
| ElrrClient.GetOrCreatePerson | app/external/utils/elrr_utils.py:185-203 | the create request is sent exactly when the lookup succeeded without finding anyone; a found id or a lookup error is returned without it |
| ElrrClient.GetGoal | app/external/utils/elrr_utils.py:256-289 | one GET of the goal URL is sent and the result is `GoalFetched` of its reply |
| ElrrClient.CreateGoal | app/external/utils/elrr_utils.py:292-319 | one POST of the document to the goal endpoint and the reading of its reply |
| ElrrClient.UpdateGoal | app/external/utils/elrr_utils.py:322-356 | a document without a truthy id raises ValueError before anything is sent; otherwise one PUT to that id's URL with the whole document |
| ElrrClient.RemoveGoal | app/external/utils/elrr_utils.py:359-390 | one DELETE of the goal URL is sent and the result is `GoalRemoved` of its reply |
| ElrrClient.SyncGoalUpdates | app/external/utils/elrr_utils.py:393-420 | nothing is sent unless the name or the timeline changed; otherwise the goal is fetched first, and the written-back document is the synced one |
| ElrrClient.GetOrCreateResource | app/external/utils/elrr_utils.py:423-481 | the lookup by reference is sent first; the create request follows exactly when the lookup settled nothing; a returned record has a truthy id (also at lines 541-593) |
| ElrrClient.WriteBackIds | app/external/utils/elrr_utils.py:517-518 | the document is PUT back with the value under the link kind's key replaced and everything else kept (also at lines 629-630) |
| ElrrClient.ReconcileGoal | app/external/utils/elrr_utils.py:506-518 | the goal is fetched first, and on success the last request writes the goal back with the value `StoredIds` gives (also at lines 618-630) |
| ElrrClient.StoreToGoal | app/external/utils/elrr_utils.py:483-520 | the record lookup is sent first; on success the returned id is truthy and the last request writes the goal back with the value `StoredIds` gives: on a list, the old id dropped and the new id present (also at lines 596-632) |
| ElrrClient.RemoveFromGoal | app/external/utils/elrr_utils.py:523-539 | the goal is fetched first; it is written back exactly when `RemovedIds` gives a value, on a list the array with the id's first copy removed; an absent id sends nothing more (also at lines 635-651) |
| Catalog.Truncated | app/external/utils/xds_utils.py:102 | the slice `s[:n]` is a prefix of the name, at most `n` long, and the whole name when it already fits |
| Catalog.SaveAllKeys | app/external/utils/xds_utils.py:89-103 | after `save_courses` the table holds exactly the old references plus the hash of every listed course |
| Catalog.SaveAllNamesFit | app/external/utils/xds_utils.py:89-103 | every name written is at most 255 characters, so a table whose names fit keeps fitting |
| Catalog.SaveAllKeepsRecent | app/external/utils/xds_utils.py:96-101 | a row saved less than a day before the call keeps its name and timestamp |
| Catalog.SaveAllFirstWins | app/external/utils/xds_utils.py:96-103 | a new or stale row takes the truncated name of the first list entry with its hash, stamped now; later duplicates find it fresh and leave it |
| Catalog.StoredName | app/api/serializers.py:256-259 | a null name violates the NOT NULL name column (IntegrityError); a string is stored as given |
| Catalog.Admitted | app/api/serializers.py:254-265 | any failure of the validator or of the insert becomes the serializer's ValidationError; success exactly when the validator gave a non-null name |
| Catalog.Tables.SaveCourses | app/external/utils/xds_utils.py:89-103 | the course table becomes the `save_courses` result and no other table changes |
| Catalog.Tables.ResolveCourse | app/api/serializers.py:248-266 | an existing course is reused without asking XDS; otherwise exactly one experience request is sent and a row is inserted exactly when the admitted outcome succeeds; a failure leaves the table as it was |
| Catalog.Tables.ResolveEccrItem | app/api/serializers.py:401-419 | an existing KSA or competency is reused without asking ECCR; otherwise ECCR is asked once and a row is inserted exactly when the admitted outcome succeeds; the other tables never change (also at lines 667-683) |
| Catalog.Tables.GetOrCreateJob | app/vacancies/serializers.py:33-47 | an existing job is returned untouched; otherwise exactly one job is created from the nested data, and the flag says which; the keys gain the reference and the row count grows by one exactly on a create |
| Vacancies.Validate | app/vacancies/serializers.py:49-54 | the payload is accepted unchanged exactly when no string in it is dangerous; otherwise the homoglyph ValidationError |
| Vacancies.VacancyTable.Create | app/vacancies/serializers.py:33-47 | a taken key fails with IntegrityError and changes nothing; otherwise the vacancy is inserted, linked to its job's reference when one is given, the job created only when new, and every linked job still resolves |
| ExternalModels.LearnerRecords.Create | app/external/models.py:29-33 | a record for a missing user or a user that already has one fails with IntegrityError and changes nothing; otherwise it is added and the one-to-one link is kept |
| ExternalModels.LearnerRecords.DeleteUser | app/external/models.py:29-33 | deleting a user is refused with ProtectedError exactly while a learner record points at the user; the records never change |
| Configurations.Defaults | app/configuration/models.py:13-71 | a fresh configuration points ELRR and ECCR at the same local service and leaves every LRS field blank |
| Configurations.DefaultsNormalise | app/configuration/models.py:34-46 | the default ELRR and ECCR endpoints already end in a slash, so the API base only appends "api/" |
| Configurations.SaveAsWritten | app/configuration/models.py:82-88 | as written: a save is refused exactly when the instance has no key and a row exists; any keyed save writes under its key |
| Configurations.ExplicitKeyAddsSecondRow | app/configuration/models.py:82-88 | an instance created with a new explicit key gets past the guard and leaves two rows |
| Configurations.Saved | app/configuration/models.py:82-88 | corrected: a save is refused exactly when a row exists and the instance is not that row |
| Configurations.SavedAgreesExceptExplicitKey | app/configuration/models.py:82-88 | the corrected rule agrees with the code on every save except a new instance with a key of its own |
| Configurations.SavedKeepsOneRow | app/configuration/models.py:82-88 | under the corrected rule a table of at most one row keeps at most one row, and a non-empty one keeps exactly one |
| Configurations.ConfigurationTable.Exists | app/configuration/models.py:84 | `objects.exists()` holds exactly when the table has a row |
| Configurations.ConfigurationTable.Save | app/configuration/models.py:82-88 | the table becomes the result of the save as written, keys stay positive, and it stays a single row on every save except a new instance with a key of its own |
| LearningPlans.WithCompetency | app/api/models.py:172-175 | saving a plan competency keeps every row's parent link resolving |
| LearningPlans.WithGoal | app/api/models.py:229-232 | saving a goal keeps every row's parent link resolving |
| LearningPlans.WithLink | app/api/models.py:259-263 | saving a KSA or course link keeps every row's parent link resolving |
| LearningPlans.WithoutGoal | app/api/models.py:190-194 | deleting a goal, with its cascade, keeps every row's parent link resolving (also at lines 241-245) |
| LearningPlans.WithoutLink | app/api/models.py:241-245 | deleting one link keeps every row's parent link resolving |
| LearningPlans.GoalSaveStampsOnlyItsPlan | app/api/models.py:229-232 | a goal save writes its own row stamped now and stamps the `modified` of exactly one plan, the one owning its competency; every other plan and table is unchanged |
| LearningPlans.LinkSaveStamps | app/api/models.py:259-263 | a KSA link save stamps exactly the plan owning its goal; a course link save stamps no plan; no other row changes |
| LearningPlans.CascadeRemovesExactlyItsLinks | app/api/models.py:243-245 | deleting a goal removes exactly the links that point at it, and every other link keeps its row |
| LearningPlans.WithGoalTwice | app/api/models.py:229-232 | two saves of one goal at the same instant amount to the second |
| LearningPlans.WithLinkTwice | app/api/models.py:259-263 | two saves of one link at the same instant amount to the second |
| LearningPlans.OverlayGet | app/api/serializers.py:329-331 | after the `setattr` loop a column holds the validated value when the data names it, and its old value otherwise (also at lines 476-478, 587-589 and 720-721) |
| LearningPlans.ApplyAttributes | app/api/serializers.py:329-331 | the loop over the validated data produces the overlay of the data on the row's columns (also at lines 476-478, 587-589 and 720-721) |
| LearningPlans.PlanStore.SavePlan | app/api/models.py:144-160 | a plan save writes only that plan row, stamped with the save time |
| LearningPlans.PlanStore.SaveCompetency | app/api/models.py:172-175 | the rows become the competency save's result and stay consistent |
| LearningPlans.PlanStore.SaveGoal | app/api/models.py:229-232 | the rows become the goal save's result and stay consistent |
| LearningPlans.PlanStore.SaveLink | app/api/models.py:259-263 | the rows become the link save's result and stay consistent |
| LearningPlans.PlanStore.DeleteGoal | app/api/models.py:190-194 | the rows lose the goal and its links and stay consistent (also at lines 241-245) |
| LearningPlans.PlanStore.DeleteLink | app/api/models.py:241-245 | the rows lose the one link and stay consistent |
| LearningPlans.PlanStore.Restore | app/api/serializers.py:550-572 | a rolled-back transaction puts every row back as it was at its start (also at lines 587-599) |
| PlanSync.SyncFailure | app/api/serializers.py:568-572 | the two ELRR client errors become the sync ValidationError; any other exception passes through unchanged (also at lines 595-599) |
| PlanSync.ParentCheck | app/api/serializers.py:312-316 | an update passes exactly when it names no parent or the parent the row already has; otherwise the parent-id ValidationError (also at lines 459-463, 580-584 and 694-699) |
| PlanSync.RemoteGoalId | app/api/serializers.py:552-566 | the remote half of a goal create yields a truthy ELRR goal id, and fails only with an ELRR client error |
| PlanSync.CreatePlanGoal | app/api/serializers.py:546-574 | the person lookup for the plan's learner is the first request sent; on success the goal row exists with its ELRR id; on failure both sides are as they were, with client errors turned into the sync error |
| PlanSync.UpdatedKeys | app/external/utils/elrr_utils.py:401-404 | the key list names `goal_name` exactly when the name was updated, and `timeline` exactly when the timeline was |
| PlanSync.Updated | app/api/serializers.py:588-590 | after the `setattr` loop the goal holds each given value and keeps the rest, with its creation time and ELRR id untouched |
| PlanSync.UpdatePlanGoal | app/api/serializers.py:576-601 | a change of competency is refused with nothing sent or saved; otherwise the row is updated and, for a goal known to ELRR, the change is synced, a failed sync leaving the row as it was and raising the sync error |
| PlanSync.DestroyPlanGoal | app/api/views.py:354-365 | a goal unknown to ELRR is deleted locally with nothing sent; otherwise one DELETE is sent, and the local goal with its links goes exactly when it succeeds; a failure raises the API exception and keeps the row |
| PlanSync.DestroyGoalLink | app/api/views.py:288-303 | when the goal and the link are both known to ELRR the link's id is taken out of the goal's array first, and the local row goes only when that succeeds; otherwise it goes with nothing sent (also at lines 321-336) |
| PlanSync.EccrName | app/api/serializers.py:401-419 | a row already in the table answers with its stored name; otherwise the validator's name; every failure is the ECCR ValidationError (also at lines 667-683) |
| PlanSync.CatalogName | app/api/serializers.py:248-266 | a catalog row already there answers with its stored name; otherwise the name the service gives; every failure is the service's ValidationError (also at lines 401-419) |
| PlanSync.ResolveLinkItem | app/api/serializers.py:248-266 | the answer is the catalog name for the tables and replies met, only the link kind's table and service are touched, and the other service is never asked (also at lines 401-419) |
| PlanSync.SaveNewLink | app/api/serializers.py:431-454 | a new link row is created; when its goal is known to ELRR the item is stored to the goal and the returned id saved, a failure rolling back the row (also at lines 278-304) |
| PlanSync.CreateGoalLink | app/api/serializers.py:268-304 | a failed catalog resolution changes nothing and sends nothing to ELRR; otherwise the link is saved as `SaveNewLink` describes, and a new catalog row survives a later rollback (also at lines 421-454) |
| PlanSync.Edited | app/api/serializers.py:323-331 | the edited link keeps its goal and ELRR id and points at the newly resolved item when a reference was given (also at lines 470-478) |
| PlanSync.SaveEditedLink | app/api/serializers.py:329-349 | the row is saved; only when the item changed and the goal is known to ELRR is the item stored to the goal with the old id dropped, a failure rolling the row back (also at lines 476-496) |
| PlanSync.UpdateGoalLink | app/api/serializers.py:306-349 | a change of goal is refused with nothing asked or sent; a failed resolution changes nothing; otherwise the edited link is saved as `SaveEditedLink` describes (also at lines 456-496) |
| PlanSync.CreatePlanCompetency | app/api/serializers.py:662-689 | a failed ECCR resolution changes nothing; otherwise one competency row is created pointing at the resolved competency, stamping its plan |
| PlanSync.UpdatePlanCompetency | app/api/serializers.py:691-724 | a change of plan is refused with nothing asked; a failed resolution changes nothing; otherwise the row is updated and saved |
| ApiModels.NatTextValue | app/api/models.py:25-26 | the decimal text of a number reads back as that number |
| ApiModels.Numbered | app/api/models.py:25-26 | the `__str__` of a question or answer is its order's decimal text, ". ", then its text (also at lines 51-52) |
| ApiModels.DigitsEndAtNonDigit | app/api/models.py:25-26 | two digit strings each followed by a non-digit give equal concatenations only when the digit strings are equal |
| ApiModels.NumberedInjective | app/api/models.py:25-26 | two questions (or answers) print the same only when their orders and their texts agree (also at lines 51-52) |
| ApiModels.SubjectText | app/api/models.py:95-96 | the text shown is the competency's when one is set and the role's otherwise, the row `Subject` picks |
| ApiModels.ListText | app/api/models.py:94-97 | a candidate list prints as its name and " - ", then the text of the subject `Subject` picks, then the ranker in parentheses |
| ApiModels.ListTextShowsTarget | app/api/models.py:87-97 | under the role-xor-competency check the printed subject is the role's text when the list has a role and the competency's otherwise |
| ApiModels.SubjectIsTheTarget | app/api/models.py:87-97 | under the role-xor-competency check a list always has a subject to show, the one target it has |
| ApiModels.QuestionsPrintDistinctly | app/api/models.py:17-26 | two rows of a question table that keeps its unique constraints never print the same |
| ApiModels.QuestionFitsKeepsUnique | app/api/models.py:17-18 | a question that passes the unique checks against the other rows keeps the whole table unique |
| ApiModels.AnswerFitsKeepsUnique | app/api/models.py:40-47 | an answer that passes the two unique constraints against the other rows keeps the whole table unique |
| ApiModels.ResponseFitsKeepsUnique | app/api/models.py:63-67 | a response that passes the one-response-per-question constraint keeps the whole table unique |
| ApiModels.RankingFitsKeepsUnique | app/api/models.py:109-116 | a ranking that passes the rank and candidate constraints within its list keeps the whole table unique |
| ApiModels.ProfileTables.SaveQuestion | app/api/models.py:15-26 | a save succeeds exactly when the order and text are not taken by another row, and keeps the tables valid; a refusal is IntegrityError and changes nothing |
| ApiModels.ProfileTables.SaveAnswer | app/api/models.py:32-52 | a save succeeds exactly when the question exists and the answer's order and text are free within it; a refusal changes nothing |
| ApiModels.ProfileTables.SaveResponse | app/api/models.py:55-67 | a save succeeds exactly when question and answer exist and the user has no other response to the question; a refusal changes nothing |
| ApiModels.ProfileTables.SaveList | app/api/models.py:74-92 | a save succeeds exactly when the list has a role or a competency but not both; a refusal changes nothing |
| ApiModels.ProfileTables.SaveRanking | app/api/models.py:102-122 | a save succeeds exactly when the list exists and rank and candidate are free within it; it then stamps that list's `modified` with the save time |
| ApiModels.ProfileTables.ValidateResponse | app/api/serializers.py:99-108 | a response is accepted exactly when the question is active, the answer belongs to it and the user has no other response to it; an accepted response fits the table |
| Applications.GuardAsWritten | app/api/serializers.py:833-842 | as written: a payload without `application` is never checked; one naming an editable application passes (also at lines 967-976) |
| Applications.Guard | app/api/serializers.py:833-842 | corrected: the application the row belongs to, named or stored, must exist and be editable; a refusal names the status error or the invalid key (also at lines 967-976) |
| Applications.PartialUpdateSkipsGuard | app/api/serializers.py:833-842 | a partial update of an experience of a submitted application passes the guard as written and is refused by the corrected one |
| Applications.GuardAgreesWhenNamed | app/api/serializers.py:833-842 | when the payload names the application both guards agree (also at lines 967-976) |
| Applications.CheckedOrderKeepsRowOrdered | app/api/serializers.py:844-861 | when the dates the check compares are in order, so are the dates the update writes |
| Applications.ExperienceChecked | app/api/serializers.py:844-861 | `validate`: a pass leaves the data unchanged and free of dangerous strings with the written dates in order; a refusal is the homoglyph or the date-order error, exactly when one of them applies |
| Applications.ExperienceValidated | app/api/serializers.py:833-861 | as DRF runs it: the status guard only for a payload naming the application, then `validate`; an accepted experience is unchanged, safe, has its written dates in order, and a named application exists and is editable |
| Applications.ExperienceValidatedIntended | app/api/serializers.py:833-842 | corrected: an accepted experience also belongs, by the payload or by the stored row, to an editable application |
| Applications.ExperienceValidationsAgree | app/api/serializers.py:833-842 | the two validations agree when the payload names the application; without it the corrected one refuses a row of a non-editable application that the one as written passes on to `validate` |
| Applications.SubmissionCheckAsWritten | app/api/serializers.py:1153-1172 | as written: a final submission passes only when the payload acknowledges the code of ethics or, when it does not, the instance does |
| Applications.SubmissionCheck | app/api/serializers.py:1153-1172 | corrected: the instance is consulted only when the payload says nothing; a pass means the payload is free of dangerous strings |
| Applications.SubmissionChecksAgree | app/api/serializers.py:1153-1172 | the two checks agree unless the payload sets the acknowledgement to false, and whatever the corrected check passes the one as written passes too |
| Applications.StampedOnce | app/api/serializers.py:1092-1102 | the final-submission stamp is set once: a stamped application keeps its stamp and status; the first final submission stamps it now and marks it submitted |
| Applications.WithdrawnAcknowledgementPasses | app/api/serializers.py:1153-1172 | as written, a final submission that sets the acknowledgement to false passes when the instance had it, and the stored application is submitted without it (also at lines 1109-1123) |
| Applications.SubmittedIsAcknowledged | app/api/serializers.py:1109-1123 | with the corrected check, an application left finally submitted by an accepted update carries the acknowledgement (also at lines 1153-1172) |
| Applications.PermissionsMap | app/api/serializers.py:1125-1151 | the permissions granted are exactly view and change of the application |
| Applications.PermissionsGranted | app/api/serializers.py:1125-1151 | the applicant always holds both; the reviewers group holds them exactly when the application is not a draft; nobody else does |
| Applications.ApplicationStore.CreateExperience | app/api/serializers.py:833-861 | a missing application is the required-field error; otherwise the row is created exactly when validation passes, under an editable application |
| Applications.ApplicationStore.UpdateExperience | app/api/serializers.py:808-861 | an update is written exactly when the validation as written passes and the payload keeps the parent; the fields are laid over the row; a named application is editable |
| Applications.ApplicationStore.UpdateApplication | app/api/serializers.py:1109-1123 | the check as written or the applicant editing a non-editable application refuses; otherwise the application becomes the updated one, and a final submission was acknowledged in the payload or in the stored row (also at lines 1153-1172) |
| Applications.ApplicationStore.CreateCourse | app/api/serializers.py:917-931 | the application and reference are required; the row is created exactly when the guard as written, the homoglyph check and the catalog resolution pass (also at lines 967-982) |
| Applications.ApplicationStore.UpdateCourse | app/api/serializers.py:932-953 | an update is written exactly when the guard as written, the homoglyph check, the parent check and any new resolution pass; a named application is editable (also at lines 967-982) |
| Xapi.Lookup | app/api/utils/xapi_utils.py:95-100 | `.get(key, default)` succeeds exactly on a dict, giving the value under the key or the default; anything else raises |
| Xapi.Iterated | app/api/utils/xapi_utils.py:97-107 | iterating succeeds exactly on a list, a dict or a string, and a list yields its items |
| Xapi.ActivityDefinition | app/api/utils/xapi_utils.py:108-127 | reading an activity's definition succeeds only on a dict |
| Xapi.NamedRecord | app/api/utils/xapi_utils.py:113-122 | a course record carries the statement kind's name, the statement's platform and timestamp (also at lines 139-148) |
| Xapi.ParentEntry | app/api/utils/xapi_utils.py:107-123 | a parent activity yields one course record exactly when its type is the course activity type, and none otherwise |
| Xapi.ParentCourses | app/api/utils/xapi_utils.py:105-123 | every record from the parent activities is of the in-progress kind asked for |
| Xapi.ObjectEntry | app/api/utils/xapi_utils.py:125-149 | every record from the object of a statement is of the kind asked for |
| Xapi.StatementCourses | app/api/utils/xapi_utils.py:97-149 | every record a statement yields is of the kind asked for |
| Xapi.AllCourses | app/api/utils/xapi_utils.py:85-151 | every record of the processed statements is of the kind asked for |
| Xapi.ParentCoursesPrefixFails | app/api/utils/xapi_utils.py:107-123 | a parent that raises makes the whole statement raise, whatever follows |
| Xapi.AllCoursesPrefixFails | app/api/utils/xapi_utils.py:97-151 | a statement that raises makes the whole processing raise, whatever follows |
| Xapi.AllCoursesStep | app/api/utils/xapi_utils.py:97-149 | processing one more statement appends that statement's records, or raises its error |
| Xapi.StatementRecords | app/api/utils/xapi_utils.py:97-149 | the loop over one statement's parents computes that statement's records |
| Xapi.ProcessCourseStatements | app/api/utils/xapi_utils.py:85-151 | the loop over the statements computes the records of all of them, in order |
| Xapi.CompletedKeepsOnlyCourses | app/api/utils/xapi_utils.py:132-136 | a completed statement yields one record when its object is a course and none otherwise |
| Xapi.InProgressOnePerCourseParent | app/api/utils/xapi_utils.py:102-123 | an in-progress statement yields exactly one record per parent of the course type |
| Xapi.StatementDefaults | app/api/utils/xapi_utils.py:98-100 | a statement without context and timestamp gives records with platform "Unknown Platform" and an empty timestamp |
| Xapi.ParentCoursesDefaults | app/api/utils/xapi_utils.py:116-122 | the records from the parents carry the statement's platform and timestamp |
| Xapi.RemoveDuplicates | app/api/utils/xapi_utils.py:154-164 | an id that cannot be hashed raises; otherwise the result keeps the first course of each id, in list order, and drops every later one |
| Xapi.NotExcludedMembers | app/api/utils/xapi_utils.py:201-206 | a course survives exactly when it is in the list and its id is not excluded |
| Xapi.FilterByExclusion | app/api/utils/xapi_utils.py:184-206 | an unhashable id on either side raises; otherwise the result is the courses whose id is not among the excluded ones |
| Xapi.Lower | app/api/utils/xapi_utils.py:178 | lower-casing keeps the length of the text |
| Xapi.StatementPlatform | app/api/utils/xapi_utils.py:176-177 | a statement without context has the empty platform; a malformed one raises |
| Xapi.PlatformVerdict | app/api/utils/xapi_utils.py:176-179 | a statement is kept exactly when its platform matches the asked one case-insensitively; it raises exactly when its platform cannot be read |
| Xapi.KeptByPlatformMembers | app/api/utils/xapi_utils.py:173-181 | a statement survives the filter exactly when it is in the list and on the asked platform |
| Xapi.PlatformFilteredMeaning | app/api/utils/xapi_utils.py:167-181 | the filter succeeds exactly when every platform can be read, and then yields exactly the statements on the platform, in order |
| Xapi.PlatformFilteredStep | app/api/utils/xapi_utils.py:175-179 | filtering one more statement appends it exactly when it matches, or raises its error |
| Xapi.PlatformFilteredPrefixFails | app/api/utils/xapi_utils.py:175-179 | a statement whose platform cannot be read makes the whole filter raise |
| Xapi.FilterByPlatform | app/api/utils/xapi_utils.py:167-181 | an empty platform returns the statements unchanged; otherwise the loop computes the platform filter |
| Xapi.JwtAccountName | app/api/utils/xapi_utils.py:209-217 | the result is the first truthy claim among the fields, in their order, or None when no field has one |
| Xapi.AgentInjective | app/api/utils/xapi_utils.py:40-48 | two identities that build the same agent are the same identity |
| Xapi.ReplyStatements | app/api/utils/xapi_utils.py:57-73 | a failed request passes its error on; a reply that is not an object raises; an object without `statements` gives none |
| Xapi.GatheredSucceeds | app/api/utils/xapi_utils.py:57-73 | gathering the statements succeeds exactly when every verb's query succeeds |
| Xapi.GatheredMembers | app/api/utils/xapi_utils.py:57-73 | a statement is gathered exactly when some verb's query returned it |
| Xapi.GatheredPrefixFails | app/api/utils/xapi_utils.py:57-73 | the first verb whose query fails decides the result; later verbs do not matter |
| Xapi.FirstVerbFails | app/api/utils/xapi_utils.py:57-73 | when the first verb's query fails, its error is the result |
| Xapi.GetLrsStatements | app/api/utils/xapi_utils.py:24-80 | the loop over the verbs, then the platform filter, computes the fetched statements |
| Xapi.NotExcludedKeys | app/api/utils/xapi_utils.py:184-206 | the ids left after exclusion are the ids of the list minus the excluded ones |
| Xapi.NotExcludedDistinct | app/api/utils/xapi_utils.py:184-206 | exclusion keeps a list with distinct ids distinct |
| Xapi.RemovalKeepsFirsts | app/api/utils/xapi_utils.py:154-164 | the output of duplicate removal has distinct ids, the same set of ids as the input, and each element is the first input course with its id |
| Views.PopMeaning | app/api/views.py:71-80 | after the pop the key is gone, and every other key keeps its presence and value (also at lines 105-114 and 154-163) |
| Views.PopAbsent | app/api/views.py:71-80 | popping a key that is absent changes nothing (also at lines 105-114 and 154-163) |
| Views.PopCount | app/api/views.py:71-80 | in data with unique keys, the pop removes exactly one entry when the key is present and none otherwise (also at lines 105-114 and 154-163) |
| Views.RequestData.StripOwner | app/api/views.py:71-80 | a form body loses the owner field and keeps every other field's presence and value; a JSON body carrying the field raises and keeps it; data without it is unchanged (also at lines 105-114 and 154-163) |
| Views.ChildNeedsParentEdit | app/api/views.py:124-131 | the PUT and PATCH permission the create asks for is exactly the change permission of the parent model (also at lines 279-286, 312-319, 345-352, 374-381, 397-404 and 413-420) |
| Views.CreateGate | app/api/views.py:124-131 | a parent value that names no row raises; the create proceeds exactly when the parent exists and the user may change it, and is forbidden otherwise (also at lines 279-286, 312-319, 345-352, 374-381, 397-404 and 413-420) |
| Views.Identify | app/api/views.py:188-208 | in JWT mode the caller is identified exactly when some configured claim is truthy, by an account named with it; otherwise exactly when authenticated, by the user's e-mail |
| Views.CaughtStatusAsWritten | app/api/views.py:264-270 | as written: 502 exactly for the builtin ConnectionError, 500 for every other error |
| Views.CaughtStatus | app/api/views.py:264-270 | corrected: 502 exactly for a connection failure, the builtin one or the HTTP library's, 500 otherwise |
| Views.CaughtStatusAgrees | app/api/views.py:264-270 | both mappings agree on every error except the HTTP library's |
| Views.RefusedLrsGives500 | app/api/views.py:210-270 | when the LRS refuses the first completed query the view answers 500 with the generic message as written, and would answer 502 once corrected |
| Views.FetchGroups | app/api/views.py:210-237 | the three fetches yield the statement groups in order, or the first fetch error |
| Views.ProcessGroups | app/api/views.py:239-245 | the three conversions yield the course groups, or the first conversion error |
| Views.ReportGroups | app/api/views.py:247-262 | with hashable ids, completed and enrolled are deduplicated, and in-progress is deduplicated with every completed course taken out; otherwise the uncaught error's answer |
| Views.CourseProgress | app/api/views.py:174-270 | no configuration or no LRS credentials give 500 with their message, an unidentified caller 400; otherwise the answer is the reported course groups or the first error as the `except` clauses are written: 502 only for the builtin ConnectionError, 500 for anything else |

## Left out

- Real HTTP: timeouts, TLS, headers other than the bearer token, and reading `Configuration.objects.first()` inside the URL builders. Each service is a `Remote.Service` whose replies are a script, and base URLs and tokens are parameters.
- `get_lrs_statements` is a function parameter from query to reply (`Xapi.GetLrsStatements`). The LRS is not a scripted object here, because the view only reads from it. Basic authentication and the version header are not modelled.
- JSON decoding of reply bodies (`json.loads`, `resp.json()`): a body is a decoded JSON value, or a reply marked as not JSON.
- `jwt.decode` and the `Authorization` header split: the decoded payload is a parameter (`Views.Caller.payload`). A missing or malformed header, which raises before any claim is read, is not modelled.
- Foreign predicates: `confusables.is_dangerous` is the parameter `dangerous`; django-guardian's `has_perm` is the parameter `mayChange`; the parent lookup of a create is the set of primary-key values that exist.
- ORM mechanics: querysets, related managers, id sequences (a `nat` counter), field lengths and the `DataError` of an over-long value. The regular-expression validators of the models are not run on `save`, as in Django.
- `transaction.atomic` is a snapshot of the local plan rows that is restored on failure. Concurrent requests and races on the remote goal arrays are not modelled.
- The shown `app/api/models.py` does not declare `elrr_goal_id`, `elrr_ksa_id`, `elrr_course_id`, the goal-course link or `Application`. They are modelled from how the serializers and views use them: nullable ids, and records with the fields the serializers read.
- LearningPlans.WithLink: the goal-course link's model is not part of this model, so its `save` is taken to be the plain one, which stamps no plan.
- The trivial `__str__` of the external models, of the plans and of the goals, and the `plan_competency_name` / `ksa_name` properties, which return a related row's field.
- `AdminConfiguration`, the profile-question and candidate-list endpoints beyond their constraints, application comments, `Application` create, and the cascades of profile deletes.
- Applications.ApplicationStore.UpdateApplication: `_handle_submission` on create dereferences the instance before its None check and crashes; create with a final submission is not modelled.
- Applications.ApplicationStore.UpdateExperience: promises the row's application is editable only when the payload names `application`. The guard as written is skipped when the field is absent (see "Findings"), so the model does not promise it then.
- Applications.ApplicationStore.UpdateCourse: promises the row's application is editable only when the payload names `application`, for the same reason as `UpdateExperience`.
- Applications.ApplicationStore.UpdateApplication: promises only that a final submission was acknowledged in the payload or in the stored row. As written, an explicit `false` in the payload falls back to a stored `true` (see "Findings"), so the written row may carry `false`.
- Views.RequestData.StripOwner: a JSON body is modelled as a dict. A JSON list or scalar body is not modelled.
- Applications.PermissionsMap: the reviewers group is a parameter; its lookup or creation by name is not modelled.
- Applications.ExperienceValidated: DRF gathers every failing validator's message into one response; the model reports the first failure only.
- ApiModels.ProfileTables.SaveQuestion: `PositiveSmallIntegerField`'s upper bound (32767) is not enforced, only the lower bound.
- ApiModels.ProfileTables.SaveList: the foreign keys of a candidate list (ranker, vacancy, job) are not checked.
- ApiUrls.ApiBase: requires a non-empty base; `get_elrr_api_url` indexes `[-1]` and crashes on an empty one, a crash that is not modelled. The client members that build URLs share this requirement.
- Elrr.AchievedBy: takes the goal's `timeline` as an integer month count, as app/external/utils/elrr_utils.py:213 documents. The column is a `CharField` (app/api/models.py:197), and `relativedelta(months=...)` raises ValueError for every non-empty string. The string column and that failure are not modelled.
- Elrr.SyncedDocument: requires a non-zero timeline when the timeline is among the updated fields; the source then calls `.isoformat()` on None and crashes. PlanSync.UpdatePlanGoal and ElrrClient.SyncGoalUpdates share this requirement.
- Elrr.AchievedBy: the start is a row's creation time, so its date is taken to be a valid calendar date (`ValidGoalView`); time zones are not modelled.
- PlanSync.CreateGoalLink: requires the XDS and ELRR service objects to be distinct. In the source they are two different hosts, and the model does not consider aliasing between them.
- Xapi.AllCourses: the contract states the kind of every record. The course-name default ("Unknown Course") and the id default are in the definition, but no contract states them.
- Xapi.Lower: `str.lower` is modelled on ASCII letters only. Unicode case mapping is not modelled.
- Organizations.Str: an organisation is a value that holds its parent chain, so the chain is always finite. A cyclic parent chain, on which the source's `__str__` does not terminate, is not modelled.

## Findings

The operations of the model follow the code as written. Each corrected member states the evident intent, and a lemma relates it to the as-written one.

| source | as written | input that shows it | evidently intended | confidence | as-written member | corrected member |
|---|---|---|---|---|---|---|
| app/configuration/models.py:82-88 | the singleton guard refuses a save only when the instance has no primary key | while row 1 exists, `Configuration(pk=2).save()` inserts a second row | only the existing row may be saved again while a row exists | not executed | Configurations.SaveAsWritten, Configurations.ExplicitKeyAddsSecondRow | Configurations.Saved, Configurations.SavedKeepsOneRow |
| app/api/serializers.py:833-842, 967-976 | the editable-status check is a field validator, so DRF runs it only when the payload carries `application` | PATCH of an experience of a SUBMITTED application with only `position_name` passes | no experience or course of a non-editable application is added or updated | not executed | Applications.GuardAsWritten, Applications.PartialUpdateSkipsGuard | Applications.Guard, Applications.GuardAgreesWhenNamed, Applications.ExperienceValidatedIntended, Applications.ExperienceValidationsAgree |
| app/api/serializers.py:1153-1172 | when the payload's acknowledgement is falsy, the instance's is used, so an explicit `false` falls back to a stored `true` | instance with the acknowledgement; PATCH `{final_submission: true, code_of_ethics_acknowledgement: false}` is accepted and stored as a final submission without acknowledgement | the instance is consulted only when the payload says nothing about the acknowledgement | not executed | Applications.SubmissionCheckAsWritten, Applications.WithdrawnAcknowledgementPasses | Applications.SubmissionCheck, Applications.SubmittedIsAcknowledged, Applications.SubmissionChecksAgree |
| app/api/views.py:264-270 | `except ConnectionError` catches the builtin exception, which the HTTP library's connection error does not derive from | an LRS that refuses the connection: `requests.get` raises and the view answers 500 "An error occurred…" | an unreachable LRS answers 502 "Could not connect to LRS" | not executed | Views.CaughtStatusAsWritten, Views.RefusedLrsGives500 | Views.CaughtStatus, Views.CaughtStatusAgrees |
