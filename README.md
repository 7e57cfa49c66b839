# report2bq — a Dafny model of its routing, validation and streaming rules

report2bq moves reports from Google's marketing products into BigQuery:
- DV360 (Bid Manager), Campaign Manager (CM), SA360, ADH and GA360.

Around its cloud calls sit small decision rules, and this project models those rules and proves what they promise:
- which product an event fetches, with which arguments;
- which runner or report manager an event starts;
- how an uploaded file's name splits into a report name and an action;
- how SA360 report definitions are validated and installed;
- which DV360 report file is the latest and what state its run is in;
- how a report CSV is streamed in chunks, with its "Group By"/totals footer trimmed from the last chunk;
- what the run monitor publishes, removes and mails for each running job;
- the retry policy and the lazy property;
- where credentials are read from and written to;
- how the Firestore upload command encodes keys.

Every cloud service is a parameter of the model, either a function or a map/sequence field. The services are:
- Firestore, GCS, Pub/Sub and Gmail;
- the DV360, CM and SA360 APIs, the SA360 column validator and the scheduler.

Python values (dictionaries, lists, strings, None, booleans and integers) are the `Value` datatype of module `Values`. The module also carries Python's truthiness (`Truthy`), `or` (`Or`), `dict.get` (`Get`), subscripting with KeyError (`Index`) and f-string formatting (`Format`). Exceptions are the `Error` datatype, and a call that may raise returns `Result`.

Modules, one per core file plus three helpers:

| module | file | models |
|---|---|---|
| `EventRouting` | main.dfy | `report_fetch`, `report_runner`, `report_manager` of `application/main.py` |
| `ReportManager` | report_manager.dfy | the `manage`/`_get_action` dispatch as the GA360 manager's tests fix it |
| `SA360ReportManager` | sa360_report_manager.dfy | `Validity`, `Validation`, `manage`, `_file_based`, `install`, `validate`; class `SA360Manager` holds the Firestore documents and the scheduled jobs |
| `DBM` | dbm.dfy | `get_latest_report_file`, `report_state`, `run_report`, `normalize_report_details`, `stream_to_gcs` |
| `RunMonitor` | run_monitor.dfy | `process` and its checkers; class `RunMonitor` holds the running set, the published messages and the sent mails |
| `Decorators` | decorators.dfy | `retry` (function `Retry`, method `RetryCall`) and `lazy_property` (class `LazyObject`) |
| `Credentials` | credentials.dfy | `bucket`, `client_token`, the Firestore-then-GCS reads, `store_credentials` (class `CredentialStore`) |
| `FirestoreUpload` | firestore_upload.dfy | the `upload` transformation |
| `Values`, `Text` | values.dfy, text.dfy | Python values; split/join/rfind/lower over sequences |
| `Utf8`, `Base64` | utf8.dfy, base64.dfy | UTF-8 (RFC 3629) and Base64 (section 4 of RFC 4648), with their round trips |

## Model

| member | source | states |
|---|---|---|
| EventRouting.ReportFetch | application/main.py:68-114 | no attributes: nothing happens. Otherwise the kwargs are the defaults overridden by every attribute, with the inferred product set last, and the fetch runs on them; an unknown `type` or a failing fetch takes the error path with that error, mailing a truthy `email` |
| EventRouting.Notify | application/main.py:103-111 | a mail goes out exactly when `email` is truthy, to that e-mail |
| EventRouting.UnknownTypeFails | application/main.py:91-92 | a `type` that names no product raises ValueError |
| EventRouting.FetchKwargsKeys | application/main.py:72-92 | the kwargs hold exactly the twelve default keys, the attribute keys and `product`; every attribute other than `product` keeps its own value |
| EventRouting.FetchKwargsFlagDefault | application/main.py:81-83 | `force`, `append`, `infer_schema` absent from the attributes are False |
| EventRouting.FetchKwargsDatasetDefault | application/main.py:85 | an absent `dest_dataset` is 'report2bq' |
| EventRouting.FetchKwargsReportId | application/main.py:75-78 | an absent `report_id` is the first truthy of `dv360_id`, `cm_id` |
| EventRouting.FetchKwargsNoneDefault | application/main.py:73-87 | every other default key absent from the attributes is None |
| EventRouting.ProductPriority | application/main.py:91-98 | the priority chain: `type` (ValueError when not a type), else truthy `sa360_url` gives SA360, else truthy `profile` gives CM, else DV360 |
| EventRouting.ReportRunner | application/main.py:168-223 | no attributes: nothing. An unparsable type: ValueError. SA360 and ADMIN: no runner (logged). Otherwise the type's runner with its table's keys plus `email`, and `project` falling back to the environment |
| EventRouting.RunnerFallbacks | application/main.py:180-206 | the DV360 id falls back to `report_id`, and so does the CM id; ADH `days` defaults to 60 |
| EventRouting.ManagerFor | application/main.py:274-277 | a manager exactly for `{project}-report2bq-ga360-manager` and `{project}-report2bq-sa360-manager`, each its own |
| EventRouting.SplitFileNameMeaning | application/main.py:271-272 | only the text after the last '/' is split, and that text holds no '/' |
| EventRouting.SplitBaseName | application/main.py:271-272 | of a base name, the action is the text after the last '.' and the name the text before it (empty without a '.') |
| EventRouting.SplitBaseMeaning | application/main.py:271-272 | name and action as above, both lower-cased; the action holds no '.' |
| EventRouting.ReportManagerEvent | application/main.py:266-297 | an unknown bucket calls nothing. Otherwise the manager gets the report name, project, file, `gcs_stored` and action. The file is renamed to `file + '.processed'` exactly when `manage` succeeds, and a NotImplementedError is ignored without renaming; any other error escapes as `manage` raised it |
| ReportManager.GetAction | classes/ga360_report_manager_test.py:45-67 | an offered, implemented action is returned. An offered one without an implementation raises 'Not implemented'. Any other raises a message starting `Action "<action>"` |
| ReportManager.Manage | classes/ga360_report_manager_test.py:31-67 | a missing `project` raises KeyError; then the action lookup's error, or the action's own result |
| ReportManager.MissingProject | classes/ga360_report_manager_test.py:31-33 | `manage(action='list')` raises KeyError |
| ReportManager.ValidList | classes/ga360_report_manager_test.py:35-43 | 'list' with a project completes when the listing does |
| ReportManager.UnimplementedAction | classes/ga360_report_manager_test.py:45-56 | `actions={'validate'}` and action 'validate' raise NotImplementedError('Not implemented') |
| ReportManager.UnknownAction | classes/ga360_report_manager_test.py:58-67 | action 'wibble' raises NotImplementedError whose message starts `Action "wibble"` |
| SA360ReportManager.ValidityText | application/classes/sa360_report_manager.py:45-54 | each member's value (its str and repr) is one of 'valid', 'invalid', '' |
| SA360ReportManager.ValidityOf | application/classes/sa360_report_manager.py:45-48 | `Validity(s)` exists exactly for 'valid', 'invalid', '' |
| SA360ReportManager.ValidityRoundTrip | application/classes/sa360_report_manager.py:45-54 | value and member are inverse: one member per value |
| SA360ReportManager.ValidationRow | application/classes/sa360_report_manager.py:56-66 | the CSV row has exactly the four `Validation.keys()` columns; `agency` and `advertiser` show the ids unless an attribute of that name was written |
| SA360ReportManager.ValidationRowVerdicts | application/classes/sa360_report_manager.py:56-66 | every written attribute shown in the row parses back to the validity recorded, and both metrics parse |
| SA360ReportManager.SA360BucketRoutes | application/classes/sa360_report_manager.py:85 | the bucket `manage` works in is the one whose uploads route to the SA360 manager |
| SA360ReportManager.NameFromFile | application/classes/sa360_report_manager.py:93 | defined exactly for a string file; a non-string has no `split` |
| SA360ReportManager.ReportName | application/classes/sa360_report_manager.py:90-95 | `name` if present, else from `file`, else None |
| SA360ReportManager.NameFromFileMeaning | application/classes/sa360_report_manager.py:93 | the name from a file is its last path segment up to its first '.', and holds no '.' |
| SA360ReportManager.ActionArgsOverride | application/classes/sa360_report_manager.py:97-103 | every caller kwarg wins; the derived `report`/`file`/`project`/`email` only fill gaps |
| SA360ReportManager.ManageAsWritten | application/classes/sa360_report_manager.py:82-105 | the code as written: a missing `project` raises KeyError; with a `project`, a non-None `api_key` and no `API_KEY`, it raises KeyError('API_KEY') |
| SA360ReportManager.ApiKeyLookupFails | application/classes/sa360_report_manager.py:87-88 | `manage(project, api_key, action='install')` raises KeyError('API_KEY') as written |
| SA360ReportManager.Manage | application/classes/sa360_report_manager.py:82-105 | corrected `manage`: a missing `project` raises KeyError; once the project, the file name and the action lookup succeed, the action runs on the merged args |
| SA360ReportManager.ApiKeyAccepted | application/classes/sa360_report_manager.py:87-88 | with the corrected lookup, the same call reaches the install action |
| SA360ReportManager.ApiKeyAbsent | application/classes/sa360_report_manager.py:82-105 | without `api_key` the code as written and the corrected code agree |
| SA360ReportManager.ManageActions | application/classes/sa360_report_manager.py:73-105 | `validate` and `install` always run; `list`, `show`, `add`, `delete` run when the base class implements them and otherwise raise 'Not implemented'; any other action fails |
| SA360ReportManager.CustomColumns | application/classes/sa360_report_manager.py:178-180 | fails exactly when some parameter's `is_list` test or name read fails; otherwise one name per custom column, in order and with repeats, each that column's `name` |
| SA360ReportManager.CustomOf | application/classes/sa360_report_manager.py:178-180 | the custom columns among the parameters, in order: each is a dictionary carrying `is_list` |
| SA360ReportManager.CustomColumnsFirstError | application/classes/sa360_report_manager.py:178-180 | a failing extraction raises the error of the first parameter that fails, all earlier ones having succeeded |
| SA360ReportManager.ColumnValidity | application/classes/sa360_report_manager.py:188-192 | INVALID once the verdict is false; otherwise VALID exactly when the column's `value` is truthy, else UNDEFINED |
| SA360ReportManager.CheckColumnsVerdict | application/classes/sa360_report_manager.py:181-187 | a successful check read every column, and the verdict is the conjunction of the validator over the truthy columns |
| SA360ReportManager.CheckColumnsMissing | application/classes/sa360_report_manager.py:184-185 | a custom column missing from the report raises KeyError |
| SA360ReportManager.CheckColumnsErr | application/classes/sa360_report_manager.py:184-195 | a failure ends the loop: later columns do not change the outcome |
| SA360ReportManager.CheckColumnsWrites | application/classes/sa360_report_manager.py:184-195 | the attribute of the last truthy column with a given camel-cased name holds that column's validity under the verdict so far |
| SA360ReportManager.CheckColumnsUntouched | application/classes/sa360_report_manager.py:181-195 | an attribute no truthy column writes keeps its initial value (UNDEFINED for the two metrics) |
| SA360ReportManager.CheckColumnsKeys | application/classes/sa360_report_manager.py:184-195 | the loop writes exactly the camel-cased names of the truthy columns, beside the initial attributes |
| SA360ReportManager.TargetOf | application/classes/sa360_report_manager.py:168-180 | the ids come from the report; a missing `AgencyId` raises KeyError; it succeeds exactly when the ids and `report` are present, the report names a definition whose `report.reportType` exists, and its `parameters` is a list whose custom columns all extract |
| SA360ReportManager.FileBasedVerdict | application/classes/sa360_report_manager.py:181-206 | a successful run read every custom column from the report, and the verdict is true exactly when every checked column validates and no custom column name repeats |
| SA360ReportManager.FileBasedRecord | application/classes/sa360_report_manager.py:181-208 | the record is built from the report's `AgencyId` and `AdvertiserId`, with one attribute per written name; its `agency` (`advertiser`) shows the id exactly when no column camel-cases to that name |
| SA360ReportManager.DuplicateColumnInvalid | application/classes/sa360_report_manager.py:178-206 | two custom columns with the same `name` make the verdict false |
| SA360ReportManager.FileBased | application/classes/sa360_report_manager.py:165-208 | the column loop computes `FileBasedSpec` |
| SA360ReportManager.JobId | application/classes/sa360_report_manager.py:224 | `report_AgencyId_AdvertiserId`, defined exactly when the three keys are present |
| SA360ReportManager.Described | application/classes/sa360_report_manager.py:239-243 | a truthy description is kept; otherwise `(title or report): agencyName/advertiserName` is written in |
| SA360ReportManager.DescribedChangesOnlyDescription | application/classes/sa360_report_manager.py:239-243 | describing changes nothing but the description, and leaves it truthy |
| SA360ReportManager.InstallValid | application/classes/sa360_report_manager.py:233-246 | a valid runner is merged into the document under its id; without a scheduler nothing else changes; with one it is scheduled, described, with one result line |
| SA360ReportManager.InstallInvalid | application/classes/sa360_report_manager.py:247-249 | an invalid runner is not stored, not scheduled, and adds exactly one line, starting `{id} - Validation failed: ` |
| SA360ReportManager.InstallStepGrows | application/classes/sa360_report_manager.py:223-249 | one runner adds at most one result line and keeps what was stored and scheduled |
| SA360ReportManager.InstallAllGrows | application/classes/sa360_report_manager.py:223-249 | `install` only adds: stored runners stay, jobs and results only grow, by at most one line per runner |
| SA360ReportManager.InstallAllStops | application/classes/sa360_report_manager.py:223-249 | once a runner raises, the later runners are not looked at |
| SA360ReportManager.SA360Manager.Install | application/classes/sa360_report_manager.py:210-254 | the loop's new store, jobs and results are those of `InstallAll` |
| SA360ReportManager.ValidateAllCount | application/classes/sa360_report_manager.py:118-126 | one validation per document other than `_reports` |
| SA360ReportManager.ValidateAllStops | application/classes/sa360_report_manager.py:118-126 | once a document raises, validation stops |
| SA360ReportManager.SA360Manager.Validate | application/classes/sa360_report_manager.py:107-126 | the loop computes `ValidateAll` |
| DBM.IsFinished | application/classes/dbm.py:77-78 | a report is finished exactly when its `metadata.status` has `finishTimeMs` |
| DBM.Finished | application/classes/dbm.py:76-79 | succeeds exactly when every report's status can be tested; then the finished reports, nothing else |
| DBM.FinishedOrder | application/classes/dbm.py:76-79 | the filter keeps order and repeats: the finished reports are the items at increasing positions, and every finished item's position is among them |
| DBM.FinishedFirstError | application/classes/dbm.py:76-79 | a failing filter raises the error of the first report whose status cannot be tested, all earlier ones testable |
| DBM.SortKeys | application/classes/dbm.py:80-82 | succeeds exactly when every key can be computed; then one key per report, each the report's own |
| DBM.LastMax | application/classes/dbm.py:80-83 | the position `sorted(...)[-1]` takes: a greatest key, nothing after it as great (the sort is stable) |
| DBM.Latest | application/classes/dbm.py:80-83 | the latest is one of the items, defined exactly when every key is |
| DBM.LatestIsLastGreatest | application/classes/dbm.py:80-83 | the latest has the greatest key and is the last with it |
| DBM.LatestReportFileAsWritten | application/classes/dbm.py:62-87 | as written: an empty fetch gives {} |
| DBM.UnfinishedReportFails | application/classes/dbm.py:80-83 | as written, one still-running report makes `ordered[-1]` raise IndexError |
| DBM.LatestReportFile | application/classes/dbm.py:62-87 | as documented: {} for an empty fetch or no 'reports'; otherwise the latest finished report |
| DBM.LatestOfReportsMeaning | application/classes/dbm.py:71-87 | the file picked is a finished report with the greatest `finishTimeMs`, the last such; {} when none finished |
| DBM.LatestReportFileAgrees | application/classes/dbm.py:62-87 | where the code as written does not raise, the corrected one gives the same file |
| DBM.ReportState | application/classes/dbm.py:153-165 | 'UNKNOWN' without reports |
| DBM.ReportStateMeaning | application/classes/dbm.py:158-162 | the state is that of the run with the greatest `reportDataStartTimeMs`, the last such |
| DBM.RunReport | application/classes/dbm.py:141-151 | the query is run exactly when the state is not 'RUNNING'; otherwise {} |
| DBM.NormalizeReportDetails | application/classes/dbm.py:102-127 | id from `queryId`. Missing GCS path or run time: '' and 0. Otherwise both from the metadata. No `schedule`: cadence None. A metadata that is not an object raises TypeError; otherwise a missing `queryId` raises KeyError('queryId') first; it succeeds exactly when `metadata` is an object with a `title`, `queryId` is present, `params` is an object with a `type`, and `schedule` is absent or an object |
| DBM.ReadLinesConcat | application/classes/dbm.py:241 | `readlines` loses nothing: its lines concatenate to the input |
| DBM.ReadLinesBreaks | application/classes/dbm.py:241 | every line but the last ends in '\n', and no line has another '\n' |
| DBM.GroupCount | application/classes/dbm.py:242 | at most one per footer line |
| DBM.TrimFooter | application/classes/dbm.py:227-251 | the result is always a prefix of the chunk; without "\n\n" it is the chunk |
| DBM.TrimFooterCut | application/classes/dbm.py:238-251 | the cut is at the last '\n' followed by `group_count` commas, none later; without one, at the blank line |
| DBM.TrimWithoutGroups | application/classes/dbm.py:242-249 | with no "Group By:" line the chunk is cut at its last '\n' |
| DBM.ReachedIsProduct | application/classes/dbm.py:220-222 | after k reads, min(k·chunk size, body size) bytes are read |
| DBM.Chunks | application/classes/dbm.py:220-255 | one chunk per read |
| DBM.ChunksAt | application/classes/dbm.py:221 | the k-th queued chunk is the k-th read |
| DBM.ChunksCover | application/classes/dbm.py:220-255 | the untrimmed chunks concatenate to the bytes read so far, in order |
| DBM.QueuedUntrimmed | application/classes/dbm.py:220-251 | while the count stays below the content length, every chunk is queued unchanged |
| DBM.QueuedLast | application/classes/dbm.py:220-251 | the read that reaches the content length is queued trimmed, after all earlier chunks unchanged |
| DBM.ReadChunk | application/classes/dbm.py:221-253 | one pass of the loop: the count grows to the next read's total and the queue becomes what the first reads queue |
| DBM.StreamToGcs | application/classes/dbm.py:188-260 | without a path nothing is queued. Otherwise the loop stops at the first read reaching the content length; every earlier chunk is queued unchanged and in order, and the last one trimmed |
| RunMonitor.FetcherTopic | application/cloud_functions/run_monitor.py:172 | `projects/{project}/topics/report2bq-fetcher` |
| RunMonitor.JobAttributes | application/cloud_functions/run_monitor.py:128 | `job_config['pubsubTarget']['attributes']`, failing exactly when a level is missing |
| RunMonitor.CheckDV360 | application/cloud_functions/run_monitor.py:119-149 | 'DONE' publishes to the job's `topicName` with its attributes and removes the runner; 'FAILED' only removes; anything else changes nothing. The check succeeds exactly when the attributes, `email`, `report_id` and the state can be read, and a DONE job has a `topicName` |
| RunMonitor.CmStatus | application/cloud_functions/run_monitor.py:166-167 | a falsy response is 'UNKNOWN'; a dictionary gives its `status`, else 'UNKNOWN'; any other truthy response is 'UNKNOWN' when `'status' in` it is false and otherwise raises TypeError |
| Values.Contains | application/cloud_functions/run_monitor.py:167 | Python's `in` with a string: a key test on a dictionary, a substring test on a string, an element test on a list, TypeError on anything else |
| RunMonitor.CheckCM | application/cloud_functions/run_monitor.py:151-181 | 'REPORT_AVAILABLE' publishes to the fetcher topic and removes; 'FAILED' or 'CANCELLED' only removes; anything else changes nothing. The check succeeds exactly when the attributes, `email`, `profile`, `report_id`, `file_id`, the response and its status can be read |
| RunMonitor.SA360Config | application/cloud_functions/run_monitor.py:193-196 | the run config alone without `pubsubTarget`, else the run config overridden by the job attributes; attributes that cannot be read raise their error |
| RunMonitor.SA360ConfigMerges | application/cloud_functions/run_monitor.py:196 | the merged keys are both configs' keys; job attributes win |
| RunMonitor.CheckSA360 | application/cloud_functions/run_monitor.py:183-202 | always publishes the merged config to the fetcher topic and never removes |
| RunMonitor.Check | application/cloud_functions/run_monitor.py:67-72 | DV360, CM, SA360 and SA360_RPT to their checkers; any other type raises NotImplementedError('Invalid job type requested') |
| RunMonitor.DocumentEffect | application/cloud_functions/run_monitor.py:76-86 | an unparsable type raises ValueError; a failed schedule fetch removes the document's runner only; otherwise the type's checker |
| RunMonitor.UnscheduledRemoved | application/cloud_functions/run_monitor.py:79-86 | a failed schedule fetch removes the runner and publishes nothing |
| RunMonitor.InvalidTypeRaises | application/cloud_functions/run_monitor.py:105-117 | a type without a checker raises NotImplementedError('Invalid job type requested') |
| RunMonitor.AdministratorAsWritten | application/cloud_functions/run_monitor.py:209-211 | as written: without `ADMINISTRATOR_EMAIL`, `self.FIRESTORE` raises AttributeError |
| RunMonitor.Administrator | application/cloud_functions/run_monitor.py:209-211 | corrected: `ADMINISTRATOR_EMAIL` when set, else the admin document's `email` |
| RunMonitor.ErrorEmail | application/cloud_functions/run_monitor.py:208-227 | a mail exactly when there is a recipient: `to` is [email] if given, `cc` [administrator] if known, and the sender is the email or, without one, the administrator |
| RunMonitor.Apply | application/cloud_functions/run_monitor.py:137-149 | a publish appends the message; a removal takes the id out of the running set; mails untouched |
| RunMonitor.ProcessAllPublishes | application/cloud_functions/run_monitor.py:74-90 | the messages published are those of every document, in order |
| RunMonitor.ProcessAllRemoves | application/cloud_functions/run_monitor.py:74-90 | the running set loses exactly the runners some document removes |
| RunMonitor.ProcessAllMails | application/cloud_functions/run_monitor.py:88-90 | one failure mail per failing document when there is an administrator, none otherwise; a failure does not stop the loop |
| RunMonitor.AsWrittenAgrees | application/cloud_functions/run_monitor.py:57-90 | with `ADMINISTRATOR_EMAIL` set, the code as written and the corrected monitor agree |
| RunMonitor.AdministratorLookupAborts | application/cloud_functions/run_monitor.py:88-90 | as written, an ADH document then an SA360 one abort with AttributeError, publishing nothing; corrected, the SA360 trigger is published |
| RunMonitor.RunMonitor.Process | application/cloud_functions/run_monitor.py:57-90 | without GCP_PROJECT: KeyError and no change; otherwise the new running set, messages and mails are those of `ProcessAll` |
| Decorators.RetryFromCalls | classes/decorators_test.py:28-51 | calls stop at the first success, the first unlisted failure or the last try; the caller sees the last call's result |
| Decorators.RetryFromWarnings | classes/decorators_test.py:39-56 | one warning per listed failure, in order, with attempt number, exception and a delay multiplied by `backoff` each time |
| Decorators.RetryFirstSuccess | classes/decorators_test.py:43-51 | a first success: one call, no warning |
| Decorators.RetryUnlisted | classes/decorators_test.py:28-37 | an unlisted failure propagates at once, unlogged |
| Decorators.RetryAllFail | classes/decorators_test.py:28-39 | all tries failing: all calls made, one warning each, the last failure propagates |
| Decorators.RetryAndFail | classes/decorators_test.py:28-39 | the all-fail test: the exception and its message come through after 3 warnings |
| Decorators.RetryAndSucceed | classes/decorators_test.py:43-56 | the fail-once test: 2 calls, 1 warning (attempt 1, the exception, the delay) and success |
| Decorators.DBMRetryDelays | application/classes/dbm.py:89 | the DV360 calls warn of 15, 30 and 60 seconds when every try fails |
| Decorators.RetryCall | classes/decorators_test.py:28-56 | the retry loop returns what the policy `Retry` says: the result, the warnings and the number of calls |
| Decorators.CacheSlot | classes/decorators_test.py:110-112 | `_lazy_` followed by the property's name |
| Decorators.LazyRead | classes/decorators_test.py:108-112 | after a read the slot is set and holds the value read; a set slot is returned without computing; no other attribute changes |
| Decorators.LazyReadOnce | classes/decorators_test.py:108-112 | a second read returns the first value and changes nothing |
| Decorators.LazyThing | classes/decorators_test.py:108-112 | `_lazy_lazy_thing` is absent before and present after the read, which returns 'lazy' |
| Decorators.LazyObject.Read | classes/decorators_test.py:108-112 | the new attributes are those of `LazyRead`; the getter runs only on the first read |
| Credentials.EncodeKey | application/classes/credentials.py:84 | a string e-mail's key decodes back to it; a non-string has no `encode` |
| Credentials.EncodeKeyInjective | application/classes/credentials.py:84-92 | different e-mails get different keys |
| Credentials.Bucket | application/classes/credentials.py:64-67 | `{project}-report2bq-tokens` |
| Credentials.ClientToken | application/classes/credentials.py:69-73 | `{email}_user_token.json` |
| Credentials.GetDocument | application/classes/credentials.py:49-50 | the entry of the document, None when missing |
| Credentials.FetchFile | application/classes/credentials.py:51-52 | a file's content, failing exactly when it is missing |
| Credentials.ProjectCredentials | application/classes/credentials.py:44-52 | Firestore's `client_secret` when truthy, else GCS `client_secrets.json` |
| Credentials.TokenDetails | application/classes/credentials.py:54-61 | Firestore's entry under the encoded e-mail when truthy, else the GCS token file |
| Credentials.UpdateAuth | application/classes/credentials.py:90-92 | the key is merged into `auth`; every other entry and document is kept |
| Values.UpdateDocument | application/classes/credentials.py:90 | `update_document`: the documents gain the id; other documents are kept; the document merges the new entries over its old ones, keeping the rest |
| Credentials.RefreshRecord | application/classes/credentials.py:85-89 | exactly `access_token`, `refresh_token` and `_key` |
| Credentials.WriteFile | application/classes/credentials.py:93-95 | the file is set; every other file is kept, and no other file is created |
| Credentials.StoreThenRead | application/classes/credentials.py:54-95 | after storing, `token_details` gives the stored JSON when truthy, else the GCS record |
| Credentials.StoreKeepsOthers | application/classes/credentials.py:84-92 | storing one user's credentials leaves every other user's entry as it was |
| Credentials.CredentialStore.StoreCredentials | application/classes/credentials.py:75-95 | without an e-mail nothing is written; otherwise Firestore's `auth` gets the JSON under the encoded key and GCS the token record |
| FirestoreUpload.Tagged | application/cli/firestore_upload_test.py:69-70 | a dictionary value gains `_key` = its key, other fields unchanged |
| FirestoreUpload.EncodeKeys | application/cli/firestore_upload_test.py:69-71 | defined exactly when every value is a dictionary; the keys are the Base64 of the original keys, each value tagged |
| FirestoreUpload.EncodeKeysDecode | application/cli/firestore_upload_test.py:69-71 | every new key decodes to an original key, which its value carries under `_key` |
| FirestoreUpload.EncodeKeysCount | application/cli/firestore_upload_test.py:69-71 | no two keys collide: the entry count is kept |
| FirestoreUpload.UploadCall | application/cli/firestore_upload_test.py:36-74 | the file is opened with 'r'; the document id is `key` unencoded; the data is the content as is, or with its keys encoded |
| FirestoreUpload.GoodUnencoded | application/cli/firestore_upload_test.py:36-52 | the unencoded test's upload |
| FirestoreUpload.EncodeSingle | application/cli/firestore_upload_test.py:69-71 | a single entry becomes a single encoded, tagged entry |
| FirestoreUpload.GoodEncoded | application/cli/firestore_upload_test.py:54-74 | 'test_root' becomes 'dGVzdF9yb290' and its value gains `_key: 'test_root'` |
| Base64.DecodeEncode | application/cli/firestore_upload_test.py:71 | Base64 decoding undoes encoding |
| Base64.TestRootKey | application/cli/firestore_upload_test.py:71 | the key of 'test_root' is 'dGVzdF9yb290' |
| Base64.DecodeEncodeText | application/classes/credentials.py:84 | the key of a text decodes back to it |
| Utf8.DecodeEncode | application/classes/credentials.py:84 | UTF-8 decoding undoes encoding |

## Left out

- Cloud clients (Firestore, GCS, Pub/Sub, Gmail), OAuth, `discovery.get_service`, the scheduler and the SA360 column validator are not modelled. Their results are parameters (`parse`, `schedule`, `validators`, `manage`, `run`, `call`) or map and sequence state.
- The GCP_PROJECT and ADMINISTRATOR_EMAIL environment values are parameters.
- `post_processor` (application/main.py:225-257) loads code dynamically with `exec`/`import_module`, and is not modelled.
- `job_monitor` (application/main.py:116-129) only delegates to the job monitor, which is not part of this model.
- The threaded GCS uploader of `stream_to_gcs` is not modelled; the upload queue is the returned sequence of chunks. `urlopen`'s body is a byte sequence holding at least `content-length` bytes.
- DBM.StreamToGcs: requires a positive chunk size and a body holding at least the content length. A zero chunk multiplier, or a body shorter than its header, makes the source loop forever.
- The date formatting of `last_updated` (floating point and the clock) is not modelled; `ReportDetails` keeps the raw run time. `csv_helpers.sanitize_string` is not part of this model, so `report_name` is left out.
- `read_header` and `fetch` are left out: they are I/O over `urlopen` and the API.
- `timeit`, `measure_memory` and the retry's `time.sleep` are left out: wall clock, floating point and tracemalloc. The delay appears only in the warnings.
- Log messages are not modelled, except the retry warnings the tests count.
- The decorators module itself is not part of this model; `Retry` and `LazyRead` follow what its tests assert.
- Decorators.Retry: assumes `tries >= 1`, and that every retried failure logs a warning, the last included (three warnings for three tries, as the all-fail test counts). It also assumes that warnings number the attempts from 1 and that the delay is multiplied by `backoff` after each warning; the fail-once test only checks that the attempt and the delay are integers.
- `validate` and `install` do not write their CSV or result file (Cloud Storage or local disk); `validate` returns the validations and `install` the result lines.
- `random.seed(uuid.uuid4())` in `install` is left out; it has no observable effect on the modelled state.
- The `os.environ['API_KEY']` write of `manage` is not modelled, only whether the lookup before it raises.
- `_get_sa360_objects` is not modelled; `validate` and `install` take the documents as input.
- The GA360 manager and the `ReportManager` base class are not part of this model. `ReportManager` follows the GA360 tests, and `report_type` of GA360 is the constant `ReportManager.GA360`.
- `abstract_credentials.encode_key` is not part of this model; it is taken to be the Base64 of the e-mail's UTF-8 bytes, the encoding the upload test shows for keys.
- `firestore_upload.py` is not part of this model; `UploadCall` follows its tests. A value that is not a dictionary is taken to fail with TypeError.
- `update_document` is `Values.UpdateDocument` at both of its call sites (`install` and `store_credentials`): a merge of the new entries into the document; `fetch_file` of a missing file as a KeyError; `json.loads`/`json.dumps` as the identity on values.
- `int()` is modelled on integers, booleans (1 and 0) and optionally signed decimal digit strings; whitespace and `_` separators are not, and neither are floats.
- DBM.IsFinished: a membership test (`in`) on a status that is not a dictionary is treated as a TypeError, where Python would test a string's substrings or a list's elements. Elsewhere `in` is `Values.Contains`, which follows Python.
- `to_dict()` of a Firestore document that no longer exists (None) is not modelled; documents carry their config value.
- Text.Lower: lower-cases only 'A' to 'Z'. Python's `str.lower` also folds every other cased letter (accented Latin, Greek, Cyrillic, ...), which needs the Unicode case tables.
- EventRouting.SplitBaseMeaning: its "lower-cased" is `Text.Lower`, so ASCII only, as above.
- Values.Format: None, booleans, integers and strings print as Python's `str` does. A list, a dictionary or a product prints as a placeholder (`[...]`, `{...}`, `Type`), not as Python's repr, so a job id, a description or a bucket name built from such a value differs from the source's.
- SA360ReportManager.Manage: the `ReportManager` base class is not part of this model, so which of `list`, `show`, `add` and `delete` it implements is the parameter `inherited` (the same holds for `ManageAsWritten` and `ManageActions`).
- SA360ReportManager.CustomColumns: `parameters` that is not a list raises TypeError, where the source would iterate a dictionary's keys or a string's characters. A custom column whose `name` is not a string raises TypeError at extraction, where the source keeps it and uses it as a report key.
- EventRouting.ReportFetch: in the error path, the `os.environ['GCP_PROJECT']` read, the mail's text and the fatal log line are not modelled; the outcome says which error was caught and to whom a mail goes.
- SA360ReportManager.SA360Manager.Install: the jobs handed to the scheduler are recorded as (id, runner) pairs, and `_schedule_job`'s result line is a parameter.

## Findings

| source | as written | input that shows it | evidently intended | confidence | as-written member | corrected member |
|---|---|---|---|---|---|---|
| application/classes/sa360_report_manager.py:87-88 | tests `kwargs.get('api_key')` but reads `kwargs['API_KEY']` | `manage(project='p', api_key='k', action='install')` raises KeyError('API_KEY') | read the key that was tested | not executed | SA360ReportManager.ApiKeyLookupFails | SA360ReportManager.ApiKeyAccepted |
| application/cloud_functions/run_monitor.py:209-211 | the administrator is looked up through `self.FIRESTORE`, an attribute the monitor does not have (its client is `firestore_client`) | ADMINISTRATOR_EMAIL unset, an ADH document then an SA360 one: AttributeError escapes `process`, and the SA360 trigger is never published | look up the admin document, so a failure is mailed and the loop goes on | not executed | RunMonitor.AdministratorLookupAborts | RunMonitor.ProcessAllMails |
| application/classes/dbm.py:80-83 | `ordered[-1]` on the finished reports | `{'reports': [a report whose status has no finishTimeMs]}` raises IndexError | {} when no report has finished, as the docstring says | not executed | DBM.UnfinishedReportFails | DBM.LatestOfReportsMeaning |
