# Learning Record Store core, modelled in Dafny

This project models the decision logic of a small Learning Record Store. The
store records learning events as xAPI statements, following the statement
structure of Part Two, section 2.4 of the Experience API 1.0.3 specification:
an actor, a verb and an object, plus an optional result and context. From the
stored statements it derives reports. The model covers four parts:

- **Interpretation** (`interpretation.dfy`, module `Interpretation`). A loosely
  structured learning event becomes a statement request. This covers the
  verb-synonym table and its fallback, the actor, activity, result and context
  defaults, the best-effort normalisation of a duration, and the four-rule
  validator.
- **Aggregation** (`reports.dfy`, module `Reports`). Reports are computed over a
  sequence of statements: distinct counts, averages and rates with their zero
  defaults, a verb breakdown, per-actor and per-activity reports, rankings cut
  to a limit, the ascending daily series, and the comprehensive report.
- **Mapping** (`statement_service.dfy`, module `StatementService`). The
  request-to-model and model-to-response mappers, and the assembly of a new
  statement in `createStatement`.
- **Submission** (`interpretation_controller.dfy`, module `InterpretationController`).
  A single event is validated, interpreted, created and published. A batch of
  events is processed in a loop that counts successes and failures.

Supporting modules:

- `model.dfy` and `dtos.dfy` hold the data classes as datatypes, with every
  nullable field as an `Option`.
- `strings.dfy` holds the few `String` and `Long` operations the core relies on.
- `durations.dfy` holds `Duration.ofSeconds(n).toString()`, together with a
  reader for the ISO 8601 designator format (section 4.4.3.2 of ISO 8601:2004)
  that gives the printed text its meaning.
- `collections.dfy` holds the stream operations: `distinct`, `sorted`, `limit`,
  averages and sums.

How the pieces are modelled:

- Randomness and the clock are inputs. `UUID.randomUUID()` values arrive as
  `FreshIds`, and each `LocalDateTime.now()` reading is a `DateTime` parameter.
- Every repository query becomes the statement sequence it returns.
- The statement store and the event publisher become a per-event
  `Collaborators` value. It gives the id the store assigns, and whether
  `createStatement` or `publishStatementCreated` threw.
- `buildVerb`, `buildContext` (with its metadata `forEach`) and the batch loop
  update local state step by step. They are methods, each proved equal to a
  function that states its meaning.
- `interpretLearningEvent`, `submitLearningEvent` and one pass of the batch
  loop call their collaborators in sequence. They are methods too
  (`InterpretLearningEvent`, `SubmitLearningEvent`, `ProcessBatchEvent`). The
  first and the last are proved equal to a function (`Interpret`, `BatchEntry`);
  `SubmitLearningEvent` states its reply and its create and publish calls
  directly.
- Everything else is a function.

Points of the source worth knowing when reading the model:

- `buildContext` returns a context even when every field is null
  (InterpretationService.java:184-205).
- The comprehensive report over an empty period leaves the overall average
  score and both overall rates unset (`None`), not 0.
- The source has no tie-break among equal counts or scores; their order comes
  from hash-map iteration. The model fixes first-occurrence order followed by a
  stable insertion sort, and no lemma states it.

## Model

| member | source | states |
|---|---|---|
| `Interpretation.ValidateLearningEvent` | src/main/java/africa/enumverse/lrs/service/InterpretationService.java:232-254 | An event is accepted exactly when it is present, has a learner name or id, has an action with a character above U+0020, and has an activity name or id |
| `Interpretation.BuildActor` | src/main/java/africa/enumverse/lrs/service/InterpretationService.java:57-72 | The actor id is the learner id, else the fresh id. The mbox is present exactly when an email is given, and is "mailto:" followed by that email. The name is the learner name and the objectType is always "Agent" |
| `Interpretation.BuildVerb` | src/main/java/africa/enumverse/lrs/service/InterpretationService.java:74-125 | The switch over the lower-cased action, filling a display map, yields exactly the verb the synonym table gives |
| `Interpretation.VerbShape` | src/main/java/africa/enumverse/lrs/service/InterpretationService.java:74-124 | The mapping is total. Every verb id lies in the ADL verb namespace, and the display map has exactly one key, "en-US" |
| `Interpretation.VerbIgnoresCase` | src/main/java/africa/enumverse/lrs/service/InterpretationService.java:79 | An action and its lower-cased form give the same verb |
| `Interpretation.VerbSynonyms` | src/main/java/africa/enumverse/lrs/service/InterpretationService.java:79-115 | "completed"/"finished" give "completed". "started"/"began"/"initiated" give "initialized", displayed as "started". "viewed"/"watched" give "viewed". passed, failed, attempted, answered and scored map one-to-one |
| `Interpretation.VerbFallback` | src/main/java/africa/enumverse/lrs/service/InterpretationService.java:116-119 | An action outside the table gives the verb id namespace + lower(action) and the display lower(action), untrimmed |
| `Interpretation.BuildActivity` | src/main/java/africa/enumverse/lrs/service/InterpretationService.java:127-151 | The id is the activity id, else the activity namespace + fresh id. The en-US name is the activity name, else "Learning Activity". The type is the type namespace + (activity type, else "course"). The objectType is always "Activity" |
| `Interpretation.NormalizeDuration` | src/main/java/africa/enumverse/lrs/service/InterpretationService.java:210-227 | Null stays null. A text starting with "P" is kept unchanged. Any other text that `Long.parseLong` accepts (sign, leading zeros) becomes `Duration.toString` of that many seconds, which denotes exactly those seconds. Text it rejects is kept unchanged |
| `Interpretation.NormalizeDurationIdempotent` | src/main/java/africa/enumverse/lrs/service/InterpretationService.java:210-227 | Normalising twice changes nothing more than normalising once |
| `Interpretation.NormalizeSeconds` | src/main/java/africa/enumverse/lrs/service/InterpretationService.java:218-222 | Any long written in decimal becomes `Duration.toString` of that many seconds, and that text denotes exactly that many seconds |
| `Interpretation.NormalizeMinutesExample` | src/main/java/africa/enumverse/lrs/service/InterpretationService.java:218-222 | "150" becomes "PT2M30S" |
| `Interpretation.NormalizeHoursExample` | src/main/java/africa/enumverse/lrs/service/InterpretationService.java:218-222 | "5400" becomes "PT1H30M" |
| `Interpretation.NormalizeZeroExample` | src/main/java/africa/enumverse/lrs/service/InterpretationService.java:218-222 | "0" becomes "PT0S" |
| `Interpretation.NormalizeTextExample` | src/main/java/africa/enumverse/lrs/service/InterpretationService.java:213-226 | An ISO text starting with "P" and an unparseable text both pass through unchanged |
| `Interpretation.BuildResult` | src/main/java/africa/enumverse/lrs/service/InterpretationService.java:153-182 | There is no result exactly when score, passed, completed and duration are all absent. success = passed, completion = completed, and the duration is normalised. A score gives scaled*100 = score, raw = score, min 0 and max 100 |
| `Interpretation.ScaledScoreInUnitRange` | src/main/java/africa/enumverse/lrs/service/InterpretationService.java:163-172 | A score in [0,100] gives a scaled score in [0,1] |
| `Interpretation.Namespaced` | src/main/java/africa/enumverse/lrs/service/InterpretationService.java:188-192 | Each metadata key k appears as extension-namespace + k with its value, and nothing else appears. The result is empty exactly when the metadata is |
| `Interpretation.ExtensionKeyInjective` | src/main/java/africa/enumverse/lrs/service/InterpretationService.java:190 | Distinct metadata keys give distinct extension keys, so no metadata entry is lost |
| `Interpretation.CopyMetadata` | src/main/java/africa/enumverse/lrs/service/InterpretationService.java:188-192 | The `forEach` loop of puts builds exactly the namespaced metadata |
| `Interpretation.BuildContext` | src/main/java/africa/enumverse/lrs/service/InterpretationService.java:184-205 | Building the extension map step by step (metadata first, then sessionId) gives the context the model defines: registration = sessionId, platform and instructorId copied |
| `Interpretation.ContextExtensions` | src/main/java/africa/enumverse/lrs/service/InterpretationService.java:184-205 | A session id is the "sessionId" extension and overrides a metadata entry of that name. Every other metadata entry is kept. Extensions are absent exactly when there is no session id and no metadata |
| `Interpretation.Interpret` | src/main/java/africa/enumverse/lrs/service/InterpretationService.java:29-55 | The statement request always has an actor, a verb, an object and a context |
| `Interpretation.InterpretParts` | src/main/java/africa/enumverse/lrs/service/InterpretationService.java:33-54 | The request's actor, verb, object, result and context are the event's `BuildActor`, synonym-table verb, `BuildActivity`, `BuildResult` and `ContextFor`, so each part carries the properties stated for it |
| `Interpretation.InterpretLearningEvent` | src/main/java/africa/enumverse/lrs/service/InterpretationService.java:29-55 | The builder calls in sequence produce exactly the interpretation the model defines |
| `Interpretation.InterpretIgnoresCourse` | src/main/java/africa/enumverse/lrs/service/InterpretationService.java:184-205 | The course id and course name never affect the interpretation |
| `Interpretation.ValidEventsInterpret` | src/main/java/africa/enumverse/lrs/service/InterpretationService.java:243 | Every event that passes validation has a non-blank action, so `buildVerb` cannot fail on it |
| `Strings.TrimEmptyIffBlank` | src/main/java/africa/enumverse/lrs/service/InterpretationService.java:243 | `trim().isEmpty()` holds exactly when every character is at most U+0020 |
| `Strings.ParseLongOfDecimal` | src/main/java/africa/enumverse/lrs/service/InterpretationService.java:220 | `Long.parseLong` reads back every long printed in decimal |
| `Durations.Split` | src/main/java/africa/enumverse/lrs/service/InterpretationService.java:221-222 | The hours, minutes and seconds add up to the total. Minutes and seconds stay below 60 in magnitude, and all three share the total's sign |
| `Durations.JoinValue` | src/main/java/africa/enumverse/lrs/service/InterpretationService.java:221-222 | Reading a sequence of printed fields back gives the sum of their values in seconds |
| `Durations.PrintedFieldsDenote` | src/main/java/africa/enumverse/lrs/service/InterpretationService.java:221-222 | "PT" followed by the printed hour, minute and second fields denotes hours*3600 + minutes*60 + seconds |
| `Durations.DurationStringDenotes` | src/main/java/africa/enumverse/lrs/service/InterpretationService.java:221-222 | The printed ISO 8601 duration denotes exactly the given number of seconds |
| `Durations.ExampleNegative` | src/main/java/africa/enumverse/lrs/service/InterpretationService.java:221-222 | -150 seconds print as "PT-2M-30S", with each field signed |
| `Collections.Distinct` | src/main/java/africa/enumverse/lrs/service/ReportService.java:210-215 | `distinct()` keeps every element once and nothing else |
| `Collections.SortBy` | src/main/java/africa/enumverse/lrs/service/ReportService.java:292 | Sorting on a key yields an ordered rearrangement of its input |
| `Collections.Take` | src/main/java/africa/enumverse/lrs/service/ReportService.java:342 | `limit(n)` keeps the first min(n, length) elements |
| `Collections.TakeRanked` | src/main/java/africa/enumverse/lrs/service/ReportService.java:341-342 | After sorting, an element cut by the limit ranks no higher than any element kept |
| `Collections.MeanBounds` | src/main/java/africa/enumverse/lrs/service/ReportService.java:234-240 | The average of values between lo and hi lies between lo and hi |
| `Collections.Percentage` | src/main/java/africa/enumverse/lrs/service/ReportService.java:250 | count*100/total is non-negative, is at most 100 when count <= total, and times total gives count*100 |
| `Collections.SumCountsCover` | src/main/java/africa/enumverse/lrs/service/ReportService.java:268-273 | Grouping by distinct keys loses nothing: the group sizes add up to the number of grouped elements |
| `Reports.CountUnique` | src/main/java/africa/enumverse/lrs/service/ReportService.java:210-232 | The number of distinct non-null actor, object or verb ids, which is at most the number of statements |
| `Reports.AverageScore` | src/main/java/africa/enumverse/lrs/service/ReportService.java:234-240 | 0.0 when no statement has a scaled score. Otherwise average * count = sum of the present scaled scores |
| `Reports.AverageScoreBounds` | src/main/java/africa/enumverse/lrs/service/ReportService.java:234-240 | The average lies between any bounds on the present scaled scores |
| `Reports.CompletionRate` | src/main/java/africa/enumverse/lrs/service/ReportService.java:242-251 | 0.0 for no statements. Otherwise rate * n = completed * 100, and the rate lies in [0,100] |
| `Reports.SuccessRate` | src/main/java/africa/enumverse/lrs/service/ReportService.java:253-262 | 0.0 for no statements. Otherwise rate * n = successful * 100, and the rate lies in [0,100] |
| `Reports.ByFrequency` | src/main/java/africa/enumverse/lrs/service/ReportService.java:268-273 | The distinct ids of a dimension, each once, in non-increasing order of occurrence count |
| `Reports.VerbReportFor` | src/main/java/africa/enumverse/lrs/service/ReportService.java:275-291 | One verb's entry: the display of its first statement, its occurrence count, and count*100/n over all n statements |
| `Reports.VerbBreakdown` | src/main/java/africa/enumverse/lrs/service/ReportService.java:264-294 | Empty input gives an empty list. Otherwise there is one entry per distinct verb id, with distinct ids, in non-increasing count order |
| `Reports.VerbBreakdownCovers` | src/main/java/africa/enumverse/lrs/service/ReportService.java:268-294 | Every verb id that occurs has an entry |
| `Reports.VerbBreakdownSums` | src/main/java/africa/enumverse/lrs/service/ReportService.java:268-290 | The counts add up to the number of statements with a verb id, and the percentages add up to that number's share of all statements |
| `Reports.VerbBreakdownPercentages` | src/main/java/africa/enumverse/lrs/service/ReportService.java:264-294 | The percentages sum to at most 100, and to exactly 100 when every statement has a verb id |
| `Reports.Earliest` | src/main/java/africa/enumverse/lrs/service/ReportService.java:110 | `min(compareTo)` is a timestamp of the group that is not after any other |
| `Reports.Latest` | src/main/java/africa/enumverse/lrs/service/ReportService.java:111 | `max(compareTo)` is a timestamp of the group that is not before any other |
| `Reports.GroupSpan` | src/main/java/africa/enumverse/lrs/service/ReportService.java:110-111 | The earliest and latest timestamps of a group bracket every statement with its id, and each is the timestamp of one of them |
| `Reports.ActivityReportOf` | src/main/java/africa/enumverse/lrs/service/ReportService.java:81-112 | The report on one activity's statements: name from the first named definition, counts, average, own-count rates. First and last attempt are the minimum and maximum of the group's timestamps: each is the timestamp of a statement of the group, and they bracket every statement |
| `Reports.ActivityReportFor` | src/main/java/africa/enumverse/lrs/service/ReportService.java:67-113 | For an unknown id, only the id and a zero total. Otherwise the figures of exactly the statements whose object id matches, with first and last attempt present |
| `Reports.ActivityReportRates` | src/main/java/africa/enumverse/lrs/service/ReportService.java:108-109 | For a known activity, the completed and success counts are at most its total, and both rates lie in [0,100] |
| `Reports.ActivityReportSpan` | src/main/java/africa/enumverse/lrs/service/ReportService.java:110-111 | For a known activity, the first and last attempts are the earliest and latest timestamps of its statements: they bracket every statement about it, and each is the timestamp of one of those statements |
| `Reports.MostPopularActivities` | src/main/java/africa/enumverse/lrs/service/ReportService.java:346-392 | Exactly min(limit, distinct object ids) reports, with distinct ids, in non-increasing order of totalStatements |
| `Reports.MostPopularRanked` | src/main/java/africa/enumverse/lrs/service/ReportService.java:389-390 | An activity left out has no more statements than any activity listed |
| `Reports.MostPopularTotals` | src/main/java/africa/enumverse/lrs/service/ReportService.java:347-349 | Over all groups, the totals add up to the number of statements with an object id |
| `Reports.ActorReportOf` | src/main/java/africa/enumverse/lrs/service/ReportService.java:132-164 | The report on one actor's statements: completed count, distinct activities, average, no time spent. First and last activity are the minimum and maximum of the group's timestamps: each is the timestamp of a statement of the group, and they bracket every statement |
| `Reports.ActorReportFor` | src/main/java/africa/enumverse/lrs/service/ReportService.java:118-166 | For an unknown id, only the id and a zero total. Otherwise the figures of exactly the statements whose actor id matches, with first and last activity present |
| `Reports.ActorCompletionRate` | src/main/java/africa/enumverse/lrs/service/ReportService.java:136-162 | The completion rate is completed*100/distinct activities, or 0.0 when there are no activities |
| `Reports.ActorIdentity` | src/main/java/africa/enumverse/lrs/service/ReportService.java:148-152 | The actor's name and email are those of the first statement with that actor id |
| `Reports.ActorReportSpan` | src/main/java/africa/enumverse/lrs/service/ReportService.java:163-164 | For a known actor, the first and last activity are the earliest and latest timestamps of its statements: they bracket every statement of that actor, and each is the timestamp of one of those statements |
| `Reports.ByAverageScore` | src/main/java/africa/enumverse/lrs/service/ReportService.java:297-341 | The distinct actor ids, each once, in non-increasing order of average score |
| `Reports.TopPerformers` | src/main/java/africa/enumverse/lrs/service/ReportService.java:296-344 | Exactly min(limit, distinct actor ids) reports, with distinct ids, in non-increasing order of average score |
| `Reports.TopPerformersRanked` | src/main/java/africa/enumverse/lrs/service/ReportService.java:341-342 | An actor left out has an average no higher than any actor listed |
| `Reports.CompletionRateCanExceed100` | src/main/java/africa/enumverse/lrs/service/ReportService.java:312-336 | Completing one activity twice gives a completion rate of 200, so the rate is not bounded by 100 |
| `Reports.DailyReportOf` | src/main/java/africa/enumverse/lrs/service/ReportService.java:399-432 | A bucket's distinct actors and activities, its completed count and its average score are those of the day's statements. The counts are each at most the bucket's total |
| `Reports.DailyTrends` | src/main/java/africa/enumverse/lrs/service/ReportService.java:394-436 | One bucket per distinct day, dates strictly ascending, each with at least one statement and with the figures of exactly that day's statements |
| `Reports.DailyTrendsCover` | src/main/java/africa/enumverse/lrs/service/ReportService.java:395-396 | Every statement's day has a bucket |
| `Reports.DailyTrendsTotal` | src/main/java/africa/enumverse/lrs/service/ReportService.java:395-427 | The bucket totals add up to the number of statements |
| `Reports.ComprehensiveReportFor` | src/main/java/africa/enumverse/lrs/service/ReportService.java:25-62 | Echoes the clock and the range. With no statements: zero totals, empty lists, unset average and rates. Otherwise: the distinct counts, the average, the completion and success rates of all the period's statements (each in [0,100]), the breakdown, the top 10 lists and the daily trends |
| `Reports.ComprehensiveDailyTotal` | src/main/java/africa/enumverse/lrs/service/ReportService.java:60 | The report's daily totals account for every statement of the period |
| `StatementService.ParseActorType` | src/main/java/africa/enumverse/lrs/service/StatementService.java:90-98 | An exact enum name gives that value. Any other string gives Agent |
| `StatementService.ParseObjectType` | src/main/java/africa/enumverse/lrs/service/StatementService.java:121-129 | An exact enum name gives that value. Any other string gives Activity |
| `StatementService.EnumNamesRoundTrip` | src/main/java/africa/enumverse/lrs/service/StatementService.java:224 | `valueOf(name())` is the identity on both enums |
| `StatementService.MapActor` | src/main/java/africa/enumverse/lrs/service/StatementService.java:80-109 | Null exactly for null. An absent objectType stays absent, and a present one is parsed with the Agent fallback |
| `StatementService.MapVerb` | src/main/java/africa/enumverse/lrs/service/StatementService.java:111-117 | Null exactly for null |
| `StatementService.MapActivity` | src/main/java/africa/enumverse/lrs/service/StatementService.java:119-147 | Null exactly for null. An absent objectType stays absent, and a present one is parsed with the Activity fallback |
| `StatementService.MapActivities` | src/main/java/africa/enumverse/lrs/service/StatementService.java:157 | A context-activities list is mapped element by element, with the same length and order |
| `StatementService.MapContext` | src/main/java/africa/enumverse/lrs/service/StatementService.java:149-172 | Null exactly for null. The context-activities key set is kept, and each list keeps its length |
| `StatementService.MapResult` | src/main/java/africa/enumverse/lrs/service/StatementService.java:174-195 | Null exactly for null. The score is present exactly when it was |
| `StatementService.MapAccountToResponse` | src/main/java/africa/enumverse/lrs/service/StatementService.java:228-234 | Null exactly for null |
| `StatementService.MapActorToResponse` | src/main/java/africa/enumverse/lrs/service/StatementService.java:215-226 | Null exactly for null. The objectType is rendered by its enum name |
| `StatementService.MapVerbToResponse` | src/main/java/africa/enumverse/lrs/service/StatementService.java:236-242 | Null exactly for null |
| `StatementService.MapDefinitionToResponse` | src/main/java/africa/enumverse/lrs/service/StatementService.java:253-262 | Null exactly for null |
| `StatementService.MapStatementObjectToResponse` | src/main/java/africa/enumverse/lrs/service/StatementService.java:244-251 | Null exactly for null. The objectType is rendered by its enum name |
| `StatementService.MapScoreToResponse` | src/main/java/africa/enumverse/lrs/service/StatementService.java:276-284 | Null exactly for null |
| `StatementService.MapResultToResponse` | src/main/java/africa/enumverse/lrs/service/StatementService.java:264-274 | Null exactly for null |
| `StatementService.MapObjectsToResponse` | src/main/java/africa/enumverse/lrs/service/StatementService.java:294-296 | A list is mapped element by element, with the same length and order |
| `StatementService.MapContextToResponse` | src/main/java/africa/enumverse/lrs/service/StatementService.java:286-311 | Null exactly for null. The context-activities key set is kept |
| `StatementService.MapToResponse` | src/main/java/africa/enumverse/lrs/service/StatementService.java:198-213 | Null exactly for null. id, timestamp, stored, version and attachments are copied |
| `StatementService.ActorRoundTrip` | src/main/java/africa/enumverse/lrs/service/StatementService.java:80-109 | A request actor read back as a response keeps every field. Its objectType comes back as given when valid, as "Agent" otherwise |
| `StatementService.ActivityRoundTrip` | src/main/java/africa/enumverse/lrs/service/StatementService.java:119-147 | A request object read back keeps its id and definition. Its objectType comes back as given when valid, as "Activity" otherwise |
| `StatementService.VerbRoundTrip` | src/main/java/africa/enumverse/lrs/service/StatementService.java:111-117 | A request verb reads back with the same id and display |
| `StatementService.ResultRoundTrip` | src/main/java/africa/enumverse/lrs/service/StatementService.java:174-195 | A request result reads back with the same score, flags, response, duration and extensions |
| `StatementService.ActivitiesRoundTrip` | src/main/java/africa/enumverse/lrs/service/StatementService.java:157 | A context-activities list reads back element by element |
| `StatementService.ContextRoundTrip` | src/main/java/africa/enumverse/lrs/service/StatementService.java:149-172 | A request context reads back with the same keys, lists and fields |
| `StatementService.AssembleStatement` | src/main/java/africa/enumverse/lrs/service/StatementService.java:26-34 | The new statement has no id yet. The first clock reading is its timestamp and the second its stored time. Each part is present exactly when the request's is |
| `StatementService.Save` | src/main/java/africa/enumverse/lrs/service/StatementService.java:36 | The store sets the id and changes nothing else |
| `StatementService.CreateStatement` | src/main/java/africa/enumverse/lrs/service/StatementService.java:23-38 | The response carries the store's id and the two clock readings. Its actor, verb, object, result and context are the request's parts as they read back |
| `StatementService.TimestampNotAfterStored` | src/main/java/africa/enumverse/lrs/service/StatementService.java:30-31 | With a clock that does not run backwards, timestamp <= stored |
| `InterpretationController.SubmitLearningEvent` | src/main/java/africa/enumverse/lrs/controller/InterpretationController.java:37-77 | An invalid event is a bad request with no create or publish. A valid one is created from its interpretation. A create or publish exception is a server error with its message. Otherwise the reply carries the stored id and the created statement |
| `InterpretationController.BatchEntry` | src/main/java/africa/enumverse/lrs/controller/InterpretationController.java:94-124 | An entry succeeds exactly when the event is valid and neither create nor publish throws. Failures carry "Validation failed" or "Processing error: " + message. A success carries the stored id |
| `InterpretationController.ProcessBatchEvent` | src/main/java/africa/enumverse/lrs/controller/InterpretationController.java:94-124 | One loop pass gives that entry. It creates only for a valid event and publishes only after a create that did not throw |
| `InterpretationController.CreatedFor` | src/main/java/africa/enumverse/lrs/controller/InterpretationController.java:105-106 | There are never more create calls than events |
| `InterpretationController.ValidPositions` | src/main/java/africa/enumverse/lrs/controller/InterpretationController.java:93-103 | The positions of exactly the events that pass validation, in ascending order |
| `InterpretationController.CreatedInOrder` | src/main/java/africa/enumverse/lrs/controller/InterpretationController.java:93-106 | Over any batch, there is one create call per valid event, and the k-th call is the interpretation of the k-th valid event |
| `InterpretationController.CreatedOnlyValid` | src/main/java/africa/enumverse/lrs/controller/InterpretationController.java:96-106 | All-invalid batches create nothing. All-valid batches create once per event |
| `InterpretationController.BatchEntries` | src/main/java/africa/enumverse/lrs/controller/InterpretationController.java:94-124 | The batch's responses, one per event and in input order, each the entry for that event |
| `InterpretationController.PublishedBetween` | src/main/java/africa/enumverse/lrs/controller/InterpretationController.java:105-115 | Over any batch, the successful responses are at most the publish calls, which are at most the create calls |
| `InterpretationController.SubmitBatch` | src/main/java/africa/enumverse/lrs/controller/InterpretationController.java:84-136 | One response per event, in input order. successCount counts the successful responses, and successCount + failureCount = totalEvents = number of events. The create and publish calls are those of the valid events, in order |
| `InterpretationController.CompletedAlgebraExample` | src/main/java/africa/enumverse/lrs/service/InterpretationService.java:29-55 | An event (learner "Ama", "completed", "Intro to Algebra", score 85) is valid and is stored with the ADL "completed" verb id, scaled score 0.85 and that en-US name |

## Left out

- HTTP transport is not modelled: `ResponseEntity` statuses, `ApiResponse` wrapping beyond the single submit's message (the batch's "Batch processed" message is not modelled), logging, and the report, statement, learning-record and health controllers.
- Event publishing is asynchronous framework glue. Only whether `publishStatementCreated` throws is modelled.
- The repositories are Spring Data interfaces. Each query becomes the sequence it returns. Whether the `findByTimestampBetween` bounds are inclusive is not visible, so it is not modelled.
- The public `generateVerbBreakdown(start, end)`, `generateDailyTrends(start, end)`, `getTopPerformers` and `getMostPopularActivities` only read the repository and call the helpers. They are modelled by those helpers over the sequence.
- The `StatementService` read and delete methods only delegate to the repository and map with `MapToResponse`. They are not modelled separately.
- `LearningRecordService` is pass-through CRUD and is not part of this model.
- Floating point: Java `float` and `double` are modelled as reals, so the model makes no rounding claims. This covers `score / 100.0f`, the averages, and the `* 100.0 / n` rates.
- `String.toLowerCase` is modelled for ASCII letters only. `Long.parseLong` is modelled for ASCII digits only.
- Metadata, extension and attachment values are modelled as non-null JSON-like values. Null map values are not modelled.
- The source's crash paths are preconditions rather than modelled exceptions:
  - a null timestamp in the day grouping and in the `min`/`max` calls (the `Timed` predicates);
  - a null action in `buildVerb`;
  - a null event in `submitLearningEvent`, whose log line dereferences it;
  - a null batch request or a null `events` list in `submitBatchLearningEvents`, dereferenced outside the loop's `try`;
  - a null id passed to `generateActivityReport` or `generateActorReport`, whose filters call `equals` on it;
  - a null statement request in `createStatement`;
  - a null list inside `contextActivities`;
  - a null "en-US" display value in `generateVerbBreakdown`, where `Collectors.toMap` throws on a null value (language maps are `map<string, string>`);
  - a negative limit (limits are `nat`).
- `ActorReport.actorName` falls back to the actor id when the first statement has no actor. Every grouped statement has an actor, so that branch is unreachable and is not modelled.
- `Reports.ActorReportFor`: its contract does not state the completion-rate value, and states first and last activity only as present. `Reports.ActorCompletionRate` states the rate for a known actor, and `Reports.ActorReportSpan` states that first and last activity are the earliest and latest timestamps of the actor's statements. Keeping these out of the function's own contract keeps the ranking functions that map it over many actors cheap to verify.
- `Reports.ActivityReportFor`: its contract states first and last attempt only as present. `Reports.ActivityReportSpan` states that they are the earliest and latest timestamps of the activity's statements, for the same reason.
- `Interpretation.Interpret`: its contract states only that the four parts are present. `Interpretation.InterpretParts` states what each part is, for the same reason: the batch functions apply `Interpret` to every event.
