/**
 * The `dto` package: the statement request (enum discriminants still strings),
 * the statement response (enums rendered by name), the simplified learning
 * event a front end sends, the interpretation responses and the report records.
 */
module Dtos {
  import opened Wrappers
  import opened Model

  // ---- Statement request ----

  datatype AccountDto = AccountDto(name: Option<string>, homePage: Option<string>)

  datatype ActorDto = ActorDto(
    id: Option<string>,
    name: Option<string>,
    mbox: Option<string>,
    mboxSha1sum: Option<string>,
    openId: Option<string>,
    account: Option<AccountDto>,
    objectType: Option<string>)

  datatype VerbDto = VerbDto(id: Option<string>, display: Option<LanguageMap>)

  datatype ActivityDefinitionDto = ActivityDefinitionDto(
    name: Option<LanguageMap>,
    description: Option<LanguageMap>,
    typeIri: Option<string>,
    moreInfo: Option<string>,
    extensions: Option<Extensions>)

  datatype ActivityDto = ActivityDto(
    id: Option<string>,
    objectType: Option<string>,
    definition: Option<ActivityDefinitionDto>)

  datatype ScoreDto = ScoreDto(scaled: Option<real>, raw: Option<real>, min: Option<real>, max: Option<real>)

  datatype ResultDto = ResultDto(
    score: Option<ScoreDto>,
    success: Option<bool>,
    completion: Option<bool>,
    response: Option<string>,
    duration: Option<string>,
    extensions: Option<Extensions>)

  datatype ContextDto = ContextDto(
    registration: Option<string>,
    instructorId: Option<string>,
    teamId: Option<string>,
    contextActivities: Option<map<string, seq<Option<ActivityDto>>>>,
    revision: Option<string>,
    platform: Option<string>,
    language: Option<string>,
    statement: Option<string>,
    extensions: Option<Extensions>)

  datatype StatementRequest = StatementRequest(
    actor: Option<ActorDto>,
    verb: Option<VerbDto>,
    statementObject: Option<ActivityDto>,
    context: Option<ContextDto>,
    result: Option<ResultDto>)

  // ---- Statement response ----

  datatype AccountResponse = AccountResponse(name: Option<string>, homePage: Option<string>)

  datatype ActorResponse = ActorResponse(
    id: Option<string>,
    name: Option<string>,
    mbox: Option<string>,
    mboxSha1sum: Option<string>,
    openId: Option<string>,
    account: Option<AccountResponse>,
    objectType: Option<string>)

  datatype VerbResponse = VerbResponse(id: Option<string>, display: Option<LanguageMap>)

  datatype DefinitionResponse = DefinitionResponse(
    name: Option<LanguageMap>,
    description: Option<LanguageMap>,
    typeIri: Option<string>,
    moreInfo: Option<string>,
    extensions: Option<Extensions>)

  datatype StatementObjectResponse = StatementObjectResponse(
    id: Option<string>,
    objectType: Option<string>,
    definition: Option<DefinitionResponse>)

  datatype ScoreResponse = ScoreResponse(scaled: Option<real>, raw: Option<real>, min: Option<real>, max: Option<real>)

  datatype ResultResponse = ResultResponse(
    score: Option<ScoreResponse>,
    success: Option<bool>,
    completion: Option<bool>,
    response: Option<string>,
    duration: Option<string>,
    extensions: Option<Extensions>)

  datatype ContextResponse = ContextResponse(
    registration: Option<string>,
    instructorId: Option<string>,
    teamId: Option<string>,
    contextActivities: Option<map<string, seq<Option<StatementObjectResponse>>>>,
    revision: Option<string>,
    platform: Option<string>,
    language: Option<string>,
    statement: Option<string>,
    extensions: Option<Extensions>)

  datatype StatementResponse = StatementResponse(
    id: Option<string>,
    actor: Option<ActorResponse>,
    verb: Option<VerbResponse>,
    statementObject: Option<StatementObjectResponse>,
    timestamp: Option<DateTime>,
    stored: Option<DateTime>,
    authority: Option<ActorResponse>,
    version: Option<string>,
    attachments: Option<seq<Value>>,
    result: Option<ResultResponse>,
    context: Option<ContextResponse>)

  // ---- Simplified learning events ----

  /** The business-friendly event; `score` is on a 0-100 scale. */
  datatype SimplifiedLearningEvent = SimplifiedLearningEvent(
    learnerId: Option<string>,
    learnerName: Option<string>,
    learnerEmail: Option<string>,
    action: Option<string>,
    activityId: Option<string>,
    activityName: Option<string>,
    activityType: Option<string>,
    score: Option<real>,
    passed: Option<bool>,
    completed: Option<bool>,
    duration: Option<string>,
    platform: Option<string>,
    courseId: Option<string>,
    courseName: Option<string>,
    instructorId: Option<string>,
    sessionId: Option<string>,
    metadata: Option<Extensions>)

  datatype InterpretationResponse = InterpretationResponse(
    success: bool,
    message: Option<string>,
    statementId: Option<string>,
    timestamp: Option<DateTime>,
    validatedStatement: Option<StatementResponse>)

  datatype BatchInterpretationResponse = BatchInterpretationResponse(
    totalEvents: int,
    successCount: int,
    failureCount: int,
    responses: seq<InterpretationResponse>)

  // ---- Reports ----

  datatype ActorReport = ActorReport(
    actorId: string,
    actorName: Option<string>,
    actorEmail: Option<string>,
    totalStatements: nat,
    activitiesCompleted: Option<nat>,
    activitiesAttempted: Option<nat>,
    averageScore: Option<real>,
    completionRate: Option<real>,
    totalTimeSpent: Option<string>,
    firstActivity: Option<DateTime>,
    lastActivity: Option<DateTime>)

  datatype ActivityReport = ActivityReport(
    activityId: string,
    activityName: Option<string>,
    totalStatements: nat,
    completedCount: Option<nat>,
    successCount: Option<nat>,
    averageScore: Option<real>,
    completionRate: Option<real>,
    successRate: Option<real>,
    firstAttempt: Option<DateTime>,
    lastAttempt: Option<DateTime>)

  datatype VerbReport = VerbReport(verbId: string, verbDisplay: string, count: nat, percentage: real)

  /** One day of activity; `date` is the day of the statements' timestamps. */
  datatype DailyActivityReport = DailyActivityReport(
    date: int,
    totalStatements: nat,
    uniqueActors: nat,
    uniqueActivities: nat,
    completions: nat,
    averageScore: real)

  datatype ComprehensiveReport = ComprehensiveReport(
    reportGeneratedAt: DateTime,
    reportStartDate: DateTime,
    reportEndDate: DateTime,
    totalStatements: nat,
    totalActors: nat,
    totalActivities: nat,
    totalVerbs: nat,
    overallAverageScore: Option<real>,
    overallCompletionRate: Option<real>,
    overallSuccessRate: Option<real>,
    verbBreakdown: seq<VerbReport>,
    topPerformers: seq<ActorReport>,
    mostPopularActivities: seq<ActivityReport>,
    dailyTrends: seq<DailyActivityReport>)
}
