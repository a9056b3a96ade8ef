/**
 * StatementService: the request-to-model mappers, the model-to-response
 * mappers and the assembly of a new statement in createStatement.
 */
module StatementService {
  import opened Wrappers
  import opened Model
  import opened Dtos

  // ---- Enum names ----

  function ActorTypeName(t: ActorType): string {
    match t
    case Agent => "Agent"
    case Group => "Group"
  }

  function ObjectTypeName(t: ObjectType): string {
    match t
    case Activity => "Activity"
    case Agent => "Agent"
    case Group => "Group"
    case SubStatement => "SubStatement"
    case StatementRef => "StatementRef"
  }

  const ActorTypeNames: set<string> := {"Agent", "Group"}
  const ObjectTypeNames: set<string> := {"Activity", "Agent", "Group", "SubStatement", "StatementRef"}

  /** ActorType.valueOf, with an unknown name falling back to Agent. */
  function ParseActorType(s: string): (t: ActorType)
    ensures s in ActorTypeNames ==> ActorTypeName(t) == s
    ensures s !in ActorTypeNames ==> t == ActorType.Agent
  {
    if s == "Agent" then ActorType.Agent
    else if s == "Group" then ActorType.Group
    else ActorType.Agent
  }

  /** ObjectType.valueOf, with an unknown name falling back to Activity. */
  function ParseObjectType(s: string): (t: ObjectType)
    ensures s in ObjectTypeNames ==> ObjectTypeName(t) == s
    ensures s !in ObjectTypeNames ==> t == ObjectType.Activity
  {
    if s == "Activity" then ObjectType.Activity
    else if s == "Agent" then ObjectType.Agent
    else if s == "Group" then ObjectType.Group
    else if s == "SubStatement" then ObjectType.SubStatement
    else if s == "StatementRef" then ObjectType.StatementRef
    else ObjectType.Activity
  }

  /** valueOf(name()) is the identity on both enums. */
  lemma EnumNamesRoundTrip(a: ActorType, o: ObjectType)
    ensures ParseActorType(ActorTypeName(a)) == a
    ensures ParseObjectType(ObjectTypeName(o)) == o
  {
  }

  // ---- Request to model ----

  /** mapActor: null for null; the objectType parsed, with Agent for an unknown name. */
  function MapActor(dto: Option<ActorDto>): (r: Option<Actor>)
    ensures r.None? <==> dto.None?
    ensures r.Some? ==> (r.value.objectType.None? <==> dto.value.objectType.None?)
    ensures r.Some? && dto.value.objectType.Some? ==>
      r.value.objectType.value == ParseActorType(dto.value.objectType.value)
    ensures r.Some? ==> (r.value.account.None? <==> dto.value.account.None?)
  {
    if dto.None? then None
    else
      var d := dto.value;
      var account := if d.account.Some? then Some(Account(d.account.value.name, d.account.value.homePage)) else None;
      var objectType := if d.objectType.Some? then Some(ParseActorType(d.objectType.value)) else None;
      Some(Actor(d.id, d.name, d.mbox, d.mboxSha1sum, d.openId, account, objectType))
  }

  /** mapVerb: null for null. */
  function MapVerb(dto: Option<VerbDto>): (r: Option<Verb>)
    ensures r.None? <==> dto.None?
  {
    if dto.None? then None else Some(Verb(dto.value.id, dto.value.display))
  }

  /** mapActivity: null for null; the objectType parsed, with Activity for an unknown name. */
  function MapActivity(dto: Option<ActivityDto>): (r: Option<StatementObject>)
    ensures r.None? <==> dto.None?
    ensures r.Some? ==> (r.value.objectType.None? <==> dto.value.objectType.None?)
    ensures r.Some? && dto.value.objectType.Some? ==>
      r.value.objectType.value == ParseObjectType(dto.value.objectType.value)
    ensures r.Some? ==> (r.value.definition.None? <==> dto.value.definition.None?)
  {
    if dto.None? then None
    else
      var d := dto.value;
      var objectType := if d.objectType.Some? then Some(ParseObjectType(d.objectType.value)) else None;
      var definition := if d.definition.Some? then
        var def := d.definition.value;
        Some(Definition(def.name, def.description, def.typeIri, def.moreInfo, def.extensions))
      else None;
      Some(StatementObject(d.id, objectType, definition))
  }

  /** One context-activities list mapped element by element. */
  function MapActivities(xs: seq<Option<ActivityDto>>): (r: seq<Option<StatementObject>>)
    ensures |r| == |xs|
    ensures forall i :: 0 <= i < |xs| ==> r[i] == MapActivity(xs[i])
  {
    seq(|xs|, i requires 0 <= i < |xs| => MapActivity(xs[i]))
  }

  /** mapContext: null for null; the context-activities keys kept, each list mapped in order. */
  function MapContext(dto: Option<ContextDto>): (r: Option<Context>)
    ensures r.None? <==> dto.None?
    ensures r.Some? ==> (r.value.contextActivities.None? <==> dto.value.contextActivities.None?)
    ensures r.Some? && r.value.contextActivities.Some? ==>
      r.value.contextActivities.value.Keys == dto.value.contextActivities.value.Keys
    ensures r.Some? && r.value.contextActivities.Some? ==>
      forall k :: k in r.value.contextActivities.value ==>
        |r.value.contextActivities.value[k]| == |dto.value.contextActivities.value[k]|
  {
    if dto.None? then None
    else
      var d := dto.value;
      var activities := if d.contextActivities.Some? then
        var ca := d.contextActivities.value;
        Some(map k | k in ca :: MapActivities(ca[k]))
      else None;
      Some(Context(d.registration, d.instructorId, d.teamId, activities, d.revision,
                   d.platform, d.language, d.statement, d.extensions))
  }

  /** mapResult: null for null. */
  function MapResult(dto: Option<ResultDto>): (r: Option<Result>)
    ensures r.None? <==> dto.None?
    ensures r.Some? ==> (r.value.score.None? <==> dto.value.score.None?)
  {
    if dto.None? then None
    else
      var d := dto.value;
      var score := if d.score.Some? then
        var s := d.score.value;
        Some(Score(s.scaled, s.raw, s.min, s.max))
      else None;
      Some(Result(score, d.success, d.completion, d.response, d.duration, d.extensions))
  }

  // ---- Model to response ----

  function MapAccountToResponse(account: Option<Account>): (r: Option<AccountResponse>)
    ensures r.None? <==> account.None?
  {
    if account.None? then None else Some(AccountResponse(account.value.name, account.value.homePage))
  }

  /** mapActorToResponse: null for null; the objectType rendered by name. */
  function MapActorToResponse(actor: Option<Actor>): (r: Option<ActorResponse>)
    ensures r.None? <==> actor.None?
    ensures r.Some? ==> (r.value.objectType.None? <==> actor.value.objectType.None?)
    ensures r.Some? && r.value.objectType.Some? ==>
      r.value.objectType.value == ActorTypeName(actor.value.objectType.value)
  {
    if actor.None? then None
    else
      var a := actor.value;
      Some(ActorResponse(a.id, a.name, a.mbox, a.mboxSha1sum, a.openId, MapAccountToResponse(a.account),
                         if a.objectType.Some? then Some(ActorTypeName(a.objectType.value)) else None))
  }

  function MapVerbToResponse(verb: Option<Verb>): (r: Option<VerbResponse>)
    ensures r.None? <==> verb.None?
  {
    if verb.None? then None else Some(VerbResponse(verb.value.id, verb.value.display))
  }

  function MapDefinitionToResponse(definition: Option<Definition>): (r: Option<DefinitionResponse>)
    ensures r.None? <==> definition.None?
  {
    if definition.None? then None
    else
      var d := definition.value;
      Some(DefinitionResponse(d.name, d.description, d.typeIri, d.moreInfo, d.extensions))
  }

  /** mapStatementObjectToResponse: null for null; the objectType rendered by name. */
  function MapStatementObjectToResponse(obj: Option<StatementObject>): (r: Option<StatementObjectResponse>)
    ensures r.None? <==> obj.None?
    ensures r.Some? ==> (r.value.objectType.None? <==> obj.value.objectType.None?)
    ensures r.Some? && r.value.objectType.Some? ==>
      r.value.objectType.value == ObjectTypeName(obj.value.objectType.value)
  {
    if obj.None? then None
    else
      var o := obj.value;
      Some(StatementObjectResponse(o.id,
                                   if o.objectType.Some? then Some(ObjectTypeName(o.objectType.value)) else None,
                                   MapDefinitionToResponse(o.definition)))
  }

  function MapScoreToResponse(score: Option<Score>): (r: Option<ScoreResponse>)
    ensures r.None? <==> score.None?
  {
    if score.None? then None
    else Some(ScoreResponse(score.value.scaled, score.value.raw, score.value.min, score.value.max))
  }

  function MapResultToResponse(result: Option<Result>): (r: Option<ResultResponse>)
    ensures r.None? <==> result.None?
  {
    if result.None? then None
    else
      var x := result.value;
      Some(ResultResponse(MapScoreToResponse(x.score), x.success, x.completion, x.response, x.duration, x.extensions))
  }

  function MapObjectsToResponse(xs: seq<Option<StatementObject>>): (r: seq<Option<StatementObjectResponse>>)
    ensures |r| == |xs|
    ensures forall i :: 0 <= i < |xs| ==> r[i] == MapStatementObjectToResponse(xs[i])
  {
    seq(|xs|, i requires 0 <= i < |xs| => MapStatementObjectToResponse(xs[i]))
  }

  /** mapContextToResponse: null for null; the context-activities keys kept, each list mapped in order. */
  function MapContextToResponse(context: Option<Context>): (r: Option<ContextResponse>)
    ensures r.None? <==> context.None?
    ensures r.Some? ==> (r.value.contextActivities.None? <==> context.value.contextActivities.None?)
    ensures r.Some? && r.value.contextActivities.Some? ==>
      r.value.contextActivities.value.Keys == context.value.contextActivities.value.Keys
  {
    if context.None? then None
    else
      var c := context.value;
      var activities := if c.contextActivities.Some? then
        var ca := c.contextActivities.value;
        Some(map k | k in ca :: MapObjectsToResponse(ca[k]))
      else None;
      Some(ContextResponse(c.registration, c.instructorId, c.teamId, activities, c.revision,
                           c.platform, c.language, c.statement, c.extensions))
  }

  /** mapToResponse: null for null; id, timestamps, version and attachments copied. */
  function MapToResponse(statement: Option<Statement>): (r: Option<StatementResponse>)
    ensures r.None? <==> statement.None?
    ensures r.Some? ==>
      var s := statement.value;
      r.value.id == s.id && r.value.timestamp == s.timestamp && r.value.stored == s.stored &&
      r.value.version == s.version && r.value.attachments == s.attachments
  {
    if statement.None? then None
    else
      var s := statement.value;
      Some(StatementResponse(
        id := s.id,
        actor := MapActorToResponse(s.actor),
        verb := MapVerbToResponse(s.verb),
        statementObject := MapStatementObjectToResponse(s.statementObject),
        timestamp := s.timestamp,
        stored := s.stored,
        authority := MapActorToResponse(s.authority),
        version := s.version,
        attachments := s.attachments,
        result := MapResultToResponse(s.result),
        context := MapContextToResponse(s.context)))
  }

  // ---- What a request looks like once it comes back as a response ----

  /** The objectType a response shows for a request's string: itself when it names an enum value, else Agent. */
  function EchoActorType(s: Option<string>): Option<string> {
    if s.None? then None else if s.value in ActorTypeNames then s else Some("Agent")
  }

  /** The same for an object: itself when it names an enum value, else Activity. */
  function EchoObjectType(s: Option<string>): Option<string> {
    if s.None? then None else if s.value in ObjectTypeNames then s else Some("Activity")
  }

  function EchoActor(dto: Option<ActorDto>): Option<ActorResponse> {
    if dto.None? then None
    else
      var d := dto.value;
      var account := if d.account.Some? then Some(AccountResponse(d.account.value.name, d.account.value.homePage)) else None;
      Some(ActorResponse(d.id, d.name, d.mbox, d.mboxSha1sum, d.openId, account, EchoActorType(d.objectType)))
  }

  function EchoActivity(dto: Option<ActivityDto>): Option<StatementObjectResponse> {
    if dto.None? then None
    else
      var d := dto.value;
      var definition := if d.definition.Some? then
        var def := d.definition.value;
        Some(DefinitionResponse(def.name, def.description, def.typeIri, def.moreInfo, def.extensions))
      else None;
      Some(StatementObjectResponse(d.id, EchoObjectType(d.objectType), definition))
  }

  function EchoResult(dto: Option<ResultDto>): Option<ResultResponse> {
    if dto.None? then None
    else
      var d := dto.value;
      var score := if d.score.Some? then
        Some(ScoreResponse(d.score.value.scaled, d.score.value.raw, d.score.value.min, d.score.value.max))
      else None;
      Some(ResultResponse(score, d.success, d.completion, d.response, d.duration, d.extensions))
  }

  function EchoActivities(xs: seq<Option<ActivityDto>>): seq<Option<StatementObjectResponse>> {
    seq(|xs|, i requires 0 <= i < |xs| => EchoActivity(xs[i]))
  }

  function EchoContext(dto: Option<ContextDto>): Option<ContextResponse> {
    if dto.None? then None
    else
      var d := dto.value;
      var activities := if d.contextActivities.Some? then
        var ca := d.contextActivities.value;
        Some(map k | k in ca :: EchoActivities(ca[k]))
      else None;
      Some(ContextResponse(d.registration, d.instructorId, d.teamId, activities, d.revision,
                           d.platform, d.language, d.statement, d.extensions))
  }

  /**
   * A request actor stored and read back keeps every field; its objectType
   * comes back as given when it names an ActorType, as "Agent" otherwise.
   */
  lemma ActorRoundTrip(dto: Option<ActorDto>)
    ensures MapActorToResponse(MapActor(dto)) == EchoActor(dto)
  {
    if dto.Some? && dto.value.objectType.Some? {
      var s := dto.value.objectType.value;
      assert s in ActorTypeNames ==> ActorTypeName(ParseActorType(s)) == s;
    }
  }

  /** The same for the object: "Activity" replaces an unknown objectType. */
  lemma ActivityRoundTrip(dto: Option<ActivityDto>)
    ensures MapStatementObjectToResponse(MapActivity(dto)) == EchoActivity(dto)
  {
    if dto.Some? && dto.value.objectType.Some? {
      var s := dto.value.objectType.value;
      assert s in ObjectTypeNames ==> ObjectTypeName(ParseObjectType(s)) == s;
    }
  }

  lemma ResultRoundTrip(dto: Option<ResultDto>)
    ensures MapResultToResponse(MapResult(dto)) == EchoResult(dto)
  {
  }

  function EchoVerb(dto: Option<VerbDto>): Option<VerbResponse> {
    if dto.None? then None else Some(VerbResponse(dto.value.id, dto.value.display))
  }

  lemma VerbRoundTrip(dto: Option<VerbDto>)
    ensures MapVerbToResponse(MapVerb(dto)) == EchoVerb(dto)
  {
  }

  lemma ActivitiesRoundTrip(xs: seq<Option<ActivityDto>>)
    ensures MapObjectsToResponse(MapActivities(xs)) == EchoActivities(xs)
  {
    forall i | 0 <= i < |xs| ensures MapObjectsToResponse(MapActivities(xs))[i] == EchoActivities(xs)[i] {
      ActivityRoundTrip(xs[i]);
    }
  }

  /** A request context read back keeps its context-activities keys and lists, entry by entry. */
  lemma ContextRoundTrip(dto: Option<ContextDto>)
    ensures MapContextToResponse(MapContext(dto)) == EchoContext(dto)
  {
    if dto.Some? && dto.value.contextActivities.Some? {
      var ca := dto.value.contextActivities.value;
      var back := MapContextToResponse(MapContext(dto)).value.contextActivities.value;
      forall k | k in ca ensures back[k] == EchoActivities(ca[k]) {
        ActivitiesRoundTrip(ca[k]);
      }
      assert back == map k | k in ca :: EchoActivities(ca[k]);
    }
  }

  // ---- createStatement ----

  /**
   * The statement createStatement builds: the request's parts mapped, the
   * first clock reading as timestamp and the second as stored, no id yet.
   */
  function AssembleStatement(request: StatementRequest, firstClock: DateTime, secondClock: DateTime): (s: Statement)
    ensures s.id.None? && s.authority.None? && s.version.None? && s.attachments.None?
    ensures s.timestamp == Some(firstClock) && s.stored == Some(secondClock)
    ensures s.actor.Some? <==> request.actor.Some?
    ensures s.verb.Some? <==> request.verb.Some?
    ensures s.statementObject.Some? <==> request.statementObject.Some?
    ensures s.result.Some? <==> request.result.Some?
    ensures s.context.Some? <==> request.context.Some?
  {
    Statement(
      id := None,
      actor := MapActor(request.actor),
      verb := MapVerb(request.verb),
      statementObject := MapActivity(request.statementObject),
      timestamp := Some(firstClock),
      stored := Some(secondClock),
      authority := None,
      version := None,
      attachments := None,
      result := MapResult(request.result),
      context := MapContext(request.context))
  }

  /** statementRepository.save: the store gives the statement its id. */
  function Save(s: Statement, storedId: string): (saved: Statement)
    ensures saved.id == Some(storedId)
    ensures saved.(id := s.id) == s
  {
    s.(id := Some(storedId))
  }

  /**
   * createStatement: the response carries the store's id, the two clock
   * readings, and the request's parts exactly as they read back.
   */
  function CreateStatement(request: StatementRequest, firstClock: DateTime, secondClock: DateTime, storedId: string)
    : (r: StatementResponse)
    ensures r.id == Some(storedId)
    ensures r.timestamp == Some(firstClock) && r.stored == Some(secondClock)
    ensures r.actor == EchoActor(request.actor)
    ensures r.statementObject == EchoActivity(request.statementObject)
    ensures r.result == EchoResult(request.result)
    ensures r.context == EchoContext(request.context)
    ensures r.verb == EchoVerb(request.verb)
    ensures r.authority.None? && r.version.None? && r.attachments.None?
  {
    ActorRoundTrip(request.actor);
    ActivityRoundTrip(request.statementObject);
    ResultRoundTrip(request.result);
    VerbRoundTrip(request.verb);
    ContextRoundTrip(request.context);
    MapToResponse(Some(Save(AssembleStatement(request, firstClock, secondClock), storedId))).value
  }

  /** When the clock does not run backwards, a new statement is never stored before its timestamp. */
  lemma TimestampNotAfterStored(request: StatementRequest, firstClock: DateTime, secondClock: DateTime, storedId: string)
    requires firstClock.NotAfter(secondClock)
    ensures var r := CreateStatement(request, firstClock, secondClock, storedId);
            r.timestamp.value.NotAfter(r.stored.value)
  {
  }
}
