/**
 * The stored xAPI statement (the `model` package): actor, verb and object,
 * plus the optional result and context of Part Two, section 2.4 of the
 * Experience API 1.0.3 specification. Every Java reference field may be null
 * and is an `Option` here.
 */
module Model {
  import opened Wrappers

  /**
   * A `LocalDateTime`: the day (a `LocalDate`, counted in days from an
   * arbitrary epoch) and the nanosecond within that day.
   */
  datatype DateTime = DateTime(date: int, nanoOfDay: nat) {
    /** LocalDateTime.compareTo(other) <= 0: by date, then by time of day. */
    predicate NotAfter(other: DateTime) {
      date < other.date || (date == other.date && nanoOfDay <= other.nanoOfDay)
    }
  }

  /**
   * A JSON-like `Object` held in extension maps, metadata and attachments. The
   * model only ever copies these values.
   */
  datatype Value = Text(text: string) | Number(number: real) | Flag(flag: bool) | Items(items: seq<Value>)

  /** A language map such as {"en-US": "completed"}. */
  type LanguageMap = map<string, string>

  /** A JSON object keyed by IRI. */
  type Extensions = map<string, Value>

  datatype ActorType = Agent | Group

  datatype ObjectType = Activity | Agent | Group | SubStatement | StatementRef

  datatype Account = Account(name: Option<string>, homePage: Option<string>)

  datatype Actor = Actor(
    id: Option<string>,
    name: Option<string>,
    mbox: Option<string>,
    mboxSha1sum: Option<string>,
    openId: Option<string>,
    account: Option<Account>,
    objectType: Option<ActorType>)

  datatype Verb = Verb(id: Option<string>, display: Option<LanguageMap>)

  datatype Definition = Definition(
    name: Option<LanguageMap>,
    description: Option<LanguageMap>,
    typeIri: Option<string>,
    moreInfo: Option<string>,
    extensions: Option<Extensions>)

  datatype StatementObject = StatementObject(
    id: Option<string>,
    objectType: Option<ObjectType>,
    definition: Option<Definition>)

  /** The score's four numbers; Java `Float`s, modelled as reals. */
  datatype Score = Score(scaled: Option<real>, raw: Option<real>, min: Option<real>, max: Option<real>)

  datatype Result = Result(
    score: Option<Score>,
    success: Option<bool>,
    completion: Option<bool>,
    response: Option<string>,
    duration: Option<string>,
    extensions: Option<Extensions>)

  /** Each context-activities list may hold null entries, which stay null. */
  datatype Context = Context(
    registration: Option<string>,
    instructorId: Option<string>,
    teamId: Option<string>,
    contextActivities: Option<map<string, seq<Option<StatementObject>>>>,
    revision: Option<string>,
    platform: Option<string>,
    language: Option<string>,
    statement: Option<string>,
    extensions: Option<Extensions>)

  datatype Statement = Statement(
    id: Option<string>,
    actor: Option<Actor>,
    verb: Option<Verb>,
    statementObject: Option<StatementObject>,
    timestamp: Option<DateTime>,
    stored: Option<DateTime>,
    authority: Option<Actor>,
    version: Option<string>,
    attachments: Option<seq<Value>>,
    result: Option<Result>,
    context: Option<Context>)
}
