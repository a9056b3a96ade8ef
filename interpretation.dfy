/**
 * InterpretationService: turns a simplified learning event into an xAPI
 * statement request, filling in defaults for everything the event leaves out.
 */
module Interpretation {
  import opened Wrappers
  import opened Strings
  import opened Durations
  import opened Model
  import opened Dtos

  const BaseVerbUri: string := "http://adlnet.gov/expapi/verbs/"
  const BaseActivityUri: string := "http://example.com/activities/"
  const BaseActivityTypeUri: string := "http://adlnet.gov/expapi/activities/"
  const BaseExtensionUri: string := "http://example.com/extensions/"

  /** The two UUIDs `UUID.randomUUID()` supplies while one event is interpreted. */
  datatype FreshIds = FreshIds(actorId: string, activityId: string)

  // ---- Validation ----

  predicate NamesLearner(e: SimplifiedLearningEvent) {
    e.learnerName.Some? || e.learnerId.Some?
  }

  predicate HasAction(e: SimplifiedLearningEvent) {
    e.action.Some? && !IsBlank(e.action.value)
  }

  predicate NamesActivity(e: SimplifiedLearningEvent) {
    e.activityName.Some? || e.activityId.Some?
  }

  /**
   * validateLearningEvent: an event is accepted exactly when it is present,
   * names its learner, has an action with a non-blank character, and names
   * its activity.
   */
  function ValidateLearningEvent(event: Option<SimplifiedLearningEvent>): (ok: bool)
    ensures ok <==> event.Some? && NamesLearner(event.value) && HasAction(event.value) && NamesActivity(event.value)
  {
    if event.None? then false
    else
      var e := event.value;
      if e.learnerName.None? && e.learnerId.None? then false
      else if e.action.None? || (TrimEmptyIffBlank(e.action.value); Trim(e.action.value) == []) then false
      else if e.activityName.None? && e.activityId.None? then false
      else true
  }

  // ---- Actor ----

  /**
   * buildActor: the learner's id, or a fresh one; a mailto IRI exactly when an
   * email is given; always an Agent.
   */
  function BuildActor(e: SimplifiedLearningEvent, ids: FreshIds): (a: ActorDto)
    ensures a.id == Some(if e.learnerId.Some? then e.learnerId.value else ids.actorId)
    ensures a.name == e.learnerName
    ensures a.mbox.Some? <==> e.learnerEmail.Some?
    ensures a.mbox.Some? ==> StartsWith(a.mbox.value, "mailto:") && a.mbox.value[7..] == e.learnerEmail.value
    ensures a.objectType == Some("Agent")
    ensures a.mboxSha1sum.None? && a.openId.None? && a.account.None?
  {
    ActorDto(
      id := Some(e.learnerId.GetOr(ids.actorId)),
      name := e.learnerName,
      mbox := if e.learnerEmail.Some? then Some("mailto:" + e.learnerEmail.value) else None,
      mboxSha1sum := None,
      openId := None,
      account := None,
      objectType := Some("Agent"))
  }

  // ---- Verb ----

  /**
   * The verb-synonym table: each recognised lower-case action word, the last
   * segment of its ADL verb IRI, and its en-US display word.
   */
  const Synonyms: map<string, (string, string)> := map[
    "completed" := ("completed", "completed"),
    "finished" := ("completed", "completed"),
    "started" := ("initialized", "started"),
    "began" := ("initialized", "started"),
    "initiated" := ("initialized", "started"),
    "passed" := ("passed", "passed"),
    "failed" := ("failed", "failed"),
    "viewed" := ("viewed", "viewed"),
    "watched" := ("viewed", "viewed"),
    "attempted" := ("attempted", "attempted"),
    "answered" := ("answered", "answered"),
    "scored" := ("scored", "scored")]

  /**
   * The verb an action stands for: the table entry of the lower-cased action,
   * or else the lower-cased action itself under the ADL verb namespace.
   */
  function VerbFor(action: string): VerbDto {
    var word := ToLower(action);
    if word in Synonyms then
      VerbDto(Some(BaseVerbUri + Synonyms[word].0), Some(map["en-US" := Synonyms[word].1]))
    else
      VerbDto(Some(BaseVerbUri + word), Some(map["en-US" := word]))
  }

  /** buildVerb: the switch over the lower-cased action, filling a display map. */
  method BuildVerb(action: string) returns (verb: VerbDto)
    ensures verb == VerbFor(action)
  {
    var display: LanguageMap := map[];
    var verbId: string;
    var word := ToLower(action);
    if word == "completed" || word == "finished" {
      verbId := BaseVerbUri + "completed";
      display := display["en-US" := "completed"];
    } else if word == "started" || word == "began" || word == "initiated" {
      verbId := BaseVerbUri + "initialized";
      display := display["en-US" := "started"];
    } else if word == "passed" {
      verbId := BaseVerbUri + "passed";
      display := display["en-US" := "passed"];
    } else if word == "failed" {
      verbId := BaseVerbUri + "failed";
      display := display["en-US" := "failed"];
    } else if word == "viewed" || word == "watched" {
      verbId := BaseVerbUri + "viewed";
      display := display["en-US" := "viewed"];
    } else if word == "attempted" {
      verbId := BaseVerbUri + "attempted";
      display := display["en-US" := "attempted"];
    } else if word == "answered" {
      verbId := BaseVerbUri + "answered";
      display := display["en-US" := "answered"];
    } else if word == "scored" {
      verbId := BaseVerbUri + "scored";
      display := display["en-US" := "scored"];
    } else {
      verbId := BaseVerbUri + ToLower(action);
      display := display["en-US" := ToLower(action)];
    }
    verb := VerbDto(Some(verbId), Some(display));
  }

  /**
   * Every verb, known or not, has an id in the ADL verb namespace and a
   * display map with the single key "en-US".
   */
  lemma VerbShape(action: string)
    ensures VerbFor(action).id.Some? && StartsWith(VerbFor(action).id.value, BaseVerbUri)
    ensures VerbFor(action).display.Some? && VerbFor(action).display.value.Keys == {"en-US"}
  {
  }

  /** The mapping ignores case: an action and its lower-cased form give the same verb. */
  lemma VerbIgnoresCase(action: string)
    ensures VerbFor(ToLower(action)) == VerbFor(action)
  {
    ToLowerIsLower(action);
  }

  /** The synonym classes: several action words share one verb. */
  lemma VerbSynonyms(action: string)
    ensures ToLower(action) in {"completed", "finished"} ==>
      VerbFor(action) == VerbDto(Some(BaseVerbUri + "completed"), Some(map["en-US" := "completed"]))
    ensures ToLower(action) in {"started", "began", "initiated"} ==>
      VerbFor(action) == VerbDto(Some(BaseVerbUri + "initialized"), Some(map["en-US" := "started"]))
    ensures ToLower(action) in {"viewed", "watched"} ==>
      VerbFor(action) == VerbDto(Some(BaseVerbUri + "viewed"), Some(map["en-US" := "viewed"]))
    ensures ToLower(action) in {"passed", "failed", "attempted", "answered", "scored"} ==>
      VerbFor(action) == VerbDto(Some(BaseVerbUri + ToLower(action)), Some(map["en-US" := ToLower(action)]))
  {
  }

  /**
   * An action outside the table is kept, lower-cased and untrimmed, as the
   * last segment of the verb id and as the display word.
   */
  lemma VerbFallback(action: string)
    requires ToLower(action) !in Synonyms
    ensures VerbFor(action).id == Some(BaseVerbUri + ToLower(action))
    ensures VerbFor(action).display == Some(map["en-US" := ToLower(action)])
  {
  }

  // ---- Activity ----

  /**
   * buildActivity: the event's activity id or a fresh IRI, an en-US name
   * defaulting to "Learning Activity", a type IRI defaulting to a course.
   */
  function BuildActivity(e: SimplifiedLearningEvent, ids: FreshIds): (a: ActivityDto)
    ensures a.id == Some(if e.activityId.Some? then e.activityId.value else BaseActivityUri + ids.activityId)
    ensures a.objectType == Some("Activity")
    ensures a.definition.Some?
    ensures a.definition.value.name == Some(map["en-US" := e.activityName.GetOr("Learning Activity")])
    ensures a.definition.value.typeIri == Some(BaseActivityTypeUri + e.activityType.GetOr("course"))
    ensures a.definition.value.description.None? && a.definition.value.moreInfo.None?
    ensures a.definition.value.extensions.None?
  {
    var activityId := if e.activityId.Some? then e.activityId.value else BaseActivityUri + ids.activityId;
    var name := map["en-US" := if e.activityName.Some? then e.activityName.value else "Learning Activity"];
    var activityType := if e.activityType.Some? then BaseActivityTypeUri + e.activityType.value
                        else BaseActivityTypeUri + "course";
    var definition := ActivityDefinitionDto(Some(name), None, Some(activityType), None, None);
    ActivityDto(Some(activityId), Some("Activity"), Some(definition))
  }

  // ---- Duration ----

  /**
   * normalizeDuration: an absent duration stays absent, one already starting
   * with "P" is kept, a whole number of seconds becomes Duration.toString of
   * it, and anything else passes through unchanged.
   */
  function NormalizeDuration(duration: Option<string>): (r: Option<string>)
    ensures r.None? <==> duration.None?
    ensures r.Some? ==> StartsWith(r.value, "P") || r == duration
    ensures duration.Some? && StartsWith(duration.value, "P") ==> r == duration
    ensures duration.Some? && !StartsWith(duration.value, "P") && ParseLong(duration.value).None? ==> r == duration
    ensures duration.Some? && !StartsWith(duration.value, "P") && ParseLong(duration.value).Some? ==>
      r == Some(DurationString(ParseLong(duration.value).value)) &&
      IsoSeconds(r.value) == Some(ParseLong(duration.value).value)
  {
    if duration.None? then None
    else
      var d := duration.value;
      if StartsWith(d, "PT") || StartsWith(d, "P") then duration
      else
        match ParseLong(d)
        case Some(seconds) =>
          DurationStringStartsWithPT(seconds);
          DurationStringDenotes(seconds);
          Some(DurationString(seconds))
        case None => duration
  }

  /** Normalizing twice changes nothing more. */
  lemma NormalizeDurationIdempotent(duration: Option<string>)
    ensures NormalizeDuration(NormalizeDuration(duration)) == NormalizeDuration(duration)
  {
    if duration.Some? && !StartsWith(duration.value, "P") && ParseLong(duration.value).Some? {
      DurationStringStartsWithPT(ParseLong(duration.value).value);
    }
  }

  /**
   * A count of seconds written as a long becomes the ISO 8601 duration that
   * denotes exactly that many seconds.
   */
  lemma NormalizeSeconds(seconds: int)
    requires LongMin <= seconds <= LongMax
    ensures NormalizeDuration(Some(IntToDecimal(seconds))) == Some(DurationString(seconds))
    ensures IsoSeconds(NormalizeDuration(Some(IntToDecimal(seconds))).value) == Some(seconds)
  {
    ParseLongOfDecimal(seconds);
    DurationStringDenotes(seconds);
    var s := IntToDecimal(seconds);
    assert s[0] == '-' || IsDigit(s[0]);
  }

  lemma NormalizeMinutesExample()
    ensures NormalizeDuration(Some("150")) == Some("PT2M30S")
  {
    DecimalOf150();
    ExampleMinutesAndSeconds();
    NormalizePrinted("150", 150, "PT2M30S");
  }

  /** A number printed as a long normalizes to what Duration.toString prints for it. */
  lemma NormalizePrinted(text: string, seconds: int, printed: string)
    requires LongMin <= seconds <= LongMax
    requires text == IntToDecimal(seconds) && printed == DurationString(seconds)
    ensures NormalizeDuration(Some(text)) == Some(printed)
  {
    NormalizeSeconds(seconds);
  }

  lemma DecimalOf150()
    ensures IntToDecimal(150) == "150"
  {
    assert NatToDecimal(1) == "1";
    assert NatToDecimal(15) == "15";
  }

  lemma DecimalOf5400()
    ensures IntToDecimal(5400) == "5400"
  {
    assert NatToDecimal(5) == "5";
    assert NatToDecimal(54) == "54";
    assert NatToDecimal(540) == "540";
  }

  lemma NormalizeHoursExample()
    ensures NormalizeDuration(Some("5400")) == Some("PT1H30M")
  {
    DecimalOf5400();
    ExampleHoursAndMinutes();
    NormalizePrinted("5400", 5400, "PT1H30M");
  }

  lemma NormalizeZeroExample()
    ensures NormalizeDuration(Some("0")) == Some("PT0S")
  {
    NormalizeSeconds(0);
    assert IntToDecimal(0) == "0";
  }

  /** Text that is neither ISO 8601 nor a number passes through. */
  lemma NormalizeTextExample()
    ensures NormalizeDuration(Some("PT1H30M")) == Some("PT1H30M")
    ensures NormalizeDuration(Some("90 minutes")) == Some("90 minutes")
  {
    assert !IsDigit(' ');
    assert ParseLong("90 minutes") == None;
  }

  // ---- Result ----

  /**
   * buildResult: no result unless the event carries a score, a pass flag, a
   * completion flag or a duration; a 0-100 score becomes a scaled score.
   */
  function BuildResult(e: SimplifiedLearningEvent): (r: Option<ResultDto>)
    ensures r.None? <==> e.score.None? && e.passed.None? && e.completed.None? && e.duration.None?
    ensures r.Some? ==> r.value.success == e.passed && r.value.completion == e.completed
    ensures r.Some? ==> r.value.duration == NormalizeDuration(e.duration)
    ensures r.Some? ==> (r.value.score.Some? <==> e.score.Some?)
    ensures r.Some? && r.value.score.Some? ==>
      var s := r.value.score.value;
      s.raw == e.score && s.min == Some(0.0) && s.max == Some(100.0) &&
      s.scaled.Some? && s.scaled.value * 100.0 == e.score.value
    ensures r.Some? ==> r.value.response.None? && r.value.extensions.None?
  {
    if e.score.None? && e.passed.None? && e.completed.None? && e.duration.None? then None
    else
      var score := if e.score.Some? then
        Some(ScoreDto(Some(e.score.value / 100.0), Some(e.score.value), Some(0.0), Some(100.0)))
      else None;
      Some(ResultDto(score, e.passed, e.completed, None, NormalizeDuration(e.duration), None))
  }

  /** A score on the 0-100 scale gives a scaled score between 0 and 1. */
  lemma ScaledScoreInUnitRange(e: SimplifiedLearningEvent)
    requires e.score.Some? && 0.0 <= e.score.value <= 100.0
    ensures BuildResult(e).Some? && BuildResult(e).value.score.Some?
    ensures 0.0 <= BuildResult(e).value.score.value.scaled.value <= 1.0
  {
  }

  // ---- Context ----

  function ExtensionKey(key: string): string {
    BaseExtensionUri + key
  }

  lemma ExtensionKeyInjective()
    ensures forall a, b :: ExtensionKey(a) == ExtensionKey(b) ==> a == b
  {
    forall a, b | ExtensionKey(a) == ExtensionKey(b) ensures a == b {
      assert a == ExtensionKey(a)[|BaseExtensionUri|..];
      assert b == ExtensionKey(b)[|BaseExtensionUri|..];
    }
  }

  /** The metadata, each key moved into the extension namespace. */
  function Namespaced(metadata: Extensions): (ext: Extensions)
    ensures forall k :: k in metadata ==> ExtensionKey(k) in ext && ext[ExtensionKey(k)] == metadata[k]
    ensures forall key :: key in ext ==> StartsWith(key, BaseExtensionUri) && key[|BaseExtensionUri|..] in metadata
    ensures |ext| == 0 <==> |metadata| == 0
  {
    ExtensionKeyInjective();
    var ext := map k | k in metadata :: ExtensionKey(k) := metadata[k];
    assert forall key :: key in ext ==> key[|BaseExtensionUri|..] in metadata;
    assert |metadata| != 0 ==> |ext| != 0 by {
      if |metadata| != 0 {
        var k :| k in metadata;
        assert ExtensionKey(k) in ext;
      }
    }
    ext
  }

  /**
   * The context an event gets: the session as registration, the platform and
   * instructor copied, the metadata as extensions with the session id written
   * last, and no extensions at all when that leaves the map empty.
   */
  function ContextFor(e: SimplifiedLearningEvent): ContextDto {
    var fromMetadata := if e.metadata.Some? then Namespaced(e.metadata.value) else map[];
    var extensions := if e.sessionId.Some? then fromMetadata[ExtensionKey("sessionId") := Text(e.sessionId.value)]
                      else fromMetadata;
    ContextDto(
      registration := e.sessionId,
      instructorId := e.instructorId,
      teamId := None,
      contextActivities := None,
      revision := None,
      platform := e.platform,
      language := None,
      statement := None,
      extensions := if |extensions| == 0 then None else Some(extensions))
  }

  /**
   * The `forEach` at the start of buildContext: each metadata entry is put
   * under its namespaced key.
   */
  method CopyMetadata(metadata: Extensions) returns (extensions: Extensions)
    ensures extensions == Namespaced(metadata)
  {
    extensions := map[];
    var remaining := metadata.Keys;
    ghost var done: set<string> := {};
    while remaining != {}
      invariant remaining + done == metadata.Keys && remaining !! done
      invariant forall k :: k in done ==> ExtensionKey(k) in extensions && extensions[ExtensionKey(k)] == metadata[k]
      invariant forall key :: key in extensions ==> StartsWith(key, BaseExtensionUri) && key[|BaseExtensionUri|..] in done
      decreases remaining
    {
      var k :| k in remaining;
      assert ExtensionKey(k)[|BaseExtensionUri|..] == k;
      extensions := extensions[ExtensionKey(k) := metadata[k]];
      remaining := remaining - {k};
      done := done + {k};
    }
    SameExtensions(extensions, metadata);
  }

  /** buildContext: copies the metadata entry by entry, then writes the session id. */
  method BuildContext(e: SimplifiedLearningEvent) returns (context: ContextDto)
    ensures context == ContextFor(e)
  {
    var extensions: Extensions := map[];
    if e.metadata.Some? {
      extensions := CopyMetadata(e.metadata.value);
    }
    if e.sessionId.Some? {
      extensions := extensions[ExtensionKey("sessionId") := Text(e.sessionId.value)];
    }
    context := ContextDto(
      registration := e.sessionId,
      instructorId := e.instructorId,
      teamId := None,
      contextActivities := None,
      revision := None,
      platform := e.platform,
      language := None,
      statement := None,
      extensions := if |extensions| == 0 then None else Some(extensions));
  }

  lemma SameExtensions(ext: Extensions, metadata: Extensions)
    requires forall k :: k in metadata ==> ExtensionKey(k) in ext && ext[ExtensionKey(k)] == metadata[k]
    requires forall key :: key in ext ==> StartsWith(key, BaseExtensionUri) && key[|BaseExtensionUri|..] in metadata
    ensures ext == Namespaced(metadata)
  {
    var n := Namespaced(metadata);
    forall key | key in ext ensures key in n && n[key] == ext[key] {
      var k := key[|BaseExtensionUri|..];
      assert key == ExtensionKey(k);
    }
    forall key | key in n ensures key in ext {
      var k := key[|BaseExtensionUri|..];
      assert key == ExtensionKey(k);
    }
  }

  /**
   * The session id, when given, is the extension under "sessionId", whatever
   * the metadata held under that key; every other metadata entry is kept.
   */
  lemma ContextExtensions(e: SimplifiedLearningEvent)
    ensures e.sessionId.Some? ==>
      ContextFor(e).extensions.Some? &&
      ContextFor(e).extensions.value[ExtensionKey("sessionId")] == Text(e.sessionId.value)
    ensures forall k :: e.metadata.Some? && k in e.metadata.value && (e.sessionId.None? || k != "sessionId") ==>
      ContextFor(e).extensions.Some? &&
      ExtensionKey(k) in ContextFor(e).extensions.value &&
      ContextFor(e).extensions.value[ExtensionKey(k)] == e.metadata.value[k]
    ensures ContextFor(e).extensions.None? <==>
      e.sessionId.None? && (e.metadata.None? || |e.metadata.value| == 0)
  {
    if e.sessionId.Some? {
      ContextSessionId(e);
    }
    forall k | e.metadata.Some? && k in e.metadata.value && (e.sessionId.None? || k != "sessionId")
      ensures ContextFor(e).extensions.Some? &&
        ExtensionKey(k) in ContextFor(e).extensions.value &&
        ContextFor(e).extensions.value[ExtensionKey(k)] == e.metadata.value[k]
    {
      ContextMetadataEntry(e, k);
    }
    ContextNoExtensions(e);
  }

  lemma ContextSessionId(e: SimplifiedLearningEvent)
    requires e.sessionId.Some?
    ensures ContextFor(e).extensions.Some?
    ensures ContextFor(e).extensions.value[ExtensionKey("sessionId")] == Text(e.sessionId.value)
  {
    var fromMetadata := if e.metadata.Some? then Namespaced(e.metadata.value) else map[];
    var ext := fromMetadata[ExtensionKey("sessionId") := Text(e.sessionId.value)];
    assert ExtensionKey("sessionId") in ext;
  }

  lemma ContextMetadataEntry(e: SimplifiedLearningEvent, k: string)
    requires e.metadata.Some? && k in e.metadata.value && (e.sessionId.None? || k != "sessionId")
    ensures ContextFor(e).extensions.Some?
    ensures ExtensionKey(k) in ContextFor(e).extensions.value
    ensures ContextFor(e).extensions.value[ExtensionKey(k)] == e.metadata.value[k]
  {
    ExtensionKeyInjective();
    var fromMetadata := Namespaced(e.metadata.value);
    assert ExtensionKey(k) in fromMetadata;
  }

  lemma ContextNoExtensions(e: SimplifiedLearningEvent)
    ensures ContextFor(e).extensions.None? <==>
      e.sessionId.None? && (e.metadata.None? || |e.metadata.value| == 0)
  {
    if e.sessionId.Some? {
      ContextSessionId(e);
    }
  }

  // ---- The whole event ----

  /** interpretLearningEvent as a value: the five parts built from one event. */
  function Interpret(e: SimplifiedLearningEvent, ids: FreshIds): (request: StatementRequest)
    requires e.action.Some?
    ensures request.actor.Some? && request.verb.Some? && request.statementObject.Some? && request.context.Some?
  {
    StatementRequest(
      actor := Some(BuildActor(e, ids)),
      verb := Some(VerbFor(e.action.value)),
      statementObject := Some(BuildActivity(e, ids)),
      context := Some(ContextFor(e)),
      result := BuildResult(e))
  }

  /** interpretLearningEvent; a missing action makes buildVerb throw, so the action is required. */
  method InterpretLearningEvent(e: SimplifiedLearningEvent, ids: FreshIds) returns (request: StatementRequest)
    requires e.action.Some?
    ensures request == Interpret(e, ids)
  {
    var actor := BuildActor(e, ids);
    var verb := BuildVerb(e.action.value);
    var activity := BuildActivity(e, ids);
    var result := BuildResult(e);
    var context := BuildContext(e);
    request := StatementRequest(Some(actor), Some(verb), Some(activity), Some(context), result);
  }

  /**
   * The parts of the request are those the builders make from the event: the
   * actor, the synonym-table verb of its action, the activity, the result and
   * the context.
   */
  lemma InterpretParts(e: SimplifiedLearningEvent, ids: FreshIds)
    requires e.action.Some?
    ensures var request := Interpret(e, ids);
      request.actor == Some(BuildActor(e, ids)) && request.verb == Some(VerbFor(e.action.value)) &&
      request.statementObject == Some(BuildActivity(e, ids)) &&
      request.result == BuildResult(e) && request.context == Some(ContextFor(e))
  {
  }

  /** The course id and name of an event are never read. */
  lemma InterpretIgnoresCourse(e: SimplifiedLearningEvent, ids: FreshIds, courseId: Option<string>, courseName: Option<string>)
    requires e.action.Some?
    ensures Interpret(e.(courseId := courseId, courseName := courseName), ids) == Interpret(e, ids)
  {
    var e' := e.(courseId := courseId, courseName := courseName);
    assert BuildActor(e', ids) == BuildActor(e, ids);
    assert BuildActivity(e', ids) == BuildActivity(e, ids);
    assert BuildResult(e') == BuildResult(e);
    assert ContextFor(e') == ContextFor(e);
  }

  /** Every event that passes validation can be interpreted. */
  lemma ValidEventsInterpret(e: SimplifiedLearningEvent)
    requires ValidateLearningEvent(Some(e))
    ensures e.action.Some? && Trim(e.action.value) != []
  {
    TrimEmptyIffBlank(e.action.value);
  }
}
