/**
 * InterpretationController: a single learning event is validated, interpreted,
 * created and published, in that order; a batch runs the same steps for each
 * event, counting successes and failures, and keeps going after a failure.
 *
 * The collaborators are not modelled: what the store and the publisher do for
 * one event (the clock readings and id the store assigns, or the exception
 * either of them throws) is an input.
 */
module InterpretationController {
  import opened Wrappers
  import opened Model
  import opened Dtos
  import opened Interpretation
  import opened StatementService
  import opened Strings

  /** An exception, with what its `getMessage()` returns (which may be null). */
  datatype Failure = Failure(message: Option<string>)

  /** What the outside world does while one event is processed. */
  datatype Collaborators = Collaborators(
    ids: FreshIds,              // the UUIDs interpretation draws
    firstClock: DateTime,       // `now()` read for the statement's timestamp
    secondClock: DateTime,      // `now()` read for its stored time
    storedId: string,           // the id the repository assigns
    create: Option<Failure>,    // createStatement threw
    publish: Option<Failure>,   // publishStatementCreated threw
    responseClock: DateTime)    // `now()` read for the interpretation response

  /** String concatenation of a message that may be null. */
  function MessageText(message: Option<string>): string {
    if message.Some? then message.value else "null"
  }

  /** The exception that ends an accepted event's processing, if any: create first, then publish. */
  function Thrown(env: Collaborators): Option<Failure> {
    if env.create.Some? then env.create else env.publish
  }

  // ---- Single event ----

  /**
   * The `ApiResponse` of a single submission: a bad request with its error
   * text, a created statement with the success text and the interpretation
   * response, or a server error with the exception's text.
   */
  datatype SubmitReply =
    | BadRequest(error: string)
    | Created(message: string, body: InterpretationResponse)
    | ServerError(error: string)

  /**
   * submitLearningEvent. The event is validated first; a rejected event is
   * neither interpreted nor created. An accepted one is interpreted, created
   * and published in that order, and an exception from create or publish
   * becomes a server error. The log line before the try reads the event's
   * fields, so the event is present.
   */
  method SubmitLearningEvent(event: SimplifiedLearningEvent, env: Collaborators)
    returns (reply: SubmitReply, created: seq<StatementRequest>, published: seq<StatementResponse>)
    ensures reply.BadRequest? <==> !ValidateLearningEvent(Some(event))
    ensures reply.BadRequest? ==>
      reply.error == "Invalid learning event: missing required fields" && created == [] && published == []
    ensures !reply.BadRequest? ==> created == [Interpret(event, env.ids)]
    ensures published == PublishedStep(Some(event), env)
    ensures reply.ServerError? <==> ValidateLearningEvent(Some(event)) && Thrown(env).Some?
    ensures reply.ServerError? ==> reply.error == "Failed to process learning event: " + MessageText(Thrown(env).value.message)
    ensures reply.Created? ==>
      var statement := CreateStatement(Interpret(event, env.ids), env.firstClock, env.secondClock, env.storedId);
      reply.message == "Learning event recorded successfully" &&
      reply.body == InterpretationResponse(true, Some("Learning event processed successfully"),
                                           Some(env.storedId), Some(env.responseClock), Some(statement)) &&
      published == [statement]
  {
    created, published := [], [];
    if !ValidateLearningEvent(Some(event)) {
      reply := BadRequest("Invalid learning event: missing required fields");
      return;
    }
    var request := InterpretLearningEvent(event, env.ids);
    created := [request];
    if env.create.Some? {
      reply := ServerError("Failed to process learning event: " + MessageText(env.create.value.message));
      return;
    }
    var statement := CreateStatement(request, env.firstClock, env.secondClock, env.storedId);
    published := [statement];
    if env.publish.Some? {
      reply := ServerError("Failed to process learning event: " + MessageText(env.publish.value.message));
      return;
    }
    var response := InterpretationResponse(true, Some("Learning event processed successfully"),
                                           statement.id, Some(env.responseClock), Some(statement));
    reply := Created("Learning event recorded successfully", response);
  }

  /**
   * A learner who completed "Intro to Algebra" with 85 points gets a stored
   * statement with the ADL "completed" verb, a scaled score of 0.85 and the
   * activity's name.
   */
  lemma CompletedAlgebraExample(ids: FreshIds, firstClock: DateTime, secondClock: DateTime, storedId: string)
    ensures var e := SimplifiedLearningEvent(None, Some("Ama"), None, Some("completed"), None, Some("Intro to Algebra"),
                                             None, Some(85.0), None, None, None, None, None, None, None, None, None);
      var r := CreateStatement(Interpret(e, ids), firstClock, secondClock, storedId);
      ValidateLearningEvent(Some(e)) &&
      r.verb.Some? && r.verb.value.id == Some("http://adlnet.gov/expapi/verbs/completed") &&
      r.result.Some? && r.result.value.score.Some? && r.result.value.score.value.scaled == Some(0.85) &&
      r.statementObject.Some? && r.statementObject.value.definition.Some? &&
      r.statementObject.value.definition.value.name == Some(map["en-US" := "Intro to Algebra"])
  {
    var e := SimplifiedLearningEvent(None, Some("Ama"), None, Some("completed"), None, Some("Intro to Algebra"),
                                     None, Some(85.0), None, None, None, None, None, None, None, None, None);
    assert !IsTrimmable("completed"[0]);
    assert ToLower("completed") == "completed";
    VerbSynonyms("completed");
    assert BaseVerbUri + "completed" == "http://adlnet.gov/expapi/verbs/completed";
  }

  // ---- Batch ----

  /** The batch entry for one event. */
  function BatchEntry(event: Option<SimplifiedLearningEvent>, env: Collaborators): (r: InterpretationResponse)
    ensures r.success <==> ValidateLearningEvent(event) && env.create.None? && env.publish.None?
    ensures !ValidateLearningEvent(event) ==> r.message == Some("Validation failed")
    ensures ValidateLearningEvent(event) && env.create.Some? ==>
      r.message == Some("Processing error: " + MessageText(env.create.value.message))
    ensures ValidateLearningEvent(event) && env.create.None? && env.publish.Some? ==>
      r.message == Some("Processing error: " + MessageText(env.publish.value.message))
    ensures r.success ==>
      r.message == Some("Success") && r.statementId == Some(env.storedId) && r.timestamp == Some(env.responseClock)
    ensures !r.success ==> r.statementId.None? && r.timestamp.None?
    ensures r.validatedStatement.None?
  {
    if !ValidateLearningEvent(event) then
      InterpretationResponse(false, Some("Validation failed"), None, None, None)
    else if Thrown(env).Some? then
      InterpretationResponse(false, Some("Processing error: " + MessageText(Thrown(env).value.message)), None, None, None)
    else
      var statement := CreateStatement(Interpret(event.value, env.ids), env.firstClock, env.secondClock, env.storedId);
      InterpretationResponse(true, Some("Success"), statement.id, Some(env.responseClock), None)
  }

  function Successes(responses: seq<InterpretationResponse>): (n: nat)
    ensures n <= |responses|
  {
    if responses == [] then 0
    else Successes(responses[..|responses| - 1]) + (if responses[|responses| - 1].success then 1 else 0)
  }

  /** The responses of a batch: one entry per event, in order. */
  function BatchEntries(events: seq<Option<SimplifiedLearningEvent>>, envs: seq<Collaborators>): (responses: seq<InterpretationResponse>)
    requires |envs| == |events|
    ensures |responses| == |events|
    ensures forall i :: 0 <= i < |events| ==> responses[i] == BatchEntry(events[i], envs[i])
  {
    if events == [] then []
    else
      var n := |events| - 1;
      var init, envInit := events[..n], envs[..n];
      assert forall i :: 0 <= i < n ==> init[i] == events[i] && envInit[i] == envs[i];
      BatchEntries(init, envInit) + [BatchEntry(events[n], envs[n])]
  }

  /** The createStatement call one event adds: its interpretation, when it is valid. */
  function CreatedStep(event: Option<SimplifiedLearningEvent>, env: Collaborators): seq<StatementRequest> {
    if ValidateLearningEvent(event) then [Interpret(event.value, env.ids)] else []
  }

  /** The publish call one event adds: the stored statement, when it was created without an exception. */
  function PublishedStep(event: Option<SimplifiedLearningEvent>, env: Collaborators): seq<StatementResponse> {
    if ValidateLearningEvent(event) && env.create.None?
    then [CreateStatement(Interpret(event.value, env.ids), env.firstClock, env.secondClock, env.storedId)]
    else []
  }

  /** The requests handed to createStatement: the interpretations of the valid events, in order. */
  function CreatedFor(events: seq<Option<SimplifiedLearningEvent>>, envs: seq<Collaborators>): (created: seq<StatementRequest>)
    requires |envs| == |events|
    ensures |created| <= |events|
  {
    if events == [] then []
    else
      var n := |events| - 1;
      CreatedFor(events[..n], envs[..n]) + CreatedStep(events[n], envs[n])
  }

  /** The positions of the events that pass validation, ascending. */
  function ValidPositions(events: seq<Option<SimplifiedLearningEvent>>): (ps: seq<nat>)
    ensures forall k :: 0 <= k < |ps| ==> ps[k] < |events| && ValidateLearningEvent(events[ps[k]])
    ensures forall k, l :: 0 <= k < l < |ps| ==> ps[k] < ps[l]
    ensures forall i :: 0 <= i < |events| && ValidateLearningEvent(events[i]) ==> i in ps
  {
    if events == [] then []
    else
      var n := |events| - 1;
      var init := events[..n];
      assert forall i :: 0 <= i < n ==> init[i] == events[i];
      ValidPositions(init) + (if ValidateLearningEvent(events[n]) then [n] else [])
  }

  /**
   * Over any batch, the create calls are the interpretations of the valid
   * events, one per valid event and in input order.
   */
  lemma {:induction false} CreatedInOrder(events: seq<Option<SimplifiedLearningEvent>>, envs: seq<Collaborators>)
    requires |envs| == |events|
    ensures |CreatedFor(events, envs)| == |ValidPositions(events)|
    ensures forall k :: 0 <= k < |ValidPositions(events)| ==>
      var p := ValidPositions(events)[k];
      CreatedFor(events, envs)[k] == Interpret(events[p].value, envs[p].ids)
  {
    if events != [] {
      var n := |events| - 1;
      var prefix, envPrefix := events[..n], envs[..n];
      CreatedInOrder(prefix, envPrefix);
      var ps, created := ValidPositions(prefix), CreatedFor(prefix, envPrefix);
      CreatedStepSize(events[n], envs[n]);
      var all, positions := CreatedFor(events, envs), ValidPositions(events);
      assert all == created + CreatedStep(events[n], envs[n]);
      assert positions == ps + (if ValidateLearningEvent(events[n]) then [n] else []);
      forall k | 0 <= k < |positions|
        ensures all[k] == Interpret(events[positions[k]].value, envs[positions[k]].ids)
      {
        if k < |ps| {
          assert prefix[ps[k]] == events[ps[k]] && envPrefix[ps[k]] == envs[ps[k]];
        }
      }
    }
  }

  /** An event that fails validation adds no create call. */
  lemma {:induction false} CreatedOnlyValid(events: seq<Option<SimplifiedLearningEvent>>, envs: seq<Collaborators>)
    requires |envs| == |events|
    ensures (forall i :: 0 <= i < |events| ==> !ValidateLearningEvent(events[i])) ==> CreatedFor(events, envs) == []
    ensures (forall i :: 0 <= i < |events| ==> ValidateLearningEvent(events[i])) ==> |CreatedFor(events, envs)| == |events|
  {
    if forall i :: 0 <= i < |events| ==> !ValidateLearningEvent(events[i]) {
      NoneCreated(events, envs);
    }
    if forall i :: 0 <= i < |events| ==> ValidateLearningEvent(events[i]) {
      AllCreated(events, envs);
    }
  }

  lemma {:induction false} NoneCreated(events: seq<Option<SimplifiedLearningEvent>>, envs: seq<Collaborators>)
    requires |envs| == |events|
    requires forall i :: 0 <= i < |events| ==> !ValidateLearningEvent(events[i])
    ensures CreatedFor(events, envs) == []
  {
    if events != [] {
      var n := |events| - 1;
      var prefix := events[..n];
      assert forall i :: 0 <= i < |prefix| ==> prefix[i] == events[i];
      NoneCreated(prefix, envs[..n]);
      CreatedStepSize(events[n], envs[n]);
    }
  }

  lemma {:induction false} AllCreated(events: seq<Option<SimplifiedLearningEvent>>, envs: seq<Collaborators>)
    requires |envs| == |events|
    requires forall i :: 0 <= i < |events| ==> ValidateLearningEvent(events[i])
    ensures |CreatedFor(events, envs)| == |events|
  {
    if events != [] {
      var n := |events| - 1;
      var prefix := events[..n];
      assert forall i :: 0 <= i < |prefix| ==> prefix[i] == events[i];
      AllCreated(prefix, envs[..n]);
      CreatedStepSize(events[n], envs[n]);
    }
  }

  /** One event adds one create call when it is valid and none otherwise. */
  lemma CreatedStepSize(event: Option<SimplifiedLearningEvent>, env: Collaborators)
    ensures |CreatedStep(event, env)| == if ValidateLearningEvent(event) then 1 else 0
  {
  }

  /** The responses handed to the publisher: those of the statements created without an exception. */
  function PublishedFor(events: seq<Option<SimplifiedLearningEvent>>, envs: seq<Collaborators>): (published: seq<StatementResponse>)
    requires |envs| == |events|
  {
    if events == [] then []
    else
      var n := |events| - 1;
      PublishedFor(events[..n], envs[..n]) + PublishedStep(events[n], envs[n])
  }

  /**
   * Publishing follows a successful create and every success was published:
   * successes <= publications <= creations.
   */
  lemma {:induction false} PublishedBetween(events: seq<Option<SimplifiedLearningEvent>>, envs: seq<Collaborators>)
    requires |envs| == |events|
    ensures Successes(BatchEntries(events, envs)) <= |PublishedFor(events, envs)|
    ensures |PublishedFor(events, envs)| <= |CreatedFor(events, envs)|
  {
    if events != [] {
      var n := |events| - 1;
      PublishedBetween(events[..n], envs[..n]);
      SuccessesSnoc(BatchEntries(events[..n], envs[..n]), BatchEntry(events[n], envs[n]));
    }
  }

  /**
   * One pass of the batch loop's body: validate, then interpret, create and
   * publish inside the try, turning a thrown exception into a failure entry.
   */
  method ProcessBatchEvent(event: Option<SimplifiedLearningEvent>, env: Collaborators)
    returns (response: InterpretationResponse, created: seq<StatementRequest>, published: seq<StatementResponse>)
    ensures response == BatchEntry(event, env)
    ensures created == CreatedStep(event, env) && published == PublishedStep(event, env)
    ensures |published| <= |created| <= 1
    ensures response.success ==> |published| == 1
  {
    created, published := [], [];
    if !ValidateLearningEvent(event) {
      response := InterpretationResponse(false, Some("Validation failed"), None, None, None);
    } else {
      var request := InterpretLearningEvent(event.value, env.ids);
      created := [request];
      if env.create.Some? {
        response := InterpretationResponse(false, Some("Processing error: " + MessageText(env.create.value.message)), None, None, None);
      } else {
        var statement := CreateStatement(request, env.firstClock, env.secondClock, env.storedId);
        published := [statement];
        if env.publish.Some? {
          response := InterpretationResponse(false, Some("Processing error: " + MessageText(env.publish.value.message)), None, None, None);
        } else {
          response := InterpretationResponse(true, Some("Success"), statement.id, Some(env.responseClock), None);
        }
      }
    }
  }

  /** What the batch loop has built after the first `i` events. */
  ghost predicate BatchSoFar(events: seq<Option<SimplifiedLearningEvent>>, envs: seq<Collaborators>, i: nat,
                             responses: seq<InterpretationResponse>, successCount: int, failureCount: int,
                             created: seq<StatementRequest>, published: seq<StatementResponse>)
    requires |envs| == |events| && i <= |events|
  {
    && responses == BatchEntries(events[..i], envs[..i])
    && successCount == Successes(responses) && successCount + failureCount == i
    && created == CreatedFor(events[..i], envs[..i])
    && published == PublishedFor(events[..i], envs[..i])
  }

  /** One more event processed keeps the loop's account right. */
  lemma BatchStep(events: seq<Option<SimplifiedLearningEvent>>, envs: seq<Collaborators>, i: nat,
                  responses: seq<InterpretationResponse>, successCount: int, failureCount: int,
                  created: seq<StatementRequest>, published: seq<StatementResponse>,
                  response: InterpretationResponse, createdNow: seq<StatementRequest>, publishedNow: seq<StatementResponse>)
    requires |envs| == |events| && i < |events|
    requires BatchSoFar(events, envs, i, responses, successCount, failureCount, created, published)
    requires response == BatchEntry(events[i], envs[i])
    requires createdNow == CreatedStep(events[i], envs[i]) && publishedNow == PublishedStep(events[i], envs[i])
    ensures BatchSoFar(events, envs, i + 1, responses + [response],
                       if response.success then successCount + 1 else successCount,
                       if response.success then failureCount else failureCount + 1,
                       created + createdNow, published + publishedNow)
  {
    SuccessesSnoc(responses, response);
    TraceSnoc(events, envs, i);
  }

  /** Once every event is processed, the loop's account covers the whole batch. */
  lemma BatchDone(events: seq<Option<SimplifiedLearningEvent>>, envs: seq<Collaborators>,
                  responses: seq<InterpretationResponse>, successCount: int, failureCount: int,
                  created: seq<StatementRequest>, published: seq<StatementResponse>)
    requires |envs| == |events|
    requires BatchSoFar(events, envs, |events|, responses, successCount, failureCount, created, published)
    ensures responses == BatchEntries(events, envs) && successCount == Successes(responses)
    ensures successCount + failureCount == |events|
    ensures created == CreatedFor(events, envs) && published == PublishedFor(events, envs)
  {
    assert events[..|events|] == events && envs[..|events|] == envs;
  }

  lemma SuccessesSnoc(responses: seq<InterpretationResponse>, r: InterpretationResponse)
    ensures Successes(responses + [r]) == Successes(responses) + (if r.success then 1 else 0)
  {
    assert (responses + [r])[..|responses|] == responses;
  }

  lemma TraceSnoc(events: seq<Option<SimplifiedLearningEvent>>, envs: seq<Collaborators>, i: nat)
    requires |envs| == |events| && i < |events|
    ensures CreatedFor(events[..i + 1], envs[..i + 1]) == CreatedFor(events[..i], envs[..i]) + CreatedStep(events[i], envs[i])
    ensures PublishedFor(events[..i + 1], envs[..i + 1]) == PublishedFor(events[..i], envs[..i]) + PublishedStep(events[i], envs[i])
    ensures BatchEntries(events[..i + 1], envs[..i + 1]) == BatchEntries(events[..i], envs[..i]) + [BatchEntry(events[i], envs[i])]
  {
    assert events[..i + 1][..i] == events[..i] && envs[..i + 1][..i] == envs[..i];
  }

  /**
   * submitBatchLearningEvents. One response per event, in order; the counters
   * add up to the number of events; `created` lists the requests passed to
   * createStatement and `published` the responses passed to the publisher.
   */
  method SubmitBatch(events: seq<Option<SimplifiedLearningEvent>>, envs: seq<Collaborators>)
    returns (batch: BatchInterpretationResponse, created: seq<StatementRequest>, published: seq<StatementResponse>)
    requires |envs| == |events|
    ensures batch.totalEvents == |events| && |batch.responses| == |events|
    ensures forall i :: 0 <= i < |events| ==> batch.responses[i] == BatchEntry(events[i], envs[i])
    ensures batch.responses == BatchEntries(events, envs)
    ensures batch.successCount == Successes(batch.responses)
    ensures batch.successCount + batch.failureCount == batch.totalEvents
    ensures created == CreatedFor(events, envs)
    ensures published == PublishedFor(events, envs)
  {
    var successCount, failureCount := 0, 0;
    var responses: seq<InterpretationResponse> := [];
    created, published := [], [];
    var i := 0;
    while i < |events|
      invariant 0 <= i <= |events|
      invariant BatchSoFar(events, envs, i, responses, successCount, failureCount, created, published)
    {
      var response, createdNow, publishedNow := ProcessBatchEvent(events[i], envs[i]);
      BatchStep(events, envs, i, responses, successCount, failureCount, created, published,
                response, createdNow, publishedNow);
      if response.success {
        successCount := successCount + 1;
      } else {
        failureCount := failureCount + 1;
      }
      responses := responses + [response];
      created := created + createdNow;
      published := published + publishedNow;
      i := i + 1;
    }
    BatchDone(events, envs, responses, successCount, failureCount, created, published);
    batch := BatchInterpretationResponse(|events|, successCount, failureCount, responses);
  }
}
