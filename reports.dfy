/**
 * ReportService: aggregate reports over a sequence of stored statements (the
 * repository read is the `statements` argument). Distinct counts, averages
 * and rates with their zero defaults, per-verb, per-actor, per-activity and
 * per-day groupings, descending rankings cut to a limit, and an ascending
 * daily series.
 */
module Reports {
  import opened Wrappers
  import opened Model
  import opened Dtos
  import opened Collections

  // ---- What a report reads from one statement ----

  /** The three ids the reports group by. */
  datatype Dimension = ByActor | ByActivity | ByVerb

  /** The actor's, object's or verb's id, when the statement has that part and the part has an id. */
  function IdOf(d: Dimension, s: Statement): Option<string> {
    match d
    case ByActor => if s.actor.Some? then s.actor.value.id else None
    case ByActivity => if s.statementObject.Some? then s.statementObject.value.id else None
    case ByVerb => if s.verb.Some? then s.verb.value.id else None
  }

  /** `Boolean.TRUE.equals(result.completion)`. */
  predicate Completed(s: Statement) {
    s.result.Some? && s.result.value.completion == Some(true)
  }

  /** `Boolean.TRUE.equals(result.success)`. */
  predicate Succeeded(s: Statement) {
    s.result.Some? && s.result.value.success == Some(true)
  }

  function ScaledOf(s: Statement): Option<real> {
    if s.result.Some? && s.result.value.score.Some? then s.result.value.score.value.scaled else None
  }

  /** Every statement has a timestamp (what `getTimestamp()` dereferences). */
  predicate Timed(statements: seq<Statement>) {
    forall i :: 0 <= i < |statements| ==> statements[i].timestamp.Some?
  }

  /** Every statement that has an id in dimension `d` has a timestamp. */
  predicate TimedWhere(d: Dimension, statements: seq<Statement>) {
    forall i :: 0 <= i < |statements| && IdOf(d, statements[i]).Some? ==> statements[i].timestamp.Some?
  }

  // ---- Stream pipelines over the statements ----

  /** `filter(id != null).map(id)`: the present ids, in statement order. */
  function Ids(d: Dimension, statements: seq<Statement>): (ids: seq<string>)
    ensures |ids| <= |statements|
    ensures (forall i :: 0 <= i < |statements| ==> IdOf(d, statements[i]).Some?) ==> |ids| == |statements|
  {
    if statements == [] then []
    else
      var init, last := statements[..|statements| - 1], statements[|statements| - 1];
      Ids(d, init) + (if IdOf(d, last).Some? then [IdOf(d, last).value] else [])
  }

  /** The set of ids the statements carry in dimension `d`. */
  function IdSet(d: Dimension, statements: seq<Statement>): set<string> {
    set s | s in statements && IdOf(d, s).Some? :: IdOf(d, s).value
  }

  /** The ids that occur are exactly the ids of the statements. */
  lemma {:induction false} IdsElements(d: Dimension, statements: seq<Statement>)
    ensures Elements(Ids(d, statements)) == IdSet(d, statements)
  {
    if statements != [] {
      var init, last := statements[..|statements| - 1], statements[|statements| - 1];
      IdsElements(d, init);
      assert statements == init + [last];
      var extra: set<string> := if IdOf(d, last).Some? then {IdOf(d, last).value} else {};
      assert IdSet(d, statements) == IdSet(d, init) + extra;
      assert Elements(Ids(d, statements)) == Elements(Ids(d, init)) + extra;
    }
  }

  /** `groupingBy(id)`: the statements with id `k`, in order. */
  function Group(d: Dimension, statements: seq<Statement>, k: string): (g: seq<Statement>)
    ensures |g| <= |statements|
    ensures forall i :: 0 <= i < |g| ==> IdOf(d, g[i]) == Some(k)
  {
    if statements == [] then []
    else
      var init, last := statements[..|statements| - 1], statements[|statements| - 1];
      var rest := Group(d, init, k);
      if IdOf(d, last) == Some(k) then rest + [last] else rest
  }

  /** A group has as many statements as its id has occurrences. */
  lemma {:induction false} GroupSize(d: Dimension, statements: seq<Statement>, k: string)
    ensures |Group(d, statements, k)| == Count(Ids(d, statements), k)
  {
    if statements != [] {
      var init, last := statements[..|statements| - 1], statements[|statements| - 1];
      GroupSize(d, init, k);
      if IdOf(d, last).Some? {
        CountSnoc(Ids(d, init), IdOf(d, last).value, k);
      } else {
        assert Ids(d, statements) == Ids(d, init) + [];
        assert Ids(d, statements) == Ids(d, init);
        assert Group(d, statements, k) == Group(d, init, k);
      }
    }
  }

  /** Every statement with id `k` in dimension `d` has a timestamp. */
  predicate TimedFor(d: Dimension, statements: seq<Statement>, k: string) {
    forall i :: 0 <= i < |statements| && IdOf(d, statements[i]) == Some(k) ==> statements[i].timestamp.Some?
  }

  lemma {:induction false} GroupTimed(d: Dimension, statements: seq<Statement>, k: string)
    requires TimedFor(d, statements, k)
    ensures Timed(Group(d, statements, k))
  {
    if statements != [] {
      var init := statements[..|statements| - 1];
      assert TimedFor(d, init, k);
      GroupTimed(d, init, k);
    }
  }

  /** The group holds exactly the statements whose id is `k`. */
  lemma {:induction false} GroupMembers(d: Dimension, statements: seq<Statement>, k: string)
    ensures forall s :: s in Group(d, statements, k) ==> s in statements && IdOf(d, s) == Some(k)
    ensures forall i :: 0 <= i < |statements| && IdOf(d, statements[i]) == Some(k) ==> statements[i] in Group(d, statements, k)
  {
    if statements != [] {
      var init, last := statements[..|statements| - 1], statements[|statements| - 1];
      GroupMembers(d, init, k);
      assert statements == init + [last];
      forall i | 0 <= i < |statements| && IdOf(d, statements[i]) == Some(k)
        ensures statements[i] in Group(d, statements, k)
      {
        if i < |init| {
          assert statements[i] == init[i];
        }
      }
    }
  }

  /** The group's first statement is the first statement with id `k`. */
  lemma {:induction false} GroupFirst(d: Dimension, statements: seq<Statement>, k: string, i: nat)
    requires i < |statements| && IdOf(d, statements[i]) == Some(k)
    requires forall j :: 0 <= j < i ==> IdOf(d, statements[j]) != Some(k)
    ensures Group(d, statements, k) != [] && Group(d, statements, k)[0] == statements[i]
  {
    var init, last := statements[..|statements| - 1], statements[|statements| - 1];
    if i < |init| {
      GroupFirst(d, init, k, i);
    } else {
      GroupMembers(d, init, k);
    }
  }

  /** The group of every id at once: its size is the id's number of occurrences. */
  lemma GroupSizes(d: Dimension, statements: seq<Statement>)
    ensures forall k :: |Group(d, statements, k)| == Count(Ids(d, statements), k)
  {
    forall k {
      GroupSize(d, statements, k);
    }
  }

  function CompletedCount(statements: seq<Statement>): (n: nat)
    ensures n <= |statements|
  {
    if statements == [] then 0
    else CompletedCount(statements[..|statements| - 1]) + (if Completed(statements[|statements| - 1]) then 1 else 0)
  }

  function SucceededCount(statements: seq<Statement>): (n: nat)
    ensures n <= |statements|
  {
    if statements == [] then 0
    else SucceededCount(statements[..|statements| - 1]) + (if Succeeded(statements[|statements| - 1]) then 1 else 0)
  }

  /** `filter(scaled != null).mapToDouble(scaled)`. */
  function Scores(statements: seq<Statement>): (scores: seq<real>)
    ensures |scores| <= |statements|
  {
    if statements == [] then []
    else
      var init, last := statements[..|statements| - 1], statements[|statements| - 1];
      Scores(init) + (if ScaledOf(last).Some? then [ScaledOf(last).value] else [])
  }

  /** Every present scaled score lies between `lo` and `hi`. */
  predicate ScoresWithin(statements: seq<Statement>, lo: real, hi: real) {
    forall i :: 0 <= i < |statements| && ScaledOf(statements[i]).Some? ==> lo <= ScaledOf(statements[i]).value <= hi
  }

  lemma {:induction false} ScoresBounded(statements: seq<Statement>, lo: real, hi: real)
    requires ScoresWithin(statements, lo, hi)
    ensures forall i :: 0 <= i < |Scores(statements)| ==> lo <= Scores(statements)[i] <= hi
  {
    if statements != [] {
      var init := statements[..|statements| - 1];
      assert ScoresWithin(init, lo, hi);
      ScoresBounded(init, lo, hi);
    }
  }

  function Timestamps(statements: seq<Statement>): (ts: seq<DateTime>)
    requires Timed(statements)
    ensures |ts| == |statements|
    ensures forall i :: 0 <= i < |ts| ==> ts[i] == statements[i].timestamp.value
  {
    if statements == [] then []
    else Timestamps(statements[..|statements| - 1]) + [statements[|statements| - 1].timestamp.value]
  }

  /** `min(LocalDateTime::compareTo)`. */
  function Earliest(ts: seq<DateTime>): (m: DateTime)
    requires |ts| > 0
    ensures m in ts
    ensures forall i :: 0 <= i < |ts| ==> m.NotAfter(ts[i])
  {
    if |ts| == 1 then ts[0]
    else
      var m := Earliest(ts[..|ts| - 1]);
      if m.NotAfter(ts[|ts| - 1]) then m else ts[|ts| - 1]
  }

  /** `max(LocalDateTime::compareTo)`. */
  function Latest(ts: seq<DateTime>): (m: DateTime)
    requires |ts| > 0
    ensures m in ts
    ensures forall i :: 0 <= i < |ts| ==> ts[i].NotAfter(m)
  {
    if |ts| == 1 then ts[0]
    else
      var m := Latest(ts[..|ts| - 1]);
      if ts[|ts| - 1].NotAfter(m) then m else ts[|ts| - 1]
  }

  // ---- Overview figures ----

  /** countUniqueActors / countUniqueActivities / countUniqueVerbs. */
  function CountUnique(d: Dimension, statements: seq<Statement>): (n: nat)
    ensures n <= |statements|
    ensures n == |IdSet(d, statements)|
  {
    DistinctCardinality(Ids(d, statements));
    IdsElements(d, statements);
    |Distinct(Ids(d, statements))|
  }

  /** calculateOverallAverageScore: the mean of the present scaled scores, 0.0 when there are none. */
  function AverageScore(statements: seq<Statement>): (avg: real)
    ensures Scores(statements) == [] ==> avg == 0.0
    ensures Scores(statements) != [] ==> avg * (|Scores(statements)| as real) == Sum(Scores(statements))
  {
    Mean(Scores(statements))
  }

  /**
   * The average of scores that lie between `lo` and `hi` lies between them;
   * with no score at all it is the default 0.0.
   */
  lemma AverageScoreBounds(statements: seq<Statement>, lo: real, hi: real)
    requires ScoresWithin(statements, lo, hi)
    requires Scores(statements) != [] || lo <= 0.0 <= hi
    ensures lo <= AverageScore(statements) <= hi
  {
    ScoresBounded(statements, lo, hi);
    MeanBounds(Scores(statements), lo, hi);
  }

  /** calculateCompletionRate: the percentage of statements marked completed, 0.0 for none. */
  function CompletionRate(statements: seq<Statement>): (rate: real)
    ensures 0.0 <= rate <= 100.0
    ensures statements == [] ==> rate == 0.0
    ensures statements != [] ==> rate * (|statements| as real) == (CompletedCount(statements) as real) * 100.0
  {
    if |statements| == 0 then 0.0 else Percentage(CompletedCount(statements), |statements|)
  }

  /** calculateSuccessRate: the percentage of statements marked successful, 0.0 for none. */
  function SuccessRate(statements: seq<Statement>): (rate: real)
    ensures 0.0 <= rate <= 100.0
    ensures statements == [] ==> rate == 0.0
    ensures statements != [] ==> rate * (|statements| as real) == (SucceededCount(statements) as real) * 100.0
  {
    if |statements| == 0 then 0.0 else Percentage(SucceededCount(statements), |statements|)
  }

  // ---- Ranking keys ----

  /** The distinct ids of dimension `d`, most frequent first (`groupingBy` + `sorted` on the count). */
  function ByFrequency(d: Dimension, statements: seq<Statement>): (keys: seq<string>)
    ensures NoDups(keys)
    ensures forall k :: k in keys ==> k in Ids(d, statements)
    ensures forall k :: k in Ids(d, statements) ==> k in keys
    ensures |keys| == CountUnique(d, statements)
    ensures forall i, j :: 0 <= i < j < |keys| ==> Count(Ids(d, statements), keys[i]) >= Count(Ids(d, statements), keys[j])
  {
    var ids := Ids(d, statements);
    var keys := SortBy(Distinct(ids), k => Count(ids, k) as real, Descending);
    PermutationNoDups(Distinct(ids), keys);
    keys
  }

  // ---- Verb breakdown ----

  /**
   * The display of the first statement whose verb id is `k`: its en-US entry
   * (`getOrDefault("en-US", id)`), or `k` when the verb has no display map.
   */
  function VerbDisplay(statements: seq<Statement>, k: string): string {
    if statements == [] then k
    else
      var s := statements[0];
      if IdOf(ByVerb, s) == Some(k) then
        if s.verb.value.display.Some? && "en-US" in s.verb.value.display.value then s.verb.value.display.value["en-US"] else k
      else VerbDisplay(statements[1..], k)
  }

  /** The entry for verb id `k`: its count and its share of all statements. */
  function VerbReportFor(statements: seq<Statement>, k: string): (r: VerbReport)
    requires statements != []
    ensures r.verbId == k && r.verbDisplay == VerbDisplay(statements, k)
    ensures r.count == Count(Ids(ByVerb, statements), k)
    ensures r.percentage == Percentage(r.count, |statements|) && 0.0 <= r.percentage <= 100.0
  {
    var n := Count(Ids(ByVerb, statements), k);
    VerbReport(k, VerbDisplay(statements, k), n, Percentage(n, |statements|))
  }

  function VerbReports(statements: seq<Statement>, keys: seq<string>): (r: seq<VerbReport>)
    requires statements != []
    ensures |r| == |keys|
    ensures forall i :: 0 <= i < |r| ==> r[i] == VerbReportFor(statements, keys[i])
  {
    if keys == [] then []
    else VerbReports(statements, keys[..|keys| - 1]) + [VerbReportFor(statements, keys[|keys| - 1])]
  }

  /**
   * generateVerbBreakdown: nothing for no statements, otherwise one entry per
   * distinct verb id, in non-increasing order of count.
   */
  function VerbBreakdown(statements: seq<Statement>): (r: seq<VerbReport>)
    ensures statements == [] ==> r == []
    ensures |r| == CountUnique(ByVerb, statements)
    ensures forall i, j :: 0 <= i < j < |r| ==> r[i].count >= r[j].count && r[i].verbId != r[j].verbId
    ensures forall i :: 0 <= i < |r| ==> r[i].verbId in Ids(ByVerb, statements) && r[i] == VerbReportFor(statements, r[i].verbId)
  {
    if statements == [] then [] else VerbReports(statements, ByFrequency(ByVerb, statements))
  }

  /** Every verb id that occurs has its entry. */
  lemma VerbBreakdownCovers(statements: seq<Statement>, k: string)
    requires k in Ids(ByVerb, statements)
    ensures exists i :: 0 <= i < |VerbBreakdown(statements)| && VerbBreakdown(statements)[i].verbId == k
  {
    var keys := ByFrequency(ByVerb, statements);
    var i :| 0 <= i < |keys| && keys[i] == k;
    assert VerbBreakdown(statements)[i].verbId == k;
  }

  function VerbCountTotal(r: seq<VerbReport>): nat {
    if r == [] then 0 else VerbCountTotal(r[..|r| - 1]) + r[|r| - 1].count
  }

  function VerbPercentageTotal(r: seq<VerbReport>): real {
    if r == [] then 0.0 else VerbPercentageTotal(r[..|r| - 1]) + r[|r| - 1].percentage
  }

  lemma {:induction false} VerbReportsCount(statements: seq<Statement>, keys: seq<string>)
    requires statements != []
    ensures VerbCountTotal(VerbReports(statements, keys)) == SumCounts(Ids(ByVerb, statements), keys)
  {
    if keys != [] {
      var init := keys[..|keys| - 1];
      VerbReportsCount(statements, init);
      var r := VerbReports(statements, keys);
      assert r[..|r| - 1] == VerbReports(statements, init);
    }
  }

  lemma {:induction false} VerbReportsPercentage(statements: seq<Statement>, keys: seq<string>)
    requires statements != []
    ensures VerbPercentageTotal(VerbReports(statements, keys)) == Percentage(SumCounts(Ids(ByVerb, statements), keys), |statements|)
  {
    var ids := Ids(ByVerb, statements);
    if keys == [] {
      assert Percentage(0, |statements|) * (|statements| as real) == 0.0 * (|statements| as real);
      CancelFactor(Percentage(0, |statements|), 0.0, |statements| as real);
    } else {
      var init, last := keys[..|keys| - 1], keys[|keys| - 1];
      VerbReportsPercentage(statements, init);
      var r := VerbReports(statements, keys);
      assert r[..|r| - 1] == VerbReports(statements, init);
      assert r[|r| - 1].percentage == Percentage(Count(ids, last), |statements|);
      PercentageSum(SumCounts(ids, init), Count(ids, last), |statements|);
    }
  }

  /**
   * The counts add up to the number of statements with a verb id, and the
   * percentages to that number's share of all statements.
   */
  lemma VerbBreakdownSums(statements: seq<Statement>)
    requires statements != []
    ensures VerbCountTotal(VerbBreakdown(statements)) == |Ids(ByVerb, statements)|
    ensures VerbPercentageTotal(VerbBreakdown(statements)) == Percentage(|Ids(ByVerb, statements)|, |statements|)
  {
    var keys := ByFrequency(ByVerb, statements);
    VerbReportsCount(statements, keys);
    VerbReportsPercentage(statements, keys);
    SumCountsCover(Ids(ByVerb, statements), keys);
  }

  /**
   * The percentages add up to at most 100, and to exactly 100 when every
   * statement has a verb id.
   */
  lemma VerbBreakdownPercentages(statements: seq<Statement>)
    ensures 0.0 <= VerbPercentageTotal(VerbBreakdown(statements)) <= 100.0
    ensures statements != [] && (forall i :: 0 <= i < |statements| ==> IdOf(ByVerb, statements[i]).Some?) ==>
      VerbPercentageTotal(VerbBreakdown(statements)) == 100.0
  {
    if statements != [] {
      VerbBreakdownSums(statements);
      if |Ids(ByVerb, statements)| == |statements| {
        PercentageOfWhole(|statements|);
      }
    }
  }

  // ---- Activity reports ----

  /**
   * The name of the first statement whose object has a named definition
   * (`getOrDefault("en-US", activityId)`), or `activityId` when there is none.
   */
  function ActivityName(statements: seq<Statement>, activityId: string): string {
    if statements == [] then activityId
    else
      var o := statements[0].statementObject;
      if o.Some? && o.value.definition.Some? && o.value.definition.value.name.Some? then
        var names := o.value.definition.value.name.value;
        if "en-US" in names then names["en-US"] else activityId
      else ActivityName(statements[1..], activityId)
  }

  /**
   * The earliest and latest timestamps of a group bracket every statement
   * with its id, and each is the timestamp of one of those statements.
   */
  lemma {:induction false} GroupSpan(d: Dimension, all: seq<Statement>, k: string)
    requires TimedFor(d, all, k) && Timed(Group(d, all, k)) && Group(d, all, k) != []
    ensures var ts := Timestamps(Group(d, all, k));
      forall i :: 0 <= i < |all| && IdOf(d, all[i]) == Some(k) ==>
        Earliest(ts).NotAfter(all[i].timestamp.value) && all[i].timestamp.value.NotAfter(Latest(ts))
    ensures var ts := Timestamps(Group(d, all, k));
      exists i :: 0 <= i < |all| && IdOf(d, all[i]) == Some(k) && all[i].timestamp == Some(Earliest(ts))
    ensures var ts := Timestamps(Group(d, all, k));
      exists i :: 0 <= i < |all| && IdOf(d, all[i]) == Some(k) && all[i].timestamp == Some(Latest(ts))
  {
    var g := Group(d, all, k);
    var ts := Timestamps(g);
    GroupMembers(d, all, k);
    forall i | 0 <= i < |all| && IdOf(d, all[i]) == Some(k)
      ensures Earliest(ts).NotAfter(all[i].timestamp.value) && all[i].timestamp.value.NotAfter(Latest(ts))
    {
      var j :| 0 <= j < |g| && g[j] == all[i];
      assert ts[j] == all[i].timestamp.value;
    }
    var f :| 0 <= f < |ts| && ts[f] == Earliest(ts);
    var l :| 0 <= l < |ts| && ts[l] == Latest(ts);
    assert g[f] in g && g[l] in g;
    var i :| 0 <= i < |all| && all[i] == g[f];
    var j :| 0 <= j < |all| && all[j] == g[l];
  }

  /** The report on a non-empty group of statements about one activity. */
  function ActivityReportOf(activityId: string, g: seq<Statement>): (r: ActivityReport)
    requires g != [] && Timed(g)
    ensures r.activityId == activityId && r.totalStatements == |g|
    ensures r.activityName == Some(ActivityName(g, activityId))
    ensures r.completedCount == Some(CompletedCount(g)) && r.successCount == Some(SucceededCount(g))
    ensures r.averageScore == Some(AverageScore(g))
    ensures r.completionRate == Some(CompletionRate(g)) && r.successRate == Some(SuccessRate(g))
    ensures r.firstAttempt == Some(Earliest(Timestamps(g))) && r.lastAttempt == Some(Latest(Timestamps(g)))
    ensures r.firstAttempt.value.NotAfter(r.lastAttempt.value)
    ensures forall i :: 0 <= i < |g| ==>
      r.firstAttempt.value.NotAfter(g[i].timestamp.value) && g[i].timestamp.value.NotAfter(r.lastAttempt.value)
  {
    var ts := Timestamps(g);
    assert ts[0] == g[0].timestamp.value;
    ActivityReport(activityId, Some(ActivityName(g, activityId)), |g|,
      Some(CompletedCount(g)), Some(SucceededCount(g)), Some(AverageScore(g)),
      Some(CompletionRate(g)), Some(SuccessRate(g)), Some(Earliest(ts)), Some(Latest(ts)))
  }

  /**
   * generateActivityReport: the report on the statements whose object id is
   * `activityId`; for an id no statement has, only the id and a zero total.
   */
  function ActivityReportFor(all: seq<Statement>, activityId: string): (r: ActivityReport)
    requires TimedFor(ByActivity, all, activityId)
    ensures r.activityId == activityId
    ensures r.totalStatements == Count(Ids(ByActivity, all), activityId)
    ensures r.totalStatements == 0 ==> r == ActivityReport(activityId, None, 0, None, None, None, None, None, None, None)
    ensures r.totalStatements > 0 ==>
      var g := Group(ByActivity, all, activityId);
      r.activityName == Some(ActivityName(g, activityId)) &&
      r.completedCount == Some(CompletedCount(g)) && r.successCount == Some(SucceededCount(g)) &&
      r.averageScore == Some(AverageScore(g)) &&
      r.completionRate == Some(CompletionRate(g)) && r.successRate == Some(SuccessRate(g)) &&
      r.firstAttempt.Some? && r.lastAttempt.Some?
  {
    var g := Group(ByActivity, all, activityId);
    GroupSize(ByActivity, all, activityId);
    if g == [] then ActivityReport(activityId, None, 0, None, None, None, None, None, None, None)
    else
      GroupTimed(ByActivity, all, activityId);
      ActivityReportOf(activityId, g)
  }

  /**
   * A known activity's report counts its completions and successes out of its
   * own statements, so both rates lie in [0, 100].
   */
  lemma {:induction false} ActivityReportRates(all: seq<Statement>, activityId: string)
    requires TimedFor(ByActivity, all, activityId)
    requires activityId in Ids(ByActivity, all)
    ensures var r := ActivityReportFor(all, activityId);
      r.totalStatements > 0 &&
      r.completedCount.value <= r.totalStatements && r.successCount.value <= r.totalStatements &&
      0.0 <= r.completionRate.value <= 100.0 && 0.0 <= r.successRate.value <= 100.0
  {
    GroupSize(ByActivity, all, activityId);
  }

  /** A known activity's first and last attempts bracket every statement about it. */
  lemma {:induction false} ActivityReportSpan(all: seq<Statement>, activityId: string)
    requires TimedFor(ByActivity, all, activityId)
    requires activityId in Ids(ByActivity, all)
    ensures var r := ActivityReportFor(all, activityId);
      forall i :: 0 <= i < |all| && IdOf(ByActivity, all[i]) == Some(activityId) ==>
        r.firstAttempt.value.NotAfter(all[i].timestamp.value) && all[i].timestamp.value.NotAfter(r.lastAttempt.value)
    ensures var r := ActivityReportFor(all, activityId);
      exists i :: 0 <= i < |all| && IdOf(ByActivity, all[i]) == Some(activityId) && all[i].timestamp.value == r.firstAttempt.value
    ensures var r := ActivityReportFor(all, activityId);
      exists i :: 0 <= i < |all| && IdOf(ByActivity, all[i]) == Some(activityId) && all[i].timestamp.value == r.lastAttempt.value
    ensures (GroupTimed(ByActivity, all, activityId); GroupSize(ByActivity, all, activityId);
      var ts := Timestamps(Group(ByActivity, all, activityId));
      ActivityReportFor(all, activityId).firstAttempt == Some(Earliest(ts)) && ActivityReportFor(all, activityId).lastAttempt == Some(Latest(ts)))
  {
    var g := Group(ByActivity, all, activityId);
    GroupSize(ByActivity, all, activityId);
    GroupTimed(ByActivity, all, activityId);
    GroupSpan(ByActivity, all, activityId);
    assert ActivityReportFor(all, activityId) == ActivityReportOf(activityId, g);
  }

  function ActivityReports(statements: seq<Statement>, keys: seq<string>): (r: seq<ActivityReport>)
    requires TimedWhere(ByActivity, statements)
    ensures |r| == |keys|
    ensures forall i :: 0 <= i < |r| ==> r[i] == ActivityReportFor(statements, keys[i])
  {
    if keys == [] then []
    else ActivityReports(statements, keys[..|keys| - 1]) + [ActivityReportFor(statements, keys[|keys| - 1])]
  }

  /**
   * generateMostPopularActivities: the reports on the `limit` activities with
   * the most statements, in non-increasing order of that number.
   */
  function MostPopularActivities(statements: seq<Statement>, limit: nat): (r: seq<ActivityReport>)
    requires TimedWhere(ByActivity, statements)
    ensures |r| == if limit < CountUnique(ByActivity, statements) then limit else CountUnique(ByActivity, statements)
    ensures forall i, j :: 0 <= i < j < |r| ==>
      r[i].totalStatements >= r[j].totalStatements && r[i].activityId != r[j].activityId
    ensures forall i :: 0 <= i < |r| ==>
      r[i].activityId in Ids(ByActivity, statements) && r[i] == ActivityReportFor(statements, r[i].activityId)
  {
    ActivityReports(statements, Take(ByFrequency(ByActivity, statements), limit))
  }

  /** An activity left out of the ranking has no more statements than any activity in it. */
  lemma MostPopularRanked(statements: seq<Statement>, limit: nat, k: string)
    requires TimedWhere(ByActivity, statements)
    requires k in Ids(ByActivity, statements)
    requires forall i :: 0 <= i < |MostPopularActivities(statements, limit)| ==> MostPopularActivities(statements, limit)[i].activityId != k
    ensures forall i :: 0 <= i < |MostPopularActivities(statements, limit)| ==>
      MostPopularActivities(statements, limit)[i].totalStatements >= Count(Ids(ByActivity, statements), k)
  {
    var keys := ByFrequency(ByActivity, statements);
    var top := Take(keys, limit);
    var j :| 0 <= j < |keys| && keys[j] == k;
  }

  function ActivityTotal(r: seq<ActivityReport>): nat {
    if r == [] then 0 else ActivityTotal(r[..|r| - 1]) + r[|r| - 1].totalStatements
  }

  lemma {:induction false} ActivityReportsTotal(statements: seq<Statement>, keys: seq<string>)
    requires TimedWhere(ByActivity, statements)
    ensures ActivityTotal(ActivityReports(statements, keys)) == SumCounts(Ids(ByActivity, statements), keys)
  {
    if keys != [] {
      var r := ActivityReports(statements, keys);
      ActivityReportsTotal(statements, keys[..|keys| - 1]);
      assert r[..|r| - 1] == ActivityReports(statements, keys[..|keys| - 1]);
    }
  }

  /**
   * Over every activity group, the totals add up to the number of statements
   * that have an object id.
   */
  lemma MostPopularTotals(statements: seq<Statement>)
    requires TimedWhere(ByActivity, statements)
    ensures ActivityTotal(MostPopularActivities(statements, CountUnique(ByActivity, statements))) == |Ids(ByActivity, statements)|
  {
    var keys := ByFrequency(ByActivity, statements);
    assert Take(keys, CountUnique(ByActivity, statements)) == keys;
    ActivityReportsTotal(statements, keys);
    SumCountsCover(Ids(ByActivity, statements), keys);
  }

  // ---- Actor reports ----

  /**
   * The report on a non-empty group of one actor's statements. Name and email
   * come from the group's first statement; `activitiesAttempted` counts
   * distinct object ids, and the completion rate divides the number of
   * completed statements by it.
   */
  function ActorReportOf(actorId: string, g: seq<Statement>): (r: ActorReport)
    requires g != [] && Timed(g) && g[0].actor.Some?
    ensures r.actorId == actorId && r.totalStatements == |g|
    ensures r.activitiesCompleted == Some(CompletedCount(g)) && r.activitiesAttempted == Some(CountUnique(ByActivity, g))
    ensures r.averageScore == Some(AverageScore(g)) && r.totalTimeSpent == None
    ensures r.firstActivity == Some(Earliest(Timestamps(g))) && r.lastActivity == Some(Latest(Timestamps(g)))
    ensures r.firstActivity.value.NotAfter(r.lastActivity.value)
    ensures forall i :: 0 <= i < |g| ==>
      r.firstActivity.value.NotAfter(g[i].timestamp.value) && g[i].timestamp.value.NotAfter(r.lastActivity.value)
  {
    var completed := CompletedCount(g);
    var attempted := CountUnique(ByActivity, g);
    var ts := Timestamps(g);
    assert ts[0] == g[0].timestamp.value;
    ActorReport(actorId, g[0].actor.value.name, g[0].actor.value.mbox, |g|,
      Some(completed), Some(attempted), Some(AverageScore(g)),
      Some(AttemptedRate(completed, attempted)),
      None, Some(Earliest(ts)), Some(Latest(ts)))
  }

  /** The actor's completion rate: completions per distinct activity, in percent, or 0.0 without activities. */
  function AttemptedRate(completed: nat, attempted: nat): (r: real)
    ensures 0.0 <= r
    ensures attempted == 0 ==> r == 0.0
    ensures attempted > 0 ==> r == Percentage(completed, attempted)
  {
    if attempted > 0 then Percentage(completed, attempted) else 0.0
  }

  /**
   * generateActorReport: the report on the statements whose actor id is
   * `actorId`; for an id no statement has, only the id and a zero total.
   */
  function ActorReportFor(all: seq<Statement>, actorId: string): (r: ActorReport)
    requires TimedFor(ByActor, all, actorId)
    ensures r.actorId == actorId
    ensures r.totalStatements == Count(Ids(ByActor, all), actorId)
    ensures r.totalStatements == 0 ==> r == ActorReport(actorId, None, None, 0, None, None, None, None, None, None, None)
    ensures r.totalStatements > 0 ==>
      var g := Group(ByActor, all, actorId);
      r.activitiesCompleted == Some(CompletedCount(g)) && r.activitiesAttempted == Some(CountUnique(ByActivity, g)) &&
      r.averageScore == Some(AverageScore(g)) && r.completionRate.Some? && r.totalTimeSpent == None &&
      r.firstActivity.Some? && r.lastActivity.Some?
  {
    var g := Group(ByActor, all, actorId);
    GroupSize(ByActor, all, actorId);
    if g == [] then ActorReport(actorId, None, None, 0, None, None, None, None, None, None, None)
    else
      GroupTimed(ByActor, all, actorId);
      ActorReportOf(actorId, g)
  }

  /**
   * The completion rate is completed statements per distinct activity, in
   * percent, and 0.0 when the actor touched no activity with an id.
   */
  lemma {:induction false} ActorCompletionRate(all: seq<Statement>, actorId: string)
    requires TimedFor(ByActor, all, actorId)
    requires actorId in Ids(ByActor, all)
    ensures var r := ActorReportFor(all, actorId);
      r.activitiesCompleted.value <= r.totalStatements && r.activitiesAttempted.value <= r.totalStatements &&
      0.0 <= r.completionRate.value &&
      (r.activitiesAttempted.value == 0 ==> r.completionRate.value == 0.0) &&
      (r.activitiesAttempted.value > 0 ==> r.completionRate.value == Percentage(r.activitiesCompleted.value, r.activitiesAttempted.value))
  {
    GroupSize(ByActor, all, actorId);
    GroupTimed(ByActor, all, actorId);
    var g := Group(ByActor, all, actorId);
    assert ActorReportFor(all, actorId) == ActorReportOf(actorId, g);
  }

  /** Name and email are those of the first statement with this actor id. */
  lemma {:induction false} ActorIdentity(all: seq<Statement>, actorId: string, i: nat)
    requires TimedFor(ByActor, all, actorId)
    requires i < |all| && IdOf(ByActor, all[i]) == Some(actorId)
    requires forall j :: 0 <= j < i ==> IdOf(ByActor, all[j]) != Some(actorId)
    ensures ActorReportFor(all, actorId).actorName == all[i].actor.value.name
    ensures ActorReportFor(all, actorId).actorEmail == all[i].actor.value.mbox
  {
    GroupFirst(ByActor, all, actorId, i);
    GroupSize(ByActor, all, actorId);
    GroupTimed(ByActor, all, actorId);
    assert ActorReportFor(all, actorId) == ActorReportOf(actorId, Group(ByActor, all, actorId));
  }

  /** A known actor's first and last activity bracket every statement of that actor. */
  lemma {:induction false} ActorReportSpan(all: seq<Statement>, actorId: string)
    requires TimedFor(ByActor, all, actorId)
    requires actorId in Ids(ByActor, all)
    ensures var r := ActorReportFor(all, actorId);
      forall i :: 0 <= i < |all| && IdOf(ByActor, all[i]) == Some(actorId) ==>
        r.firstActivity.value.NotAfter(all[i].timestamp.value) && all[i].timestamp.value.NotAfter(r.lastActivity.value)
    ensures var r := ActorReportFor(all, actorId);
      exists i :: 0 <= i < |all| && IdOf(ByActor, all[i]) == Some(actorId) && all[i].timestamp.value == r.firstActivity.value
    ensures var r := ActorReportFor(all, actorId);
      exists i :: 0 <= i < |all| && IdOf(ByActor, all[i]) == Some(actorId) && all[i].timestamp.value == r.lastActivity.value
    ensures (GroupTimed(ByActor, all, actorId); GroupSize(ByActor, all, actorId);
      var ts := Timestamps(Group(ByActor, all, actorId));
      ActorReportFor(all, actorId).firstActivity == Some(Earliest(ts)) && ActorReportFor(all, actorId).lastActivity == Some(Latest(ts)))
  {
    var g := Group(ByActor, all, actorId);
    GroupSize(ByActor, all, actorId);
    GroupTimed(ByActor, all, actorId);
    GroupSpan(ByActor, all, actorId);
    assert ActorReportFor(all, actorId) == ActorReportOf(actorId, g);
  }

  // ---- Top performers ----

  /** The distinct actor ids, highest average score first. */
  function ByAverageScore(statements: seq<Statement>): (keys: seq<string>)
    ensures NoDups(keys)
    ensures forall k :: k in keys ==> k in Ids(ByActor, statements)
    ensures forall k :: k in Ids(ByActor, statements) ==> k in keys
    ensures |keys| == CountUnique(ByActor, statements)
    ensures SortedBy(keys, k => AverageScore(Group(ByActor, statements, k)), Descending)
  {
    var ids := Ids(ByActor, statements);
    var keys := SortBy(Distinct(ids), k => AverageScore(Group(ByActor, statements, k)), Descending);
    PermutationNoDups(Distinct(ids), keys);
    keys
  }

  function ActorReports(statements: seq<Statement>, keys: seq<string>): (r: seq<ActorReport>)
    requires TimedWhere(ByActor, statements)
    ensures |r| == |keys|
    ensures forall i :: 0 <= i < |r| ==> r[i] == ActorReportFor(statements, keys[i])
  {
    if keys == [] then []
    else ActorReports(statements, keys[..|keys| - 1]) + [ActorReportFor(statements, keys[|keys| - 1])]
  }

  /**
   * generateTopPerformers: the reports on the `limit` actors with the highest
   * average scaled score, in non-increasing order of that average.
   */
  function TopPerformers(statements: seq<Statement>, limit: nat): (r: seq<ActorReport>)
    requires TimedWhere(ByActor, statements)
    ensures |r| == if limit < CountUnique(ByActor, statements) then limit else CountUnique(ByActor, statements)
    ensures forall i :: 0 <= i < |r| ==>
      r[i].actorId in Ids(ByActor, statements) && r[i] == ActorReportFor(statements, r[i].actorId) && r[i].averageScore.Some?
    ensures forall i, j :: 0 <= i < j < |r| ==>
      r[i].averageScore.value >= r[j].averageScore.value && r[i].actorId != r[j].actorId
  {
    var ranked := ByAverageScore(statements);
    var keys := Take(ranked, limit);
    TakeKeepsOrder(ranked, k => AverageScore(Group(ByActor, statements, k)), Descending, limit);
    RankedReports(statements, keys);
    ActorReports(statements, keys)
  }

  lemma RankedReports(statements: seq<Statement>, keys: seq<string>)
    requires TimedWhere(ByActor, statements)
    requires forall k :: k in keys ==> k in Ids(ByActor, statements)
    requires NoDups(keys) && SortedBy(keys, k => AverageScore(Group(ByActor, statements, k)), Descending)
    ensures forall i :: 0 <= i < |keys| ==>
      ActorReports(statements, keys)[i].actorId in Ids(ByActor, statements) &&
      ActorReports(statements, keys)[i] == ActorReportFor(statements, ActorReports(statements, keys)[i].actorId) &&
      ActorReports(statements, keys)[i].averageScore.Some?
    ensures forall i :: 0 <= i < |keys| ==>
      ActorReports(statements, keys)[i].actorId == keys[i] &&
      ActorReports(statements, keys)[i].averageScore == Some(AverageScore(Group(ByActor, statements, keys[i])))
    ensures forall i, j :: 0 <= i < j < |keys| ==>
      ActorReports(statements, keys)[i].averageScore.value >= ActorReports(statements, keys)[j].averageScore.value &&
      ActorReports(statements, keys)[i].actorId != ActorReports(statements, keys)[j].actorId
  {
    var r := ActorReports(statements, keys);
    GroupSizes(ByActor, statements);
    forall i | 0 <= i < |keys|
      ensures r[i].actorId == keys[i] && r[i].averageScore == Some(AverageScore(Group(ByActor, statements, keys[i])))
    {
      assert keys[i] in keys;
    }
  }

  /** An actor left out of the ranking has an average no higher than any actor in it. */
  lemma {:induction false} TopPerformersRanked(statements: seq<Statement>, limit: nat, k: string)
    requires TimedWhere(ByActor, statements)
    requires k in Ids(ByActor, statements)
    requires forall i :: 0 <= i < |TopPerformers(statements, limit)| ==> TopPerformers(statements, limit)[i].actorId != k
    ensures forall i :: 0 <= i < |TopPerformers(statements, limit)| ==>
      TopPerformers(statements, limit)[i].averageScore.value >= AverageScore(Group(ByActor, statements, k))
  {
    var keys := ByAverageScore(statements);
    var key := k' => AverageScore(Group(ByActor, statements, k'));
    var top := Take(keys, limit);
    TakeKeepsOrder(keys, key, Descending, limit);
    RankedReports(statements, top);
    var r := TopPerformers(statements, limit);
    assert r == ActorReports(statements, top);
    assert k !in top by {
      forall i | 0 <= i < |top| ensures top[i] != k {
        assert r[i].actorId == top[i];
      }
    }
    TakeRanked(keys, key, Descending, limit, k);
  }

  /**
   * The completion rate is not a share: one actor completing the same
   * activity twice has two completed statements over one distinct activity.
   */
  lemma CompletionRateCanExceed100()
    ensures var s := Statement(None, Some(Actor(Some("learner"), None, None, None, None, None, None)), None,
        Some(StatementObject(Some("quiz"), None, None)), Some(DateTime(0, 0)), None, None, None, None,
        Some(Result(None, None, Some(true), None, None, None)), None);
      ActorReportFor([s, s], "learner").completionRate == Some(200.0)
  {
    var s := Statement(None, Some(Actor(Some("learner"), None, None, None, None, None, None)), None,
      Some(StatementObject(Some("quiz"), None, None)), Some(DateTime(0, 0)), None, None, None, None,
      Some(Result(None, None, Some(true), None, None, None)), None);
    var all := [s, s];
    assert all[..1] == [s];
    assert Group(ByActor, all, "learner") == all;
    assert CompletedCount(all) == 2;
    assert Ids(ByActivity, all) == ["quiz", "quiz"];
    assert Distinct(["quiz", "quiz"]) == ["quiz"];
    var p := Percentage(2, 1);
    assert p * 1.0 == 200.0;
  }

  // ---- Daily trends ----

  /** The day of each statement's timestamp (`toLocalDate()`). */
  function Days(statements: seq<Statement>): (days: seq<int>)
    requires Timed(statements)
    ensures |days| == |statements|
    ensures forall i :: 0 <= i < |days| ==> days[i] == statements[i].timestamp.value.date
  {
    if statements == [] then []
    else Days(statements[..|statements| - 1]) + [statements[|statements| - 1].timestamp.value.date]
  }

  /** `groupingBy(toLocalDate())`: the statements of one day, in order. */
  function DayGroup(statements: seq<Statement>, day: int): (g: seq<Statement>)
    requires Timed(statements)
    ensures |g| <= |statements| && Timed(g)
    ensures forall i :: 0 <= i < |g| ==> g[i].timestamp.value.date == day
  {
    if statements == [] then []
    else
      var init, last := statements[..|statements| - 1], statements[|statements| - 1];
      var rest := DayGroup(init, day);
      if last.timestamp.value.date == day then rest + [last] else rest
  }

  lemma {:induction false} DayGroupSize(statements: seq<Statement>, day: int)
    requires Timed(statements)
    ensures |DayGroup(statements, day)| == Count(Days(statements), day)
  {
    if statements != [] {
      var init := statements[..|statements| - 1];
      DayGroupSize(init, day);
      CountSnoc(Days(init), statements[|statements| - 1].timestamp.value.date, day);
      assert Days(statements) == Days(init) + [statements[|statements| - 1].timestamp.value.date];
    }
  }

  lemma DayGroupSizes(statements: seq<Statement>)
    requires Timed(statements)
    ensures forall day :: |DayGroup(statements, day)| == Count(Days(statements), day)
  {
    forall day {
      DayGroupSize(statements, day);
    }
  }

  /**
   * One day's figures: distinct actors and activities, completions and the
   * average score; each count is bounded by the day's number of statements.
   */
  function DailyReportOf(day: int, g: seq<Statement>): (r: DailyActivityReport)
    ensures r.date == day && r.totalStatements == |g|
    ensures r.uniqueActors <= r.totalStatements && r.uniqueActivities <= r.totalStatements && r.completions <= r.totalStatements
    ensures r.uniqueActors == |IdSet(ByActor, g)| && r.uniqueActivities == |IdSet(ByActivity, g)|
    ensures r.completions == CompletedCount(g) && r.averageScore == AverageScore(g)
  {
    DailyActivityReport(day, |g|, CountUnique(ByActor, g), CountUnique(ByActivity, g), CompletedCount(g), AverageScore(g))
  }

  function DailyReports(statements: seq<Statement>, days: seq<int>): (r: seq<DailyActivityReport>)
    requires Timed(statements)
    ensures |r| == |days|
    ensures forall i :: 0 <= i < |r| ==> r[i] == DailyReportOf(days[i], DayGroup(statements, days[i]))
  {
    if days == [] then []
    else DailyReports(statements, days[..|days| - 1]) + [DailyReportOf(days[|days| - 1], DayGroup(statements, days[|days| - 1]))]
  }

  /** The distinct days of the statements, in ascending order. */
  function SortedDays(statements: seq<Statement>): (days: seq<int>)
    requires Timed(statements)
    ensures forall i, j :: 0 <= i < j < |days| ==> days[i] < days[j]
    ensures forall day :: day in days ==> day in Days(statements)
    ensures forall day :: day in Days(statements) ==> day in days
    ensures |days| == |Elements(Days(statements))|
  {
    var distinct := Distinct(Days(statements));
    var days := SortBy(distinct, day => day as real, Ascending);
    PermutationNoDups(distinct, days);
    DistinctCardinality(Days(statements));
    assert forall i, j :: 0 <= i < j < |days| ==> days[i] as real <= days[j] as real && days[i] != days[j];
    days
  }

  /**
   * generateDailyTrends: one entry per day that has statements, strictly
   * ascending by day.
   */
  function DailyTrends(statements: seq<Statement>): (r: seq<DailyActivityReport>)
    requires Timed(statements)
    ensures |r| == |Elements(Days(statements))|
    ensures forall i, j :: 0 <= i < j < |r| ==> r[i].date < r[j].date
    ensures forall i :: 0 <= i < |r| ==>
      r[i].date in Days(statements) && r[i].totalStatements >= 1 &&
      r[i] == DailyReportOf(r[i].date, DayGroup(statements, r[i].date))
  {
    DayGroupSizes(statements);
    DailyReports(statements, SortedDays(statements))
  }

  /** Every statement's day has its entry. */
  lemma DailyTrendsCover(statements: seq<Statement>, i: nat)
    requires Timed(statements) && i < |statements|
    ensures exists j :: 0 <= j < |DailyTrends(statements)| && DailyTrends(statements)[j].date == statements[i].timestamp.value.date
  {
    var days := SortedDays(statements);
    assert Days(statements)[i] in Days(statements);
    var j :| 0 <= j < |days| && days[j] == statements[i].timestamp.value.date;
    assert DailyTrends(statements)[j].date == days[j];
  }

  function DailyTotal(r: seq<DailyActivityReport>): nat {
    if r == [] then 0 else DailyTotal(r[..|r| - 1]) + r[|r| - 1].totalStatements
  }

  lemma {:induction false} DailyReportsTotal(statements: seq<Statement>, days: seq<int>)
    requires Timed(statements)
    ensures DailyTotal(DailyReports(statements, days)) == SumCounts(Days(statements), days)
  {
    if days != [] {
      var r := DailyReports(statements, days);
      DailyReportsTotal(statements, days[..|days| - 1]);
      DayGroupSize(statements, days[|days| - 1]);
      assert r[..|r| - 1] == DailyReports(statements, days[..|days| - 1]);
    }
  }

  /** The days partition the statements: the daily totals add up to their number. */
  lemma DailyTrendsTotal(statements: seq<Statement>)
    requires Timed(statements)
    ensures DailyTotal(DailyTrends(statements)) == |statements|
  {
    var days := SortedDays(statements);
    DailyReportsTotal(statements, days);
    assert NoDups(days);
    SumCountsCover(Days(statements), days);
  }

  // ---- The comprehensive report ----

  /**
   * generateComprehensiveReport over the statements of the period (the
   * repository query's result). With no statements every total is 0, every
   * list is empty and the overall score and rates are unset; otherwise the
   * figures are those of the helpers, with rankings cut to 10.
   */
  function ComprehensiveReportFor(now: DateTime, start: DateTime, end: DateTime, statements: seq<Statement>): (r: ComprehensiveReport)
    requires Timed(statements)
    ensures r.reportGeneratedAt == now && r.reportStartDate == start && r.reportEndDate == end
    ensures r.totalStatements == |statements|
    ensures statements == [] ==>
      r.totalActors == 0 && r.totalActivities == 0 && r.totalVerbs == 0 &&
      r.overallAverageScore == None && r.overallCompletionRate == None && r.overallSuccessRate == None &&
      r.verbBreakdown == [] && r.topPerformers == [] && r.mostPopularActivities == [] && r.dailyTrends == []
    ensures statements != [] ==>
      r.totalActors == |IdSet(ByActor, statements)| && r.totalActivities == |IdSet(ByActivity, statements)| &&
      r.totalVerbs == |IdSet(ByVerb, statements)| &&
      r.overallAverageScore == Some(AverageScore(statements)) &&
      r.overallCompletionRate == Some(CompletionRate(statements)) && 0.0 <= r.overallCompletionRate.value <= 100.0 &&
      r.overallSuccessRate == Some(SuccessRate(statements)) && 0.0 <= r.overallSuccessRate.value <= 100.0 &&
      r.verbBreakdown == VerbBreakdown(statements) && r.topPerformers == TopPerformers(statements, 10) &&
      r.mostPopularActivities == MostPopularActivities(statements, 10) && r.dailyTrends == DailyTrends(statements)
    ensures r.totalActors <= r.totalStatements && r.totalActivities <= r.totalStatements && r.totalVerbs <= r.totalStatements
    ensures |r.topPerformers| <= 10 && |r.mostPopularActivities| <= 10
  {
    if statements == [] then
      ComprehensiveReport(now, start, end, 0, 0, 0, 0, None, None, None, [], [], [], [])
    else
      PopulatedReport(now, start, end, statements)
  }

  /** The comprehensive report over a non-empty period. */
  function PopulatedReport(now: DateTime, start: DateTime, end: DateTime, statements: seq<Statement>): (r: ComprehensiveReport)
    requires Timed(statements) && statements != []
    ensures r.reportGeneratedAt == now && r.reportStartDate == start && r.reportEndDate == end
    ensures r.totalStatements == |statements|
    ensures r.totalActors == |IdSet(ByActor, statements)| && r.totalActivities == |IdSet(ByActivity, statements)| &&
      r.totalVerbs == |IdSet(ByVerb, statements)|
    ensures r.totalActors <= r.totalStatements && r.totalActivities <= r.totalStatements && r.totalVerbs <= r.totalStatements
    ensures r.overallAverageScore == Some(AverageScore(statements))
    ensures r.overallCompletionRate == Some(CompletionRate(statements)) && 0.0 <= r.overallCompletionRate.value <= 100.0
    ensures r.overallSuccessRate == Some(SuccessRate(statements)) && 0.0 <= r.overallSuccessRate.value <= 100.0
    ensures r.verbBreakdown == VerbBreakdown(statements) && r.topPerformers == TopPerformers(statements, 10)
    ensures r.mostPopularActivities == MostPopularActivities(statements, 10) && r.dailyTrends == DailyTrends(statements)
    ensures |r.topPerformers| <= 10 && |r.mostPopularActivities| <= 10
  {
    assert TimedWhere(ByActor, statements) && TimedWhere(ByActivity, statements);
    ComprehensiveReport(now, start, end, |statements|,
      CountUnique(ByActor, statements), CountUnique(ByActivity, statements), CountUnique(ByVerb, statements),
      Some(AverageScore(statements)), Some(CompletionRate(statements)), Some(SuccessRate(statements)),
      VerbBreakdown(statements), TopPerformers(statements, 10), MostPopularActivities(statements, 10),
      DailyTrends(statements))
  }

  /** The daily trends of the comprehensive report account for every statement of the period. */
  lemma ComprehensiveDailyTotal(now: DateTime, start: DateTime, end: DateTime, statements: seq<Statement>)
    requires Timed(statements)
    ensures var r := ComprehensiveReportFor(now, start, end, statements);
      DailyTotal(r.dailyTrends) == r.totalStatements
  {
    DailyTrendsTotal(statements);
  }
}
