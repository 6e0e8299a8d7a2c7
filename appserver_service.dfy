/**
 * The pure parts of the Appserver client: the model statistics computed from the
 * `/about` answer, and the body sent to start a task. Fetching `/about`, sending the
 * request and the `catch → null` paths are not modelled; the already-fetched answer
 * (or its absence) is the input.
 */
module AppserverService {
  import opened Wrappers
  import opened Text

  /** One entry of the `/about` model list. `ModeldataTimestamp` is a C# `long`. */
  datatype ModelInfo = ModelInfo(
    ModelId: string,
    Version: string,
    Status: string,
    ModeldataTimestamp: int,
    ModelDefinitionVersion: int,
    IsRealTime: bool)

  /** The `/about` answer: the application server version and its models. */
  datatype AboutOutputView = AboutOutputView(AppServerVersion: string, Models: seq<ModelInfo>)

  /** The body of a task-execution request. */
  datatype TaskExecutionRequest = TaskExecutionRequest(Start: bool, Reason: string)

  // ---------------------------------------------------------------------------
  // Counting models
  // ---------------------------------------------------------------------------

  /** A model is up when its status reads "Up", compared without regard to case. */
  function IsUp(m: ModelInfo): (up: bool)
    ensures up <==> ToLower(m.Status) == "up"
  {
    LowerUp("Up");
    EqualsIgnoreCase(m.Status, "Up")
  }

  /** The number of models that satisfy `p` (LINQ `Count(p)`). */
  function CountWhere(ms: seq<ModelInfo>, p: ModelInfo -> bool): (n: nat)
    ensures n <= |ms|
  {
    if ms == [] then 0 else (if p(ms[0]) then 1 else 0) + CountWhere(ms[1..], p)
  }

  /** The number of models that do not satisfy `p` (LINQ `Count(m => !p(m))`). */
  function CountWhereNot(ms: seq<ModelInfo>, p: ModelInfo -> bool): (n: nat)
    ensures n <= |ms|
  {
    if ms == [] then 0 else (if p(ms[0]) then 0 else 1) + CountWhereNot(ms[1..], p)
  }

  /** Every model is counted by exactly one of a predicate and its negation. */
  lemma {:induction false} CountComplement(ms: seq<ModelInfo>, p: ModelInfo -> bool)
    ensures CountWhere(ms, p) + CountWhereNot(ms, p) == |ms|
  {
    if ms != [] {
      CountComplement(ms[1..], p);
    }
  }

  /** Counting distributes over concatenation of model lists. */
  lemma {:induction false} CountAppend(a: seq<ModelInfo>, b: seq<ModelInfo>, p: ModelInfo -> bool)
    ensures CountWhere(a + b, p) == CountWhere(a, p) + CountWhere(b, p)
  {
    if a == [] {
      assert a + b == b;
    } else {
      assert (a + b)[1..] == a[1..] + b;
      CountAppend(a[1..], b, p);
    }
  }

  /** The count is the whole list exactly when every model satisfies `p`, and zero exactly when none does. */
  lemma {:induction false} CountExtremes(ms: seq<ModelInfo>, p: ModelInfo -> bool)
    ensures CountWhere(ms, p) == |ms| <==> forall i :: 0 <= i < |ms| ==> p(ms[i])
    ensures CountWhere(ms, p) == 0 <==> forall i :: 0 <= i < |ms| ==> !p(ms[i])
  {
    if ms != [] {
      CountExtremes(ms[1..], p);
      assert forall i :: 1 <= i < |ms| ==> ms[i] == ms[1..][i - 1];
    }
  }

  // ---------------------------------------------------------------------------
  // The latest data timestamp
  // ---------------------------------------------------------------------------

  /** The largest `ModeldataTimestamp` of a non-empty list (LINQ `Max`). */
  function MaxTimestamp(ms: seq<ModelInfo>): (t: int)
    requires |ms| >= 1
    ensures forall i :: 0 <= i < |ms| ==> ms[i].ModeldataTimestamp <= t
    ensures exists i :: 0 <= i < |ms| && ms[i].ModeldataTimestamp == t
  {
    if |ms| == 1 then
      assert ms[0].ModeldataTimestamp == ms[0].ModeldataTimestamp;
      ms[0].ModeldataTimestamp
    else
      var rest := MaxTimestamp(ms[1..]);
      assert forall i :: 1 <= i < |ms| ==> ms[i] == ms[1..][i - 1];
      if ms[0].ModeldataTimestamp >= rest then ms[0].ModeldataTimestamp else rest
  }

  /** `latest_model_timestamp`: 0 for no models, otherwise the largest timestamp. */
  function LatestTimestamp(ms: seq<ModelInfo>): (t: int)
    ensures ms == [] ==> t == 0
    ensures ms != [] ==> exists i :: 0 <= i < |ms| && ms[i].ModeldataTimestamp == t
    ensures forall i :: 0 <= i < |ms| ==> ms[i].ModeldataTimestamp <= t
  {
    if ms == [] then 0 else MaxTimestamp(ms)
  }

  /** The latest timestamp does not depend on the order of the models: any rearrangement gives the same value. */
  lemma LatestTimestampOrderFree(a: seq<ModelInfo>, b: seq<ModelInfo>)
    requires multiset(a) == multiset(b)
    ensures LatestTimestamp(a) == LatestTimestamp(b)
  {
    assert |a| == |multiset(a)| == |multiset(b)| == |b|;
    if a != [] {
      forall x | x in a
        ensures x in b
      {
        assert x in multiset(a);
      }
      forall x | x in b
        ensures x in a
      {
        assert x in multiset(b);
      }
      LatestTimestampBounded(a, b);
      LatestTimestampBounded(b, a);
    }
  }

  /** When every model of `a` also occurs in `b`, the latest timestamp of `a` is no later than that of `b`. */
  lemma LatestTimestampBounded(a: seq<ModelInfo>, b: seq<ModelInfo>)
    requires a != [] && forall x :: x in a ==> x in b
    ensures LatestTimestamp(a) <= LatestTimestamp(b)
  {
    var i :| 0 <= i < |a| && a[i].ModeldataTimestamp == LatestTimestamp(a);
    assert a[i] in a;
    var j :| 0 <= j < |b| && b[j] == a[i];
  }

  // ---------------------------------------------------------------------------
  // The statistics dictionary
  // ---------------------------------------------------------------------------

  function UpTest(): ModelInfo -> bool {
    (m: ModelInfo) => IsUp(m)
  }

  function RealTimeTest(): ModelInfo -> bool {
    (m: ModelInfo) => m.IsRealTime
  }

  /** The keys of the statistics dictionary. */
  const StatisticsKeys: set<string> :=
    {"total_models", "models_up", "models_down", "real_time_models", "batch_models", "latest_model_timestamp"}

  /** The value stored under one key of the statistics dictionary. */
  function StatisticsEntry(ms: seq<ModelInfo>, key: string): int {
    if key == "total_models" then |ms|
    else if key == "models_up" then CountWhere(ms, UpTest())
    else if key == "models_down" then CountWhereNot(ms, UpTest())
    else if key == "real_time_models" then CountWhere(ms, RealTimeTest())
    else if key == "batch_models" then CountWhereNot(ms, RealTimeTest())
    else LatestTimestamp(ms)
  }

  /** The six statistics computed from the model list. */
  function Statistics(ms: seq<ModelInfo>): (stats: map<string, int>)
    ensures stats.Keys == StatisticsKeys
  {
    map key | key in StatisticsKeys :: StatisticsEntry(ms, key)
  }

  /** `GetModelStatisticsAsync` given the `/about` answer: absent exactly when the answer is absent. */
  function ModelStatistics(about: Option<AboutOutputView>): (r: Option<map<string, int>>)
    ensures r.None? <==> about.None?
    ensures r.Some? ==> r.value == Statistics(about.value.Models)
  {
    match about
    case None => None
    case Some(info) => Some(Statistics(info.Models))
  }

  /** Each entry of the dictionary holds the count its key names. */
  lemma StatisticsEntries(ms: seq<ModelInfo>)
    ensures Statistics(ms)["total_models"] == |ms|
    ensures Statistics(ms)["models_up"] == CountWhere(ms, UpTest())
    ensures Statistics(ms)["models_down"] == CountWhereNot(ms, UpTest())
    ensures Statistics(ms)["real_time_models"] == CountWhere(ms, RealTimeTest())
    ensures Statistics(ms)["batch_models"] == CountWhereNot(ms, RealTimeTest())
    ensures Statistics(ms)["latest_model_timestamp"] == LatestTimestamp(ms)
  {
  }

  /** Up and down models add up to the total, and so do real-time and batch models. */
  lemma StatisticsPartitionModels(ms: seq<ModelInfo>)
    ensures Statistics(ms)["models_up"] + Statistics(ms)["models_down"] == Statistics(ms)["total_models"]
    ensures Statistics(ms)["real_time_models"] + Statistics(ms)["batch_models"] == Statistics(ms)["total_models"]
  {
    StatisticsEntries(ms);
    CountComplement(ms, UpTest());
    CountComplement(ms, RealTimeTest());
  }

  /** All models are up exactly when the up count is the total, and exactly when the down count is zero. */
  lemma StatisticsAllUp(ms: seq<ModelInfo>)
    ensures Statistics(ms)["models_up"] == |ms| <==> forall i :: 0 <= i < |ms| ==> IsUp(ms[i])
    ensures Statistics(ms)["models_down"] == 0 <==> forall i :: 0 <= i < |ms| ==> IsUp(ms[i])
  {
    StatisticsEntries(ms);
    CountExtremes(ms, UpTest());
    CountComplement(ms, UpTest());
  }

  /** No model is real-time exactly when the real-time count is zero, and then every model is a batch model. */
  lemma StatisticsNoRealTime(ms: seq<ModelInfo>)
    ensures Statistics(ms)["real_time_models"] == 0 <==> forall i :: 0 <= i < |ms| ==> !ms[i].IsRealTime
    ensures Statistics(ms)["real_time_models"] == 0 <==> Statistics(ms)["batch_models"] == |ms|
  {
    StatisticsEntries(ms);
    CountExtremes(ms, RealTimeTest());
    CountComplement(ms, RealTimeTest());
  }

  /** The status test ignores case: "up", "UP" and "Up" all count as up, and a status counts as up only if it lower-cases to "up". */
  lemma UpIgnoresCase(m: ModelInfo)
    ensures m.Status == "up" || m.Status == "UP" || m.Status == "Up" ==> IsUp(m)
    ensures IsUp(m) <==> ToLower(m.Status) == "up"
  {
    if m.Status == "up" || m.Status == "UP" {
      LowerUp(m.Status);
    }
  }

  // ---------------------------------------------------------------------------
  // Task execution body
  // ---------------------------------------------------------------------------

  /** The fallback reason sent when the caller gives none. */
  const DefaultReason: string := "Automated execution"

  /** The body `ExecuteTaskAsync` posts: always starts, carries the reason or the fallback. */
  function TaskExecutionBody(reason: Option<string>): (body: TaskExecutionRequest)
    ensures body.Start
    ensures reason.Some? ==> body.Reason == reason.value
    ensures reason.None? ==> body.Reason == DefaultReason
  {
    TaskExecutionRequest(true, reason.GetOr(DefaultReason))
  }

  // ---------------------------------------------------------------------------
  // Proof helpers
  // ---------------------------------------------------------------------------

  /** "up" in lower case. */
  lemma LowerUp(s: string)
    requires s == "Up" || s == "up" || s == "UP"
    ensures ToLower(s) == "up"
  {
    ToLowerPointwise(s, "up");
  }
}
