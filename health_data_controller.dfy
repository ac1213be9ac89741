/**
 * The snapshot-and-send state machine of the iOS bridge: a controller that
 * holds the latest metric snapshot, replaces it wholesale on every fetch cycle
 * and uploads it on request.
 */
module HealthBridge {
  import opened Wrappers
  import opened Decimal
  import opened HealthSamples

  const StepsKey: string := "steps"
  const HeartRateKey: string := "heart_rate_resting"
  const SleepKey: string := "sleep_duration_minutes"

  /** The only keys a snapshot can ever hold. */
  const MetricKeys: set<string> := {StepsKey, HeartRateKey, SleepKey}

  const UploadUrl: string := "https://YOUR_API_BASE_URL/health-metrics"

  /** Resting heart rate as displayed: the whole number of beats per minute
      followed by " bpm"; the number reads back from what precedes the suffix. */
  function HeartRateDisplay(bpm: int): (s: string)
    ensures |s| > 4 && s[|s| - 4..] == " bpm"
    ensures ParseDecimal(s[..|s| - 4]) == Some(bpm)
  {
    var digits := IntToDecimal(bpm);
    assert (digits + " bpm")[..|digits|] == digits;
    digits + " bpm"
  }

  /** `m` holds exactly the given display values: each key is present when
      its value is, with that value, and no other key is present. */
  ghost predicate HoldsExactly(m: map<string, string>, steps: Option<string>, restingRate: Option<string>, sleep: Option<string>) {
    && m.Keys <= MetricKeys
    && (StepsKey in m <==> steps.Some?) && (steps.Some? ==> m[StepsKey] == steps.value)
    && (HeartRateKey in m <==> restingRate.Some?) && (restingRate.Some? ==> m[HeartRateKey] == restingRate.value)
    && (SleepKey in m <==> sleep.Some?) && (sleep.Some? ==> m[SleepKey] == sleep.value)
  }

  function StepsDisplay(steps: Option<int>): Option<string> {
    if steps.Some? then Some(IntToDecimal(steps.value)) else None
  }

  function RestingRateDisplay(restingRate: Option<int>): Option<string> {
    if restingRate.Some? then Some(HeartRateDisplay(restingRate.value)) else None
  }

  function SleepDisplay(sleep: Option<Minutes>): Option<string> {
    if sleep.Some? then Some(IntToDecimal(WholeMinutes(sleep.value))) else None
  }

  /** `m` is the snapshot one fetch cycle assembles from the three fetch
      results: each key is present exactly when its fetch produced a value and
      carries that value's rendering, and no other key is present. */
  ghost predicate IsSnapshotOf(m: map<string, string>, steps: Option<int>, restingRate: Option<int>, sleep: Option<Minutes>) {
    HoldsExactly(m, StepsDisplay(steps), RestingRateDisplay(restingRate), SleepDisplay(sleep))
  }

  /** The three metric keys are different strings. */
  lemma KeysDistinct()
    ensures StepsKey != HeartRateKey && StepsKey != SleepKey && HeartRateKey != SleepKey
  {
  }

  function Bit(present: bool): nat {
    if present then 1 else 0
  }

  /** A map over three distinct keys has one entry per key present. */
  lemma ThreeSlotSize<K, V>(m: map<K, V>, k1: K, k2: K, k3: K, p1: bool, p2: bool, p3: bool)
    requires k1 != k2 && k1 != k3 && k2 != k3
    requires m.Keys <= {k1, k2, k3}
    requires (k1 in m <==> p1) && (k2 in m <==> p2) && (k3 in m <==> p3)
    ensures |m| == Bit(p1) + Bit(p2) + Bit(p3)
  {
    var a: set<K> := if p1 then {k1} else {};
    var b: set<K> := if p2 then {k2} else {};
    var c: set<K> := if p3 then {k3} else {};
    assert m.Keys == a + b + c;
    assert |a + b| == |a| + |b|;
    assert |a + b + c| == |a + b| + |c|;
  }

  /** Two maps over the same three distinct keys that agree on whether each
      key is present and on its value are the same map. */
  lemma ThreeSlotDetermined<K, V>(m1: map<K, V>, m2: map<K, V>, k1: K, k2: K, k3: K)
    requires m1.Keys <= {k1, k2, k3} && m2.Keys <= {k1, k2, k3}
    requires (k1 in m1 <==> k1 in m2) && (k1 in m1 ==> m1[k1] == m2[k1])
    requires (k2 in m1 <==> k2 in m2) && (k2 in m1 ==> m1[k2] == m2[k2])
    requires (k3 in m1 <==> k3 in m2) && (k3 in m1 ==> m1[k3] == m2[k3])
    ensures m1 == m2
  {
    assert m1.Keys == m2.Keys;
  }

  /** The three fetch results determine the snapshot completely: nothing of
      the previous snapshot can survive a cycle. */
  lemma SnapshotDetermined(m1: map<string, string>, m2: map<string, string>,
                           steps: Option<int>, restingRate: Option<int>, sleep: Option<Minutes>)
    requires IsSnapshotOf(m1, steps, restingRate, sleep)
    requires IsSnapshotOf(m2, steps, restingRate, sleep)
    ensures m1 == m2
  {
    ThreeSlotDetermined(m1, m2, StepsKey, HeartRateKey, SleepKey);
  }

  /** A snapshot holds one entry per fetch that produced a value, hence at most
      three, and a cycle in which every fetch came back empty publishes the
      empty snapshot. */
  lemma SnapshotSize(m: map<string, string>, steps: Option<int>, restingRate: Option<int>, sleep: Option<Minutes>)
    requires IsSnapshotOf(m, steps, restingRate, sleep)
    ensures |m| == Bit(steps.Some?) + Bit(restingRate.Some?) + Bit(sleep.Some?)
    ensures |m| <= 3
    ensures steps.None? && restingRate.None? && sleep.None? ==> m == map[]
  {
    KeysDistinct();
    ThreeSlotSize(m, StepsKey, HeartRateKey, SleepKey, steps.Some?, restingRate.Some?, sleep.Some?);
  }

  /** A step count of 8421 with no resting heart rate and no sleep sample in
      the window gives exactly the snapshot {"steps": "8421"}. */
  lemma StepsOnlySnapshot(m: map<string, string>)
    ensures IsSnapshotOf(m, Some(8421), None, None) <==> m == map[StepsKey := "8421"]
  {
    assert NatToDigits(8) == "8";
    assert NatToDigits(84) == "84";
    assert NatToDigits(842) == "842";
    assert NatToDigits(8421) == "8421";
    if IsSnapshotOf(m, Some(8421), None, None) {
      assert m.Keys == {StepsKey};
    }
  }

  /** What the transport delivered for the upload: a transport error, a
      response that is not HTTP, or an HTTP response with this status. */
  datatype Response = TransportFailure | NonHttpResponse | HttpResponse(statusCode: int)

  /** The POST that carries a snapshot: bearer authorisation, a JSON content
      type and the snapshot itself as the body. */
  datatype Request = Request(httpMethod: string, url: string, authorization: string,
                             contentType: string, body: map<string, string>)

  /** Errors `sendMetrics` throws: its own NSError in domain "HealthBridge"
      with a code and a description, or the transport's error passed through. */
  datatype SendError = BridgeError(code: int, description: string) | TransportError

  const NoMetricsLoaded: SendError := BridgeError(1, "No metrics loaded")
  const ServerRejected: SendError := BridgeError(2, "Server rejected request")

  datatype SendOutcome = Sent | Failed(error: SendError)

  predicate IsSuccessStatus(code: int) {
    200 <= code < 300
  }

  predicate Accepted(response: Response) {
    response.HttpResponse? && IsSuccessStatus(response.statusCode)
  }

  function UploadRequest(token: string, snapshot: map<string, string>): Request {
    Request("POST", UploadUrl, "Bearer " + token, "application/json", snapshot)
  }

  class HealthDataController {
    var metrics: map<string, string>

    /** Every snapshot the controller holds uses only the three metric keys. */
    ghost predicate Valid()
      reads this
    {
      metrics.Keys <= MetricKeys
    }

    constructor ()
      ensures Valid() && metrics == map[]
    {
      metrics := map[];
    }

    /** One fetch cycle: the three fetch helpers run in turn on what their
        queries produced, a local dictionary is filled by conditional inserts,
        and only then does it replace `metrics` as a whole. */
    method LoadLatestMetrics(stepQuery: QueryResult, restingQuery: QueryResult, sleepQuery: QueryResult)
      modifies this
      ensures Valid()
      ensures IsSnapshotOf(metrics, MostRecentQuantitySample(stepQuery),
                           MostRecentQuantitySample(restingQuery), MostRecentSleepMinutes(sleepQuery))
    {
      var results: map<string, string> := map[];

      var steps := MostRecentQuantitySample(stepQuery);
      if steps.Some? {
        results := results[StepsKey := IntToDecimal(steps.value)];
      }

      var restingRate := MostRecentQuantitySample(restingQuery);
      if restingRate.Some? {
        results := results[HeartRateKey := HeartRateDisplay(restingRate.value)];
      }

      var minutes := MostRecentSleepMinutes(sleepQuery);
      if minutes.Some? {
        results := results[SleepKey := IntToDecimal(WholeMinutes(minutes.value))];
      }

      metrics := results;
    }

    /** Upload of the current snapshot. An empty snapshot fails with code 1
        before any request exists; otherwise the request carries the snapshot
        and the token, and the upload succeeds exactly when the reply is an HTTP
        response with a 2xx status. The method has no `modifies` clause, so the
        snapshot is left as it was. */
    method SendMetrics(token: string, response: Response) returns (outcome: SendOutcome, sent: Option<Request>)
      requires Valid()
      ensures sent.Some? ==> sent.value.body.Keys <= MetricKeys
      ensures metrics == map[] ==> sent == None && outcome == Failed(NoMetricsLoaded)
      ensures metrics != map[] ==> sent == Some(UploadRequest(token, metrics))
      ensures metrics != map[] ==> (outcome == Sent <==> Accepted(response))
      ensures metrics != map[] && response.TransportFailure? ==> outcome == Failed(TransportError)
      ensures metrics != map[] && !response.TransportFailure? && !Accepted(response) ==> outcome == Failed(ServerRejected)
    {
      if metrics == map[] {
        return Failed(NoMetricsLoaded), None;
      }

      var request := UploadRequest(token, metrics);
      sent := Some(request);

      if response.TransportFailure? {
        return Failed(TransportError), sent;
      }
      if !(response.HttpResponse? && 200 <= response.statusCode < 300) {
        return Failed(ServerRejected), sent;
      }
      outcome := Sent;
    }
  }

  /** A caller's view: a cycle that finds only 500 steps, then an upload the
      server acknowledges with 201 and one it refuses with 401. */
  method UploadScenario() {
    var controller := new HealthDataController();
    controller.LoadLatestMetrics(Returned([QuantitySample(500)]), Returned([]), Threw);
    assert "steps" in controller.metrics;
    var outcome, sent := controller.SendMetrics("abc", HttpResponse(201));
    assert outcome == Sent && sent.Some? && sent.value.authorization == "Bearer abc";
    outcome, sent := controller.SendMetrics("abc", HttpResponse(401));
    assert outcome == Failed(ServerRejected);

    var empty := new HealthDataController();
    outcome, sent := empty.SendMetrics("abc", HttpResponse(200));
    assert outcome == Failed(NoMetricsLoaded) && sent == None;
  }
}
