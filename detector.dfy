/** The reading pipeline of the anomaly-detection service (ML/backend/app.py):
    per-device sliding buffers, threshold rules, the nearest-waypoint search,
    the ensemble risk label, categories and the capped newest-first alert list.
    The two models are not run here: their outputs on the current windows are
    inputs (`ModelOutputs`), used only when the source would call the models. */
module Detector {
  import opened Wrappers
  import opened Geo

  // ---------------------------------------------------------------------------
  // Configuration
  // ---------------------------------------------------------------------------

  /** Readings kept per device; the LSTM sequence length. */
  const SEQ_LEN: nat := 30
  /** Readings the isolation forest needs before it is consulted. */
  const IF_WINDOW: nat := 10
  /** Allowed distance, in metres, to the nearest expected waypoint. */
  const DIST_TOL_M: real := 30.0
  const TEMP_MIN: real := 18.0
  const TEMP_MAX: real := 30.0
  const HUM_MIN: real := 10.0
  const HUM_MAX: real := 90.0
  const W_LSTM: real := 0.7
  const W_IF: real := 0.3
  const ENSEMBLE_HIGH: real := 0.8
  const ENSEMBLE_MED: real := 0.5
  /** `lstm_norm` above this counts as an environment anomaly. */
  const LSTM_ENV_NORM: real := 0.6
  /** Alerts kept for the dashboard. */
  const MAX_ALERTS: nat := 200
  /** GET /alerts returns this many when no limit is given. */
  const DEFAULT_ALERT_LIMIT: int := 50

  // ---------------------------------------------------------------------------
  // Values
  // ---------------------------------------------------------------------------

  /** One buffered reading; temperature and humidity already converted with `float`. */
  datatype Reading = Reading(ts: real, temp: real, hum: real, lat: Option<real>, lon: Option<real>, weight: Option<real>)

  /** The entries of the rule-alert list of one reading. */
  datatype RuleAlert =
    | MissingReading              // "sensor_failure" / "missing_temp_or_hum"
    | TempOutOfRange(value: real) // "environment_anomaly" / "temp_out_of_range"
    | HumOutOfRange(value: real)  // "environment_anomaly" / "hum_out_of_range"
    | OffExpectedRoute(distanceM: real) // "route_deviation" / "distance_m"

  predicate IsEnvironmentAnomaly(a: RuleAlert) {
    a.TempOutOfRange? || a.HumOutOfRange?
  }

  datatype Risk = Low | Medium | High

  datatype Category = SensorFailure | EnvironmentAnomaly | RouteDeviation | SuspiciousBehavior | NoCategory

  /** What the isolation forest and the LSTM autoencoder would report on the current
      windows: the forest's anomaly verdict and decision score, the reconstruction
      error and its mapping `1 - exp(-error / 100)` into [0, 1] (1 only when `exp`
      underflows). */
  datatype ModelOutputs = ModelOutputs(ifPrediction: bool, ifScore: real, lstmError: real, lstmNorm: real)

  predicate ValidModelOutputs(m: ModelOutputs) {
    0.0 <= m.lstmError && 0.0 <= m.lstmNorm <= 1.0
  }

  /** The dictionary `process_reading` returns. */
  datatype Summary = Summary(
    alerts: seq<RuleAlert>,
    ifAnomaly: bool,
    ifScore: real,
    lstmError: real,
    lstmNorm: real,
    ensembleScore: real,
    risk: Risk,
    categories: set<Category>,
    alertLogged: bool)

  /** An entry of ALERTS: the device, its reading and the fields of the summary. */
  datatype AlertRecord = AlertRecord(device: string, reading: Reading, result: Summary)

  /** A call of `process_reading` either returns its summary or raises, which it does
      when temperature or humidity is missing (`float(None)`). */
  datatype ReadingOutcome = Processed(summary: Summary) | ConversionError

  // ---------------------------------------------------------------------------
  // Nearest expected waypoint
  // ---------------------------------------------------------------------------

  /** The index the search loop holds after visiting `route[..n]`: the first point at
      the least distance, because only a strictly smaller distance replaces it. */
  function FirstNearest(route: seq<Coord>, lat: real, lon: real, metres: DistanceFn, n: nat): (r: Option<nat>)
    requires n <= |route|
    ensures r.None? <==> n == 0
    ensures r.Some? ==> r.value < n
    ensures r.Some? ==> forall j :: 0 <= j < n ==>
      metres(lat, lon, route[r.value].lat, route[r.value].lon) <= metres(lat, lon, route[j].lat, route[j].lon)
    ensures r.Some? ==> forall j :: 0 <= j < r.value ==>
      metres(lat, lon, route[j].lat, route[j].lon) > metres(lat, lon, route[r.value].lat, route[r.value].lon)
    decreases n
  {
    if n == 0 then None
    else
      var p := FirstNearest(route, lat, lon, metres, n - 1);
      var d := metres(lat, lon, route[n - 1].lat, route[n - 1].lon);
      if p.None? || d < metres(lat, lon, route[p.value].lat, route[p.value].lon) then Some(n - 1) else p
  }

  /** `nearest_expected_point`: `(None, None)` for an empty route, otherwise the first
      route point at the least distance and that distance. */
  method NearestExpectedPoint(route: seq<Coord>, lat: real, lon: real, metres: DistanceFn)
    returns (best: Option<Coord>, bestD: Option<real>)
    ensures route == [] ==> best.None? && bestD.None?
    ensures route != [] ==> best.Some? && bestD.Some?
    ensures best.Some? ==> exists i :: (0 <= i < |route| && FirstNearest(route, lat, lon, metres, |route|) == Some(i)
      && best.value == route[i] && bestD.value == metres(lat, lon, route[i].lat, route[i].lon))
    ensures bestD.Some? ==> forall j :: 0 <= j < |route| ==> bestD.value <= metres(lat, lon, route[j].lat, route[j].lon)
  {
    if route == [] {
      return None, None;
    }
    best, bestD := None, None;  // bestD == None stands for float('inf')
    var idx: Option<nat> := None;
    for i := 0 to |route|
      invariant idx == FirstNearest(route, lat, lon, metres, i)
      invariant idx.None? ==> best.None? && bestD.None?
      invariant idx.Some? ==> (idx.value < |route| && best == Some(route[idx.value])
        && bestD == Some(metres(lat, lon, route[idx.value].lat, route[idx.value].lon)))
    {
      var d := metres(lat, lon, route[i].lat, route[i].lon);
      if bestD.None? || d < bestD.value {
        bestD, best, idx := Some(d), Some(route[i]), Some(i);
      }
    }
  }

  /** The distance the route check compares with `DIST_TOL_M`: none when the reading has
      no position or the route is empty. */
  function RouteDistance(route: seq<Coord>, lat: Option<real>, lon: Option<real>, metres: DistanceFn): (r: Option<real>)
    ensures r.Some? <==> lat.Some? && lon.Some? && route != []
    ensures r.Some? ==> forall j :: 0 <= j < |route| ==> r.value <= metres(lat.value, lon.value, route[j].lat, route[j].lon)
    ensures r.Some? ==> exists j :: 0 <= j < |route| && r.value == metres(lat.value, lon.value, route[j].lat, route[j].lon)
  {
    if lat.Some? && lon.Some? && route != [] then
      var i := FirstNearest(route, lat.value, lon.value, metres, |route|).value;
      Some(metres(lat.value, lon.value, route[i].lat, route[i].lon))
    else None
  }

  // ---------------------------------------------------------------------------
  // Classification (pure)
  // ---------------------------------------------------------------------------

  /** The order in which stage 0 appends its alerts: temperature, humidity, route. */
  function AlertRank(a: RuleAlert): nat {
    match a
    case MissingReading => 0
    case TempOutOfRange(_) => 1
    case HumOutOfRange(_) => 2
    case OffExpectedRoute(_) => 3
  }

  /** Stage 0: the threshold rules on a reading whose temperature and humidity are present. */
  function RuleAlerts(temp: real, hum: real, routeDistance: Option<real>): (r: seq<RuleAlert>)
    ensures TempOutOfRange(temp) in r <==> temp < TEMP_MIN || temp > TEMP_MAX
    ensures HumOutOfRange(hum) in r <==> hum < HUM_MIN || hum > HUM_MAX
    ensures (exists a :: a in r && a.OffExpectedRoute?) <==> routeDistance.Some? && routeDistance.value > DIST_TOL_M
    ensures forall a :: a in r ==>
      a == TempOutOfRange(temp) || a == HumOutOfRange(hum) || (routeDistance.Some? && a == OffExpectedRoute(routeDistance.value))
    ensures MissingReading !in r
    ensures forall i, j :: 0 <= i < j < |r| ==> AlertRank(r[i]) < AlertRank(r[j])
    ensures |r| == (if temp < TEMP_MIN || temp > TEMP_MAX then 1 else 0)
                 + (if hum < HUM_MIN || hum > HUM_MAX then 1 else 0)
                 + (if routeDistance.Some? && routeDistance.value > DIST_TOL_M then 1 else 0)
  {
    var env := EnvAlerts(temp, hum);
    if routeDistance.Some? && routeDistance.value > DIST_TOL_M then
      var off := OffExpectedRoute(routeDistance.value);
      assert off in env + [off];
      env + [off]
    else env
  }

  /** The threshold part of stage 0: a temperature alert, then a humidity alert. */
  function EnvAlerts(temp: real, hum: real): seq<RuleAlert> {
    (if temp < TEMP_MIN || temp > TEMP_MAX then [TempOutOfRange(temp)] else [])
      + (if hum < HUM_MIN || hum > HUM_MAX then [HumOutOfRange(hum)] else [])
  }

  /** Stages 1 and 2 are gated on the buffer: the forest needs `IF_WINDOW` readings and
      the autoencoder exactly `SEQ_LEN`; otherwise their contributions are `False`/0. */
  function EffectiveOutputs(bufLen: nat, m: ModelOutputs): (r: ModelOutputs)
    requires ValidModelOutputs(m)
    ensures ValidModelOutputs(r)
    ensures r.ifPrediction == (bufLen >= IF_WINDOW && m.ifPrediction)
    ensures r.ifScore == (if bufLen >= IF_WINDOW then m.ifScore else 0.0)
    ensures bufLen == SEQ_LEN ==> r.lstmError == m.lstmError && r.lstmNorm == m.lstmNorm
    ensures bufLen != SEQ_LEN ==> r.lstmError == 0.0 && r.lstmNorm == 0.0
  {
    var ifOk := bufLen >= IF_WINDOW;
    var lstmOk := bufLen == SEQ_LEN;
    ModelOutputs(ifOk && m.ifPrediction, if ifOk then m.ifScore else 0.0,
                 if lstmOk then m.lstmError else 0.0, if lstmOk then m.lstmNorm else 0.0)
  }

  /** `W_LSTM * lstm_norm + W_IF * if_norm`: in [0, 1]; at least 0.3 with a forest
      anomaly and at most 0.7 without one. */
  function EnsembleScore(lstmNorm: real, ifAnomaly: bool): (r: real)
    requires 0.0 <= lstmNorm <= 1.0
    ensures 0.0 <= r <= 1.0
    ensures ifAnomaly ==> W_IF <= r
    ensures !ifAnomaly ==> r <= W_LSTM
  {
    W_LSTM * lstmNorm + W_IF * (if ifAnomaly then 1.0 else 0.0)
  }

  /** The final risk label: three bands of the ensemble score. */
  function RiskLabel(score: real): (r: Risk)
    ensures r == High <==> score >= ENSEMBLE_HIGH
    ensures r == Medium <==> ENSEMBLE_MED <= score < ENSEMBLE_HIGH
    ensures r == Low <==> score < ENSEMBLE_MED
  {
    if score >= ENSEMBLE_HIGH then High
    else if score >= ENSEMBLE_MED then Medium
    else Low
  }

  function RiskRank(r: Risk): nat {
    match r
    case Low => 0
    case Medium => 1
    case High => 2
  }

  /** A higher score never gets a lower label. */
  lemma RiskLabelMonotone(a: real, b: real)
    requires a <= b
    ensures RiskRank(RiskLabel(a)) <= RiskRank(RiskLabel(b))
  {
  }

  /** With the weights 0.7 and 0.3, HIGH needs both models: a forest anomaly and an
      LSTM score of at least 5/7; without a forest anomaly the label is at most MEDIUM,
      which needs an LSTM score of at least 5/7. */
  lemma RiskFromModels(lstmNorm: real, ifAnomaly: bool)
    requires 0.0 <= lstmNorm <= 1.0
    ensures RiskLabel(EnsembleScore(lstmNorm, ifAnomaly)) == High <==> ifAnomaly && lstmNorm >= 5.0 / 7.0
    ensures !ifAnomaly ==> (RiskLabel(EnsembleScore(lstmNorm, ifAnomaly)) == Medium <==> lstmNorm >= 5.0 / 7.0)
    ensures ifAnomaly ==> (RiskLabel(EnsembleScore(lstmNorm, ifAnomaly)) == Medium <==> 2.0 / 7.0 <= lstmNorm < 5.0 / 7.0)
  {
  }

  /** The category heuristics: one category per kind of evidence, and "none" exactly
      when there is no other. */
  function Categories(alerts: seq<RuleAlert>, lstmNorm: real, score: real): (r: set<Category>)
    ensures r != {}
    ensures NoCategory in r <==> r == {NoCategory}
    ensures SensorFailure in r <==> exists a :: a in alerts && a.MissingReading?
    ensures EnvironmentAnomaly in r <==> (exists a :: a in alerts && IsEnvironmentAnomaly(a)) || lstmNorm > LSTM_ENV_NORM
    ensures RouteDeviation in r <==> exists a :: a in alerts && a.OffExpectedRoute?
    ensures SuspiciousBehavior in r <==> score >= ENSEMBLE_HIGH
  {
    var found :=
      (if exists a :: a in alerts && a.MissingReading? then {SensorFailure} else {})
      + (if (exists a :: a in alerts && IsEnvironmentAnomaly(a)) || lstmNorm > LSTM_ENV_NORM then {EnvironmentAnomaly} else {})
      + (if exists a :: a in alerts && a.OffExpectedRoute? then {RouteDeviation} else {})
      + (if score >= ENSEMBLE_HIGH then {SuspiciousBehavior} else {});
    if found == {} then {NoCategory} else found
  }

  /** Whether a reading is logged to ALERTS: a HIGH or MEDIUM risk, or any rule alert. */
  predicate ShouldLog(risk: Risk, alerts: seq<RuleAlert>) {
    risk == High || risk == Medium || alerts != []
  }

  /** Everything `process_reading` computes from a reading once its buffer has `bufLen` entries. */
  function Evaluate(bufLen: nat, temp: real, hum: real, routeDistance: Option<real>, m: ModelOutputs): (s: Summary)
    requires ValidModelOutputs(m)
    ensures s.alerts == RuleAlerts(temp, hum, routeDistance)
    ensures ModelOutputs(s.ifAnomaly, s.ifScore, s.lstmError, s.lstmNorm) == EffectiveOutputs(bufLen, m)
    ensures s.ifAnomaly == (bufLen >= IF_WINDOW && m.ifPrediction)
    ensures 0.0 <= s.lstmNorm <= 1.0 && s.ensembleScore == EnsembleScore(s.lstmNorm, s.ifAnomaly)
    ensures s.risk == RiskLabel(s.ensembleScore)
    ensures s.categories == Categories(s.alerts, s.lstmNorm, s.ensembleScore)
    ensures SuspiciousBehavior in s.categories <==> s.risk == High
    ensures s.alertLogged <==> s.risk != Low || s.alerts != []
    ensures bufLen < IF_WINDOW ==> s.ensembleScore == 0.0 && s.risk == Low && (s.alertLogged <==> s.alerts != [])
  {
    var alerts := RuleAlerts(temp, hum, routeDistance);
    var e := EffectiveOutputs(bufLen, m);
    var score := EnsembleScore(e.lstmNorm, e.ifPrediction);
    var risk := RiskLabel(score);
    Summary(alerts, e.ifPrediction, e.ifScore, e.lstmError, e.lstmNorm, score, risk,
            Categories(alerts, e.lstmNorm, score), ShouldLog(risk, alerts))
  }

  /** A processed reading never gets the sensor-failure category: a missing temperature
      or humidity raises in the conversion before the rule checks are reached. */
  lemma NoSensorFailureWhenProcessed(bufLen: nat, temp: real, hum: real, routeDistance: Option<real>, m: ModelOutputs)
    requires ValidModelOutputs(m)
    ensures SensorFailure !in Evaluate(bufLen, temp, hum, routeDistance, m).categories
  {
  }

  // ---------------------------------------------------------------------------
  // Buffers and the alert list
  // ---------------------------------------------------------------------------

  /** A device buffer after `append(reading)` and, when it is then too long, `pop(0)`. */
  function Slide(buf: seq<Reading>, x: Reading): (r: seq<Reading>)
    ensures |buf| < SEQ_LEN ==> r == buf + [x]
    ensures |buf| >= SEQ_LEN ==> r == buf[1..] + [x]
  {
    var b := buf + [x];
    if |b| > SEQ_LEN then b[1..] else b
  }

  /** The newest `SEQ_LEN` readings of `s` (all of them when there are fewer). */
  function Window(s: seq<Reading>): (r: seq<Reading>)
    ensures |r| <= SEQ_LEN
  {
    if |s| <= SEQ_LEN then s else s[|s| - SEQ_LEN..]
  }

  /** The buffer after one slide per reading of `xs`, oldest first. */
  function SlideAll(buf: seq<Reading>, xs: seq<Reading>): seq<Reading>
    decreases |xs|
  {
    if xs == [] then buf else SlideAll(Slide(buf, xs[0]), xs[1..])
  }

  lemma WindowOfWindow(s: seq<Reading>, t: seq<Reading>)
    ensures Window(Window(s) + t) == Window(s + t)
  {
    if |s| > SEQ_LEN {
      SuffixOfAppend(s, t, SEQ_LEN);
    }
  }

  /** The last `n` elements of `s + t` only depend on the last `n` elements of `s`. */
  lemma SuffixOfAppend<T>(s: seq<T>, t: seq<T>, n: nat)
    requires n <= |s|
    ensures (s[|s| - n..] + t)[|t|..] == (s + t)[|s + t| - n..]
  {
    var x, y := (s[|s| - n..] + t)[|t|..], (s + t)[|s + t| - n..];
    forall k | 0 <= k < n ensures x[k] == y[k] {
      if |t| + k < n {
        assert x[k] == s[|s| - n + |t| + k];
      } else {
        assert x[k] == t[|t| + k - n];
      }
    }
  }

  /** However many readings arrive, a device buffer that starts within the cap holds
      exactly the newest `SEQ_LEN` of them, oldest first, ending with the last one. */
  lemma {:induction false} SlideAllKeepsNewest(buf: seq<Reading>, xs: seq<Reading>)
    requires |buf| <= SEQ_LEN
    ensures SlideAll(buf, xs) == Window(buf + xs)
    decreases |xs|
  {
    if xs != [] {
      var b := Slide(buf, xs[0]);
      SlideIsWindow(buf, xs[0]);
      SlideAllKeepsNewest(b, xs[1..]);
      WindowOfWindow(buf + [xs[0]], xs[1..]);
      SplitFirst(buf, xs);
    } else {
      assert buf + xs == buf;
    }
  }

  /** One slide of a buffer within the cap keeps the newest `SEQ_LEN` readings. */
  lemma SlideIsWindow(buf: seq<Reading>, x: Reading)
    requires |buf| <= SEQ_LEN
    ensures Slide(buf, x) == Window(buf + [x])
  {
  }

  /** Moving the first element of `xs` to the end of `s`. */
  lemma SplitFirst<T>(s: seq<T>, xs: seq<T>)
    requires xs != []
    ensures s + [xs[0]] + xs[1..] == s + xs
  {
    assert [xs[0]] + xs[1..] == xs;
  }

  /** ALERTS after `insert(0, alert)` and, when it is then too long, `pop()`. */
  function PushAlert(alerts: seq<AlertRecord>, a: AlertRecord): (r: seq<AlertRecord>)
    ensures |alerts| < MAX_ALERTS ==> r == [a] + alerts
    ensures |alerts| >= MAX_ALERTS ==> r == [a] + alerts[..|alerts| - 1]
  {
    var b := [a] + alerts;
    if |b| > MAX_ALERTS then b[..|b| - 1] else b
  }

  /** The first `MAX_ALERTS` entries of `s` (all of them when there are fewer). */
  function Cap(s: seq<AlertRecord>): (r: seq<AlertRecord>)
    ensures |r| <= MAX_ALERTS
  {
    if |s| <= MAX_ALERTS then s else s[..MAX_ALERTS]
  }

  /** A helper for stating `PushAllKeepsNewest`: `s` in reverse order, so that the
      newest of a run of records, pushed oldest first, comes first. */
  function Reversed(s: seq<AlertRecord>): (r: seq<AlertRecord>)
    ensures |r| == |s|
  {
    if s == [] then [] else Reversed(s[1..]) + [s[0]]
  }

  /** ALERTS after one push per record of `as`, oldest first. */
  function PushAll(alerts: seq<AlertRecord>, recs: seq<AlertRecord>): seq<AlertRecord>
    decreases |recs|
  {
    if recs == [] then alerts else PushAll(PushAlert(alerts, recs[0]), recs[1..])
  }

  lemma CapOfCap(t: seq<AlertRecord>, s: seq<AlertRecord>)
    ensures Cap(t + Cap(s)) == Cap(t + s)
  {
    if |s| > MAX_ALERTS {
      var x, y := t + s[..MAX_ALERTS], t + s;
      forall k | 0 <= k < |x| ensures x[k] == y[k] {
        if k >= |t| {
          assert x[k] == s[k - |t|] == y[k];
        }
      }
      assert Cap(x) == Cap(y) by {
        assert |Cap(x)| == |Cap(y)|;
      }
    }
  }

  /** However many alerts are logged, an alert list that starts within the cap holds
      exactly the newest `MAX_ALERTS` of them, newest first. */
  lemma {:induction false} PushAllKeepsNewest(alerts: seq<AlertRecord>, recs: seq<AlertRecord>)
    requires |alerts| <= MAX_ALERTS
    ensures PushAll(alerts, recs) == Cap(Reversed(recs) + alerts)
    decreases |recs|
  {
    if recs != [] {
      var p := PushAlert(alerts, recs[0]);
      assert p == Cap([recs[0]] + alerts);
      assert PushAll(alerts, recs) == PushAll(p, recs[1..]);
      PushAllKeepsNewest(p, recs[1..]);
      CapOfCap(Reversed(recs[1..]), [recs[0]] + alerts);
      ReversedCons(recs, alerts);
    } else {
      assert Reversed(recs) + alerts == alerts;
    }
  }

  lemma ReversedCons(recs: seq<AlertRecord>, alerts: seq<AlertRecord>)
    requires recs != []
    ensures Reversed(recs[1..]) + ([recs[0]] + alerts) == Reversed(recs) + alerts
  {
    var t := Reversed(recs[1..]);
    assert Reversed(recs) == t + [recs[0]];
    AppendAssoc(t, [recs[0]], alerts);
  }

  lemma AppendAssoc<T>(a: seq<T>, b: seq<T>, c: seq<T>)
    ensures (a + b) + c == a + (b + c)
  {
  }

  /** Python's `s[:limit]` on the alert list: a prefix, `limit` long when it is
      non-negative, all but the last `-limit` entries when it is negative. */
  function PrefixSlice(s: seq<AlertRecord>, limit: int): (r: seq<AlertRecord>)
    ensures |r| <= |s| && r == s[..|r|]
    ensures limit >= 0 ==> |r| == if limit < |s| then limit else |s|
    ensures limit < 0 ==> |r| == if |s| + limit > 0 then |s| + limit else 0
  {
    var end := if limit >= 0 then (if limit < |s| then limit else |s|)
               else (if |s| + limit > 0 then |s| + limit else 0);
    s[..end]
  }

  /** Stage 0 of `process_reading`: the temperature and humidity thresholds, then, for
      a reading with a position, the distance to the nearest expected waypoint. */
  method RuleChecks(t: real, h: real, lat: Option<real>, lon: Option<real>, route: seq<Coord>, metres: DistanceFn)
    returns (ruleAlerts: seq<RuleAlert>, routeDistance: Option<real>)
    ensures routeDistance == RouteDistance(route, lat, lon, metres)
    ensures ruleAlerts == RuleAlerts(t, h, routeDistance)
  {
    ruleAlerts := [];
    if t < TEMP_MIN || t > TEMP_MAX {
      ruleAlerts := ruleAlerts + [TempOutOfRange(t)];
    }
    if h < HUM_MIN || h > HUM_MAX {
      ruleAlerts := ruleAlerts + [HumOutOfRange(h)];
    }
    assert ruleAlerts == EnvAlerts(t, h);
    routeDistance := RouteCheck(lat, lon, route, metres);
    if routeDistance.Some? && routeDistance.value > DIST_TOL_M {
      ruleAlerts := ruleAlerts + [OffExpectedRoute(routeDistance.value)];
    }
  }

  /** The route part of stage 0: the distance to the nearest expected waypoint, for a
      reading with a position. */
  method RouteCheck(lat: Option<real>, lon: Option<real>, route: seq<Coord>, metres: DistanceFn)
    returns (routeDistance: Option<real>)
    ensures routeDistance == RouteDistance(route, lat, lon, metres)
  {
    routeDistance := None;
    if lat.Some? && lon.Some? {
      var nearest, dist := NearestExpectedPoint(route, lat.value, lon.value, metres);
      routeDistance := dist;
    }
  }

  /** Stage 3's category list, one `append` per kind of evidence, "none" when empty. */
  method CategoriesOf(ruleAlerts: seq<RuleAlert>, lstmNorm: real, score: real) returns (categories: set<Category>)
    ensures categories == Categories(ruleAlerts, lstmNorm, score)
  {
    categories := {};
    if exists a :: a in ruleAlerts && a.MissingReading? {
      categories := categories + {SensorFailure};
    }
    if (exists a :: a in ruleAlerts && IsEnvironmentAnomaly(a)) || lstmNorm > LSTM_ENV_NORM {
      categories := categories + {EnvironmentAnomaly};
    }
    if exists a :: a in ruleAlerts && a.OffExpectedRoute? {
      categories := categories + {RouteDeviation};
    }
    if score >= ENSEMBLE_HIGH {
      categories := categories + {SuspiciousBehavior};
    }
    if categories == {} {
      categories := {NoCategory};
    }
  }

  /** Stage 3 of `process_reading` on the rule alerts and the admitted model outputs:
      the ensemble score, its risk label, the categories and whether to log. */
  method Assess(ruleAlerts: seq<RuleAlert>, ifAnomaly: bool, lstmNorm: real)
    returns (score: real, risk: Risk, categories: set<Category>, logged: bool)
    requires 0.0 <= lstmNorm <= 1.0
    ensures score == EnsembleScore(lstmNorm, ifAnomaly)
    ensures risk == RiskLabel(score)
    ensures categories == Categories(ruleAlerts, lstmNorm, score)
    ensures logged == ShouldLog(risk, ruleAlerts)
  {
    score := W_LSTM * lstmNorm + W_IF * (if ifAnomaly then 1.0 else 0.0);
    if score >= ENSEMBLE_HIGH {
      risk := High;
    } else if score >= ENSEMBLE_MED {
      risk := Medium;
    } else {
      risk := Low;
    }
    categories := CategoriesOf(ruleAlerts, lstmNorm, score);
    logged := risk == High || risk == Medium || ruleAlerts != [];
  }

  /** Stages 0 to 3 of `process_reading` on a reading whose temperature `t` and
      humidity `h` are present and whose device buffer now has `bufLen` entries:
      the rule checks (with the nearest-waypoint search when the reading has a
      position), the model outputs the buffer length admits, the ensemble score,
      the risk label, the categories and whether the reading is logged. */
  method Classify(bufLen: nat, t: real, h: real, lat: Option<real>, lon: Option<real>,
                  route: seq<Coord>, m: ModelOutputs, metres: DistanceFn) returns (s: Summary)
    requires ValidModelOutputs(m)
    ensures s == Evaluate(bufLen, t, h, RouteDistance(route, lat, lon, metres), m)
  {
    // Stage 0: rule checks
    var ruleAlerts, routeDistance := RuleChecks(t, h, lat, lon, route, metres);

    // Stages 1 and 2: the models, when the buffer is long enough
    var ifAnomaly, ifScore := false, 0.0;
    if bufLen >= IF_WINDOW {
      ifAnomaly, ifScore := m.ifPrediction, m.ifScore;
    }
    var lstmError, lstmNorm := 0.0, 0.0;
    if bufLen == SEQ_LEN {
      lstmError, lstmNorm := m.lstmError, m.lstmNorm;
    }

    assert ModelOutputs(ifAnomaly, ifScore, lstmError, lstmNorm) == EffectiveOutputs(bufLen, m);

    // Stage 3: ensemble, risk, categories
    var score, risk, categories, logged := Assess(ruleAlerts, ifAnomaly, lstmNorm);
    s := Summary(ruleAlerts, ifAnomaly, ifScore, lstmError, lstmNorm, score, risk, categories, logged);
  }

  /** Every device buffer of the map is within the cap. */
  ghost predicate BuffersCapped(buffers: map<string, seq<Reading>>) {
    forall d :: d in buffers ==> |buffers[d]| <= SEQ_LEN
  }

  /** Storing a buffer within the cap keeps every buffer of the map within it, and a
      second store under the same device replaces the first. */
  lemma StoreBuffer(buffers: map<string, seq<Reading>>, device: string, first: seq<Reading>, buf: seq<Reading>)
    requires BuffersCapped(buffers) && |buf| <= SEQ_LEN
    ensures BuffersCapped(buffers[device := buf])
    ensures buffers[device := first][device := buf] == buffers[device := buf]
  {
  }

  // ---------------------------------------------------------------------------
  // The service's state (DEVICE_BUFFERS, ALERTS, EXPECTED_ROUTE)
  // ---------------------------------------------------------------------------

  class Service {
    /** DEVICE_BUFFERS: device id to its recent readings, oldest first. */
    var buffers: map<string, seq<Reading>>
    /** ALERTS: the logged alerts, newest first. */
    var alerts: seq<AlertRecord>
    /** EXPECTED_ROUTE, loaded once at start-up. */
    const expectedRoute: seq<Coord>

    ghost predicate Valid()
      reads this
    {
      && |alerts| <= MAX_ALERTS
      && BuffersCapped(buffers)
    }

    constructor (route: seq<Coord>)
      ensures Valid() && buffers == map[] && alerts == [] && expectedRoute == route
    {
      buffers := map[];
      alerts := [];
      expectedRoute := route;
    }

    /** `process_reading`. A missing temperature or humidity raises before any rule is
        checked, leaving only an empty buffer for a new device. Otherwise the reading
        slides into the device buffer, the summary is `Evaluate` on the new buffer
        length, and the alert is pushed to the front of ALERTS exactly when the summary
        says it was logged. `m` is what the two models report, `metres` the haversine distance. */
    method ProcessReading(device: string, ts: real, lat: Option<real>, lon: Option<real>,
                          temp: Option<real>, hum: Option<real>, weight: Option<real>,
                          m: ModelOutputs, metres: DistanceFn) returns (outcome: ReadingOutcome)
      requires Valid() && ValidModelOutputs(m)
      modifies this
      ensures Valid()
      ensures temp.None? || hum.None? ==>
        && outcome == ConversionError
        && buffers == old(buffers)[device := if device in old(buffers) then old(buffers)[device] else []]
        && alerts == old(alerts)
      ensures temp.Some? && hum.Some? ==>
        var reading := Reading(ts, temp.value, hum.value, lat, lon, weight);
        var buf := Slide(if device in old(buffers) then old(buffers)[device] else [], reading);
        var s := Evaluate(|buf|, temp.value, hum.value, RouteDistance(expectedRoute, lat, lon, metres), m);
        && buffers == old(buffers)[device := buf]
        && outcome == Processed(s)
        && alerts == (if s.alertLogged then PushAlert(old(alerts), AlertRecord(device, reading, s)) else old(alerts))
    {
      // buffer maintenance
      var before := if device in buffers then buffers[device] else [];
      StoreBuffer(buffers, device, before, before);
      ghost var old0 := buffers;
      if device !in buffers {  // setdefault
        buffers := buffers[device := []];
      }
      assert buffers == old0[device := before];
      if temp.None? || hum.None? {
        return ConversionError;
      }
      var reading := Reading(ts, temp.value, hum.value, lat, lon, weight);
      var buf := before + [reading];
      if |buf| > SEQ_LEN {
        buf := buf[1..];
      }
      assert buf == Slide(before, reading);
      StoreBuffer(old0, device, before, buf);
      buffers := buffers[device := buf];

      var s := Classify(|buf|, temp.value, hum.value, lat, lon, expectedRoute, m, metres);

      // ALERTS: insert at the front, drop the oldest beyond MAX_ALERTS
      if s.alertLogged {
        var rec := AlertRecord(device, reading, s);
        var next := [rec] + alerts;
        if |next| > MAX_ALERTS {
          next := next[..|next| - 1];
        }
        assert next == PushAlert(alerts, rec);
        alerts := next;
      }
      return Processed(s);
    }

    /** GET /alerts: `ALERTS[:limit]`, with 50 when no limit is given. */
    function GetAlerts(limit: Option<int>): (r: seq<AlertRecord>)
      reads this
      ensures |r| <= |alerts| && r == alerts[..|r|]
      ensures r == PrefixSlice(alerts, if limit.Some? then limit.value else DEFAULT_ALERT_LIMIT)
    {
      PrefixSlice(alerts, if limit.Some? then limit.value else DEFAULT_ALERT_LIMIT)
    }
  }
}
