/** The metrics of cached objects and how reports update them
    (pkg/consolegraphql/non_kubernetes_types.go:73-153, pkg/consolegraphql/watchers/resource_watcher_agent.go:506-565, 736-783). */
module AgentMetrics {
  import opened ConsoleCache

  /** How many samples a rate keeps. */
  const RATE_SAMPLES := 100

  /** FindOrCreateSimpleMetric and FindOrCreateRateCalculatingMetric. */
  function FindOrCreate(m: Metrics, name: string): Metric { if name in m then m[name] else Metric(0, 0, []) }

  function WithValue(m: Metrics, name: string, v: int, now: int): Metrics {
    m[name := FindOrCreate(m, name).(value := v, time := now)]
  }

  /** The ring of samples after one more: the oldest goes when it is full. */
  function Pushed(series: seq<Sample>, s: Sample): (r: seq<Sample>)
    ensures r != [] && r[|r| - 1] == s && (|series| <= RATE_SAMPLES ==> |r| <= RATE_SAMPLES)
  {
    (if |series| < RATE_SAMPLES then series else series[1..]) + [s]
  }

  function WithSample(m: Metrics, name: string, v: int, now: int): Metrics {
    var old_ := FindOrCreate(m, name);
    m[name := old_.(series := Pushed(old_.series, Sample(v, now)), time := now)]
  }

  // ----- Several updates -----

  /** A value set, or a sample added to a rate. */
  datatype Update = Sets(name: string, v: int) | Samples(name: string, v: int)

  function Made(m: Metrics, u: Update, now: int): Metrics {
    if u.Sets? then WithValue(m, u.name, u.v, now) else WithSample(m, u.name, u.v, now)
  }

  function AllMade(m: Metrics, us: seq<Update>, now: int): Metrics
    decreases |us|
  {
    if us == [] then m else AllMade(Made(m, us[0], now), us[1..], now)
  }

  lemma MadeTwo(m: Metrics, u: Update, v: Update, us: seq<Update>, now: int)
    ensures AllMade(m, [u, v] + us, now) == AllMade(Made(Made(m, u, now), v, now), us, now)
    ensures AllMade(m, [], now) == m && AllMade(Made(Made(m, u, now), v, now), [], now) == Made(Made(m, u, now), v, now)
  {
    assert ([u, v] + us)[1..] == [v] + us && ([v] + us)[1..] == us;
  }

  lemma MadeOne(m: Metrics, u: Update, now: int)
    ensures AllMade(m, [u], now) == Made(m, u, now)
  {
    assert [u][1..] == [];
  }

  /** No metric is updated twice. */
  ghost predicate DistinctNames(us: seq<Update>) { forall i, j :: 0 <= i < j < |us| ==> us[i].name != us[j].name }

  // ----- What a metric says afterwards -----

  /** The metric of that name has the value and the time, and its samples from before. */
  predicate IsSet(m: Metrics, r: Metrics, name: string, v: int, now: int) {
    name in r && r[name] == Metric(v, now, FindOrCreate(m, name).series)
  }

  /** The metric of that name has the sample as its last one and the time, and its value from before. */
  predicate IsSampled(m: Metrics, r: Metrics, name: string, v: int, now: int) {
    name in r && r[name].series == Pushed(FindOrCreate(m, name).series, Sample(v, now)) && r[name].time == now
    && r[name].value == FindOrCreate(m, name).value
  }

  predicate KeptAt(m: Metrics, r: Metrics, n: string) { (n in r <==> n in m) && (n in m && n in r ==> r[n] == m[n]) }

  ghost predicate AllKeptBut(m: Metrics, r: Metrics, names: set<string>) { forall n :: n !in names ==> KeptAt(m, r, n) }

  predicate IsMade(m: Metrics, r: Metrics, u: Update, now: int) {
    if u.Sets? then IsSet(m, r, u.name, u.v, now) else IsSampled(m, r, u.name, u.v, now)
  }

  lemma MadeAt(m: Metrics, u: Update, now: int, n: string)
    ensures IsMade(m, Made(m, u, now), u, now) && (n != u.name ==> KeptAt(m, Made(m, u, now), n))
  {
  }

  lemma KeptBoth(m: Metrics, r: Metrics, s: Metrics, u: Update, now: int)
    ensures KeptAt(m, r, u.name) && IsMade(r, s, u, now) ==> IsMade(m, s, u, now)
    ensures IsMade(m, r, u, now) && KeptAt(r, s, u.name) ==> IsMade(m, s, u, now)
  {
    hide Pushed;
  }

  lemma {:induction false} KeptByAll(m: Metrics, us: seq<Update>, now: int, n: string)
    requires forall u :: u in us ==> u.name != n
    ensures KeptAt(m, AllMade(m, us, now), n)
    decreases |us|
  {
    hide Made;
    if us != [] {
      assert us[0] in us && forall u :: u in us[1..] ==> u in us;
      MadeAt(m, us[0], now, n);
      KeptByAll(Made(m, us[0], now), us[1..], now, n);
    }
  }

  /** Every update is made, and the metrics that none of them names are as before. */
  lemma {:induction false} AllMadeAt(m: Metrics, us: seq<Update>, now: int, i: nat)
    requires DistinctNames(us) && i < |us|
    ensures IsMade(m, AllMade(m, us, now), us[i], now)
    decreases |us|
  {
    hide Made, IsMade, KeptAt;
    var m1 := Made(m, us[0], now);
    MadeAt(m, us[0], now, us[i].name);
    if i == 0 {
      KeptByAll(m1, us[1..], now, us[0].name);
      KeptBoth(m, m1, AllMade(m, us, now), us[0], now);
    } else {
      AllMadeAt(m1, us[1..], now, i - 1);
      KeptBoth(m, m1, AllMade(m, us, now), us[i], now);
    }
  }

  /** No metric is lost, and one that is new or changed bears the time of the report. */
  ghost predicate Touched(m: Metrics, r: Metrics, now: int) {
    (forall n :: n in m ==> n in r) && forall n :: n in r && (n !in m || r[n] != m[n]) ==> r[n].time == now
  }

  lemma TouchedOnce(m: Metrics, r: Metrics, u: Update, now: int)
    requires Touched(m, r, now)
    ensures Touched(m, Made(r, u, now), now)
  {
    hide Pushed;
  }

  lemma {:induction false} TouchedOn(m: Metrics, r: Metrics, us: seq<Update>, now: int)
    requires Touched(m, r, now)
    ensures Touched(m, AllMade(r, us, now), now)
    decreases |us|
  {
    hide Touched, Made;
    if us != [] {
      TouchedOnce(m, r, us[0], now);
      TouchedOn(m, Made(r, us[0], now), us[1..], now);
    }
  }

  lemma AllMadeTouch(m: Metrics, us: seq<Update>, now: int)
    ensures Touched(m, AllMade(m, us, now), now)
  {
    TouchedOn(m, m, us, now);
  }
}
