/**
 * `summaryStats`: for each generation the first run sampled, the values of
 * all runs at that generation, sorted, and reduced to mean, nearest-rank
 * median and quartiles, minimum and maximum. No runs means no summary.
 */
module Summary {
  import opened Wrappers
  import opened Sorting
  import opened Draws
  import opened Simulation
  import opened Trajectories

  datatype SummaryPoint = SummaryPoint(
    generation: nat,
    mean: real,
    median: real,
    q25: real,
    q75: real,
    min: real,
    max: real)

  /** `run.find(d => d.generation === gen)`, as the index it finds. */
  function FindPoint(run: seq<Point>, gen: nat): (r: Option<nat>)
    ensures r.Some? ==> (r.value < |run| && run[r.value].generation == gen &&
      forall k :: 0 <= k < r.value ==> run[k].generation != gen)
    ensures r.None? ==> forall k :: 0 <= k < |run| ==> run[k].generation != gen
  {
    if |run| == 0 then None
    else if run[0].generation == gen then Some(0)
    else match FindPoint(run[1..], gen)
      case None => None
      case Some(i) => Some(i + 1)
  }

  /** `run.find(...)?.total_divergence || 0`: the divergence found, or 0. */
  function ValueAt(run: seq<Point>, gen: nat): real {
    match FindPoint(run, gen)
    case None => 0.0
    case Some(i) => run[i].divergence
  }

  /** The values of every run at generation `gen`, in run order. */
  function Values(results: seq<seq<Point>>, gen: nat): (v: seq<real>)
    ensures |v| == |results| && forall r :: 0 <= r < |results| ==> v[r] == ValueAt(results[r], gen)
  {
    seq(|results|, r requires 0 <= r < |results| => ValueAt(results[r], gen))
  }

  function Identity(v: real): real { v }

  /** `values.reduce((a, b) => a + b, 0)`. */
  function Sum(s: seq<real>): real {
    if |s| == 0 then 0.0 else Sum(s[..|s| - 1]) + s[|s| - 1]
  }

  /** `Math.floor(n * 0.25)`. */
  function LowerQuartileIndex(n: nat): (k: nat)
    ensures 4 * k <= n < 4 * k + 4
  {
    var r := n as real * 0.25;
    assert r >= 0.0;
    r.Floor
  }

  /** `Math.floor(n * 0.75)`. */
  function UpperQuartileIndex(n: nat): (k: nat)
    ensures 4 * k <= 3 * n < 4 * k + 4
  {
    var r := n as real * 0.75;
    assert r >= 0.0;
    r.Floor
  }

  /** The summary of one generation's values. */
  function Stats(gen: nat, values: seq<real>): SummaryPoint
    requires |values| > 0
  {
    var sorted := Sort(values, Identity);
    var n := |sorted|;
    SummaryPoint(gen, Sum(sorted) / n as real, sorted[n / 2],
      sorted[LowerQuartileIndex(n)], sorted[UpperQuartileIndex(n)], sorted[0], sorted[n - 1])
  }

  /** `summaryStats`: None without runs; otherwise one point per point of the first run. */
  function SummaryStats(results: seq<seq<Point>>): (r: Option<seq<SummaryPoint>>)
    ensures r.None? <==> |results| == 0
    ensures r.Some? ==> (|r.value| == |results[0]| &&
      forall i :: 0 <= i < |r.value| ==> r.value[i].generation == results[0][i].generation)
  {
    if |results| == 0 then None
    else
      var gens := results[0];
      Some(seq(|gens|, i requires 0 <= i < |gens| => Stats(gens[i].generation, Values(results, gens[i].generation))))
  }

  /** The nearest-rank indices all fall inside the values and are ordered. */
  lemma QuartileIndices(n: nat)
    requires n >= 1
    ensures 0 <= LowerQuartileIndex(n) <= n / 2 <= UpperQuartileIndex(n) <= n - 1
  {
  }

  lemma {:induction false} SumBounds(s: seq<real>, lo: real, hi: real)
    requires forall i :: 0 <= i < |s| ==> lo <= s[i] <= hi
    ensures |s| as real * lo <= Sum(s) <= |s| as real * hi
  {
    if |s| > 0 {
      SumBounds(s[..|s| - 1], lo, hi);
    }
  }

  lemma {:induction false} SumRemove(s: seq<real>, i: nat)
    requires i < |s|
    ensures Sum(s) == Sum(s[..i] + s[i + 1..]) + s[i]
  {
    var t := s[..i] + s[i + 1..];
    if i == |s| - 1 {
      assert t == s[..|s| - 1];
    } else {
      var init := s[..|s| - 1];
      SumRemove(init, i);
      assert t[..|t| - 1] == init[..i] + init[i + 1..];
      assert t[|t| - 1] == s[|s| - 1];
    }
  }

  /** The sum does not depend on the order of the values. */
  lemma {:induction false} SumPermutation(a: seq<real>, b: seq<real>)
    requires multiset(a) == multiset(b)
    ensures Sum(a) == Sum(b)
    decreases |a|
  {
    if |a| == 0 {
      assert |b| == |multiset(b)| == 0;
    } else {
      var x := a[|a| - 1];
      var a' := a[..|a| - 1];
      assert a == a' + [x];
      assert x in multiset(b) by { assert x in multiset(a); }
      var i :| 0 <= i < |b| && b[i] == x;
      var b' := b[..i] + b[i + 1..];
      assert b == b[..i] + [x] + b[i + 1..];
      assert multiset(b) == multiset(b') + multiset{x};
      assert multiset(a) == multiset(a') + multiset{x};
      Cancel(multiset(a'), multiset(b'), x);
      SumPermutation(a', b');
      SumRemove(b, i);
    }
  }

  /** A sorted arrangement of `values` has its first and last elements as
      bounds and holds only elements of `values`. */
  lemma SortedBounds(values: seq<real>)
    requires |values| > 0
    ensures forall i :: 0 <= i < |values| ==>
      Sort(values, Identity)[0] <= values[i] <= Sort(values, Identity)[|values| - 1]
    ensures forall k :: 0 <= k < |values| ==> Sort(values, Identity)[k] in values
    ensures forall k :: 0 <= k < |values| ==>
      Sort(values, Identity)[0] <= Sort(values, Identity)[k] <= Sort(values, Identity)[|values| - 1]
  {
    var sorted := Sort(values, Identity);
    var n := |sorted|;
    SortCorrect(values, Identity);
    forall i | 0 <= i < |values|
      ensures sorted[0] <= values[i] <= sorted[n - 1]
    {
      assert values[i] in multiset(sorted) by { assert values[i] in multiset(values); }
      var j :| 0 <= j < n && sorted[j] == values[i];
      assert Identity(sorted[0]) <= Identity(sorted[j]) <= Identity(sorted[n - 1]);
    }
    forall k | 0 <= k < n
      ensures sorted[k] in values
    {
      assert sorted[k] in multiset(values) by { assert sorted[k] in multiset(sorted); }
      assert Identity(sorted[0]) <= Identity(sorted[k]) <= Identity(sorted[n - 1]);
    }
  }

  /** The order statistics of one generation's summary are ordered. */
  lemma StatsOrdered(gen: nat, values: seq<real>)
    requires |values| > 0
    ensures Stats(gen, values).min <= Stats(gen, values).q25 <= Stats(gen, values).median
      <= Stats(gen, values).q75 <= Stats(gen, values).max
  {
    SortCorrect(values, Identity);
    RanksOrdered(Sort(values, Identity));
  }

  /** In a sorted sequence the nearest-rank picks are ordered by rank. */
  lemma RanksOrdered(sorted: seq<real>)
    requires |sorted| > 0 && SortedBy(sorted, Identity)
    ensures sorted[0] <= sorted[LowerQuartileIndex(|sorted|)] <= sorted[|sorted| / 2]
      <= sorted[UpperQuartileIndex(|sorted|)] <= sorted[|sorted| - 1]
  {
    var n := |sorted|;
    QuartileIndices(n);
    var lo, hi := LowerQuartileIndex(n), UpperQuartileIndex(n);
    assert Identity(sorted[0]) <= Identity(sorted[lo]) <= Identity(sorted[n / 2]);
    assert Identity(sorted[n / 2]) <= Identity(sorted[hi]) <= Identity(sorted[n - 1]);
  }

  lemma MeanBetween(total: real, n: nat, lo: real, hi: real)
    requires n > 0 && n as real * lo <= total <= n as real * hi
    ensures lo <= total / n as real <= hi
  {
  }

  /** Every value lies between the summary's min and max, and so does the mean. */
  lemma StatsRange(gen: nat, values: seq<real>)
    requires |values| > 0
    ensures forall i :: 0 <= i < |values| ==> Stats(gen, values).min <= values[i] <= Stats(gen, values).max
    ensures Stats(gen, values).min <= Stats(gen, values).mean <= Stats(gen, values).max
  {
    var sorted := Sort(values, Identity);
    var n := |sorted|;
    SortedBounds(values);
    SumBounds(sorted, sorted[0], sorted[n - 1]);
    MeanBetween(Sum(sorted), n, sorted[0], sorted[n - 1]);
  }

  /** The mean is the values' sum over their number, whatever their order;
      the median and quartiles are among the values. */
  lemma StatsMean(gen: nat, values: seq<real>)
    requires |values| > 0
    ensures Stats(gen, values).mean == Sum(values) / |values| as real
    ensures Stats(gen, values).median in values && Stats(gen, values).q25 in values
      && Stats(gen, values).q75 in values
  {
    SortCorrect(values, Identity);
    SumPermutation(Sort(values, Identity), values);
    SortedBounds(values);
    QuartileIndices(|values|);
  }

  /** In a spaced trajectory the point for generation i * interval is point i. */
  lemma FindSpaced(t: seq<Point>, interval: nat, i: nat)
    requires interval > 0 && Spaced(t, interval) && i < |t|
    ensures FindPoint(t, t[i].generation) == Some(i)
  {
    var r := FindPoint(t, t[i].generation);
    if r.Some? && r.value != i {
      assert r.value < i;
      MultipleIncreasing(r.value, i, interval);
      assert false;
    }
  }

  /** When every run records the same shape, the values summarised at the i-th
      generation of the first run are the i-th points of every run. */
  lemma AlignedValues(results: seq<seq<Point>>, cfg: Config, i: nat)
    requires |results| > 0 && i < |results[0]|
    requires forall r :: 0 <= r < |results| ==> Recorded(results[r], cfg)
    ensures forall r :: 0 <= r < |results| ==>
      i < |results[r]| &&
      Values(results, results[0][i].generation)[r] == results[r][i].divergence &&
      0.0 <= results[r][i].divergence <= 1.0
  {
    forall r | 0 <= r < |results|
      ensures i < |results[r]| && Values(results, results[0][i].generation)[r] == results[r][i].divergence
      ensures 0.0 <= results[r][i].divergence <= 1.0
    {
      assert Recorded(results[r], cfg) && Recorded(results[0], cfg);
      assert results[0][i].generation == Multiple(i, cfg.interval) == results[r][i].generation;
      FindSpaced(results[r], cfg.interval, i);
    }
  }

  /** Values in [0, 1] give a summary whose every statistic lies in [0, 1]. */
  lemma StatsInUnit(gen: nat, values: seq<real>)
    requires |values| > 0
    requires forall r :: 0 <= r < |values| ==> 0.0 <= values[r] <= 1.0
    ensures 0.0 <= Stats(gen, values).min && Stats(gen, values).max <= 1.0
    ensures 0.0 <= Stats(gen, values).mean <= 1.0
  {
    SortedBounds(values);
    StatsRange(gen, values);
    var sorted := Sort(values, Identity);
    assert sorted[0] in values && sorted[|values| - 1] in values;
  }

  /** Over an ensemble of n >= 1 runs, the values summarised at the i-th
      generation of the first run are the i-th points of every run, and the
      summary's minimum, mean and maximum lie in [0, 1]. */
  lemma EnsembleSummary(cfg: Config, n: nat, rng: Source, c0: nat, i: nat)
    requires n >= 1
    requires i < |Ensemble(cfg, n, rng, c0).value[0]|
    ensures forall r :: 0 <= r < n ==>
      i < |Ensemble(cfg, n, rng, c0).value[r]| &&
      Values(Ensemble(cfg, n, rng, c0).value, Ensemble(cfg, n, rng, c0).value[0][i].generation)[r] ==
        Ensemble(cfg, n, rng, c0).value[r][i].divergence
    ensures SummaryStats(Ensemble(cfg, n, rng, c0).value).Some?
    ensures 0.0 <= SummaryStats(Ensemble(cfg, n, rng, c0).value).value[i].min
    ensures 0.0 <= SummaryStats(Ensemble(cfg, n, rng, c0).value).value[i].mean <= 1.0
    ensures SummaryStats(Ensemble(cfg, n, rng, c0).value).value[i].max <= 1.0
  {
    var results: seq<seq<Point>> := Ensemble(cfg, n, rng, c0).value;
    EnsembleGenerations(cfg, n, rng, c0);
    AlignedValues(results, cfg, i);
    var gen := results[0][i].generation;
    StatsInUnit(gen, Values(results, gen));
    assert SummaryStats(results).value[i] == Stats(gen, Values(results, gen));
  }
}
