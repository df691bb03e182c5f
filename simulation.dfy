/**
 * One simulation run and the ensemble of runs. A run initialises a genome and
 * then, for every generation 0..G inclusive, applies the mutation phase, then
 * the gene-conversion phase, and then, when the generation is a multiple of
 * the sampling interval, records a trajectory point. Sampling therefore sees
 * generation 0 after its mutations and conversions. Runs of an ensemble draw
 * one after another from the same random stream.
 */
module Simulation {
  import opened Draws
  import opened Genome
  import opened Initialization
  import opened Mutation
  import opened Conversion
  import opened Sampler

  /** The source's generation range and sampling interval. */
  const DefaultGenerations: nat := 50000
  const DefaultInterval: nat := 2500

  type Positive = n: nat | 0 < n witness 1

  /** The parameters of a run: the strain preset's two rates, the initial
      divergence fraction, the last generation and the sampling interval. */
  datatype Config = Config(
    mutationRate: real,
    geneConvRate: real,
    initialDivergence: real,
    generations: nat,
    interval: Positive)

  /** One trajectory point: `{ generation, total_divergence }`. */
  datatype Point = Point(generation: nat, divergence: real)

  /** The state of a run between generations: genome, cursor, points so far. */
  datatype RunState = RunState(genome: Genome, next: nat, trajectory: seq<Point>)

  /** Whether generation `gen` is sampled: `gen % interval === 0`. */
  predicate Sampled(gen: nat, interval: Positive)
  {
    gen % interval == 0
  }

  /** The state a run starts from: the initial genome and no points. */
  function Start(cfg: Config, rng: Source, c0: nat): (s: RunState)
    ensures Shaped(s.genome) && |s.genome.rrs| == NumCopies && s.trajectory == []
  {
    var init := InitialGenome(cfg.initialDivergence, rng, c0);
    RunState(init.value, init.next, [])
  }

  /** Generation `gen`: mutation, then gene conversion, then a point when sampled. */
  function Generation(s: RunState, gen: nat, cfg: Config, rng: Source): (t: RunState)
    requires Shaped(s.genome) && |s.genome.rrs| > Reference
    ensures Shaped(t.genome) && |t.genome.rrs| == |s.genome.rrs|
  {
    var m := MutationStep(s.genome, cfg.mutationRate, rng, s.next);
    var v := ConversionStep(m.value, cfg.geneConvRate, rng, m.next);
    RunState(v.value, v.next,
      if Sampled(gen, cfg.interval) then s.trajectory + [Point(gen, Divergence(v.value, Reference))]
      else s.trajectory)
  }

  /** A generation appends one point exactly when it is sampled; the point is
      for that generation and its divergence lies in [0, 1]. */
  lemma GenerationPoint(s: RunState, gen: nat, cfg: Config, rng: Source)
    requires Shaped(s.genome) && |s.genome.rrs| > Reference
    ensures Sampled(gen, cfg.interval) ==>
      |Generation(s, gen, cfg, rng).trajectory| == |s.trajectory| + 1 &&
      Generation(s, gen, cfg, rng).trajectory[..|s.trajectory|] == s.trajectory &&
      Generation(s, gen, cfg, rng).trajectory[|s.trajectory|].generation == gen &&
      0.0 <= Generation(s, gen, cfg, rng).trajectory[|s.trajectory|].divergence <= 1.0
    ensures !Sampled(gen, cfg.interval) ==> Generation(s, gen, cfg, rng).trajectory == s.trajectory
  {
  }

  /** `k` applications of `step`, the i-th given its index i. */
  function Iterate<S>(step: (S, nat) -> S, start: S, k: nat): S
  {
    if k == 0 then start else step(Iterate(step, start, k - 1), k - 1)
  }

  /** A property kept by every step holds after any number of steps. */
  lemma {:induction false} IterateInvariant<S>(step: (S, nat) -> S, start: S, k: nat, inv: (S, nat) -> bool)
    requires inv(start, 0)
    requires forall s: S, n: nat {:trigger step(s, n)} :: inv(s, n) ==> inv(step(s, n), n + 1)
    ensures inv(Iterate(step, start, k), k)
  {
    if k > 0 {
      IterateInvariant(step, start, k - 1, inv);
    }
  }

  /** Generation `gen` as a step on any state; states of another shape are left as they are. */
  function Advance(cfg: Config, rng: Source): (RunState, nat) -> RunState
  {
    (s: RunState, gen: nat) =>
      if Shaped(s.genome) && |s.genome.rrs| > Reference then Generation(s, gen, cfg, rng) else s
  }

  /** Every state of a run has the seven-copy shape. */
  lemma ShapeKept(cfg: Config, rng: Source, c0: nat, k: nat)
    ensures Shaped(Iterate(Advance(cfg, rng), Start(cfg, rng, c0), k).genome)
    ensures |Iterate(Advance(cfg, rng), Start(cfg, rng, c0), k).genome.rrs| == NumCopies
  {
    IterateInvariant(Advance(cfg, rng), Start(cfg, rng, c0), k,
      (s: RunState, n: nat) => Shaped(s.genome) && |s.genome.rrs| == NumCopies);
  }

  /** The run after generations 0..k-1. */
  function RunUpTo(cfg: Config, rng: Source, c0: nat, k: nat): (s: RunState)
    ensures Shaped(s.genome) && |s.genome.rrs| == NumCopies
  {
    ShapeKept(cfg, rng, c0, k);
    Iterate(Advance(cfg, rng), Start(cfg, rng, c0), k)
  }

  /** One run's trajectory, and the cursor after its draws. */
  function Run(cfg: Config, rng: Source, c0: nat): Drawn<seq<Point>>
  {
    var s := RunUpTo(cfg, rng, c0, cfg.generations + 1);
    Drawn(s.trajectory, s.next)
  }

  /** `n` draws of `f` in a row, each starting at the cursor the previous one stopped at. */
  function Repeat<T>(f: nat -> Drawn<T>, n: nat, c0: nat): (r: Drawn<seq<T>>)
    ensures |r.value| == n
  {
    if n == 0 then Drawn([], c0)
    else
      var e := Repeat(f, n - 1, c0);
      var t := f(e.next);
      Drawn(e.value + [t.value], t.next)
  }

  /** Element r of a repetition is `f` started where the first r draws stopped. */
  lemma {:induction false} RepeatAt<T>(f: nat -> Drawn<T>, n: nat, c0: nat, r: nat)
    requires r < n
    ensures Repeat(f, n, c0).value[r] == f(Repeat(f, r, c0).next).value
  {
    if r < n - 1 {
      RepeatAt(f, n - 1, c0, r);
      assert Repeat(f, n, c0).value[r] == Repeat(f, n - 1, c0).value[r];
    }
  }

  /** The first `n` runs of an ensemble, each starting where the previous one stopped drawing. */
  function Ensemble(cfg: Config, n: nat, rng: Source, c0: nat): (r: Drawn<seq<seq<Point>>>)
    ensures |r.value| == n
  {
    Repeat(c => Run(cfg, rng, c), n, c0)
  }

  /** The number of sampled generations in [0, k). */
  function SampledBelow(k: nat, interval: Positive): nat
  {
    if k == 0 then 0
    else SampledBelow(k - 1, interval) + (if Sampled(k - 1, interval) then 1 else 0)
  }

  lemma {:induction false} MulAtLeast(x: nat, d: nat)
    requires x >= 1
    ensures x * d >= d
  {
    if x > 1 {
      MulAtLeast(x - 1, d);
      assert x * d == (x - 1) * d + d;
    }
  }

  /** Euclidean division is determined by quotient and remainder. */
  lemma DivUnique(a: int, d: nat, q: int, r: int)
    requires d > 0 && a == q * d + r && 0 <= r < d
    ensures a / d == q && a % d == r
  {
    var q', r' := a / d, a % d;
    assert (q - q') * d == r' - r;
    if q > q' {
      MulAtLeast(q - q', d);
    } else if q < q' {
      MulAtLeast(q' - q, d);
    }
  }

  /** SampledBelow in closed form: there are ceil(k / interval) multiples below k. */
  lemma {:induction false} SampledBelowClosed(k: nat, interval: nat)
    requires interval > 0
    ensures SampledBelow(k, interval) == (k + interval - 1) / interval
  {
    if k == 0 {
      DivUnique(interval - 1, interval, 0, interval - 1);
    } else {
      SampledBelowClosed(k - 1, interval);
      var q, r := (k - 1) / interval, (k - 1) % interval;
      assert k - 1 == q * interval + r;
      assert k + interval - 1 == (q + 1) * interval + r;
      DivUnique(k + interval - 1, interval, q + 1, r);
      if r == 0 {
        assert k - 1 + interval - 1 == q * interval + (interval - 1);
        DivUnique(k - 1 + interval - 1, interval, q, interval - 1);
      } else {
        assert k - 1 + interval - 1 == (q + 1) * interval + (r - 1);
        DivUnique(k - 1 + interval - 1, interval, q + 1, r - 1);
      }
    }
  }

  /** `i * interval`, by repeated addition. */
  function Multiple(i: nat, interval: nat): nat {
    if i == 0 then 0 else Multiple(i - 1, interval) + interval
  }

  lemma {:induction false} MultipleIsProduct(i: nat, interval: nat)
    ensures Multiple(i, interval) == i * interval
  {
    if i > 0 {
      MultipleIsProduct(i - 1, interval);
      assert i * interval == (i - 1) * interval + interval;
    }
  }

  lemma {:induction false} MultipleIncreasing(i: nat, j: nat, interval: nat)
    requires i < j && interval > 0
    ensures Multiple(i, interval) < Multiple(j, interval)
  {
    if i < j - 1 {
      MultipleIncreasing(i, j - 1, interval);
    }
  }

  /** A sampled generation is the SampledBelow-th multiple of the interval. */
  lemma SampledAt(gen: nat, interval: nat)
    requires interval > 0 && Sampled(gen, interval)
    ensures gen == Multiple(SampledBelow(gen, interval), interval)
  {
    MultipleIsProduct(SampledBelow(gen, interval), interval);
    SampledBelowClosed(gen, interval);
    var q := gen / interval;
    assert gen == q * interval;
    assert gen + interval - 1 == q * interval + (interval - 1);
    DivUnique(gen + interval - 1, interval, q, interval - 1);
  }

  /** Point i is for generation i * interval (see MultipleIsProduct), and every
      divergence lies in [0, 1]. */
  predicate Spaced(t: seq<Point>, interval: nat) {
    forall i :: 0 <= i < |t| ==>
      t[i].generation == Multiple(i, interval) && 0.0 <= t[i].divergence <= 1.0
  }

  lemma SpacedExtend(t: seq<Point>, p: Point, interval: nat)
    requires Spaced(t, interval)
    requires p.generation == Multiple(|t|, interval) && 0.0 <= p.divergence <= 1.0
    ensures Spaced(t + [p], interval)
  {
    var t' := t + [p];
    forall i | 0 <= i < |t'|
      ensures t'[i].generation == Multiple(i, interval) && 0.0 <= t'[i].divergence <= 1.0
    {
      if i < |t| {
        assert t'[i] == t[i];
      }
    }
  }

  /** Spaced generations strictly increase. */
  lemma SpacedIncreasing(t: seq<Point>, interval: nat)
    requires interval > 0 && Spaced(t, interval)
    ensures forall i, j :: 0 <= i < j < |t| ==> t[i].generation < t[j].generation
  {
    forall i, j | 0 <= i < j < |t|
      ensures t[i].generation < t[j].generation
    {
      MultipleIncreasing(i, j, interval);
    }
  }

  /** Generations 0..G hold G / interval + 1 multiples of the interval. */
  lemma SampledThrough(generations: nat, interval: nat)
    requires interval > 0
    ensures SampledBelow(generations + 1, interval) == generations / interval + 1
  {
    SampledBelowClosed(generations + 1, interval);
    var q, r := generations / interval, generations % interval;
    assert generations == q * interval + r;
    assert generations + interval == (q + 1) * interval + r;
    DivUnique(generations + interval, interval, q + 1, r);
  }

  /** A generation keeps the trajectory one point per sampled generation so far. */
  lemma GenerationSpaced(s: RunState, t: RunState, gen: nat, cfg: Config, rng: Source)
    requires Shaped(s.genome) && |s.genome.rrs| > Reference && t == Generation(s, gen, cfg, rng)
    requires |s.trajectory| == SampledBelow(gen, cfg.interval) && Spaced(s.trajectory, cfg.interval)
    ensures |t.trajectory| == SampledBelow(gen + 1, cfg.interval)
    ensures Spaced(t.trajectory, cfg.interval)
  {
    GenerationPoint(s, gen, cfg, rng);
    if Sampled(gen, cfg.interval) {
      SampledAt(gen, cfg.interval);
      assert t.trajectory == s.trajectory + [t.trajectory[|s.trajectory|]];
      SpacedExtend(s.trajectory, t.trajectory[|s.trajectory|], cfg.interval);
    }
  }

  /** Generation k takes the run from RunUpTo(k) to RunUpTo(k + 1). */
  lemma RunUpToNext(cfg: Config, rng: Source, c0: nat, k: nat)
    ensures RunUpTo(cfg, rng, c0, k + 1) == Generation(RunUpTo(cfg, rng, c0, k), k, cfg, rng)
  {
    assert Iterate(Advance(cfg, rng), Start(cfg, rng, c0), k + 1) ==
      Advance(cfg, rng)(Iterate(Advance(cfg, rng), Start(cfg, rng, c0), k), k);
  }

  /** After k generations the trajectory holds one point per sampled generation
      below k, the i-th for generation i * interval, each with a divergence in [0, 1]. */
  lemma RunUpToTrajectory(cfg: Config, rng: Source, c0: nat, k: nat)
    ensures |RunUpTo(cfg, rng, c0, k).trajectory| == SampledBelow(k, cfg.interval)
    ensures Spaced(RunUpTo(cfg, rng, c0, k).trajectory, cfg.interval)
  {
    var inv := (s: RunState, n: nat) => Shaped(s.genome) && |s.genome.rrs| == NumCopies &&
      |s.trajectory| == SampledBelow(n, cfg.interval) && Spaced(s.trajectory, cfg.interval);
    forall s: RunState, n: nat | inv(s, n)
      ensures inv(Advance(cfg, rng)(s, n), n + 1)
    {
      GenerationSpaced(s, Generation(s, n, cfg, rng), n, cfg, rng);
    }
    assert SampledBelow(0, cfg.interval) == 0;
    IterateInvariant(Advance(cfg, rng), Start(cfg, rng, c0), k, inv);
  }

  /** Every site state stays in 0..3 throughout a run. */
  lemma RunUpToValid(cfg: Config, rng: Source, c0: nat, k: nat)
    ensures ValidStates(RunUpTo(cfg, rng, c0, k).genome)
  {
    var inv := (s: RunState, n: nat) => Shaped(s.genome) && |s.genome.rrs| == NumCopies && ValidStates(s.genome);
    forall s: RunState, n: nat | inv(s, n)
      ensures inv(Advance(cfg, rng)(s, n), n + 1)
    {
      var m := MutationStep(s.genome, cfg.mutationRate, rng, s.next);
      MutationStepValid(s.genome, cfg.mutationRate, rng, s.next);
      ConversionStepValid(m.value, cfg.geneConvRate, rng, m.next);
    }
    InitialStatesValid(cfg.initialDivergence, rng, c0);
    IterateInvariant(Advance(cfg, rng), Start(cfg, rng, c0), k, inv);
  }

  /** One generation over the arrays. */
  method Step(rrs: array2<int>, rrl: array2<int>, gen: nat, cfg: Config, rng: Source, c: nat, trajectory: seq<Point>)
    returns (next: nat, trajectory': seq<Point>)
    requires rrs != rrl
    requires rrs.Length0 == rrl.Length0 == NumCopies
    requires rrs.Length1 == RrsLength && rrl.Length1 == RrlLength
    modifies rrs, rrl
    ensures RunState(State(rrs, rrl), next, trajectory') ==
      Generation(RunState(old(State(rrs, rrl)), c, trajectory), gen, cfg, rng)
  {
    next := Mutate(rrs, rrl, cfg.mutationRate, rng, c);
    next := Convert(rrs, rrl, cfg.geneConvRate, rng, next);
    trajectory' := trajectory;
    if gen % cfg.interval == 0 {
      var avgDiv := Sample(rrs, rrl);
      trajectory' := trajectory + [Point(gen, avgDiv)];
    }
  }

  /** The start of a run over the arrays: the initialised loci, no points yet. */
  method Begin(cfg: Config, rng: Source, c0: nat)
    returns (rrs: array2<int>, rrl: array2<int>, next: nat, trajectory: seq<Point>)
    ensures fresh(rrs) && fresh(rrl) && rrs != rrl
    ensures rrs.Length0 == rrl.Length0 == NumCopies
    ensures rrs.Length1 == RrsLength && rrl.Length1 == RrlLength
    ensures RunState(State(rrs, rrl), next, trajectory) == RunUpTo(cfg, rng, c0, 0)
  {
    rrs, rrl, next := Initialize(cfg.initialDivergence, rng, c0);
    trajectory := [];
  }

  /** The generation loop `for (gen = 0; gen <= G; gen++)` over the arrays. */
  method Evolve(rrs: array2<int>, rrl: array2<int>, cfg: Config, rng: Source, c0: nat, c: nat, trajectory: seq<Point>)
    returns (next: nat, trajectory': seq<Point>)
    requires rrs != rrl
    requires rrs.Length0 == rrl.Length0 == NumCopies
    requires rrs.Length1 == RrsLength && rrl.Length1 == RrlLength
    requires RunState(State(rrs, rrl), c, trajectory) == RunUpTo(cfg, rng, c0, 0)
    modifies rrs, rrl
    ensures RunState(State(rrs, rrl), next, trajectory') == RunUpTo(cfg, rng, c0, cfg.generations + 1)
  {
    next, trajectory' := c, trajectory;
    for gen := 0 to cfg.generations + 1
      invariant RunState(State(rrs, rrl), next, trajectory') == RunUpTo(cfg, rng, c0, gen)
    {
      next, trajectory' := Step(rrs, rrl, gen, cfg, rng, next, trajectory');
      RunUpToNext(cfg, rng, c0, gen);
    }
  }

  /** One run over the arrays: initialise, then one step per generation 0..G. */
  method RunOnce(cfg: Config, rng: Source, c0: nat) returns (trajectory: seq<Point>, next: nat)
    ensures Drawn(trajectory, next) == Run(cfg, rng, c0)
  {
    var rrs, rrl, c, t := Begin(cfg, rng, c0);
    next, trajectory := Evolve(rrs, rrl, cfg, rng, c0, c, t);
    ghost var last := RunUpTo(cfg, rng, c0, cfg.generations + 1);
    assert trajectory == last.trajectory && next == last.next;
  }

  /** `runSimulation(numRuns)`: the runs one after the other, pushed into `results`. */
  method RunSimulation(cfg: Config, numRuns: nat, rng: Source, c0: nat) returns (results: seq<seq<Point>>, next: nat)
    ensures Drawn(results, next) == Ensemble(cfg, numRuns, rng, c0)
  {
    results := [];
    next := c0;
    for run := 0 to numRuns
      invariant Drawn(results, next) == Ensemble(cfg, run, rng, c0)
    {
      var trajectory;
      trajectory, next := RunOnce(cfg, rng, next);
      results := results + [trajectory];
    }
  }
}
