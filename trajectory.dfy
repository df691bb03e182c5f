/**
 * The shape of the trajectories a run and an ensemble record.
 */
module Trajectories {
  import opened Draws
  import opened Simulation

  /** A run records one point per multiple of the interval in 0..G, which
      SampledThrough counts as G / interval + 1. */
  lemma RunLength(cfg: Config, rng: Source, c0: nat)
    ensures |Run(cfg, rng, c0).value| == SampledBelow(cfg.generations + 1, cfg.interval)
  {
    RunUpToTrajectory(cfg, rng, c0, cfg.generations + 1);
  }

  /** A run's points are for generations 0, interval, 2 * interval, ..., in
      increasing order, and each divergence lies in [0, 1]. */
  lemma RunSpaced(cfg: Config, rng: Source, c0: nat)
    ensures Spaced(Run(cfg, rng, c0).value, cfg.interval)
    ensures forall i, j :: 0 <= i < j < |Run(cfg, rng, c0).value| ==>
      Run(cfg, rng, c0).value[i].generation < Run(cfg, rng, c0).value[j].generation
  {
    RunUpToTrajectory(cfg, rng, c0, cfg.generations + 1);
    assert Run(cfg, rng, c0).value == RunUpTo(cfg, rng, c0, cfg.generations + 1).trajectory;
    SpacedIncreasing(Run(cfg, rng, c0).value, cfg.interval);
  }

  /** With the source's defaults a run has 21 points: 0, 2500, ..., 50000. */
  lemma DefaultTrajectory(cfg: Config, rng: Source, c0: nat)
    requires cfg.generations == DefaultGenerations && cfg.interval == DefaultInterval
    ensures |Run(cfg, rng, c0).value| == 21
    ensures forall i :: 0 <= i < 21 ==> Run(cfg, rng, c0).value[i].generation == 2500 * i
  {
    RunLength(cfg, rng, c0);
    RunSpaced(cfg, rng, c0);
    SampledThrough(DefaultGenerations, DefaultInterval);
    forall i | 0 <= i < 21
      ensures Multiple(i, DefaultInterval) == 2500 * i
    {
      MultipleIsProduct(i, DefaultInterval);
    }
  }

  /** The trajectory shape every run records under `cfg`. */
  predicate Recorded(t: seq<Point>, cfg: Config)
  {
    |t| == SampledBelow(cfg.generations + 1, cfg.interval) && Spaced(t, cfg.interval)
  }

  lemma RunRecorded(cfg: Config, rng: Source, c0: nat)
    ensures Recorded(Run(cfg, rng, c0).value, cfg)
  {
    RunLength(cfg, rng, c0);
    RunSpaced(cfg, rng, c0);
  }

  /** Run r of an ensemble is a whole run started where the first r runs stopped drawing. */
  lemma EnsembleRun(cfg: Config, n: nat, rng: Source, c0: nat, r: nat)
    requires r < n
    ensures Ensemble(cfg, n, rng, c0).value[r] == Run(cfg, rng, Ensemble(cfg, r, rng, c0).next).value
  {
    RepeatAt(c => Run(cfg, rng, c), n, c0, r);
  }

  /** Every run of an ensemble samples the same generations, so the summary
      can read the generations off the first run. */
  lemma EnsembleGenerations(cfg: Config, n: nat, rng: Source, c0: nat)
    ensures forall r :: 0 <= r < n ==> Recorded(Ensemble(cfg, n, rng, c0).value[r], cfg)
  {
    forall r | 0 <= r < n
      ensures Recorded(Ensemble(cfg, n, rng, c0).value[r], cfg)
    {
      EnsembleRun(cfg, n, rng, c0, r);
      RunRecorded(cfg, rng, Ensemble(cfg, r, rng, c0).next);
    }
  }
}
