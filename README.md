# rRNA operon neutral-model simulator and observed-data aggregation

This project models the algorithmic core of the rRNA divergence analysis
component, `components/RRNAAnalysis.tsx`. The component has three routines:

- `runSimulation` is a Monte Carlo simulator of a genome's seven rRNA operon
  copies (`rrnA`, `rrnB`, `rrnC`, `rrnD`, `rrnE`, `rrnG`, `rrnH`).
  - Each copy has a short locus (rrs, 1541 sites) and a long locus (rrl,
    2904 sites). Each site holds one of four states, 0..3.
  - A run first initialises the copies. Initialisation leaves the
    reference copy `rrnB` all-zero; later phases mutate and convert it like
    every other copy. Every other copy receives `floor(4445 * frac)` random
    writes of a state in 1..3 when `frac >= 0` (none when it is negative),
    split between the loci by their lengths.
  - Then, for every generation 0..G inclusive, a run does three things in
    order:
    - a mutation phase: one Bernoulli test per copy and locus, and on
      success one site advances to `(s + 1) % 4`;
    - a gene-conversion phase over the 42 ordered (recipient, donor) pairs,
      recipient-major, each of which may copy a tract of length 50..199 from
      donor to recipient;
    - when the generation is a multiple of the sampling interval, a
      trajectory point: the mean over the six non-reference copies of the
      fraction of their 4445 sites that differ from `rrnB`.
  - An ensemble is `numRuns` runs, one after the other.
- `summaryStats` reduces an ensemble. For each generation of the first run,
  it collects every run's divergence, sorts the values, and reports the mean,
  the nearest-rank median and quartiles, the minimum and the maximum. There is
  no summary without runs.
- `processObservedData` aggregates parsed sequencing files in four steps:
  - It groups the files by strain and generation.
  - It de-duplicates each group's records by (sequence id, position), keeping
    the record of strictly higher frequency, so the first one seen wins ties.
  - It sums the frequencies per locus and divides by the locus lengths.
  - It sorts each strain's points by generation.

Modules and files:

- `draws.dfy` (`Draws`): the injected random stream. `Math.random()` call i
  returns `rng(i)`, a real in [0, 1). Every consumer threads a cursor: the
  index of the next unused draw.
- `genome.dfy` (`Genome`): constants, the genome as rows of site states, and
  the `array2` it lives in.
- `initialization.dfy`, `mutation.dfy`, `conversion.dfy`, `sampler.dfy`: the
  phases of a run. Each has:
  - specification functions on values;
  - lemmas about those functions;
  - methods that do the same work in place on the two `array2` loci and
    are proved equal to the functions.
- `simulation.dfy` (`Simulation`) and `trajectory.dfy` (`Trajectories`): the
  generation loop, one run, the ensemble, and the shape of the recorded
  trajectories.
- `sorting.dfy` (`Sorting`): the numeric sort as an insertion sort (stable by construction),
  with its correctness and uniqueness lemmas.
- `summary.dfy` (`Summary`): `summaryStats`.
- `observed.dfy` (`Observed`): `processObservedData`, as specification
  functions and as the imperative loops that fill the dictionaries.

The number of generations and the sampling interval are parameters of a
`Config`. `Simulation.DefaultGenerations` and `Simulation.DefaultInterval`
hold the source's fixed values, 50000 and 2500.

## Model

| member | source | states |
|---|---|---|
| Draws.Pick | components/RRNAAnalysis.tsx:170 | `Math.floor(u * n)` is an index below n, with k <= u*n < k+1 |
| Draws.Succeeds | components/RRNAAnalysis.tsx:185 | the Bernoulli test `Math.random() < p` as an exact comparison of the draw with p; its uses at 185, 190 and 198 are stated by MutateLocusLocal and ConvertPairEffect |
| Genome.ReferenceLabel | components/RRNAAnalysis.tsx:154-162 | the seven labels are pairwise distinct and rrnB is the one at Reference, so `op !== 'rrnB'` is `op != Reference` |
| Genome.NewLocus | components/RRNAAnalysis.tsx:159-160 | a fresh array of seven rows, each `new Array(len).fill(0)`: every site is 0 |
| Initialization.WriteSplit | components/RRNAAnalysis.tsx:163-177 | for n >= 0 the short locus gets floor(n*1541/4445) writes and the long locus the non-negative rest; the two loops together run max(0, n) times |
| Initialization.WriteCounts | components/RRNAAnalysis.tsx:163-167 | for frac >= 0 the per-locus write counts are floor(n*1541/4445) and n minus that, for n = floor(4445*frac) |
| Initialization.NoDiffSites | components/RRNAAnalysis.tsx:164 | a fraction below one site in 4445 places no write |
| Initialization.NumDiffSites | components/RRNAAnalysis.tsx:163-164 | `Math.floor(4445 * frac)` is the n with n <= 4445*frac < n+1 |
| Initialization.RrsDiffSites | components/RRNAAnalysis.tsx:166 | the short locus's share is the k with k*4445 <= n*1541 < (k+1)*4445, the floor of the exact quotient |
| Initialization.RrlDiffSites | components/RRNAAnalysis.tsx:167 | the long locus gets the rest, numDiff minus the short share; WriteSplit proves it non-negative for numDiff >= 0 and that the two counts sum to numDiff |
| Initialization.InitCopy | components/RRNAAnalysis.tsx:158-178 | one copy's initialisation: nothing for rrnB; otherwise the short locus overwritten by its writes, then the long locus by the writes drawn after them; the genome keeps its shape |
| Initialization.InitialGenome | components/RRNAAnalysis.tsx:157-179 | the genome a run starts from: the seven copies initialised in label order from the all-zero genome (partners: InitialCopies, InitialStatesValid) |
| Initialization.Writes | components/RRNAAnalysis.tsx:169-177 | exactly `count` writes, each at a site below the locus length and of a state in 1..3 |
| Initialization.OverwriteSites | components/RRNAAnalysis.tsx:171-176 | an unwritten site keeps its state; a written site holds the state of the last write to it |
| Initialization.InitialCopies | components/RRNAAnalysis.tsx:157-179 | after initialisation rrnB is all-zero and every other copy is all-zero overwritten by exactly the source's number of writes on each locus |
| Initialization.InitialWithoutDivergence | components/RRNAAnalysis.tsx:159-167 | with no site to place every copy equals the all-zero reference |
| Initialization.InitialStatesValid | components/RRNAAnalysis.tsx:159-176 | every initial site state lies in 0..3 |
| Initialization.InitUpToZero | components/RRNAAnalysis.tsx:158-161 | after the first k copies the reference copy and every copy not yet visited are still all-zero |
| Initialization.InitUpToCopies | components/RRNAAnalysis.tsx:157-179 | each visited copy other than the reference is the all-zero pair overwritten by exactly the source's writes, from some draw on |
| Initialization.CopyInitialisedValid | components/RRNAAnalysis.tsx:159-176 | an initialised copy holds only states in 0..3 |
| Initialization.WriteLocus | components/RRNAAnalysis.tsx:169-177 | the write loop changes only copy op's row, to that row overwritten by the drawn writes, using two draws per write |
| Initialization.WriteCopy | components/RRNAAnalysis.tsx:158-178 | one copy's body of the `forEach` over copies, in place, equals the model's initialisation of that copy and its cursor: no draws for rrnB, the short-locus loop then the long-locus loop otherwise |
| Initialization.Initialize | components/RRNAAnalysis.tsx:157-179 | the allocated arrays hold the initial genome of the model, and the cursor is the one after its draws |
| Mutation.Substitute | components/RRNAAnalysis.tsx:187-192 | `(s + 1) % 4` lies in 0..3 and differs from s on 0..3 |
| Mutation.MutationStepLocal | components/RRNAAnalysis.tsx:184-194 | a mutation phase changes at most one site per copy and locus, to `(s + 1) % 4`, and nothing else |
| Mutation.MutationStepValid | components/RRNAAnalysis.tsx:184-194 | mutation keeps every state in 0..3 |
| Mutation.MutateLocus | components/RRNAAnalysis.tsx:185-193 | one locus's Bernoulli test and, on success, one `(s + 1) % 4` substitution at a drawn site; the row keeps its length (partner: MutateLocusLocal) |
| Mutation.MutationStep | components/RRNAAnalysis.tsx:184-194 | the mutation phase: each copy in label order, its short locus tested before its long one; the genome keeps its shape (partner: MutationStepLocal) |
| Mutation.MutateLocusLocal | components/RRNAAnalysis.tsx:185-193 | one locus test changes at most one site, to `(s + 1) % 4`, and keeps the length |
| Mutation.MutateUpToLocal | components/RRNAAnalysis.tsx:184-194 | after the first k copies each visited copy has at most one substitution per locus and the other copies are unchanged |
| Mutation.SubstitutionValid | components/RRNAAnalysis.tsx:187-192 | a single `(s + 1) % 4` substitution keeps every state in 0..3 |
| Mutation.MutateRow | components/RRNAAnalysis.tsx:185-193 | one Bernoulli test and possible substitution on copy op's row, equal to the model's locus mutation |
| Mutation.Mutate | components/RRNAAnalysis.tsx:184-194 | the in-place loop over both arrays yields the model's mutation phase and cursor |
| Conversion.AtLeastOne | components/RRNAAnalysis.tsx:200 | `Math.max(1, n)` is at least 1 and at least n |
| Conversion.TractSpan | components/RRNAAnalysis.tsx:200-206 | the converted span lies in the locus even when the locus is no longer than the tract; it is the full tract when the locus is longer, and the whole locus otherwise |
| Conversion.DrawEvent | components/RRNAAnalysis.tsx:199-206 | the tract length lies in 50..199, and both spans end inside their loci |
| Conversion.ConvertPairEffect | components/RRNAAnalysis.tsx:198-208 | a successful event makes the recipient equal the donor on each span and changes nothing else, using four draws; a failed test uses one draw and changes nothing; a self pair draws nothing |
| Conversion.ConversionStepCopied | components/RRNAAnalysis.tsx:196-211 | after the phase every site holds a state some copy held at that site before it |
| Conversion.SpliceCopied | components/RRNAAnalysis.tsx:201-208 | overwriting the recipient's span with the donor's sites leaves at every site a state some copy held there |
| Conversion.ConvertPairCopied | components/RRNAAnalysis.tsx:198-208 | one ordered pair leaves at every site of both loci a state some copy held there before |
| Conversion.ConvertUpToCopied | components/RRNAAnalysis.tsx:196-211 | the pairs processed so far, sequentially and with overwritten recipients acting as donors, only copy states that were present at the site before the phase |
| Conversion.ConversionStepValid | components/RRNAAnalysis.tsx:196-211 | conversion keeps every state in 0..3 |
| Conversion.Splice | components/RRNAAnalysis.tsx:201-208 | the recipient row with the donor's sites over the span; the length is kept (partners: SpliceCopied, ConvertPairEffect) |
| Conversion.ConvertPair | components/RRNAAnalysis.tsx:198-209 | one ordered (recipient, donor) pair: no draw for a self pair, the rate test, and on success one tract length shared by two spans; the genome keeps its shape (partner: ConvertPairEffect) |
| Conversion.ConversionStep | components/RRNAAnalysis.tsx:196-211 | the 42 ordered pairs recipient-major, each applied to the genome the previous one left; the genome keeps its shape (partners: ConversionStepCopied, ConversionStepValid) |
| Conversion.ConversionKeepsAgreement | components/RRNAAnalysis.tsx:196-211 | a site where all copies agree, on the short or the long locus, still agrees there after the phase |
| Conversion.CopyTract | components/RRNAAnalysis.tsx:201-203 | the copy loop makes the recipient's row the donor's on the span and leaves the other rows unchanged |
| Conversion.ConvertArrays | components/RRNAAnalysis.tsx:198-209 | one ordered pair in place equals the model's pair conversion and cursor |
| Conversion.Convert | components/RRNAAnalysis.tsx:196-211 | the nested recipient/donor loop in place equals the model's conversion phase and cursor |
| Sampler.DiffCount | components/RRNAAnalysis.tsx:224-234 | the number of differing sites is at most the length, and is 0 exactly when the rows are equal |
| Sampler.CopyDivergence | components/RRNAAnalysis.tsx:222-236 | a copy's divergence lies in [0, 1], and is 0 exactly when both loci equal the reference's |
| Sampler.NonReferenceCount | components/RRNAAnalysis.tsx:218-238 | `numOperons` counts exactly the visited copies other than the reference |
| Sampler.DivergenceSum | components/RRNAAnalysis.tsx:217-237 | `totalDivergence` lies between 0 and the number of non-reference copies visited |
| Sampler.Divergence | components/RRNAAnalysis.tsx:242 | the aggregate lies in [0, 1] |
| Sampler.DivergenceZero | components/RRNAAnalysis.tsx:220-242 | the aggregate is 0 exactly when every copy equals the reference in both loci |
| Sampler.DivergenceSumZero | components/RRNAAnalysis.tsx:220-239 | the running `totalDivergence` over the first k copies is 0 exactly when each of them equals the reference in both loci |
| Sampler.DivergenceWithoutOthers | components/RRNAAnalysis.tsx:242 | with no copy other than the reference the aggregate is 0 |
| Sampler.DivergenceIsMean | components/RRNAAnalysis.tsx:220-242 | with six non-reference copies of seven, the aggregate is their divergence sum over exactly six |
| Sampler.CountDiffs | components/RRNAAnalysis.tsx:224-234 | the counting loop adds the number of differing sites to the running count |
| Sampler.OperonDivergence | components/RRNAAnalysis.tsx:222-236 | the in-place count over both loci divided by 4445 is the copy's divergence |
| Sampler.Sample | components/RRNAAnalysis.tsx:213-242 | the sampler over the arrays yields the model's aggregate divergence, in [0, 1] |
| Simulation.GenerationPoint | components/RRNAAnalysis.tsx:213-247 | a generation appends exactly one point when it is a multiple of the interval, for that generation and with a divergence in [0, 1], and none otherwise |
| Simulation.Sampled | components/RRNAAnalysis.tsx:213 | `gen % interval === 0`; GenerationPoint proves a generation records a point exactly when it holds, and SampledThrough counts them |
| Simulation.Generation | components/RRNAAnalysis.tsx:184-248 | one generation: mutation, then conversion, then a point when the generation is a multiple of the interval; the genome keeps its shape (partner: GenerationPoint) |
| Simulation.Ensemble | components/RRNAAnalysis.tsx:155-252 | `numRuns` runs, each starting where the previous stopped drawing; exactly n of them (partner: EnsembleRun) |
| Simulation.RepeatAt | components/RRNAAnalysis.tsx:156-251 | run r of a repetition is the run that starts where the first r runs stopped drawing |
| Simulation.SampledThrough | components/RRNAAnalysis.tsx:183-213 | generations 0..G hold G/interval + 1 multiples of the interval |
| Simulation.RunUpToTrajectory | components/RRNAAnalysis.tsx:183-247 | after k generations there is one point per sampled generation below k; point i is for generation i*interval, and every divergence lies in [0, 1] |
| Simulation.RunUpToValid | components/RRNAAnalysis.tsx:171-202 | every site state stays in 0..3 throughout a run |
| Simulation.RunUpToNext | components/RRNAAnalysis.tsx:183-248 | the state after k + 1 generations is generation k applied to the state after k |
| Simulation.ShapeKept | components/RRNAAnalysis.tsx:183-248 | every generation keeps seven copies with loci of 1541 and 2904 sites |
| Simulation.GenerationSpaced | components/RRNAAnalysis.tsx:213-247 | a generation extends a trajectory of one point per sampled generation before it, spaced by the interval, to one for the generations up to and including it |
| Simulation.SampledBelowClosed | components/RRNAAnalysis.tsx:183-213 | the number of multiples of the interval below k is ceil(k / interval) |
| Simulation.Evolve | components/RRNAAnalysis.tsx:183-248 | the in-place generation loop over 0..G takes the run from its start to the model's state after G + 1 generations |
| Simulation.Step | components/RRNAAnalysis.tsx:184-248 | one generation over the arrays equals the model's generation: mutation, conversion, then a point when sampled |
| Simulation.Begin | components/RRNAAnalysis.tsx:157-181 | a run starts from the initial genome with an empty trajectory |
| Simulation.Run | components/RRNAAnalysis.tsx:157-249 | one run: the trajectory and cursor left after generations 0..G from the initial genome (partners: RunLength, RunSpaced) |
| Simulation.RunOnce | components/RRNAAnalysis.tsx:157-249 | the run loop over generations 0..G yields the model's trajectory and cursor |
| Simulation.RunSimulation | components/RRNAAnalysis.tsx:152-252 | the outer loop pushes the model's ensemble of numRuns runs |
| Trajectories.RunLength | components/RRNAAnalysis.tsx:183-244 | a run records one point per multiple of the interval in 0..G |
| Trajectories.RunSpaced | components/RRNAAnalysis.tsx:183-247 | a run's points are for generations 0, interval, 2*interval, ..., strictly increasing, with divergences in [0, 1] |
| Trajectories.RunRecorded | components/RRNAAnalysis.tsx:183-247 | a run's trajectory has one point per multiple of the interval in 0..G, point i for generation i*interval, with divergences in [0, 1] |
| Trajectories.DefaultTrajectory | components/RRNAAnalysis.tsx:183-213 | with 50000 generations and interval 2500 a run has 21 points, point i for generation 2500*i |
| Trajectories.EnsembleRun | components/RRNAAnalysis.tsx:156-252 | run r of an ensemble is a whole run started at the cursor where run r-1 stopped |
| Trajectories.EnsembleGenerations | components/RRNAAnalysis.tsx:155-252 | every run of an ensemble records the same generations |
| Sorting.SortCorrect | components/RRNAAnalysis.tsx:280 | the sort result is ordered by key and is a permutation of its input |
| Sorting.Sort | components/RRNAAnalysis.tsx:280 | an insertion sort by key that keeps the length; it places each element after every earlier one of no greater key, so it is stable by construction, which is not proved and which SortedUnique makes immaterial (partners: SortCorrect, SortedUnique) |
| Sorting.SortedUnique | components/RRNAAnalysis.tsx:141 | when equal keys mean equal elements, any two sorted permutations of the same elements coincide |
| Sorting.SortStrict | components/RRNAAnalysis.tsx:141 | elements with pairwise different keys come out in strictly increasing key order |
| Sorting.InsertStrict | components/RRNAAnalysis.tsx:141 | inserting an element whose key differs from every key of a strictly ordered list keeps it strictly ordered |
| Summary.FindPoint | components/RRNAAnalysis.tsx:274 | `run.find` returns the first point for the generation, or none exactly when no point has it |
| Summary.Values | components/RRNAAnalysis.tsx:272-277 | one value per run, in run order: the run's divergence at that generation, or 0 |
| Summary.Sum | components/RRNAAnalysis.tsx:282 | the left-to-right `reduce` sum; SumPermutation proves it independent of order and SumBounds bounds it by n*lo and n*hi |
| Summary.ValueAt | components/RRNAAnalysis.tsx:274 | the divergence of the first point for the generation, or 0 when the run has none (partners: FindPoint, FindSpaced) |
| Summary.LowerQuartileIndex | components/RRNAAnalysis.tsx:284 | `Math.floor(n * 0.25)` is the k with 4k <= n < 4k+4 |
| Summary.UpperQuartileIndex | components/RRNAAnalysis.tsx:285 | `Math.floor(n * 0.75)` is the k with 4k <= 3n < 4k+4 |
| Summary.SummaryStats | components/RRNAAnalysis.tsx:264-299 | no summary exactly when there are no runs; otherwise one summary point per point of the first run, for the same generation |
| Summary.Stats | components/RRNAAnalysis.tsx:280-294 | one generation's summary from its sorted values: mean, nearest-rank median and quartiles, first and last (partners: StatsOrdered, StatsRange, StatsMean) |
| Summary.QuartileIndices | components/RRNAAnalysis.tsx:283-285 | for n >= 1 the indices satisfy 0 <= floor(n/4) <= n/2 <= floor(3n/4) <= n-1 |
| Summary.SumPermutation | components/RRNAAnalysis.tsx:280-282 | the sum does not depend on the order of the values |
| Summary.StatsOrdered | components/RRNAAnalysis.tsx:280-294 | min <= q25 <= median <= q75 <= max |
| Summary.RanksOrdered | components/RRNAAnalysis.tsx:283-294 | in a sorted list the first, nearest-rank lower quartile, median, upper quartile and last elements are in that order |
| Summary.SortedBounds | components/RRNAAnalysis.tsx:280-293 | the first and last sorted values bound every value, and every sorted value is one of the values |
| Summary.SumBounds | components/RRNAAnalysis.tsx:282 | the sum of n values in [lo, hi] lies between n*lo and n*hi |
| Summary.StatsRange | components/RRNAAnalysis.tsx:280-294 | every value lies in [min, max], and so does the mean |
| Summary.StatsMean | components/RRNAAnalysis.tsx:280-285 | the mean is the sum of the unsorted values over their number; median and quartiles are among the values |
| Summary.FindSpaced | components/RRNAAnalysis.tsx:274 | in a recorded trajectory the point found for generation i*interval is point i |
| Summary.AlignedValues | components/RRNAAnalysis.tsx:268-277 | when all runs record the same generations, the values for the i-th generation are the i-th points of every run |
| Summary.StatsInUnit | components/RRNAAnalysis.tsx:282-294 | values in [0, 1] give a min, mean and max in [0, 1] |
| Summary.EnsembleSummary | components/RRNAAnalysis.tsx:264-299 | over n >= 1 runs the summary exists, the i-th summarised values are the runs' i-th points, and min, mean and max lie in [0, 1] |
| Observed.GroupFiles | components/RRNAAnalysis.tsx:80-94 | the key order lists each key once, exactly the keys with an entry, and each entry is for its own strain and generation |
| Observed.GroupFilesCorrect | components/RRNAAnalysis.tsx:82-94 | there is an entry exactly for the keys of the files, holding their ids and rows in file order |
| Observed.KeyOf | components/RRNAAnalysis.tsx:83 | the key `${strain}_${generation}` as the pair of both fields, so two files share a group exactly when their strain and generation agree (GroupFilesCorrect) |
| Observed.AddFile | components/RRNAAnalysis.tsx:82-94 | one `forEach` step: create the entry for a new key at the end of the key order, then push the file id and rows (partner: AddFileValid) |
| Observed.GroupUpToValid | components/RRNAAnalysis.tsx:82-94 | after any prefix of the files the key order lists each key once, exactly the keys with an entry, and each entry is for its own strain and generation |
| Observed.GroupUpToKeys | components/RRNAAnalysis.tsx:83-91 | after a prefix of the files there is an entry exactly for the keys of those files |
| Observed.GroupUpToContents | components/RRNAAnalysis.tsx:92-93 | each entry holds the ids and rows of exactly the files of its key, in file order |
| Observed.GroupStrains | components/RRNAAnalysis.tsx:82-101 | a strain has a group exactly when some file is for that strain |
| Observed.ChosenIndexCorrect | components/RRNAAnalysis.tsx:104-109 | the chosen record for a site exists exactly when a row has that site; it has maximal frequency and every earlier row of the site has strictly lower frequency, so the first wins ties |
| Observed.DedupUpToKept | components/RRNAAnalysis.tsx:103-109 | the de-duplication map holds a site exactly when a row has it, and then the chosen row |
| Observed.DedupUpToValid | components/RRNAAnalysis.tsx:104-109 | the de-duplication map's key order lists each (sequence id, position) key once, exactly the keys of the map, and each record is kept under its own key |
| Observed.SiteOf | components/RRNAAnalysis.tsx:105 | the key `${seq_id}_${position}` as the pair of both fields, so records collide exactly when their locus and position agree (ChosenIndexCorrect) |
| Observed.Keep | components/RRNAAnalysis.tsx:104-108 | one `forEach` step of the de-duplication: a new site is added; a known site's record is replaced only by a strictly higher frequency (partner: ChosenIndexCorrect) |
| Observed.Polymorphisms | components/RRNAAnalysis.tsx:103-111 | the de-duplication map's values in key order (partner: PolymorphismsCorrect) |
| Observed.PolymorphismsCorrect | components/RRNAAnalysis.tsx:103-111 | the kept records have pairwise distinct sites, cover every site of the data, and are the chosen rows |
| Observed.OnLocus | components/RRNAAnalysis.tsx:115-116 | the filter keeps only records of the named locus, all taken from its input, and no more of them than the input has (completeness: OnLocusKeeps) |
| Observed.OnLocusKeeps | components/RRNAAnalysis.tsx:115-116 | the filter keeps every record of the locus as often as it occurs and no other record |
| Observed.FrequencySum | components/RRNAAnalysis.tsx:119-120 | the `reduce` sum of frequencies; FrequencySumBound bounds it by 0 and the count for frequencies in [0, 1], and PointOfCorrect uses it for each locus |
| Observed.PointOfCorrect | components/RRNAAnalysis.tsx:111-137 | avg * 4445 == rrs * 1541 + rrl * 2904; the two locus counts total at most the distinct records; the point carries the group's generation and file count |
| Observed.PointOfBounds | components/RRNAAnalysis.tsx:119-126 | with frequencies in [0, 1] each divergence times its length lies between 0 and the matching count |
| Observed.PointFromBounds | components/RRNAAnalysis.tsx:115-126 | for records with frequencies in [0, 1], each locus sum over its length, times that length, lies between 0 and the locus count, and the average likewise against the total |
| Observed.PointFrom | components/RRNAAnalysis.tsx:113-137 | the point from de-duplicated records: locus sums over 1541 and 2904, both over 4445, the counts, the generation and file count (partners: PointOfCorrect, PointFromBounds) |
| Observed.PointOf | components/RRNAAnalysis.tsx:103-137 | one group's point: PointFrom applied to the group's de-duplicated records (partners: PointOfCorrect, PointOfBounds) |
| Observed.StrainUpToCorrect | components/RRNAAnalysis.tsx:98-138 | each strain's list in `strainData` holds that strain's points in group order |
| Observed.StrainUpToKeys | components/RRNAAnalysis.tsx:98-101 | after a prefix of the groups `strainData` has a list exactly for the strains seen |
| Observed.StrainPointsFrom | components/RRNAAnalysis.tsx:128-137 | each point of a strain's list is the summary of that strain's group for the point's generation |
| Observed.Push | components/RRNAAnalysis.tsx:99-128 | creating the strain's list if missing and appending the point, leaving the other strains' lists unchanged |
| Observed.StrainUpTo | components/RRNAAnalysis.tsx:98-138 | `strainData` after the first n groups (partners: StrainUpToKeys, StrainUpToCorrect) |
| Observed.StrainPointsDistinct | components/RRNAAnalysis.tsx:83-137 | the points of one strain are for pairwise different generations |
| Observed.ProcessObservedData | components/RRNAAnalysis.tsx:77-78 | there is no result exactly when there are no files |
| Observed.ProcessObservedStrains | components/RRNAAnalysis.tsx:96-140 | the result has a list exactly for the strains of the files |
| Observed.PointsOfStrainCorrect | components/RRNAAnalysis.tsx:98-137 | each reference point summarises exactly the files of its strain and generation, and no two are for the same generation |
| Observed.ProcessObservedPoints | components/RRNAAnalysis.tsx:77-145 | each strain's list is in strictly increasing generation order and is a permutation of its points, each summarising the files of its strain and generation |
| Observed.ProcessObservedSortUnique | components/RRNAAnalysis.tsx:140-142 | every sort by generation of a strain's points gives the same list, so the sort algorithm does not matter |
| Observed.ProcessObservedSorts | components/RRNAAnalysis.tsx:140-142 | each strain's list is its points sorted by generation |
| Observed.GroupUploads | components/RRNAAnalysis.tsx:82-94 | the `forEach` filling `strainGenData` yields the model's groups |
| Observed.DeduplicateRecords | components/RRNAAnalysis.tsx:103-111 | the `forEach` filling the de-duplication map, then its values, yields the model's kept records |
| Observed.SummarizeGroup | components/RRNAAnalysis.tsx:103-137 | one group's point as the loop body computes it equals the model's point |
| Observed.PushGroup | components/RRNAAnalysis.tsx:99-137 | creating the strain's list if missing and pushing the point equals the model's push |
| Observed.ProcessObserved | components/RRNAAnalysis.tsx:77-145 | the imperative routine returns the model's result |

## Left out

- Rendering, charts, presets and file handling are not part of this model:
  the JSX and its colour lists, the React hooks, memoisation and the
  `setTimeout` deferral, and the strain parameter presets.
- File reading, the file-name regular expression and the CSV parsing are not
  modelled. A `DataFile` arrives already parsed, with only the fields the
  aggregation reads. Rows the parser drops are simply absent.
- Floating point is not modelled; every quantity is an exact real. The
  Bernoulli tests `Math.random() < p` compare exact reals. The share
  `numDiffSites * (1541 / 4445)` is the exact quotient, so its floor can
  differ from the double-precision result when the product is an integer.
- NaN is not modelled: `|| 0` and the `isNaN` filter of `summaryStats` never
  apply to real values, and frequencies are always numbers.
- `Math.random` is an injected stream of reals in [0, 1), read in the order
  the source calls it. The source's randomness is not reproduced.
- Dictionary keys: the string keys `${strain}_${generation}` and
  `${seq_id}_${position}` are modelled as pairs. They are injective because
  the suffix is a number with no underscore. Insertion order is kept in a
  separate key sequence. `strainData` is a map, so its key order is not
  modelled.
- The in-place `values.sort` and `strainData[strain].sort` are modelled on
  values. Each is a functional insertion sort, stable by construction but not
  proved stable. Sorting.SortedUnique makes stability immaterial: it shows
  the result does not depend on the algorithm, because in `summaryStats` the
  elements are their own keys and a strain's points have distinct
  generations.
- Simulation.Config: the generation count and sampling interval are
  parameters; the source hard-codes 50000 and 2500. The interval is positive.
- Observed.PointOfBounds: it does not bound the divergences by 1. That bound
  needs every position to lie inside its locus, which the source does not
  check.
- `numRuns` is a natural number; the UI input's parsing is not modelled.
