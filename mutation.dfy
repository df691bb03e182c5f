/**
 * The mutation model. Every generation, for every copy and for each of its
 * two loci, one Bernoulli draw with success probability `mutationRate * len`
 * decides whether one uniformly drawn site of that locus advances to the
 * next of the four states, `(s + 1) % 4`.
 */
module Mutation {
  import opened Draws
  import opened Genome

  /** `(s + 1) % 4`: the cyclic substitution. On the states 0..3 it never keeps a state. */
  function Substitute(s: int): (r: int)
    ensures 0 <= r <= 3
    ensures 0 <= s <= 3 ==> r != s
  {
    (s + 1) % 4
  }

  /** One Bernoulli draw for one locus of one copy and, on success, one site draw. */
  function MutateLocus(row: seq<int>, p: real, rng: Source, c: nat): (r: Drawn<seq<int>>)
    requires |row| > 0
    ensures |r.value| == |row|
  {
    if Succeeds(rng(c), p) then
      var pos := Pick(rng(c + 1), |row|);
      Drawn(row[pos := Substitute(row[pos])], c + 2)
    else
      Drawn(row, c + 1)
  }

  /** The mutations of copies 0..k-1, short locus before long locus. */
  function MutateUpTo(g: Genome, mutationRate: real, k: nat, rng: Source, c: nat): (r: Drawn<Genome>)
    requires Shaped(g) && k <= |g.rrs|
    ensures Shaped(r.value) && |r.value.rrs| == |g.rrs|
  {
    if k == 0 then Drawn(g, c)
    else
      var d := MutateUpTo(g, mutationRate, k - 1, rng, c);
      var s := MutateLocus(d.value.rrs[k - 1], mutationRate * RrsLength as real, rng, d.next);
      var l := MutateLocus(d.value.rrl[k - 1], mutationRate * RrlLength as real, rng, s.next);
      Drawn(Genome(d.value.rrs[k - 1 := s.value], d.value.rrl[k - 1 := l.value]), l.next)
  }

  /** The mutation phase of one generation. */
  function MutationStep(g: Genome, mutationRate: real, rng: Source, c: nat): (r: Drawn<Genome>)
    requires Shaped(g)
    ensures Shaped(r.value) && |r.value.rrs| == |g.rrs|
  {
    MutateUpTo(g, mutationRate, |g.rrs|, rng, c)
  }

  /** `after` is `before`, or `before` with exactly one site substituted. */
  ghost predicate AtMostOneSubstitution(before: seq<int>, after: seq<int>) {
    || after == before
    || exists j :: 0 <= j < |before| && after == before[j := Substitute(before[j])]
  }

  /** Copies below k have undergone at most one substitution per locus; the others are untouched. */
  ghost predicate MutatedUpTo(before: Genome, after: Genome, k: nat)
    requires Shaped(before) && Shaped(after) && |after.rrs| == |before.rrs|
  {
    forall op :: 0 <= op < |before.rrs| ==>
      if op < k then
        AtMostOneSubstitution(before.rrs[op], after.rrs[op]) && AtMostOneSubstitution(before.rrl[op], after.rrl[op])
      else
        after.rrs[op] == before.rrs[op] && after.rrl[op] == before.rrl[op]
  }

  lemma MutateLocusLocal(row: seq<int>, p: real, rng: Source, c: nat)
    requires |row| > 0
    ensures AtMostOneSubstitution(row, MutateLocus(row, p, rng, c).value)
  {
    if Succeeds(rng(c), p) {
      var pos := Pick(rng(c + 1), |row|);
      assert MutateLocus(row, p, rng, c).value == row[pos := Substitute(row[pos])];
    }
  }

  lemma {:induction false} MutateUpToLocal(g: Genome, mutationRate: real, k: nat, rng: Source, c: nat)
    requires Shaped(g) && k <= |g.rrs|
    ensures MutatedUpTo(g, MutateUpTo(g, mutationRate, k, rng, c).value, k)
  {
    if k > 0 {
      MutateUpToLocal(g, mutationRate, k - 1, rng, c);
      var d := MutateUpTo(g, mutationRate, k - 1, rng, c);
      var s := MutateLocus(d.value.rrs[k - 1], mutationRate * RrsLength as real, rng, d.next);
      MutateLocusLocal(d.value.rrs[k - 1], mutationRate * RrsLength as real, rng, d.next);
      MutateLocusLocal(d.value.rrl[k - 1], mutationRate * RrlLength as real, rng, s.next);
    }
  }

  /** A mutation phase changes at most one site per copy and locus, and that
      site to `(s + 1) % 4`; every other site keeps its state. */
  lemma MutationStepLocal(g: Genome, mutationRate: real, rng: Source, c: nat)
    requires Shaped(g)
    ensures MutatedUpTo(g, MutationStep(g, mutationRate, rng, c).value, |g.rrs|)
  {
    MutateUpToLocal(g, mutationRate, |g.rrs|, rng, c);
  }

  lemma SubstitutionValid(before: seq<int>, after: seq<int>)
    requires AtMostOneSubstitution(before, after)
    requires forall j :: 0 <= j < |before| ==> 0 <= before[j] <= 3
    ensures |after| == |before| && forall j :: 0 <= j < |after| ==> 0 <= after[j] <= 3
  {
    if after != before {
      var j :| 0 <= j < |before| && after == before[j := Substitute(before[j])];
    }
  }

  /** Mutation keeps every site state in 0..3. */
  lemma MutationStepValid(g: Genome, mutationRate: real, rng: Source, c: nat)
    requires Shaped(g) && ValidStates(g)
    ensures ValidStates(MutationStep(g, mutationRate, rng, c).value)
  {
    var h := MutationStep(g, mutationRate, rng, c).value;
    MutationStepLocal(g, mutationRate, rng, c);
    forall op | 0 <= op < |g.rrs|
      ensures forall j :: 0 <= j < |h.rrs[op]| ==> 0 <= h.rrs[op][j] <= 3
      ensures forall j :: 0 <= j < |h.rrl[op]| ==> 0 <= h.rrl[op][j] <= 3
    {
      SubstitutionValid(g.rrs[op], h.rrs[op]);
      SubstitutionValid(g.rrl[op], h.rrl[op]);
    }
  }

  /** One Bernoulli draw for copy `op` of one locus kind and, on success, one substitution. */
  method MutateRow(a: array2<int>, op: nat, p: real, rng: Source, c: nat) returns (next: nat)
    requires op < a.Length0 && a.Length1 > 0
    modifies a
    ensures Rows(a) == old(Rows(a))[op := MutateLocus(old(Rows(a))[op], p, rng, c).value]
    ensures next == MutateLocus(old(Rows(a))[op], p, rng, c).next
  {
    ghost var row := Rows(a)[op];
    if Succeeds(rng(c), p) {
      var pos := Pick(rng(c + 1), a.Length1);
      assert |row| == a.Length1 && a[op, pos] == row[pos];
      SetSite(a, op, pos, Substitute(a[op, pos]));
      next := c + 2;
    } else {
      next := c + 1;
    }
  }

  /** The generation's mutation loop over the two arrays. */
  method Mutate(rrs: array2<int>, rrl: array2<int>, mutationRate: real, rng: Source, c: nat) returns (next: nat)
    requires rrs != rrl && rrs.Length0 == rrl.Length0
    requires rrs.Length1 == RrsLength && rrl.Length1 == RrlLength
    modifies rrs, rrl
    ensures Drawn(State(rrs, rrl), next) == MutationStep(old(State(rrs, rrl)), mutationRate, rng, c)
  {
    ghost var g := State(rrs, rrl);
    next := c;
    for op := 0 to rrs.Length0
      invariant Drawn(State(rrs, rrl), next) == MutateUpTo(g, mutationRate, op, rng, c)
    {
      next := MutateRow(rrs, op, mutationRate * RrsLength as real, rng, next);
      next := MutateRow(rrl, op, mutationRate * RrlLength as real, rng, next);
    }
  }
}
