/**
 * The trajectory sampler. For each copy other than the reference it counts
 * the sites, over both loci, whose state differs from the reference copy's
 * state at the same site, divides by the 4445 sites, and averages these
 * fractions over the copies it visited (0 when it visited none).
 */
module Sampler {
  import opened Genome

  /** The number of sites at which two equally long rows differ. */
  function DiffCount(row: seq<int>, ref: seq<int>): (n: nat)
    requires |row| == |ref|
    ensures n <= |row|
    ensures n == 0 <==> row == ref
  {
    if |row| == 0 then 0
    else
      var k := |row| - 1;
      var rest := DiffCount(row[..k], ref[..k]);
      assert row == row[..k] + [row[k]] && ref == ref[..k] + [ref[k]];
      rest + (if row[k] != ref[k] then 1 else 0)
  }

  /** The fraction of copy `op`'s 4445 sites that differ from copy `ref`. */
  function CopyDivergence(g: Genome, op: nat, ref: nat): (d: real)
    requires Shaped(g) && op < |g.rrs| && ref < |g.rrs|
    ensures 0.0 <= d <= 1.0
    ensures d == 0.0 <==> g.rrs[op] == g.rrs[ref] && g.rrl[op] == g.rrl[ref]
  {
    (DiffCount(g.rrs[op], g.rrs[ref]) + DiffCount(g.rrl[op], g.rrl[ref])) as real / TotalSites as real
  }

  /** The number of copies below k other than `ref`: the sampler's `numOperons`. */
  function NonReferenceCount(k: nat, ref: nat): (n: nat)
    ensures n == if ref < k then k - 1 else k
  {
    if k == 0 then 0 else NonReferenceCount(k - 1, ref) + (if k - 1 != ref then 1 else 0)
  }

  /** The sampler's `totalDivergence` after visiting copies 0..k-1. */
  function DivergenceSum(g: Genome, ref: nat, k: nat): (s: real)
    requires Shaped(g) && ref < |g.rrs| && k <= |g.rrs|
    ensures 0.0 <= s <= NonReferenceCount(k, ref) as real
  {
    if k == 0 then 0.0
    else DivergenceSum(g, ref, k - 1) + (if k - 1 != ref then CopyDivergence(g, k - 1, ref) else 0.0)
  }

  /** The aggregate divergence of one trajectory point: `totalDivergence / numOperons`,
      or 0 when no copy other than the reference exists. It lies in [0, 1]. */
  function Divergence(g: Genome, ref: nat): (avg: real)
    requires Shaped(g) && ref < |g.rrs|
    ensures 0.0 <= avg <= 1.0
  {
    var n := NonReferenceCount(|g.rrs|, ref);
    if n > 0 then
      var total := DivergenceSum(g, ref, |g.rrs|);
      QuotientInUnit(total, n);
      total / n as real
    else 0.0
  }

  /** A total of at most n over n lies in [0, 1]. */
  lemma QuotientInUnit(total: real, n: nat)
    requires n > 0 && 0.0 <= total <= n as real
    ensures 0.0 <= total / n as real <= 1.0
  {
  }

  /** Every copy equals the reference below k exactly when the partial sum is 0. */
  lemma {:induction false} DivergenceSumZero(g: Genome, ref: nat, k: nat)
    requires Shaped(g) && ref < |g.rrs| && k <= |g.rrs|
    ensures DivergenceSum(g, ref, k) == 0.0 <==>
      forall op :: 0 <= op < k ==> g.rrs[op] == g.rrs[ref] && g.rrl[op] == g.rrl[ref]
  {
    if k > 0 {
      DivergenceSumZero(g, ref, k - 1);
      if k - 1 != ref {
        assert CopyDivergence(g, k - 1, ref) >= 0.0;
      }
    }
  }

  /** The aggregate is 0 exactly when every copy equals the reference in both loci. */
  lemma DivergenceZero(g: Genome, ref: nat)
    requires Shaped(g) && ref < |g.rrs|
    ensures Divergence(g, ref) == 0.0 <==>
      forall op :: 0 <= op < |g.rrs| ==> g.rrs[op] == g.rrs[ref] && g.rrl[op] == g.rrl[ref]
  {
    DivergenceSumZero(g, ref, |g.rrs|);
    if NonReferenceCount(|g.rrs|, ref) == 0 {
      assert |g.rrs| == 1;
      forall op | 0 <= op < |g.rrs|
        ensures g.rrs[op] == g.rrs[ref] && g.rrl[op] == g.rrl[ref]
      {
        assert op == ref;
      }
    }
  }

  /** A reference copy alone gives the aggregate 0. */
  lemma DivergenceWithoutOthers(g: Genome, ref: nat)
    requires Shaped(g) && |g.rrs| == 1 && ref == 0
    ensures Divergence(g, ref) == 0.0
  {
  }

  /** With a reference and at least one other copy, the aggregate is the mean over
      exactly the non-reference copies (six of the seven) of their divergence. */
  lemma DivergenceIsMean(g: Genome, ref: nat)
    requires Shaped(g) && ref < |g.rrs| && |g.rrs| >= 2
    ensures NonReferenceCount(|g.rrs|, ref) == |g.rrs| - 1
    ensures Divergence(g, ref) == DivergenceSum(g, ref, |g.rrs|) / (|g.rrs| - 1) as real
  {
  }

  /** `diffSites` after the loop `for (i < len) if (seq[op][i] !== ref[i]) diffSites++`. */
  method CountDiffs(a: array2<int>, op: nat, ref: nat, from: nat) returns (diffSites: nat)
    requires op < a.Length0 && ref < a.Length0
    ensures diffSites == from + DiffCount(Rows(a)[op], Rows(a)[ref])
  {
    ghost var rows := Rows(a);
    diffSites := from;
    for i := 0 to a.Length1
      invariant diffSites == from + DiffCount(rows[op][..i], rows[ref][..i])
    {
      assert rows[op][..i + 1][..i] == rows[op][..i] && rows[ref][..i + 1][..i] == rows[ref][..i];
      if a[op, i] != a[ref, i] {
        diffSites := diffSites + 1;
      }
    }
    assert rows[op][..a.Length1] == rows[op] && rows[ref][..a.Length1] == rows[ref];
  }

  /** `diffSites / (1541 + 2904)` for copy `op`. */
  method OperonDivergence(rrs: array2<int>, rrl: array2<int>, op: nat) returns (operonDiv: real)
    requires rrs.Length0 == rrl.Length0 && Reference < rrs.Length0 && op < rrs.Length0
    requires rrs.Length1 == RrsLength && rrl.Length1 == RrlLength
    ensures operonDiv == CopyDivergence(State(rrs, rrl), op, Reference)
  {
    var diffSites := CountDiffs(rrs, op, Reference, 0);
    diffSites := CountDiffs(rrl, op, Reference, diffSites);
    operonDiv := diffSites as real / (RrsLength + RrlLength) as real;
  }

  /** The sampler over the two arrays, with rrnB as the reference. */
  method Sample(rrs: array2<int>, rrl: array2<int>) returns (avgDiv: real)
    requires rrs.Length0 == rrl.Length0 && Reference < rrs.Length0
    requires rrs.Length1 == RrsLength && rrl.Length1 == RrlLength
    ensures avgDiv == Divergence(State(rrs, rrl), Reference)
    ensures 0.0 <= avgDiv <= 1.0
  {
    ghost var g := State(rrs, rrl);
    var totalDivergence := 0.0;
    var numOperons := 0;
    for op := 0 to rrs.Length0
      invariant totalDivergence == DivergenceSum(g, Reference, op)
      invariant numOperons == NonReferenceCount(op, Reference)
    {
      if op != Reference {
        var operonDiv := OperonDivergence(rrs, rrl, op);
        totalDivergence := totalDivergence + operonDiv;
        numOperons := numOperons + 1;
      }
    }
    avgDiv := if numOperons > 0 then totalDivergence / numOperons as real else 0.0;
  }
}
