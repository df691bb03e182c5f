/**
 * Genome initialisation of one simulation run. The reference copy rrnB stays
 * all-zero. Every other copy receives `floor(4445 * frac)` writes of a state
 * in 1..3 at uniformly drawn sites (with replacement), split between the two
 * loci in proportion to their lengths. Each write consumes two draws: the
 * site, then the state.
 */
module Initialization {
  import opened Draws
  import opened Genome

  /** `Math.floor(totalSites * initialDivergence)`. */
  function NumDiffSites(frac: real): (n: int)
    ensures n as real <= TotalSites as real * frac < n as real + 1.0
  {
    (TotalSites as real * frac).Floor
  }

  /** The short locus's share, `Math.floor(numDiffSites * (1541 / 4445))`. */
  function RrsDiffSites(numDiff: int): (k: int)
    ensures k * TotalSites <= numDiff * RrsLength < (k + 1) * TotalSites
  {
    numDiff * RrsLength / TotalSites
  }

  /** The long locus's share: the rest. */
  function RrlDiffSites(numDiff: int): int {
    numDiff - RrsDiffSites(numDiff)
  }

  /** How often `for (let i = 0; i < n; i++)` runs its body. */
  function Times(n: int): nat {
    if n < 0 then 0 else n
  }

  /** For a non-negative count, the short locus gets `floor(n * 1541 / 4445)` and
      the long locus the rest, both non-negative; in every case the two loops
      together run `max(0, n)` times. */
  lemma WriteSplit(numDiff: int)
    ensures numDiff >= 0 ==> 0 <= RrsDiffSites(numDiff) <= numDiff && 0 <= RrlDiffSites(numDiff)
    ensures numDiff >= 0 ==>
      RrsDiffSites(numDiff) * TotalSites <= numDiff * RrsLength < (RrsDiffSites(numDiff) + 1) * TotalSites
    ensures Times(RrsDiffSites(numDiff)) + Times(RrlDiffSites(numDiff)) == Times(numDiff)
  {
    var q := RrsDiffSites(numDiff);
    var p := numDiff * RrsLength;
    assert q * TotalSites <= p < q * TotalSites + TotalSites;
    if numDiff >= 0 {
      assert 0 <= q;
      assert q <= numDiff;
    } else {
      assert q < 0;
      assert numDiff <= q;
    }
  }

  /** No write at all when the fraction is below one site in 4445. */
  lemma NoDiffSites(frac: real)
    requires 0.0 <= frac < 1.0 / TotalSites as real
    ensures NumDiffSites(frac) == 0
  {
    assert 0.0 <= TotalSites as real * frac < 1.0;
  }

  /** One initial write: `seq[site] = state`. */
  datatype Write = Write(site: nat, state: int)

  /** The `count` writes a locus of length `len` receives, drawn from `c` on:
      the k-th write's site is draw `c + 2k` and its state `1 + ` draw `c + 2k + 1`. */
  function Writes(len: nat, count: nat, rng: Source, c: nat): (ws: seq<Write>)
    requires len > 0
    ensures |ws| == count
    ensures forall k :: 0 <= k < count ==> ws[k].site < len && 1 <= ws[k].state <= 3
  {
    seq(count, k requires 0 <= k < count =>
      Write(Pick(rng(c + 2 * k), len), 1 + Pick(rng(c + 2 * k + 1), 3)))
  }

  /** The cursor after `count` writes of two draws each, starting at draw `c`. */
  function After(c: nat, count: nat): nat {
    c + 2 * count
  }

  predicate InRange(ws: seq<Write>, len: nat) {
    forall k :: 0 <= k < |ws| ==> ws[k].site < len
  }

  /** The writes applied in order: a later write to a site replaces an earlier one. */
  function Overwrite(row: seq<int>, ws: seq<Write>): (r: seq<int>)
    requires InRange(ws, |row|)
    ensures |r| == |row|
    decreases |ws|
  {
    if ws == [] then row
    else
      var w := ws[|ws| - 1];
      Overwrite(row, ws[..|ws| - 1])[w.site := w.state]
  }

  /** A site nobody writes keeps its state; a written site holds the state of
      the last write to it. */
  lemma {:induction false} OverwriteSites(row: seq<int>, ws: seq<Write>, j: nat)
    requires InRange(ws, |row|) && j < |row|
    ensures (forall k :: 0 <= k < |ws| ==> ws[k].site != j) ==> Overwrite(row, ws)[j] == row[j]
    ensures forall k :: 0 <= k < |ws| && ws[k].site == j && (forall k' :: k < k' < |ws| ==> ws[k'].site != j) ==>
      Overwrite(row, ws)[j] == ws[k].state
  {
    if ws != [] {
      var init := ws[..|ws| - 1];
      assert forall k :: 0 <= k < |init| ==> init[k] == ws[k];
      OverwriteSites(row, init, j);
    }
  }

  /** The copy `op`'s two loci after its initial writes, starting at draw `c`. */
  function InitCopy(g: Genome, op: nat, nr: nat, nl: nat, rng: Source, c: nat): (r: Drawn<Genome>)
    requires Shaped(g) && op < |g.rrs|
    ensures Shaped(r.value) && |r.value.rrs| == |g.rrs|
  {
    if op == Reference then Drawn(g, c)
    else
      var rrsRow := Overwrite(g.rrs[op], Writes(RrsLength, nr, rng, c));
      var rrlRow := Overwrite(g.rrl[op], Writes(RrlLength, nl, rng, After(c, nr)));
      Drawn(Genome(g.rrs[op := rrsRow], g.rrl[op := rrlRow]), After(After(c, nr), nl))
  }

  /** The genome after copies 0..k-1 have been initialised with `nr` short-locus
      and `nl` long-locus writes each. */
  function InitUpTo(nr: nat, nl: nat, k: nat, rng: Source, c0: nat): (r: Drawn<Genome>)
    requires k <= NumCopies
    ensures Shaped(r.value) && |r.value.rrs| == NumCopies
  {
    if k == 0 then Drawn(ZeroGenome(), c0)
    else
      var d := InitUpTo(nr, nl, k - 1, rng, c0);
      InitCopy(d.value, k - 1, nr, nl, rng, d.next)
  }

  /** How many writes each non-reference copy's short locus receives. */
  function RrsWrites(frac: real): nat {
    Times(RrsDiffSites(NumDiffSites(frac)))
  }

  /** How many writes each non-reference copy's long locus receives. */
  function RrlWrites(frac: real): nat {
    Times(RrlDiffSites(NumDiffSites(frac)))
  }

  /** The genome a run starts from, and the cursor after its draws. */
  function InitialGenome(frac: real, rng: Source, c0: nat): Drawn<Genome> {
    InitUpTo(RrsWrites(frac), RrlWrites(frac), NumCopies, rng, c0)
  }

  /** Copy `op` is the all-zero locus pair overwritten by exactly the source's
      number of writes on each locus, drawn from some point of the stream. */
  ghost predicate CopyInitialised(g: Genome, op: nat, nr: nat, nl: nat, rng: Source)
    requires Shaped(g) && op < |g.rrs|
  {
    exists c: nat ::
      && g.rrs[op] == Overwrite(Zeros(RrsLength), Writes(RrsLength, nr, rng, c))
      && g.rrl[op] == Overwrite(Zeros(RrlLength), Writes(RrlLength, nl, rng, After(c, nr)))
  }

  predicate ZeroCopy(g: Genome, op: nat)
    requires Shaped(g) && op < |g.rrs|
  {
    g.rrs[op] == Zeros(RrsLength) && g.rrl[op] == Zeros(RrlLength)
  }

  /** One copy's initialisation touches that copy only. */
  lemma InitCopyRows(g: Genome, op: nat, nr: nat, nl: nat, rng: Source, c: nat)
    requires Shaped(g) && op < |g.rrs|
    ensures var r := InitCopy(g, op, nr, nl, rng, c).value;
      && (forall o :: 0 <= o < |g.rrs| && o != op ==> r.rrs[o] == g.rrs[o] && r.rrl[o] == g.rrl[o])
      && (op == Reference ==> r == g)
      && (op != Reference && ZeroCopy(g, op) ==> CopyInitialised(r, op, nr, nl, rng))
  {
    var r := InitCopy(g, op, nr, nl, rng, c).value;
    if op != Reference && ZeroCopy(g, op) {
      assert r.rrs[op] == Overwrite(Zeros(RrsLength), Writes(RrsLength, nr, rng, c));
    }
  }

  lemma CopyInitialisedKept(g: Genome, h: Genome, op: nat, nr: nat, nl: nat, rng: Source)
    requires Shaped(g) && Shaped(h) && op < |g.rrs| && op < |h.rrs|
    requires CopyInitialised(g, op, nr, nl, rng)
    requires h.rrs[op] == g.rrs[op] && h.rrl[op] == g.rrl[op]
    ensures CopyInitialised(h, op, nr, nl, rng)
  {
    var c: nat :| g.rrs[op] == Overwrite(Zeros(RrsLength), Writes(RrsLength, nr, rng, c))
      && g.rrl[op] == Overwrite(Zeros(RrlLength), Writes(RrlLength, nl, rng, After(c, nr)));
  }

  lemma {:induction false} InitUpToZero(nr: nat, nl: nat, k: nat, rng: Source, c0: nat)
    requires k <= NumCopies
    ensures forall op :: (k <= op < NumCopies || op == Reference) ==>
      ZeroCopy(InitUpTo(nr, nl, k, rng, c0).value, op)
  {
    if k > 0 {
      InitUpToZero(nr, nl, k - 1, rng, c0);
      var d := InitUpTo(nr, nl, k - 1, rng, c0);
      var g := InitUpTo(nr, nl, k, rng, c0).value;
      assert g == InitCopy(d.value, k - 1, nr, nl, rng, d.next).value;
      InitCopyRows(d.value, k - 1, nr, nl, rng, d.next);
      forall op | k <= op < NumCopies || op == Reference
        ensures ZeroCopy(g, op)
      {
        assert ZeroCopy(d.value, op);
        if op != k - 1 {
          assert g.rrs[op] == d.value.rrs[op] && g.rrl[op] == d.value.rrl[op];
        }
      }
    }
  }

  lemma {:induction false} InitUpToCopies(nr: nat, nl: nat, k: nat, rng: Source, c0: nat)
    requires k <= NumCopies
    ensures forall op :: 0 <= op < k && op != Reference ==>
      CopyInitialised(InitUpTo(nr, nl, k, rng, c0).value, op, nr, nl, rng)
  {
    if k > 0 {
      InitUpToCopies(nr, nl, k - 1, rng, c0);
      InitUpToZero(nr, nl, k - 1, rng, c0);
      var d := InitUpTo(nr, nl, k - 1, rng, c0);
      var g := InitUpTo(nr, nl, k, rng, c0).value;
      assert g == InitCopy(d.value, k - 1, nr, nl, rng, d.next).value;
      InitCopyRows(d.value, k - 1, nr, nl, rng, d.next);
      forall o | 0 <= o < k - 1 && o != Reference
        ensures CopyInitialised(g, o, nr, nl, rng)
      {
        assert CopyInitialised(d.value, o, nr, nl, rng);
        CopyInitialisedKept(d.value, g, o, nr, nl, rng);
      }
      if k - 1 != Reference {
        assert ZeroCopy(d.value, k - 1);
      }
    }
  }

  /** After initialisation the reference copy is all-zero in both loci, and every
      other copy is an all-zero start overwritten by exactly RrsWrites(frac)
      short-locus and RrlWrites(frac) long-locus writes, each of a state in 1..3. */
  lemma InitialCopies(frac: real, rng: Source, c0: nat)
    ensures ZeroCopy(InitialGenome(frac, rng, c0).value, Reference)
    ensures forall op :: 0 <= op < NumCopies && op != Reference ==>
      CopyInitialised(InitialGenome(frac, rng, c0).value, op, RrsWrites(frac), RrlWrites(frac), rng)
  {
    var g := InitialGenome(frac, rng, c0).value;
    assert g == InitUpTo(RrsWrites(frac), RrlWrites(frac), NumCopies, rng, c0).value;
    InitUpToZero(RrsWrites(frac), RrlWrites(frac), NumCopies, rng, c0);
    InitUpToCopies(RrsWrites(frac), RrlWrites(frac), NumCopies, rng, c0);
    assert ZeroCopy(g, Reference);
  }

  /** The write counts of the source: for a non-negative fraction the short locus
      gets `floor(n * 1541 / 4445)` of `n = floor(4445 * frac)` writes and the long
      locus the rest. */
  lemma WriteCounts(frac: real)
    requires frac >= 0.0
    ensures NumDiffSites(frac) >= 0
    ensures RrsWrites(frac) == NumDiffSites(frac) * RrsLength / TotalSites
    ensures RrsWrites(frac) + RrlWrites(frac) == NumDiffSites(frac)
  {
    WriteSplit(NumDiffSites(frac));
  }

  /** With no differing site to place, every copy equals the reference. */
  lemma InitialWithoutDivergence(frac: real, rng: Source, c0: nat)
    requires NumDiffSites(frac) == 0
    ensures InitialGenome(frac, rng, c0).value == ZeroGenome()
  {
    var g := InitialGenome(frac, rng, c0).value;
    InitialCopies(frac, rng, c0);
    assert RrsWrites(frac) == 0 && RrlWrites(frac) == 0;
    forall op | 0 <= op < NumCopies
      ensures g.rrs[op] == Zeros(RrsLength) && g.rrl[op] == Zeros(RrlLength)
    {
      if op != Reference {
        assert CopyInitialised(g, op, 0, 0, rng);
        var c: nat :| g.rrs[op] == Overwrite(Zeros(RrsLength), Writes(RrsLength, 0, rng, c))
          && g.rrl[op] == Overwrite(Zeros(RrlLength), Writes(RrlLength, 0, rng, c));
      }
    }
    assert g.rrs == ZeroGenome().rrs;
    assert g.rrl == ZeroGenome().rrl;
  }

  /** A row overwritten with states 1..3 over states 0..3 holds states 0..3 only. */
  lemma {:induction false} OverwriteValid(row: seq<int>, ws: seq<Write>)
    requires InRange(ws, |row|)
    requires forall j :: 0 <= j < |row| ==> 0 <= row[j] <= 3
    requires forall k :: 0 <= k < |ws| ==> 1 <= ws[k].state <= 3
    ensures forall j :: 0 <= j < |row| ==> 0 <= Overwrite(row, ws)[j] <= 3
  {
    if ws != [] {
      OverwriteValid(row, ws[..|ws| - 1]);
    }
  }

  /** An initialised copy holds states 0..3 only. */
  lemma CopyInitialisedValid(g: Genome, op: nat, nr: nat, nl: nat, rng: Source)
    requires Shaped(g) && op < |g.rrs|
    requires CopyInitialised(g, op, nr, nl, rng)
    ensures forall j :: 0 <= j < RrsLength ==> 0 <= g.rrs[op][j] <= 3
    ensures forall j :: 0 <= j < RrlLength ==> 0 <= g.rrl[op][j] <= 3
  {
    var c: nat :| g.rrs[op] == Overwrite(Zeros(RrsLength), Writes(RrsLength, nr, rng, c))
      && g.rrl[op] == Overwrite(Zeros(RrlLength), Writes(RrlLength, nl, rng, After(c, nr)));
    OverwriteValid(Zeros(RrsLength), Writes(RrsLength, nr, rng, c));
    OverwriteValid(Zeros(RrlLength), Writes(RrlLength, nl, rng, After(c, nr)));
  }

  /** Every initial site state lies in 0..3. */
  lemma InitialStatesValid(frac: real, rng: Source, c0: nat)
    ensures ValidStates(InitialGenome(frac, rng, c0).value)
  {
    var g := InitialGenome(frac, rng, c0).value;
    InitialCopies(frac, rng, c0);
    forall op | 0 <= op < NumCopies
      ensures forall j :: 0 <= j < RrsLength ==> 0 <= g.rrs[op][j] <= 3
      ensures forall j :: 0 <= j < RrlLength ==> 0 <= g.rrl[op][j] <= 3
    {
      if op != Reference {
        CopyInitialisedValid(g, op, RrsWrites(frac), RrlWrites(frac), rng);
      } else {
        assert ZeroCopy(g, op);
      }
    }
  }

  /** The loop `for (i < count) seq[op][random site] = 1 + random(3)` on one locus
      kind: `count` writes into copy `op`, two draws each, from draw `c` on. */
  method WriteLocus(a: array2<int>, len: nat, op: nat, count: nat, rng: Source, c: nat, ghost before: Loci) returns (next: nat)
    requires op < a.Length0 && len > 0 && a.Length1 == len && Rows(a) == before
    modifies a
    ensures next == After(c, count)
    ensures Rows(a) == before[op := Overwrite(before[op], Writes(len, count, rng, c))]
  {
    next := c;
    for i := 0 to count
      invariant next == After(c, i)
      invariant Rows(a) == before[op := Overwrite(before[op], Writes(len, i, rng, c))]
    {
      var pos := Pick(rng(next), len);
      var state := 1 + Pick(rng(next + 1), 3);
      ghost var prev := Rows(a);
      SetSite(a, op, pos, state);
      WriteStep(before, op, len, i, rng, c, prev, Rows(a));
      next := next + 2;
    }
  }

  /** The rows after write `i` of copy `op`, from the rows after its first `i` writes. */
  lemma WriteStep(before: Loci, op: nat, len: nat, i: nat, rng: Source, c: nat, prev: Loci, after: Loci)
    requires op < |before| && len > 0 && |before[op]| == len
    requires prev == before[op := Overwrite(before[op], Writes(len, i, rng, c))]
    requires after == prev[op := prev[op][Pick(rng(After(c, i)), len) := 1 + Pick(rng(After(c, i) + 1), 3)]]
    ensures after == before[op := Overwrite(before[op], Writes(len, i + 1, rng, c))]
  {
    OverwriteNext(before[op], len, i, rng, c);
  }

  /** One more write: the row gains the state of write `i` at its site. */
  lemma OverwriteNext(row: seq<int>, len: nat, i: nat, rng: Source, c: nat)
    requires len > 0 && |row| == len
    ensures Overwrite(row, Writes(len, i + 1, rng, c))
      == Overwrite(row, Writes(len, i, rng, c))[Pick(rng(After(c, i)), len) := 1 + Pick(rng(After(c, i) + 1), 3)]
  {
    var ws := Writes(len, i + 1, rng, c);
    assert ws[..i] == Writes(len, i, rng, c);
    assert ws[i] == Write(Pick(rng(After(c, i)), len), 1 + Pick(rng(After(c, i) + 1), 3));
  }

  /** Allocates the two loci of all seven copies and applies the initial writes
      copy by copy; the result is the initial genome of the model and the cursor
      after the draws it consumed. */
  method Initialize(frac: real, rng: Source, c0: nat) returns (rrs: array2<int>, rrl: array2<int>, next: nat)
    ensures fresh(rrs) && fresh(rrl) && rrs != rrl
    ensures rrs.Length0 == NumCopies && rrs.Length1 == RrsLength
    ensures rrl.Length0 == NumCopies && rrl.Length1 == RrlLength
    ensures Drawn(State(rrs, rrl), next) == InitialGenome(frac, rng, c0)
  {
    var numDiffSites := NumDiffSites(frac);
    var diffSitesInRrs := Times(RrsDiffSites(numDiffSites));
    var diffSitesInRrl := Times(RrlDiffSites(numDiffSites));
    rrs := NewLocus(RrsLength);
    rrl := NewLocus(RrlLength);
    next := c0;
    for op := 0 to NumCopies
      invariant Drawn(State(rrs, rrl), next) == InitUpTo(diffSitesInRrs, diffSitesInRrl, op, rng, c0)
    {
      next := WriteCopy(rrs, rrl, op, diffSitesInRrs, diffSitesInRrl, rng, next);
    }
  }

  /** One iteration of the copy loop: the writes of copy `op`, none for the reference. */
  method WriteCopy(rrs: array2<int>, rrl: array2<int>, op: nat, nr: nat, nl: nat, rng: Source, c: nat)
    returns (next: nat)
    requires rrs != rrl && op < NumCopies
    requires rrs.Length0 == NumCopies && rrs.Length1 == RrsLength
    requires rrl.Length0 == NumCopies && rrl.Length1 == RrlLength
    modifies rrs, rrl
    ensures Drawn(State(rrs, rrl), next) == InitCopy(old(State(rrs, rrl)), op, nr, nl, rng, c)
  {
    ghost var g := State(rrs, rrl);
    next := c;
    if op != Reference {
      next := WriteLocus(rrs, RrsLength, op, nr, rng, c, g.rrs);
      next := WriteLocus(rrl, RrlLength, op, nl, rng, next, g.rrl);
      InitCopyIs(g, op, nr, nl, rng, c, Rows(rrs), Rows(rrl));
    }
  }

  /** The rows the two loops of a non-reference copy leave are that copy's initial writes. */
  lemma InitCopyIs(g: Genome, op: nat, nr: nat, nl: nat, rng: Source, c: nat, rrs: Loci, rrl: Loci)
    requires Shaped(g) && op < |g.rrs| && op != Reference
    requires rrs == g.rrs[op := Overwrite(g.rrs[op], Writes(RrsLength, nr, rng, c))]
    requires rrl == g.rrl[op := Overwrite(g.rrl[op], Writes(RrlLength, nl, rng, After(c, nr)))]
    ensures InitCopy(g, op, nr, nl, rng, c) == Drawn(Genome(rrs, rrl), After(After(c, nr), nl))
  {
  }
}
