/**
 * The genome state of the neutral model: seven rRNA operon copies, each with
 * a short locus (rrs, 1541 sites) and a long locus (rrl, 2904 sites). A site
 * holds one of four states 0..3. One locus kind across all copies is a
 * rectangle of rows, one row per copy; in the simulator it is an `array2`
 * whose first index is the copy and whose second index is the site.
 */
module Genome {
  /** The copy labels, in the order the simulator visits them. */
  const Copies: seq<string> := ["rrnA", "rrnB", "rrnC", "rrnD", "rrnE", "rrnG", "rrnH"]
  const NumCopies: nat := 7
  /** The index of rrnB, the reference copy, in Copies. */
  const Reference: nat := 1

  /** The labels are distinct and rrnB sits at Reference, so testing a label
      against 'rrnB' is testing its index against Reference. */
  lemma ReferenceLabel()
    ensures |Copies| == NumCopies && Reference < NumCopies && Copies[Reference] == "rrnB"
    ensures forall i :: 0 <= i < |Copies| ==> (Copies[i] == "rrnB" <==> i == Reference)
    ensures forall i, j :: 0 <= i < j < |Copies| ==> Copies[i] != Copies[j]
  {
  }

  const RrsLength: nat := 1541
  const RrlLength: nat := 2904
  const TotalSites: nat := 4445

  /** One locus kind across all copies: row i holds copy i's site states. */
  type Loci = seq<seq<int>>

  datatype Genome = Genome(rrs: Loci, rrl: Loci)

  /** A value computed from a prefix of the random stream, and the cursor after it. */
  datatype Drawn<T> = Drawn(value: T, next: nat)

  predicate Rectangular(rows: Loci, len: nat) {
    forall i :: 0 <= i < |rows| ==> |rows[i]| == len
  }

  /** Both locus kinds have one row per copy, and every row has its locus's length. */
  predicate Shaped(g: Genome) {
    && |g.rrs| == |g.rrl|
    && Rectangular(g.rrs, RrsLength)
    && Rectangular(g.rrl, RrlLength)
  }

  /** Every site state is one of the four states 0..3. */
  predicate StatesIn(rows: Loci) {
    forall i, j :: 0 <= i < |rows| && 0 <= j < |rows[i]| ==> 0 <= rows[i][j] <= 3
  }

  predicate ValidStates(g: Genome) {
    StatesIn(g.rrs) && StatesIn(g.rrl)
  }

  function Zeros(len: nat): (z: seq<int>)
    ensures |z| == len && forall j :: 0 <= j < len ==> z[j] == 0
  {
    seq(len, _ => 0)
  }

  /** A freshly allocated genome: every copy's two loci filled with 0. */
  function ZeroGenome(): (g: Genome)
    ensures Shaped(g) && |g.rrs| == NumCopies && ValidStates(g)
  {
    Genome(seq(NumCopies, _ => Zeros(RrsLength)), seq(NumCopies, _ => Zeros(RrlLength)))
  }

  /** The rows an `array2` holds, copy by copy. */
  ghost function Rows(a: array2<int>): (r: Loci)
    reads a
    ensures |r| == a.Length0 && Rectangular(r, a.Length1)
    ensures forall i, j :: 0 <= i < a.Length0 && 0 <= j < a.Length1 ==> r[i][j] == a[i, j]
  {
    seq(a.Length0, i requires 0 <= i < a.Length0 reads a =>
      seq(a.Length1, j requires 0 <= j < a.Length1 reads a => a[i, j]))
  }

  /** An array of zeros holds all-zero rows. */
  lemma RowsOfZeros(a: array2<int>)
    requires forall i, j :: 0 <= i < a.Length0 && 0 <= j < a.Length1 ==> a[i, j] == 0
    ensures Rows(a) == seq(a.Length0, _ => Zeros(a.Length1))
  {
    var r := Rows(a);
    forall i | 0 <= i < a.Length0
      ensures r[i] == Zeros(a.Length1)
    {
      assert forall j :: 0 <= j < a.Length1 ==> r[i][j] == 0;
    }
  }

  /** `new Array(len).fill(0)` for every copy label, as rows of one array. */
  method NewLocus(len: nat) returns (a: array2<int>)
    ensures fresh(a) && a.Length0 == NumCopies && a.Length1 == len
    ensures Rows(a) == seq(NumCopies, _ => Zeros(len))
  {
    a := new int[NumCopies, len]((_, _) => 0);
    RowsOfZeros(a);
  }

  /** The genome two arrays hold. */
  ghost function State(rrs: array2<int>, rrl: array2<int>): Genome
    reads rrs, rrl
  {
    Genome(Rows(rrs), Rows(rrl))
  }

  /** `a[i][j] = v` on one locus kind. */
  method SetSite(a: array2<int>, i: nat, j: nat, v: int)
    requires i < a.Length0 && j < a.Length1
    modifies a
    ensures Rows(a) == old(Rows(a))[i := old(Rows(a))[i][j := v]]
  {
    ghost var before := Rows(a);
    a[i, j] := v;
    ghost var after := Rows(a);
    assert forall k :: 0 <= k < a.Length0 ==> after[k] == before[i := before[i][j := v]][k];
  }
}
