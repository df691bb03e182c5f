/**
 * The gene-conversion model. Every generation, each of the 42 ordered
 * (recipient, donor) pairs of distinct copies is visited recipient-major, and
 * one Bernoulli draw with probability `geneConvRate` decides whether a tract
 * of the donor replaces the same sites of the recipient. One tract length
 * `50 + k` (k < 150) is shared by both loci; each locus draws its own start.
 * Pairs are applied one after the other, so a recipient converted earlier in
 * the generation donates its new contents later.
 */
module Conversion {
  import opened Draws
  import opened Genome

  const MinTract: nat := 50
  const TractChoices: nat := 150

  /** `Math.max(1, n)`. */
  function AtLeastOne(n: int): (m: nat)
    ensures m >= 1 && m >= n
  {
    if n < 1 then 1 else n
  }

  function Min(a: int, b: int): int {
    if a < b then a else b
  }

  /** The converted sites `[start, end)` of one locus. */
  datatype Span = Span(start: nat, end: nat)

  /** `start = floor(u * max(1, len - tract))` and `end = min(start + tract, len)`:
      the span lies inside the locus, is the full tract when the locus is longer
      than the tract, and is the whole locus otherwise. */
  function TractSpan(len: nat, tract: nat, u: Uniform): (s: Span)
    requires len > 0
    ensures s.start <= s.end <= len
    ensures s.start < len
    ensures len > tract ==> s.end == s.start + tract
    ensures len <= tract ==> s.start == 0 && s.end == len
  {
    var start := Pick(u, AtLeastOne(len - tract));
    Span(start, Min(start + tract, len))
  }

  /** What a successful conversion event draws: the shared tract length and one span per locus. */
  datatype Event = Event(tract: nat, rrsSpan: Span, rrlSpan: Span)

  /** The draws of a successful event, which follow its Bernoulli draw `c`. */
  function DrawEvent(rng: Source, c: nat): (e: Event)
    ensures MinTract <= e.tract < MinTract + TractChoices
    ensures e.rrsSpan.end <= RrsLength && e.rrlSpan.end <= RrlLength
  {
    var tract := MinTract + Pick(rng(c + 1), TractChoices);
    Event(tract, TractSpan(RrsLength, tract, rng(c + 2)), TractSpan(RrlLength, tract, rng(c + 3)))
  }

  /** The recipient row with the donor's sites on `span`. */
  function Splice(recipient: seq<int>, donor: seq<int>, span: Span): (r: seq<int>)
    requires |donor| == |recipient| && span.end <= |recipient|
    ensures |r| == |recipient|
  {
    seq(|recipient|, i requires 0 <= i < |recipient| =>
      if span.start <= i < span.end then donor[i] else recipient[i])
  }

  /** One ordered pair: `donor !== recipient && Math.random() < geneConvRate`
      draws nothing when the two coincide. */
  function ConvertPair(g: Genome, recipient: nat, donor: nat, rate: real, rng: Source, c: nat): (r: Drawn<Genome>)
    requires Shaped(g) && recipient < |g.rrs| && donor < |g.rrs|
    ensures Shaped(r.value) && |r.value.rrs| == |g.rrs|
  {
    if donor == recipient then Drawn(g, c)
    else if !Succeeds(rng(c), rate) then Drawn(g, c + 1)
    else
      var e := DrawEvent(rng, c);
      Drawn(Genome(g.rrs[recipient := Splice(g.rrs[recipient], g.rrs[donor], e.rrsSpan)],
                   g.rrl[recipient := Splice(g.rrl[recipient], g.rrl[donor], e.rrlSpan)]),
            c + 4)
  }

  /** All pairs before (recipient, donor) in recipient-major order have been applied. */
  function ConvertUpTo(g: Genome, rate: real, recipient: nat, donor: nat, rng: Source, c: nat): (r: Drawn<Genome>)
    requires Shaped(g) && donor <= |g.rrs|
    requires recipient < |g.rrs| || (recipient == |g.rrs| && donor == 0)
    ensures Shaped(r.value) && |r.value.rrs| == |g.rrs|
    decreases recipient, donor
  {
    if donor == 0 then
      if recipient == 0 then Drawn(g, c) else ConvertUpTo(g, rate, recipient - 1, |g.rrs|, rng, c)
    else
      var d := ConvertUpTo(g, rate, recipient, donor - 1, rng, c);
      ConvertPair(d.value, recipient, donor - 1, rate, rng, d.next)
  }

  /** The gene-conversion phase of one generation. */
  function ConversionStep(g: Genome, rate: real, rng: Source, c: nat): (r: Drawn<Genome>)
    requires Shaped(g)
    ensures Shaped(r.value) && |r.value.rrs| == |g.rrs|
  {
    ConvertUpTo(g, rate, |g.rrs|, 0, rng, c)
  }

  /** A successful event copies the donor's sites onto the recipient on each
      locus's span and leaves the recipient's other sites, the donor and every
      other copy as they were; an unsuccessful or self pair changes nothing. */
  lemma ConvertPairEffect(g: Genome, recipient: nat, donor: nat, rate: real, rng: Source, c: nat)
    requires Shaped(g) && recipient < |g.rrs| && donor < |g.rrs|
    ensures forall o :: 0 <= o < |g.rrs| && o != recipient ==>
      ConvertPair(g, recipient, donor, rate, rng, c).value.rrs[o] == g.rrs[o] &&
      ConvertPair(g, recipient, donor, rate, rng, c).value.rrl[o] == g.rrl[o]
    ensures donor == recipient ==> ConvertPair(g, recipient, donor, rate, rng, c) == Drawn(g, c)
    ensures donor != recipient && !Succeeds(rng(c), rate) ==>
      ConvertPair(g, recipient, donor, rate, rng, c) == Drawn(g, c + 1)
    ensures donor != recipient && Succeeds(rng(c), rate) ==>
      var e := DrawEvent(rng, c);
      && ConvertPair(g, recipient, donor, rate, rng, c).next == c + 4
      && (forall i :: 0 <= i < RrsLength ==>
            ConvertPair(g, recipient, donor, rate, rng, c).value.rrs[recipient][i] ==
              if e.rrsSpan.start <= i < e.rrsSpan.end then g.rrs[donor][i] else g.rrs[recipient][i])
      && (forall i :: 0 <= i < RrlLength ==>
            ConvertPair(g, recipient, donor, rate, rng, c).value.rrl[recipient][i] ==
              if e.rrlSpan.start <= i < e.rrlSpan.end then g.rrl[donor][i] else g.rrl[recipient][i])
  {
  }

  /** Every site of `after` holds a state that some copy of `before` held at the same site. */
  ghost predicate CopiedFrom(before: Loci, after: Loci) {
    forall i, j :: 0 <= i < |after| && 0 <= j < |after[i]| ==> HeldAt(before, j, after[i][j])
  }

  /** Some copy of `rows` holds state `v` at site `j`. */
  ghost predicate HeldAt(rows: Loci, j: int, v: int) {
    exists k :: 0 <= k < |rows| && 0 <= j < |rows[k]| && rows[k][j] == v
  }

  lemma CopiedFromTrans(x: Loci, y: Loci, z: Loci)
    requires CopiedFrom(x, y) && CopiedFrom(y, z)
    ensures CopiedFrom(x, z)
  {
    forall i, j | 0 <= i < |z| && 0 <= j < |z[i]|
      ensures HeldAt(x, j, z[i][j])
    {
      assert HeldAt(y, j, z[i][j]);
      var k :| 0 <= k < |y| && 0 <= j < |y[k]| && y[k][j] == z[i][j];
      assert HeldAt(x, j, y[k][j]);
    }
  }

  lemma CopiedFromSelf(a: Loci)
    ensures CopiedFrom(a, a)
  {
    forall i, j | 0 <= i < |a| && 0 <= j < |a[i]|
      ensures HeldAt(a, j, a[i][j])
    {
      assert 0 <= i < |a| && 0 <= j < |a[i]| && a[i][j] == a[i][j];
    }
  }

  lemma SpliceCopied(rows: Loci, recipient: nat, donor: nat, span: Span)
    requires recipient < |rows| && donor < |rows| && |rows[donor]| == |rows[recipient]|
    requires span.end <= |rows[recipient]|
    ensures CopiedFrom(rows, rows[recipient := Splice(rows[recipient], rows[donor], span)])
  {
    var after := rows[recipient := Splice(rows[recipient], rows[donor], span)];
    forall i, j | 0 <= i < |after| && 0 <= j < |after[i]|
      ensures HeldAt(rows, j, after[i][j])
    {
      if i == recipient && span.start <= j < span.end {
        assert after[i][j] == rows[donor][j];
      } else {
        assert after[i][j] == rows[i][j];
      }
    }
  }

  lemma ConvertPairCopied(g: Genome, recipient: nat, donor: nat, rate: real, rng: Source, c: nat)
    requires Shaped(g) && recipient < |g.rrs| && donor < |g.rrs|
    ensures CopiedFrom(g.rrs, ConvertPair(g, recipient, donor, rate, rng, c).value.rrs)
    ensures CopiedFrom(g.rrl, ConvertPair(g, recipient, donor, rate, rng, c).value.rrl)
  {
    if donor != recipient && Succeeds(rng(c), rate) {
      var e := DrawEvent(rng, c);
      SpliceCopied(g.rrs, recipient, donor, e.rrsSpan);
      SpliceCopied(g.rrl, recipient, donor, e.rrlSpan);
    } else {
      CopiedFromSelf(g.rrs);
      CopiedFromSelf(g.rrl);
    }
  }

  lemma {:induction false} ConvertUpToCopied(g: Genome, rate: real, recipient: nat, donor: nat, rng: Source, c: nat)
    requires Shaped(g) && donor <= |g.rrs|
    requires recipient < |g.rrs| || (recipient == |g.rrs| && donor == 0)
    ensures CopiedFrom(g.rrs, ConvertUpTo(g, rate, recipient, donor, rng, c).value.rrs)
    ensures CopiedFrom(g.rrl, ConvertUpTo(g, rate, recipient, donor, rng, c).value.rrl)
    decreases recipient, donor
  {
    if donor == 0 {
      if recipient == 0 {
        CopiedFromSelf(g.rrs);
        CopiedFromSelf(g.rrl);
      } else {
        ConvertUpToCopied(g, rate, recipient - 1, |g.rrs|, rng, c);
      }
    } else {
      ConvertUpToCopied(g, rate, recipient, donor - 1, rng, c);
      var d := ConvertUpTo(g, rate, recipient, donor - 1, rng, c);
      var h := ConvertPair(d.value, recipient, donor - 1, rate, rng, d.next).value;
      ConvertPairCopied(d.value, recipient, donor - 1, rate, rng, d.next);
      CopiedFromTrans(g.rrs, d.value.rrs, h.rrs);
      CopiedFromTrans(g.rrl, d.value.rrl, h.rrl);
    }
  }

  /** Gene conversion only copies states that already exist: every site ends up
      with a state some copy held at that site before the phase. */
  lemma ConversionStepCopied(g: Genome, rate: real, rng: Source, c: nat)
    requires Shaped(g)
    ensures CopiedFrom(g.rrs, ConversionStep(g, rate, rng, c).value.rrs)
    ensures CopiedFrom(g.rrl, ConversionStep(g, rate, rng, c).value.rrl)
  {
    ConvertUpToCopied(g, rate, |g.rrs|, 0, rng, c);
  }

  /** Hence conversion keeps every state in 0..3 ... */
  lemma ConversionStepValid(g: Genome, rate: real, rng: Source, c: nat)
    requires Shaped(g) && ValidStates(g)
    ensures ValidStates(ConversionStep(g, rate, rng, c).value)
  {
    var h := ConversionStep(g, rate, rng, c).value;
    ConversionStepCopied(g, rate, rng, c);
    forall i, j | 0 <= i < |h.rrs| && 0 <= j < |h.rrs[i]|
      ensures 0 <= h.rrs[i][j] <= 3
    {
      assert HeldAt(g.rrs, j, h.rrs[i][j]);
    }
    forall i, j | 0 <= i < |h.rrl| && 0 <= j < |h.rrl[i]|
      ensures 0 <= h.rrl[i][j] <= 3
    {
      assert HeldAt(g.rrl, j, h.rrl[i][j]);
    }
  }

  /** ... and never creates a difference at a site where all copies agree,
      on either locus. */
  lemma ConversionKeepsAgreement(g: Genome, rate: real, rng: Source, c: nat, j: nat, v: int, w: int)
    requires Shaped(g)
    requires j < RrsLength ==> forall k :: 0 <= k < |g.rrs| ==> g.rrs[k][j] == v
    requires j < RrlLength ==> forall k :: 0 <= k < |g.rrl| ==> g.rrl[k][j] == w
    ensures j < RrsLength ==> forall i :: 0 <= i < |g.rrs| ==> ConversionStep(g, rate, rng, c).value.rrs[i][j] == v
    ensures j < RrlLength ==> forall i :: 0 <= i < |g.rrl| ==> ConversionStep(g, rate, rng, c).value.rrl[i][j] == w
  {
    var h := ConversionStep(g, rate, rng, c).value;
    ConversionStepCopied(g, rate, rng, c);
    if j < RrsLength {
      forall i | 0 <= i < |h.rrs|
        ensures h.rrs[i][j] == v
      {
        assert HeldAt(g.rrs, j, h.rrs[i][j]);
      }
    }
    if j < RrlLength {
      forall i | 0 <= i < |h.rrl|
        ensures h.rrl[i][j] == w
      {
        assert HeldAt(g.rrl, j, h.rrl[i][j]);
      }
    }
  }


  /** The loop `for (i = start; i < end; i++) seq[recipient][i] = seq[donor][i]`. */
  method CopyTract(a: array2<int>, recipient: nat, donor: nat, span: Span)
    requires recipient < a.Length0 && donor < a.Length0 && recipient != donor
    requires span.start <= span.end <= a.Length1
    modifies a
    ensures Rows(a) == old(Rows(a))[recipient := Splice(old(Rows(a))[recipient], old(Rows(a))[donor], span)]
  {
    ghost var before := Rows(a);
    assert Splice(before[recipient], before[donor], Span(span.start, span.start)) == before[recipient];
    assert before[recipient := before[recipient]] == before;
    for i := span.start to span.end
      invariant Rows(a) == before[recipient := Splice(before[recipient], before[donor], Span(span.start, i))]
    {
      ghost var now := Rows(a);
      assert a[donor, i] == before[donor][i];
      SetSite(a, recipient, i, a[donor, i]);
      assert Splice(before[recipient], before[donor], Span(span.start, i + 1))
          == Splice(before[recipient], before[donor], Span(span.start, i))[i := before[donor][i]];
    }
  }

  /** One ordered pair of the conversion loop over the two arrays. */
  method ConvertArrays(rrs: array2<int>, rrl: array2<int>, recipient: nat, donor: nat, rate: real, rng: Source, c: nat)
    returns (next: nat)
    requires rrs != rrl && rrs.Length0 == rrl.Length0
    requires rrs.Length1 == RrsLength && rrl.Length1 == RrlLength
    requires recipient < rrs.Length0 && donor < rrs.Length0
    modifies rrs, rrl
    ensures Drawn(State(rrs, rrl), next) == ConvertPair(old(State(rrs, rrl)), recipient, donor, rate, rng, c)
  {
    next := c;
    if donor != recipient {
      if Succeeds(rng(c), rate) {
        var tract := MinTract + Pick(rng(c + 1), TractChoices);
        var span := TractSpan(RrsLength, tract, rng(c + 2));
        CopyTract(rrs, recipient, donor, span);
        var span2 := TractSpan(RrlLength, tract, rng(c + 3));
        CopyTract(rrl, recipient, donor, span2);
        next := c + 4;
      } else {
        next := c + 1;
      }
    }
  }

  /** The generation's conversion loop: recipients outer, donors inner. */
  method Convert(rrs: array2<int>, rrl: array2<int>, rate: real, rng: Source, c: nat) returns (next: nat)
    requires rrs != rrl && rrs.Length0 == rrl.Length0
    requires rrs.Length1 == RrsLength && rrl.Length1 == RrlLength
    modifies rrs, rrl
    ensures Drawn(State(rrs, rrl), next) == ConversionStep(old(State(rrs, rrl)), rate, rng, c)
  {
    ghost var g := State(rrs, rrl);
    var n := rrs.Length0;
    next := c;
    for recipient := 0 to n
      invariant Drawn(State(rrs, rrl), next) == ConvertUpTo(g, rate, recipient, 0, rng, c)
    {
      for donor := 0 to n
        invariant Drawn(State(rrs, rrl), next) == ConvertUpTo(g, rate, recipient, donor, rng, c)
      {
        next := ConvertArrays(rrs, rrl, recipient, donor, rate, rng, next);
      }
    }
  }
}
