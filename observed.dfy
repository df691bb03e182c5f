/**
 * `processObservedData`: the uploaded files grouped by strain and generation,
 * each group's records de-duplicated by (sequence id, position) keeping the
 * record of strictly higher frequency, the group's frequency-weighted
 * divergence per locus, and each strain's points sorted by generation.
 * The files arrive already parsed.
 */
module Observed {
  import opened Wrappers
  import opened Genome
  import opened Sorting

  /** One parsed CSV row; only the fields the aggregation reads. */
  datatype Record = Record(seqId: string, position: int, frequency: real)

  /** One uploaded file: strain, generation and id from its name, and its rows. */
  datatype DataFile = DataFile(strain: string, generation: int, fileId: string, data: seq<Record>)

  /** `${strain}_${generation}`; the generation is a number, which holds no '_',
      so the last '_' splits the key and the pair determines it. */
  datatype Key = Key(strain: string, generation: int)

  /** `${seq_id}_${position}`; the position is an integer, so the pair is the key. */
  datatype Site = Site(seqId: string, position: int)

  /** One entry of `strainGenData`. */
  datatype Entry = Entry(strain: string, generation: int, files: seq<string>, allData: seq<Record>)

  /** One point of a strain's observed trajectory. */
  datatype ObservedPoint = ObservedPoint(
    generation: int,
    avgDivergence: real,
    rrsDivergence: real,
    rrlDivergence: real,
    totalPolymorphisms: nat,
    rrsCount: nat,
    rrlCount: nat,
    numFiles: nat)

  function KeyOf(f: DataFile): Key {
    Key(f.strain, f.generation)
  }

  function SiteOf(d: Record): Site {
    Site(d.seqId, d.position)
  }

  /** `s` lists no element twice. */
  predicate Distinct<T(==)>(s: seq<T>) {
    forall i, j :: 0 <= i < j < |s| ==> s[i] != s[j]
  }

  // ---------------------------------------------------------------------
  // Grouping by strain and generation
  // ---------------------------------------------------------------------

  /** `strainGenData` with its keys in insertion order (the order `Object.values` yields). */
  datatype Groups = Groups(order: seq<Key>, entries: map<Key, Entry>)

  /** The keys are listed once each, and every entry is for its own key. */
  predicate GroupsValid(gs: Groups) {
    Distinct(gs.order) &&
    (forall k :: k in gs.entries ==> k in gs.order) &&
    (forall i :: 0 <= i < |gs.order| ==> gs.order[i] in gs.entries) &&
    (forall k :: k in gs.entries ==> gs.entries[k].strain == k.strain && gs.entries[k].generation == k.generation)
  }

  /** One iteration of `uploadedFiles.forEach`: create the entry if missing,
      then push the file id and the file's rows. */
  function AddFile(gs: Groups, f: DataFile): Groups {
    var k := KeyOf(f);
    if k in gs.entries then
      var e := gs.entries[k];
      Groups(gs.order, gs.entries[k := Entry(e.strain, e.generation, e.files + [f.fileId], e.allData + f.data)])
    else
      Groups(gs.order + [k], gs.entries[k := Entry(f.strain, f.generation, [f.fileId], f.data)])
  }

  /** The groups after the first n files. */
  function GroupUpTo(files: seq<DataFile>, n: nat): Groups
    requires n <= |files|
  {
    if n == 0 then Groups([], map[]) else AddFile(GroupUpTo(files, n - 1), files[n - 1])
  }

  function GroupFiles(files: seq<DataFile>): (gs: Groups)
    ensures GroupsValid(gs)
  {
    GroupUpToValid(files, |files|);
    GroupUpTo(files, |files|)
  }

  /** Reference definitions: the ids and rows of the first n files with key `k`, in file order. */
  function FileIdsWith(files: seq<DataFile>, n: nat, k: Key): seq<string>
    requires n <= |files|
  {
    if n == 0 then []
    else FileIdsWith(files, n - 1, k) + (if KeyOf(files[n - 1]) == k then [files[n - 1].fileId] else [])
  }

  function DataWith(files: seq<DataFile>, n: nat, k: Key): seq<Record>
    requires n <= |files|
  {
    if n == 0 then []
    else DataWith(files, n - 1, k) + (if KeyOf(files[n - 1]) == k then files[n - 1].data else [])
  }

  /** Whether one of the first n files has key `k`. */
  predicate HasKey(files: seq<DataFile>, n: nat, k: Key)
    requires n <= |files|
  {
    exists i :: 0 <= i < n && KeyOf(files[i]) == k
  }

  /** Grouping keeps the groups valid. */
  lemma {:induction false} GroupUpToValid(files: seq<DataFile>, n: nat)
    requires n <= |files|
    ensures GroupsValid(GroupUpTo(files, n))
  {
    if n > 0 {
      GroupUpToValid(files, n - 1);
      AddFileValid(GroupUpTo(files, n - 1), files[n - 1]);
    }
  }

  /** Adding one file keeps the groups valid. */
  lemma AddFileValid(gs: Groups, f: DataFile)
    requires GroupsValid(gs)
    ensures GroupsValid(AddFile(gs, f))
  {
    var k := KeyOf(f);
    if k !in gs.entries {
      var order' := gs.order + [k];
      assert forall i :: 0 <= i < |gs.order| ==> order'[i] == gs.order[i];
      assert Distinct(order') by {
        forall i, j | 0 <= i < j < |order'|
          ensures order'[i] != order'[j]
        {
          if j == |gs.order| {
            assert order'[i] == gs.order[i] && gs.order[i] in gs.entries;
          }
        }
      }
      assert forall k' :: k' in AddFile(gs, f).entries ==> k' == k || k' in gs.entries;
    }
  }

  /** There is an entry exactly for the keys of the files. */
  lemma {:induction false} GroupUpToKeys(files: seq<DataFile>, n: nat)
    requires n <= |files|
    ensures forall k :: k in GroupUpTo(files, n).entries <==> HasKey(files, n, k)
  {
    if n > 0 {
      GroupUpToKeys(files, n - 1);
      var gs' := GroupUpTo(files, n);
      forall k
        ensures k in gs'.entries <==> HasKey(files, n, k)
      {
        if k != KeyOf(files[n - 1]) {
          if HasKey(files, n, k) {
            var i :| 0 <= i < n && KeyOf(files[i]) == k;
            assert HasKey(files, n - 1, k);
          }
          if HasKey(files, n - 1, k) {
            var i :| 0 <= i < n - 1 && KeyOf(files[i]) == k;
            assert HasKey(files, n, k);
          }
        } else {
          assert HasKey(files, n, k) by { assert KeyOf(files[n - 1]) == k; }
        }
      }
    }
  }

  lemma {:induction false} NoKeyNoIds(files: seq<DataFile>, n: nat, k: Key)
    requires n <= |files|
    requires forall i :: 0 <= i < n ==> KeyOf(files[i]) != k
    ensures FileIdsWith(files, n, k) == [] && DataWith(files, n, k) == []
  {
    if n > 0 {
      NoKeyNoIds(files, n - 1, k);
    }
  }

  /** Each entry's ids and rows are those of the files with its key, in file order. */
  lemma {:induction false} GroupUpToContents(files: seq<DataFile>, n: nat)
    requires n <= |files|
    ensures forall k :: k in GroupUpTo(files, n).entries ==>
      GroupUpTo(files, n).entries[k].files == FileIdsWith(files, n, k) &&
      GroupUpTo(files, n).entries[k].allData == DataWith(files, n, k)
  {
    if n > 0 {
      GroupUpToContents(files, n - 1);
      GroupUpToKeys(files, n - 1);
      var gs := GroupUpTo(files, n - 1);
      var k := KeyOf(files[n - 1]);
      if k !in gs.entries {
        assert !HasKey(files, n - 1, k);
        NoKeyNoIds(files, n - 1, k);
      }
    }
  }

  /** `strainGenData` has an entry exactly for the keys of the files,
      and each entry collects the ids and rows of its files in file order. */
  lemma GroupFilesCorrect(files: seq<DataFile>)
    ensures forall k :: k in GroupFiles(files).entries <==> HasKey(files, |files|, k)
    ensures forall k :: k in GroupFiles(files).entries ==>
      GroupFiles(files).entries[k].files == FileIdsWith(files, |files|, k) &&
      GroupFiles(files).entries[k].allData == DataWith(files, |files|, k)
  {
    GroupUpToValid(files, |files|);
    GroupUpToKeys(files, |files|);
    GroupUpToContents(files, |files|);
  }

  // ---------------------------------------------------------------------
  // De-duplication by (sequence id, position)
  // ---------------------------------------------------------------------

  /** `uniquePolymorphisms`: the sites in insertion order and the record kept for each. */
  datatype Dedup = Dedup(order: seq<Site>, kept: map<Site, Record>)

  predicate DedupValid(u: Dedup) {
    Distinct(u.order) &&
    (forall k :: k in u.kept ==> k in u.order) &&
    (forall i :: 0 <= i < |u.order| ==> u.order[i] in u.kept) &&
    (forall k :: k in u.kept ==> SiteOf(u.kept[k]) == k)
  }

  /** One iteration of `entry.allData.forEach`: a new site is added at the end;
      a known site's record is replaced only by one of strictly higher frequency,
      keeping the site's position in the order. */
  function Keep(u: Dedup, d: Record): Dedup {
    var k := SiteOf(d);
    if k !in u.kept then Dedup(u.order + [k], u.kept[k := d])
    else if u.kept[k].frequency < d.frequency then Dedup(u.order, u.kept[k := d])
    else u
  }

  function DedupUpTo(data: seq<Record>, n: nat): Dedup
    requires n <= |data|
  {
    if n == 0 then Dedup([], map[]) else Keep(DedupUpTo(data, n - 1), data[n - 1])
  }

  /** Reference definition: the index of the record the first n rows keep for
      `k`, the first of highest frequency, or -1 when no row has that site. */
  function ChosenIndex(data: seq<Record>, n: nat, k: Site): (c: int)
    requires n <= |data|
    ensures -1 <= c < n
  {
    if n == 0 then -1
    else
      var c := ChosenIndex(data, n - 1, k);
      if SiteOf(data[n - 1]) == k && (c < 0 || data[c].frequency < data[n - 1].frequency) then n - 1 else c
  }

  lemma {:induction false} DedupUpToValid(data: seq<Record>, n: nat)
    requires n <= |data|
    ensures DedupValid(DedupUpTo(data, n))
  {
    if n > 0 {
      DedupUpToValid(data, n - 1);
      var u := DedupUpTo(data, n - 1);
      var k := SiteOf(data[n - 1]);
      if k !in u.kept {
        var order' := u.order + [k];
        assert forall i :: 0 <= i < |u.order| ==> order'[i] == u.order[i];
        assert Distinct(order') by {
          forall i, j | 0 <= i < j < |order'|
            ensures order'[i] != order'[j]
          {
            if j == |u.order| {
              assert order'[i] == u.order[i] && u.order[i] in u.kept;
            }
          }
        }
      }
    }
  }

  /** The map keeps a record exactly for the sites that occur, and it is the
      one ChosenIndex designates. */
  lemma {:induction false} DedupUpToKept(data: seq<Record>, n: nat)
    requires n <= |data|
    ensures forall k :: k in DedupUpTo(data, n).kept <==> ChosenIndex(data, n, k) >= 0
    ensures forall k :: k in DedupUpTo(data, n).kept ==> DedupUpTo(data, n).kept[k] == data[ChosenIndex(data, n, k)]
  {
    if n > 0 {
      DedupUpToKept(data, n - 1);
    }
  }

  /** ChosenIndex is -1 exactly when the site does not occur; otherwise it is a
      row of that site with the highest frequency, and every earlier row of
      that site has a strictly lower frequency. */
  lemma {:induction false} ChosenIndexCorrect(data: seq<Record>, n: nat, k: Site)
    requires n <= |data|
    ensures ChosenIndex(data, n, k) < 0 <==> forall j :: 0 <= j < n ==> SiteOf(data[j]) != k
    ensures ChosenIndex(data, n, k) >= 0 ==>
      SiteOf(data[ChosenIndex(data, n, k)]) == k &&
      (forall j :: 0 <= j < n && SiteOf(data[j]) == k ==>
        data[j].frequency <= data[ChosenIndex(data, n, k)].frequency) &&
      (forall j :: 0 <= j < ChosenIndex(data, n, k) && SiteOf(data[j]) == k ==>
        data[j].frequency < data[ChosenIndex(data, n, k)].frequency)
  {
    if n > 0 {
      ChosenIndexCorrect(data, n - 1, k);
    }
  }

  /** `Array.from(uniquePolymorphisms.values())`. */
  function Polymorphisms(data: seq<Record>): (p: seq<Record>)
  {
    var u := DedupUpTo(data, |data|);
    DedupUpToValid(data, |data|);
    seq(|u.order|, i requires 0 <= i < |u.order| => u.kept[u.order[i]])
  }

  /** Whether some record of `p` is for site `k`. */
  predicate HasSite(p: seq<Record>, k: Site) {
    exists i :: 0 <= i < |p| && SiteOf(p[i]) == k
  }

  /** De-duplication leaves one record per site, exactly for the sites of the
      rows, and that record is the row ChosenIndex designates. */
  lemma PolymorphismsCorrect(data: seq<Record>)
    ensures forall i, j :: 0 <= i < j < |Polymorphisms(data)| ==>
      SiteOf(Polymorphisms(data)[i]) != SiteOf(Polymorphisms(data)[j])
    ensures forall j :: 0 <= j < |data| ==> HasSite(Polymorphisms(data), SiteOf(data[j]))
    ensures forall i :: 0 <= i < |Polymorphisms(data)| ==>
      ChosenIndex(data, |data|, SiteOf(Polymorphisms(data)[i])) >= 0 &&
      Polymorphisms(data)[i] == data[ChosenIndex(data, |data|, SiteOf(Polymorphisms(data)[i]))]
  {
    var u := DedupUpTo(data, |data|);
    var p := Polymorphisms(data);
    DedupUpToValid(data, |data|);
    DedupUpToKept(data, |data|);
    assert forall i :: 0 <= i < |p| ==> p[i] == u.kept[u.order[i]] && SiteOf(p[i]) == u.order[i];
    forall j | 0 <= j < |data|
      ensures HasSite(p, SiteOf(data[j]))
    {
      var k := SiteOf(data[j]);
      ChosenIndexCorrect(data, |data|, k);
      assert k in u.kept;
      var i :| 0 <= i < |u.order| && u.order[i] == k;
      assert SiteOf(p[i]) == k;
    }
  }

  // ---------------------------------------------------------------------
  // Divergence of one (strain, generation) group
  // ---------------------------------------------------------------------

  const RrsId: string := "rrsB"
  const RrlId: string := "rrlB"

  /** `polymorphisms.filter(d => d.seq_id === id)`. */
  function OnLocus(p: seq<Record>, id: string): (r: seq<Record>)
    ensures |r| <= |p|
    ensures forall i :: 0 <= i < |r| ==> r[i].seqId == id && r[i] in p
  {
    if |p| == 0 then []
    else OnLocus(p[..|p| - 1], id) + (if p[|p| - 1].seqId == id then [p[|p| - 1]] else [])
  }

  /** The filter keeps every record of the locus, as often as it occurs, and
      no other record. */
  lemma {:induction false} OnLocusKeeps(p: seq<Record>, id: string)
    ensures forall x :: multiset(OnLocus(p, id))[x] == (if x.seqId == id then multiset(p)[x] else 0)
    ensures forall x :: x in p && x.seqId == id ==> x in OnLocus(p, id)
  {
    if |p| > 0 {
      var init := p[..|p| - 1];
      var last := p[|p| - 1];
      assert p == init + [last];
      OnLocusKeeps(init, id);
      forall x | x in p && x.seqId == id
        ensures x in OnLocus(p, id)
      {
        assert multiset(p)[x] > 0;
      }
    }
  }

  /** `records.reduce((sum, d) => sum + d.frequency, 0)`. */
  function FrequencySum(s: seq<Record>): real {
    if |s| == 0 then 0.0 else FrequencySum(s[..|s| - 1]) + s[|s| - 1].frequency
  }

  /** The point one group contributes to its strain's trajectory. */
  function PointOf(e: Entry): ObservedPoint {
    PointFrom(e.generation, Polymorphisms(e.allData), |e.files|)
  }

  /** The point for a generation from its de-duplicated records `p`. */
  function PointFrom(generation: int, p: seq<Record>, numFiles: nat): ObservedPoint {
    var rrs := OnLocus(p, RrsId);
    var rrl := OnLocus(p, RrlId);
    var sumRrs := FrequencySum(rrs);
    var sumRrl := FrequencySum(rrl);
    ObservedPoint(generation,
      (sumRrs + sumRrl) / (RrsLength + RrlLength) as real,
      sumRrs / RrsLength as real,
      sumRrl / RrlLength as real,
      |p|, |rrs|, |rrl|, numFiles)
  }

  /** Records of two different loci are disjoint, so together they are at most all. */
  lemma {:induction false} LociDisjoint(p: seq<Record>, a: string, b: string)
    requires a != b
    ensures |OnLocus(p, a)| + |OnLocus(p, b)| <= |p|
  {
    if |p| > 0 {
      LociDisjoint(p[..|p| - 1], a, b);
    }
  }

  /** Frequencies of at most 1 sum to at most the number of records. */
  lemma {:induction false} FrequencySumBound(s: seq<Record>)
    requires forall i :: 0 <= i < |s| ==> 0.0 <= s[i].frequency <= 1.0
    ensures 0.0 <= FrequencySum(s) <= |s| as real
  {
    if |s| > 0 {
      FrequencySumBound(s[..|s| - 1]);
    }
  }

  /** The group's average divergence is the site-weighted mean of the two loci's
      divergences; the two loci's counts are at most the distinct records; the
      point counts the group's files. */
  lemma PointOfCorrect(e: Entry)
    ensures PointOf(e).avgDivergence * TotalSites as real ==
      PointOf(e).rrsDivergence * RrsLength as real + PointOf(e).rrlDivergence * RrlLength as real
    ensures PointOf(e).rrsCount + PointOf(e).rrlCount <= PointOf(e).totalPolymorphisms
    ensures PointOf(e).generation == e.generation && PointOf(e).numFiles == |e.files|
  {
    LociDisjoint(Polymorphisms(e.allData), RrsId, RrlId);
  }

  /** De-duplication keeps frequencies within [0, 1] if they were. */
  lemma PolymorphismsFrequencies(data: seq<Record>)
    requires forall i :: 0 <= i < |data| ==> 0.0 <= data[i].frequency <= 1.0
    ensures forall i :: 0 <= i < |Polymorphisms(data)| ==> 0.0 <= Polymorphisms(data)[i].frequency <= 1.0
  {
    PolymorphismsCorrect(data);
  }

  /** The summed frequency of one locus's records is at most their number. */
  lemma LocusSumBound(p: seq<Record>, id: string)
    requires forall i :: 0 <= i < |p| ==> 0.0 <= p[i].frequency <= 1.0
    ensures 0.0 <= FrequencySum(OnLocus(p, id)) <= |OnLocus(p, id)| as real
  {
    FrequencySumBound(OnLocus(p, id));
  }

  /** With frequencies in [0, 1] each locus's divergence is non-negative and
      at most its count of distinct records over the locus length. */
  lemma PointOfBounds(e: Entry)
    requires forall i :: 0 <= i < |e.allData| ==> 0.0 <= e.allData[i].frequency <= 1.0
    ensures 0.0 <= PointOf(e).rrsDivergence * RrsLength as real <= PointOf(e).rrsCount as real
    ensures 0.0 <= PointOf(e).rrlDivergence * RrlLength as real <= PointOf(e).rrlCount as real
    ensures 0.0 <= PointOf(e).avgDivergence * TotalSites as real <= PointOf(e).totalPolymorphisms as real
  {
    PolymorphismsFrequencies(e.allData);
    PointFromBounds(e.generation, Polymorphisms(e.allData), |e.files|);
  }

  /** The bounds of PointOfBounds for any records with frequencies in [0, 1]. */
  lemma PointFromBounds(generation: int, p: seq<Record>, numFiles: nat)
    requires forall i :: 0 <= i < |p| ==> 0.0 <= p[i].frequency <= 1.0
    ensures 0.0 <= PointFrom(generation, p, numFiles).rrsDivergence * RrsLength as real <= PointFrom(generation, p, numFiles).rrsCount as real
    ensures 0.0 <= PointFrom(generation, p, numFiles).rrlDivergence * RrlLength as real <= PointFrom(generation, p, numFiles).rrlCount as real
    ensures 0.0 <= PointFrom(generation, p, numFiles).avgDivergence * TotalSites as real <= PointFrom(generation, p, numFiles).totalPolymorphisms as real
  {
    LociDisjoint(p, RrsId, RrlId);
    var rrs, rrl := OnLocus(p, RrsId), OnLocus(p, RrlId);
    LocusSumBound(p, RrsId);
    LocusSumBound(p, RrlId);
    var a, b := FrequencySum(rrs), FrequencySum(rrl);
    QuotientScaled(a, RrsLength, |rrs| as real);
    QuotientScaled(b, RrlLength, |rrl| as real);
    QuotientScaled(a + b, TotalSites, |p| as real);
  }

  /** Dividing by a positive length and scaling back keeps a bound. */
  lemma QuotientScaled(x: real, d: nat, bound: real)
    requires d > 0 && 0.0 <= x <= bound
    ensures 0.0 <= (x / d as real) * d as real <= bound
  {
  }

  // ---------------------------------------------------------------------
  // Per-strain trajectories
  // ---------------------------------------------------------------------

  /** `strainData`: each strain's points. */
  type StrainData = map<string, seq<ObservedPoint>>

  /** `strainData[strain].push(point)`, creating the empty list first. */
  function Push(m: StrainData, strain: string, pt: ObservedPoint): (r: StrainData)
    ensures r.Keys == m.Keys + {strain}
    ensures r[strain] == (if strain in m then m[strain] else []) + [pt]
    ensures forall t :: t in m && t != strain ==> r[t] == m[t]
  {
    m[strain := (if strain in m then m[strain] else []) + [pt]]
  }

  /** `strainData` after the first n groups of `Object.values(strainGenData)`. */
  function StrainUpTo(gs: Groups, n: nat, summary: Entry -> ObservedPoint): StrainData
    requires GroupsValid(gs) && n <= |gs.order|
  {
    if n == 0 then map[]
    else
      var e := gs.entries[gs.order[n - 1]];
      Push(StrainUpTo(gs, n - 1, summary), e.strain, summary(e))
  }

  /** Reference definition: the points of the first n groups of strain `s`, in group order. */
  function StrainPoints(gs: Groups, n: nat, s: string, summary: Entry -> ObservedPoint): seq<ObservedPoint>
    requires GroupsValid(gs) && n <= |gs.order|
  {
    if n == 0 then []
    else
      StrainPoints(gs, n - 1, s, summary) +
      (if gs.order[n - 1].strain == s then [summary(gs.entries[gs.order[n - 1]])] else [])
  }

  /** Whether `summary` gives each group's point that group's generation, as PointOf does. */
  ghost predicate KeepsGeneration(summary: Entry -> ObservedPoint) {
    forall e :: summary(e).generation == e.generation
  }

  /** Whether one of the first n group keys is for strain `s`. */
  predicate HasStrain(order: seq<Key>, n: nat, s: string)
    requires n <= |order|
  {
    exists i :: 0 <= i < n && order[i].strain == s
  }

  lemma {:induction false} NoStrainNoPoints(gs: Groups, n: nat, s: string, summary: Entry -> ObservedPoint)
    requires GroupsValid(gs) && n <= |gs.order|
    requires forall i :: 0 <= i < n ==> gs.order[i].strain != s
    ensures StrainPoints(gs, n, s, summary) == []
  {
    if n > 0 {
      NoStrainNoPoints(gs, n - 1, s, summary);
    }
  }

  /** `strainData` has a list exactly for the strains of the groups. */
  lemma {:induction false} StrainUpToKeys(gs: Groups, n: nat, summary: Entry -> ObservedPoint)
    requires GroupsValid(gs) && n <= |gs.order|
    ensures forall s :: s in StrainUpTo(gs, n, summary) <==> HasStrain(gs.order, n, s)
  {
    if n > 0 {
      StrainUpToKeys(gs, n - 1, summary);
      var k := gs.order[n - 1];
      assert gs.entries[k].strain == k.strain;
      forall s
        ensures s in StrainUpTo(gs, n, summary) <==> HasStrain(gs.order, n, s)
      {
        if HasStrain(gs.order, n, s) && s != k.strain {
          var i :| 0 <= i < n && gs.order[i].strain == s;
          assert HasStrain(gs.order, n - 1, s);
        }
        if HasStrain(gs.order, n - 1, s) {
          var i :| 0 <= i < n - 1 && gs.order[i].strain == s;
          assert HasStrain(gs.order, n, s);
        }
        if s == k.strain {
          assert HasStrain(gs.order, n, s) by { assert gs.order[n - 1].strain == s; }
        }
      }
    }
  }

  /** Each list of `strainData` holds its strain's points in group order. */
  lemma {:induction false} StrainUpToCorrect(gs: Groups, n: nat, summary: Entry -> ObservedPoint)
    requires GroupsValid(gs) && n <= |gs.order|
    ensures forall s :: s in StrainUpTo(gs, n, summary) ==> StrainUpTo(gs, n, summary)[s] == StrainPoints(gs, n, s, summary)
  {
    if n > 0 {
      StrainUpToCorrect(gs, n - 1, summary);
      StrainUpToKeys(gs, n - 1, summary);
      var m := StrainUpTo(gs, n - 1, summary);
      var k := gs.order[n - 1];
      var pt := summary(gs.entries[k]);
      assert gs.entries[k].strain == k.strain;
      assert StrainUpTo(gs, n, summary) == Push(m, k.strain, pt);
      forall s | s in StrainUpTo(gs, n, summary)
        ensures StrainUpTo(gs, n, summary)[s] == StrainPoints(gs, n, s, summary)
      {
        if s == k.strain {
          if s !in m {
            NoStrainNoPoints(gs, n - 1, s, summary);
          }
          assert StrainPoints(gs, n, s, summary) == StrainPoints(gs, n - 1, s, summary) + [pt];
        } else {
          assert StrainPoints(gs, n, s, summary) == StrainPoints(gs, n - 1, s, summary);
        }
      }
    }
  }

  /** Every point of strain `s` summarises the group of its own generation,
      which is one of the first n keys. */
  lemma {:induction false} StrainPointsFrom(gs: Groups, n: nat, s: string, summary: Entry -> ObservedPoint)
    requires GroupsValid(gs) && n <= |gs.order| && KeepsGeneration(summary)
    ensures forall i :: 0 <= i < |StrainPoints(gs, n, s, summary)| ==>
      Key(s, StrainPoints(gs, n, s, summary)[i].generation) in gs.order[..n] &&
      Key(s, StrainPoints(gs, n, s, summary)[i].generation) in gs.entries &&
      StrainPoints(gs, n, s, summary)[i] == summary(gs.entries[Key(s, StrainPoints(gs, n, s, summary)[i].generation)])
  {
    if n > 0 {
      StrainPointsFrom(gs, n - 1, s, summary);
      var p, p' := StrainPoints(gs, n - 1, s, summary), StrainPoints(gs, n, s, summary);
      var k := gs.order[n - 1];
      assert gs.order[..n] == gs.order[..n - 1] + [k];
      assert forall i :: 0 <= i < |p| ==> p'[i] == p[i];
      if k.strain == s {
        assert k == Key(s, gs.entries[k].generation);
      }
    }
  }

  /** The points of one strain are for different generations. */
  lemma {:induction false} StrainPointsDistinct(gs: Groups, n: nat, s: string, summary: Entry -> ObservedPoint)
    requires GroupsValid(gs) && n <= |gs.order| && KeepsGeneration(summary)
    ensures KeysDistinct(StrainPoints(gs, n, s, summary), ByGeneration)
  {
    if n > 0 {
      StrainPointsDistinct(gs, n - 1, s, summary);
      StrainPointsFrom(gs, n - 1, s, summary);
      var p, p' := StrainPoints(gs, n - 1, s, summary), StrainPoints(gs, n, s, summary);
      var k := gs.order[n - 1];
      assert forall i :: 0 <= i < |p| ==> p'[i] == p[i];
      if k.strain == s {
        assert forall j :: 0 <= j < n - 1 ==> gs.order[..n - 1][j] == gs.order[j] != k;
        assert k !in gs.order[..n - 1];
        assert forall i :: 0 <= i < |p| ==> Key(s, p[i].generation) != k;
      }
    }
  }

  /** The sort key of `(a, b) => a.generation - b.generation`. */
  function ByGeneration(p: ObservedPoint): real {
    p.generation as real
  }

  /** `processObservedData`: no result without files; otherwise each strain's
      points sorted by generation. */
  function ProcessObservedData(files: seq<DataFile>): (r: Option<StrainData>)
    ensures r.None? <==> |files| == 0
  {
    if |files| == 0 then None
    else
      var gs := GroupFiles(files);
      var m := StrainUpTo(gs, |gs.order|, PointOf);
      Some(map s | s in m :: Sort(m[s], ByGeneration))
  }

  /** Whether some file is for strain `s`. */
  predicate FileOfStrain(files: seq<DataFile>, s: string) {
    exists j :: 0 <= j < |files| && files[j].strain == s
  }

  /** The group of key `k` as the files define it: their ids and rows in file order. */
  function GroupOf(files: seq<DataFile>, k: Key): Entry {
    Entry(k.strain, k.generation, FileIdsWith(files, |files|, k), DataWith(files, |files|, k))
  }

  /** Reference definition: the points of strain `s`, one per group, in group order. */
  function PointsOfStrain(files: seq<DataFile>, s: string): seq<ObservedPoint> {
    StrainPoints(GroupFiles(files), |GroupFiles(files).order|, s, PointOf)
  }

  /** The result has a list exactly for the strains of the files. */
  lemma ProcessObservedStrains(files: seq<DataFile>)
    requires |files| > 0
    ensures forall s :: s in ProcessObservedData(files).value <==> FileOfStrain(files, s)
  {
    var gs := GroupFiles(files);
    GroupUpToKeys(files, |files|);
    StrainUpToKeys(gs, |gs.order|, PointOf);
    GroupStrains(files, gs);
  }

  /** Groups with an entry exactly for the keys of the files are for exactly the files' strains. */
  lemma GroupStrains(files: seq<DataFile>, gs: Groups)
    requires GroupsValid(gs)
    requires forall k :: k in gs.entries <==> HasKey(files, |files|, k)
    ensures forall s :: HasStrain(gs.order, |gs.order|, s) <==> FileOfStrain(files, s)
  {
    forall s
      ensures HasStrain(gs.order, |gs.order|, s) <==> FileOfStrain(files, s)
    {
      if HasStrain(gs.order, |gs.order|, s) {
        var i :| 0 <= i < |gs.order| && gs.order[i].strain == s;
        assert HasKey(files, |files|, gs.order[i]);
        var j :| 0 <= j < |files| && KeyOf(files[j]) == gs.order[i];
      }
      if FileOfStrain(files, s) {
        var j :| 0 <= j < |files| && files[j].strain == s;
        assert HasKey(files, |files|, KeyOf(files[j]));
        assert KeyOf(files[j]) in gs.order;
        var i :| 0 <= i < |gs.order| && gs.order[i] == KeyOf(files[j]);
      }
    }
  }

  /** Each strain's list is its reference points sorted by generation. */
  lemma ProcessObservedSorts(files: seq<DataFile>, s: string)
    requires |files| > 0 && s in ProcessObservedData(files).value
    ensures ProcessObservedData(files).value[s] == Sort(PointsOfStrain(files, s), ByGeneration)
  {
    var gs := GroupFiles(files);
    StrainUpToCorrect(gs, |gs.order|, PointOf);
  }

  /** Each reference point summarises the files of its own strain and generation,
      and no two are for the same generation. */
  lemma PointsOfStrainCorrect(files: seq<DataFile>, s: string)
    ensures KeysDistinct(PointsOfStrain(files, s), ByGeneration)
    ensures forall i :: 0 <= i < |PointsOfStrain(files, s)| ==>
      HasKey(files, |files|, Key(s, PointsOfStrain(files, s)[i].generation)) &&
      PointsOfStrain(files, s)[i] == PointOf(GroupOf(files, Key(s, PointsOfStrain(files, s)[i].generation)))
  {
    var gs := GroupFiles(files);
    var n := |gs.order|;
    GroupFilesCorrect(files);
    StrainPointsDistinct(gs, n, s, PointOf);
    StrainPointsFrom(gs, n, s, PointOf);
    var p := PointsOfStrain(files, s);
    forall i | 0 <= i < |p|
      ensures HasKey(files, |files|, Key(s, p[i].generation))
      ensures p[i] == PointOf(GroupOf(files, Key(s, p[i].generation)))
    {
      var k := Key(s, p[i].generation);
      assert gs.entries[k] == GroupOf(files, k);
    }
  }

  /** Each strain's list has strictly increasing generations, holds exactly
      the strain's reference points, and each point summarises the files of
      its own strain and generation. */
  lemma ProcessObservedPoints(files: seq<DataFile>, s: string)
    requires |files| > 0 && s in ProcessObservedData(files).value
    ensures StrictlySortedBy(ProcessObservedData(files).value[s], ByGeneration)
    ensures multiset(ProcessObservedData(files).value[s]) == multiset(PointsOfStrain(files, s))
    ensures forall i :: 0 <= i < |ProcessObservedData(files).value[s]| ==>
      HasKey(files, |files|, Key(s, ProcessObservedData(files).value[s][i].generation)) &&
      ProcessObservedData(files).value[s][i] ==
        PointOf(GroupOf(files, Key(s, ProcessObservedData(files).value[s][i].generation)))
  {
    ProcessObservedSorts(files, s);
    var p := PointsOfStrain(files, s);
    var r := Sort(p, ByGeneration);
    SortCorrect(p, ByGeneration);
    PointsOfStrainCorrect(files, s);
    SortStrict(p, ByGeneration);
    forall i | 0 <= i < |r|
      ensures HasKey(files, |files|, Key(s, r[i].generation))
      ensures r[i] == PointOf(GroupOf(files, Key(s, r[i].generation)))
    {
      assert r[i] in multiset(p) by { assert r[i] in multiset(r); }
      var j :| 0 <= j < |p| && p[j] == r[i];
    }
  }

  /** Generations determine the points of a strain, so any sort by generation
      yields the same list: the built-in sort's algorithm does not matter. */
  lemma ProcessObservedSortUnique(files: seq<DataFile>, s: string, b: seq<ObservedPoint>)
    requires |files| > 0 && s in ProcessObservedData(files).value
    requires SortedBy(b, ByGeneration)
    requires multiset(b) == multiset(PointsOfStrain(files, s))
    ensures b == ProcessObservedData(files).value[s]
  {
    var r := ProcessObservedData(files).value[s];
    ProcessObservedPoints(files, s);
    assert KeysDetermine(r, ByGeneration);
    SortedUnique(r, b, ByGeneration);
  }

  // ---------------------------------------------------------------------
  // The aggregation as the component runs it
  // ---------------------------------------------------------------------

  /** `uploadedFiles.forEach`, filling `strainGenData` in place. */
  method GroupUploads(files: seq<DataFile>) returns (order: seq<Key>, entries: map<Key, Entry>)
    ensures Groups(order, entries) == GroupFiles(files)
  {
    order, entries := [], map[];
    for i := 0 to |files|
      invariant Groups(order, entries) == GroupUpTo(files, i)
    {
      var f := files[i];
      var k := KeyOf(f);
      ghost var before := entries;
      if k !in entries {
        entries := entries[k := Entry(f.strain, f.generation, [], [])];
        order := order + [k];
      }
      var e := entries[k];
      entries := entries[k := Entry(e.strain, e.generation, e.files + [f.fileId], e.allData + f.data)];
      if k !in before {
        assert e.files + [f.fileId] == [f.fileId] && e.allData + f.data == f.data;
      }
      assert entries == before[k := entries[k]];
    }
  }

  /** `entry.allData.forEach` into `uniquePolymorphisms`, then its values in insertion order. */
  method DeduplicateRecords(data: seq<Record>) returns (polymorphisms: seq<Record>)
    ensures polymorphisms == Polymorphisms(data)
  {
    var order: seq<Site>, kept: map<Site, Record> := [], map[];
    for i := 0 to |data|
      invariant Dedup(order, kept) == DedupUpTo(data, i)
    {
      var d := data[i];
      var k := SiteOf(d);
      if k !in kept || kept[k].frequency < d.frequency {
        if k !in kept {
          order := order + [k];
        }
        kept := kept[k := d];
      }
    }
    DedupUpToValid(data, |data|);
    polymorphisms := seq(|order|, i requires 0 <= i < |order| => kept[order[i]]);
  }

  /** The body of `Object.values(strainGenData).forEach` up to the push: one group's point. */
  method SummarizeGroup(e: Entry) returns (pt: ObservedPoint)
    ensures pt == PointOf(e)
  {
    var polymorphisms := DeduplicateRecords(e.allData);
    var rrsMutations := OnLocus(polymorphisms, RrsId);
    var rrlMutations := OnLocus(polymorphisms, RrlId);
    var sumFreqRrs := FrequencySum(rrsMutations);
    var sumFreqRrl := FrequencySum(rrlMutations);
    pt := ObservedPoint(e.generation,
      (sumFreqRrs + sumFreqRrl) / (RrsLength + RrlLength) as real,
      sumFreqRrs / RrsLength as real,
      sumFreqRrl / RrlLength as real,
      |polymorphisms|, |rrsMutations|, |rrlMutations|, |e.files|);
  }

  /** One iteration of `Object.values(strainGenData).forEach`: create the
      strain's list if missing, then push the group's point. */
  method PushGroup(strainData: StrainData, e: Entry) returns (strainData': StrainData)
    ensures strainData' == Push(strainData, e.strain, PointOf(e))
  {
    strainData' := strainData;
    if e.strain !in strainData' {
      strainData' := strainData'[e.strain := []];
    }
    var pt := SummarizeGroup(e);
    strainData' := strainData'[e.strain := strainData'[e.strain] + [pt]];
    assert strainData' == strainData[e.strain := strainData'[e.strain]];
  }

  /** `processObservedData` as written: group, summarise each group into its
      strain's list, then sort every list by generation. */
  method ProcessObserved(files: seq<DataFile>) returns (r: Option<StrainData>)
    ensures r == ProcessObservedData(files)
  {
    if |files| == 0 {
      return None;
    }
    var order, entries := GroupUploads(files);
    ghost var gs := Groups(order, entries);
    var strainData: StrainData := map[];
    for i := 0 to |order|
      invariant strainData == StrainUpTo(gs, i, PointOf)
    {
      strainData := PushGroup(strainData, entries[order[i]]);
    }
    r := Some(map s | s in strainData :: Sort(strainData[s], ByGeneration));
  }
}
