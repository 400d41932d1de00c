/** What a merge keeps, by the series themselves (lib/runtime/src/metrics.rs, `prometheus_expfmt_combined`):
    a series is a family name and a set of labels in whatever order, and its first sample in the order of
    registries, families and samples is the one that stays. */
module MergedSeries {
  import opened Wrappers
  import opened SeriesKey
  import opened MetricsMerge

  ghost predicate SameSeries(s: Sample, t: Sample) {
    s.name == t.name && multiset(s.metric.labels) == multiset(t.metric.labels)
  }

  /** A name without a bar, and labels whose values embed nothing that reads like a further label. */
  ghost predicate PlainSample(s: Sample) {
    '|' !in s.name && CutFreeLabels(s.metric.labels)
  }

  lemma KeyOfIffSameSeries(s: Sample, t: Sample)
    requires PlainSample(s) && PlainSample(t)
    ensures KeyOf(s) == KeyOf(t) <==> SameSeries(s, t)
  {
    KeyIffSameSeries(s.name, s.metric.labels, t.name, t.metric.labels);
  }

  /** Without the condition on values: samples count as duplicates exactly if their sorted labels read like
      the same labels. */
  lemma KeyOfIffSameSplit(s: Sample, t: Sample)
    requires '|' !in s.name && '|' !in t.name && CleanNames(s.metric.labels) && CleanNames(t.metric.labels)
    ensures KeyOf(s) == KeyOf(t) <==>
            s.name == t.name && Split(Sorted(s.metric.labels)) == Split(Sorted(t.metric.labels))
  {
    KeyIffSameSplit(s.name, s.metric.labels, t.name, t.metric.labels);
  }

  // ----- places of samples

  datatype Place = Place(registry: nat, family: nat, metric: nat)

  predicate IsPlace(regs: seq<seq<Family>>, a: Place) {
    && a.registry < |regs| && a.family < |regs[a.registry]|
    && a.metric < |regs[a.registry][a.family].metrics|
  }

  function At(regs: seq<seq<Family>>, a: Place): Sample
    requires IsPlace(regs, a)
  {
    var f := regs[a.registry][a.family];
    Sample(f.name, f.metrics[a.metric])
  }

  /** Registry by registry, family by family, sample by sample. */
  predicate Before(a: Place, b: Place) {
    a.registry < b.registry
    || (a.registry == b.registry && (a.family < b.family || (a.family == b.family && a.metric < b.metric)))
  }

  ghost predicate FirstOfSeries(regs: seq<seq<Family>>, a: Place) {
    && IsPlace(regs, a)
    && (forall b :: IsPlace(regs, b) && Before(b, a) ==> !SameSeries(At(regs, b), At(regs, a)))
  }

  /** The samples of `f` are exactly the first samples of all series of its name, in order; `ps` says where
      they come from. */
  ghost predicate KeptFrom(regs: seq<seq<Family>>, f: Family, ps: seq<Place>) {
    && |ps| == |f.metrics|
    && (forall i :: 0 <= i < |ps| ==> FirstOfSeries(regs, ps[i]) && At(regs, ps[i]) == Sample(f.name, f.metrics[i]))
    && (forall i, j :: 0 <= i < j < |ps| ==> Before(ps[i], ps[j]))
    && (forall a :: FirstOfSeries(regs, a) && At(regs, a).name == f.name ==> a in ps)
  }

  // ----- the rank of a place among all samples

  lemma {:induction false} FlatPrefix(regs: seq<seq<Family>>, n: nat)
    requires n <= |regs|
    ensures Flat(regs[..n]) <= Flat(regs)
    decreases |regs|
  {
    if n < |regs| {
      FlatPrefix(regs[..|regs| - 1], n);
      assert regs[..|regs| - 1][..n] == regs[..n];
    } else {
      assert regs[..n] == regs;
    }
  }

  lemma {:induction false} SamplesPrefix(fs: seq<Family>, n: nat)
    requires n <= |fs|
    ensures Samples(fs[..n]) <= Samples(fs)
    decreases |fs|
  {
    if n < |fs| {
      SamplesPrefix(fs[..|fs| - 1], n);
      assert fs[..|fs| - 1][..n] == fs[..n];
    } else {
      assert fs[..n] == fs;
    }
  }

  function FamilyRank(regs: seq<seq<Family>>, a: Place): nat
    requires a.registry < |regs|
  {
    |Flat(regs[..a.registry])| + a.family
  }

  lemma FamilyAt(regs: seq<seq<Family>>, a: Place)
    requires IsPlace(regs, a)
    ensures FamilyRank(regs, a) < |Flat(regs[..a.registry + 1])| <= |Flat(regs)|
    ensures Flat(regs)[FamilyRank(regs, a)] == regs[a.registry][a.family]
  {
    var n := a.registry + 1;
    assert regs[..n][..a.registry] == regs[..a.registry] && regs[..n][a.registry] == regs[a.registry];
    assert Flat(regs[..n]) == Flat(regs[..a.registry]) + regs[a.registry];
    FlatPrefix(regs, n);
  }

  function Rank(regs: seq<seq<Family>>, a: Place): nat
    requires IsPlace(regs, a)
  {
    FamilyAt(regs, a);
    |Samples(Flat(regs)[..FamilyRank(regs, a)])| + a.metric
  }

  lemma SampleAt(fs: seq<Family>, n: nat, m: nat)
    requires n < |fs| && m < |fs[n].metrics|
    ensures |Samples(fs[..n])| + m < |Samples(fs[..n + 1])| <= |Samples(fs)|
    ensures Samples(fs)[|Samples(fs[..n])| + m] == Sample(fs[n].name, fs[n].metrics[m])
  {
    assert fs[..n + 1] == fs[..n] + [fs[n]];
    SamplesSnoc(fs[..n], fs[n]);
    SamplesPrefix(fs, n + 1);
  }

  lemma RankAt(regs: seq<seq<Family>>, a: Place)
    requires IsPlace(regs, a)
    ensures Rank(regs, a) < |Samples(Flat(regs))| && Samples(Flat(regs))[Rank(regs, a)] == At(regs, a)
  {
    hide Samples, Flat;
    FamilyAt(regs, a);
    SampleAt(Flat(regs), FamilyRank(regs, a), a.metric);
  }

  lemma FamilyRankGrows(regs: seq<seq<Family>>, a: Place, b: Place)
    requires IsPlace(regs, a) && IsPlace(regs, b) && Before(a, b)
    ensures FamilyRank(regs, a) < FamilyRank(regs, b) || (FamilyRank(regs, a) == FamilyRank(regs, b) && a.metric < b.metric)
  {
    hide Flat;
    if a.registry < b.registry {
      FamilyAt(regs, a);
      FlatPrefix(regs[..b.registry], a.registry + 1);
      assert regs[..b.registry][..a.registry + 1] == regs[..a.registry + 1];
    }
  }

  lemma RankGrows(regs: seq<seq<Family>>, a: Place, b: Place)
    requires IsPlace(regs, a) && IsPlace(regs, b) && Before(a, b)
    ensures Rank(regs, a) < Rank(regs, b)
  {
    hide Samples, Flat;
    FamilyRankGrows(regs, a, b);
    FamilyAt(regs, a);
    FamilyAt(regs, b);
    var fs, m, n := Flat(regs), FamilyRank(regs, a), FamilyRank(regs, b);
    hide FamilyRank;
    if m < n {
      SampleAt(fs, m, a.metric);
      SamplesPrefix(fs[..n], m + 1);
      assert fs[..n][..m + 1] == fs[..m + 1];
    }
  }

  lemma BeforeIsTotal(a: Place, b: Place)
    ensures a == b || Before(a, b) || Before(b, a)
    ensures !(Before(a, b) && Before(b, a))
  {
  }

  lemma RankOrders(regs: seq<seq<Family>>, a: Place, b: Place)
    requires IsPlace(regs, a) && IsPlace(regs, b)
    ensures Rank(regs, a) < Rank(regs, b) <==> Before(a, b)
    ensures Rank(regs, a) == Rank(regs, b) <==> a == b
  {
    hide Rank, Before;
    BeforeIsTotal(a, b);
    if Before(a, b) {
      RankGrows(regs, a, b);
    }
    if Before(b, a) {
      RankGrows(regs, b, a);
    }
  }

  lemma {:induction false} FamilyOfSample(fs: seq<Family>, k: nat) returns (n: nat, m: nat)
    requires k < |Samples(fs)|
    ensures n < |fs| && m < |fs[n].metrics| && k == |Samples(fs[..n])| + m
  {
    var last := |fs| - 1;
    if k < |Samples(fs[..last])| {
      n, m := FamilyOfSample(fs[..last], k);
      assert fs[..last][..n] == fs[..n];
    } else {
      n, m := last, k - |Samples(fs[..last])|;
    }
  }

  lemma {:induction false} RegistryOfFamily(regs: seq<seq<Family>>, n: nat) returns (r: nat, q: nat)
    requires n < |Flat(regs)|
    ensures r < |regs| && q < |regs[r]| && n == |Flat(regs[..r])| + q
  {
    var last := |regs| - 1;
    if n < |Flat(regs[..last])| {
      r, q := RegistryOfFamily(regs[..last], n);
      assert regs[..last][..r] == regs[..r];
    } else {
      r, q := last, n - |Flat(regs[..last])|;
    }
  }

  lemma FamilyRankAt(regs: seq<seq<Family>>, r: nat, q: nat)
    requires r < |regs| && q < |regs[r]|
    ensures |Flat(regs[..r])| + q < |Flat(regs)| && Flat(regs)[|Flat(regs[..r])| + q] == regs[r][q]
  {
    assert regs[..r + 1][..r] == regs[..r] && regs[..r + 1][r] == regs[r];
    assert Flat(regs[..r + 1]) == Flat(regs[..r]) + regs[r];
    FlatPrefix(regs, r + 1);
  }

  /** Every sample of the merged list comes from a place. */
  lemma PlaceOf(regs: seq<seq<Family>>, k: nat) returns (a: Place)
    requires k < |Samples(Flat(regs))|
    ensures IsPlace(regs, a) && Rank(regs, a) == k
  {
    hide Samples, Flat;
    var n, m := FamilyOfSample(Flat(regs), k);
    var r, q := RegistryOfFamily(regs, n);
    FamilyRankAt(regs, r, q);
    a := Place(r, q, m);
  }

  // ----- the samples that are kept

  /** The positions of the first samples with their keys, of one name. */
  function KeptAt(samples: seq<Sample>, name: string): seq<nat> {
    if samples == [] then []
    else
      var rest, last := samples[..|samples| - 1], samples[|samples| - 1];
      KeptAt(rest, name) + (if KeyOf(last) !in Keys(rest) && last.name == name then [|rest|] else [])
  }

  lemma {:induction false} KeptAtIs(samples: seq<Sample>, name: string)
    ensures var ks, ms := KeptAt(samples, name), OfName(Firsts(samples), name);
            && |ks| == |ms|
            && (forall i :: 0 <= i < |ks| ==> ks[i] < |samples| && samples[ks[i]] == Sample(name, ms[i]))
            && (forall i, j :: 0 <= i < j < |ks| ==> ks[i] < ks[j])
  {
    hide KeyOf, Keys;
    if samples != [] {
      var rest, last := samples[..|samples| - 1], samples[|samples| - 1];
      KeptAtIs(rest, name);
      if KeyOf(last) !in Keys(rest) {
        OfNameSnoc(Firsts(rest), last, name);
      }
    }
  }

  lemma {:induction false} KeptAtIff(samples: seq<Sample>, name: string, k: nat)
    requires k < |samples|
    ensures k in KeptAt(samples, name) <==> IsFirst(samples, k) && samples[k].name == name
  {
    hide KeyOf, IsFirst;
    var n := |samples| - 1;
    var rest := samples[..n];
    KeptAtIs(rest, name);
    if k < n {
      KeptAtIff(rest, name, k);
      IsFirstInPrefix(samples, n, k);
    } else {
      assert n !in KeptAt(rest, name);
      FirstIffNewKey(samples);
    }
  }

  lemma FirstIffNewKey(samples: seq<Sample>)
    requires samples != []
    ensures IsFirst(samples, |samples| - 1) <==> KeyOf(samples[|samples| - 1]) !in Keys(samples[..|samples| - 1])
  {
    hide KeyOf;
    var n := |samples| - 1;
    if KeyOf(samples[n]) !in Keys(samples[..n]) {
      NewKeyIsFirst(samples);
    }
    if s :| s in samples[..n] && KeyOf(s) == KeyOf(samples[n]) {
      var j :| 0 <= j < n && samples[..n][j] == s;
      assert KeyOf(samples[j]) == KeyOf(samples[n]);
    }
  }

  ghost predicate PlainPlaces(regs: seq<seq<Family>>) {
    forall a :: IsPlace(regs, a) ==> PlainSample(At(regs, a))
  }

  /** The first sample with a key is the first sample of its series. */
  lemma FirstIffFirstOfSeries(regs: seq<seq<Family>>, a: Place)
    requires PlainPlaces(regs) && IsPlace(regs, a)
    ensures Rank(regs, a) < |Samples(Flat(regs))|
    ensures IsFirst(Samples(Flat(regs)), Rank(regs, a)) <==> FirstOfSeries(regs, a)
  {
    hide KeyOf, Samples, Flat, Rank, SameSeries, PlainSample, At;
    var samples, k := Samples(Flat(regs)), Rank(regs, a);
    RankAt(regs, a);
    if FirstOfSeries(regs, a) {
      forall j | 0 <= j < k
        ensures KeyOf(samples[j]) != KeyOf(samples[k])
      {
        var b := PlaceOf(regs, j);
        RankAt(regs, b);
        RankOrders(regs, b, a);
        KeyOfIffSameSeries(samples[j], samples[k]);
      }
    }
    if IsFirst(samples, k) {
      forall b | IsPlace(regs, b) && Before(b, a)
        ensures !SameSeries(At(regs, b), At(regs, a))
      {
        RankAt(regs, b);
        RankOrders(regs, b, a);
        KeyOfIffSameSeries(At(regs, b), At(regs, a));
      }
    }
  }

  /** Where the samples of one name come from. */
  lemma PlacesOf(regs: seq<seq<Family>>, ks: seq<nat>) returns (ps: seq<Place>)
    requires forall i :: 0 <= i < |ks| ==> ks[i] < |Samples(Flat(regs))|
    ensures |ps| == |ks| && forall i :: 0 <= i < |ks| ==> IsPlace(regs, ps[i]) && Rank(regs, ps[i]) == ks[i]
  {
    hide Samples, Flat, Rank;
    ps := [];
    for i := 0 to |ks|
      invariant |ps| == i && forall j :: 0 <= j < i ==> IsPlace(regs, ps[j]) && Rank(regs, ps[j]) == ks[j]
    {
      var a := PlaceOf(regs, ks[i]);
      ps := ps + [a];
    }
  }

  /** A family with the metrics that the merge gives it holds exactly the first samples of its series. */
  lemma KeptByPlace(regs: seq<seq<Family>>, f: Family) returns (ps: seq<Place>)
    requires PlainPlaces(regs) && f.metrics == OfName(Firsts(Samples(Flat(regs))), f.name)
    ensures KeptFrom(regs, f, ps)
  {
    hide KeyOf, Samples, Flat, Rank, FirstOfSeries, IsFirst, Firsts, OfName, KeptAt, PlainPlaces, Before, At;
    var samples := Samples(Flat(regs));
    var ks := KeptAt(samples, f.name);
    KeptAtIs(samples, f.name);
    ps := PlacesOf(regs, ks);
    forall i | 0 <= i < |ps|
      ensures FirstOfSeries(regs, ps[i]) && At(regs, ps[i]) == Sample(f.name, f.metrics[i])
    {
      RankAt(regs, ps[i]);
      KeptAtIff(samples, f.name, ks[i]);
      FirstIffFirstOfSeries(regs, ps[i]);
    }
    forall i, j | 0 <= i < j < |ps|
      ensures Before(ps[i], ps[j])
    {
      RankOrders(regs, ps[i], ps[j]);
    }
    forall a | FirstIsPlace(regs, a) && At(regs, a).name == f.name
      ensures a in ps
    {
      KeptHasPlace(regs, f.name, ps, a);
    }
    PlacesAreFirst(regs);
  }

  ghost predicate FirstIsPlace(regs: seq<seq<Family>>, a: Place)
    ensures FirstIsPlace(regs, a) ==> IsPlace(regs, a)
  {
    IsPlace(regs, a) && FirstOfSeries(regs, a)
  }

  lemma PlacesAreFirst(regs: seq<seq<Family>>)
    ensures forall a :: FirstOfSeries(regs, a) ==> FirstIsPlace(regs, a)
  {
    hide SameSeries, At, Before;
  }

  lemma KeptHasPlace(regs: seq<seq<Family>>, name: string, ps: seq<Place>, a: Place)
    requires PlainPlaces(regs) && FirstIsPlace(regs, a) && At(regs, a).name == name
    requires |ps| == |KeptAt(Samples(Flat(regs)), name)|
    requires forall i :: 0 <= i < |ps| ==> IsPlace(regs, ps[i]) && Rank(regs, ps[i]) == KeptAt(Samples(Flat(regs)), name)[i]
    ensures a in ps
  {
    hide KeyOf, Samples, Flat, Rank, FirstOfSeries, IsFirst, KeptAt, PlainPlaces, Before, At;
    var samples := Samples(Flat(regs));
    var ks := KeptAt(samples, name);
    RankAt(regs, a);
    FirstIffFirstOfSeries(regs, a);
    KeptAtIff(samples, name, Rank(regs, a));
    var i :| 0 <= i < |ks| && ks[i] == Rank(regs, a);
    RankOrders(regs, ps[i], a);
  }

  // ----- what this means for a scrape

  /** No two samples of a family belong to one series. */
  lemma KeptAreDifferent(regs: seq<seq<Family>>, f: Family, ps: seq<Place>, i: nat, j: nat)
    requires KeptFrom(regs, f, ps) && i < j < |f.metrics|
    ensures multiset(f.metrics[i].labels) != multiset(f.metrics[j].labels)
  {
    hide Before, At;
    assert FirstOfSeries(regs, ps[j]) && FirstOfSeries(regs, ps[i]) && Before(ps[i], ps[j]);
    assert !SameSeries(At(regs, ps[i]), At(regs, ps[j]));
  }

  /** Some first sample belongs to the series of any given sample. */
  lemma {:induction false} FirstOf(regs: seq<seq<Family>>, a: Place) returns (b: Place)
    requires IsPlace(regs, a)
    ensures FirstOfSeries(regs, b) && SameSeries(At(regs, b), At(regs, a))
    decreases Rank(regs, a)
  {
    hide Rank, Before, At;
    if FirstOfSeries(regs, a) {
      b := a;
    } else {
      var e :| IsPlace(regs, e) && Before(e, a) && SameSeries(At(regs, e), At(regs, a));
      RankOrders(regs, e, a);
      b := FirstOf(regs, e);
    }
  }

  /** No series is lost: the family of its name holds a sample of every series. */
  lemma EverySeriesKept(regs: seq<seq<Family>>, f: Family, ps: seq<Place>, a: Place) returns (i: nat)
    requires KeptFrom(regs, f, ps) && IsPlace(regs, a) && At(regs, a).name == f.name
    ensures i < |f.metrics| && SameSeries(Sample(f.name, f.metrics[i]), At(regs, a))
  {
    hide Before, At;
    var b := FirstOf(regs, a);
    assert b in ps;
    i :| 0 <= i < |ps| && ps[i] == b;
  }
}
