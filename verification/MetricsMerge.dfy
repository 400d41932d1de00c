/** Merging the metric families of all registries of a scrape (lib/runtime/src/metrics.rs,
    `prometheus_expfmt_combined`).  The input is what each registry gathers, in walk order. */
module MetricsMerge {
  import opened Wrappers
  import opened SeriesKey

  datatype Metric = Metric(labels: seq<Label>, value: int)
  datatype Family = Family(name: string, help: string, kind: int, metrics: seq<Metric>)

  /** A sample of a family, the unit of duplicate detection. */
  datatype Sample = Sample(name: string, metric: Metric)

  function KeyOf(s: Sample): string { Key(s.name, Sorted(s.metric.labels)) }

  // ----- what the merge should produce

  /** All families, registry after registry. */
  function Flat(registries: seq<seq<Family>>): seq<Family> {
    if registries == [] then [] else Flat(registries[..|registries| - 1]) + registries[|registries| - 1]
  }

  ghost predicate Consistent(fs: seq<Family>) {
    forall f, g :: f in fs && g in fs && f.name == g.name ==> f.help == g.help && f.kind == g.kind
  }

  function SamplesOf(f: Family): (r: seq<Sample>)
    ensures |r| == |f.metrics|
    ensures forall i :: 0 <= i < |r| ==> r[i] == Sample(f.name, f.metrics[i])
  {
    seq(|f.metrics|, i requires 0 <= i < |f.metrics| => Sample(f.name, f.metrics[i]))
  }

  function Samples(fs: seq<Family>): seq<Sample> {
    if fs == [] then [] else Samples(fs[..|fs| - 1]) + SamplesOf(fs[|fs| - 1])
  }

  function Keys(samples: seq<Sample>): set<string> {
    set s | s in samples :: KeyOf(s)
  }

  /** The first sample of every key, in order. */
  function Firsts(samples: seq<Sample>): seq<Sample> {
    if samples == [] then []
    else
      var rest, last := samples[..|samples| - 1], samples[|samples| - 1];
      if KeyOf(last) in Keys(rest) then Firsts(rest) else Firsts(rest) + [last]
  }

  function OfName(samples: seq<Sample>, name: string): seq<Metric> {
    if samples == [] then []
    else
      var last := samples[|samples| - 1];
      OfName(samples[..|samples| - 1], name) + (if last.name == name then [last.metric] else [])
  }

  /** One entry per name, with the help and kind all families of that name agree on. */
  ghost predicate Headers(byName: map<string, Family>, fs: seq<Family>) {
    && (forall f :: f in fs ==> f.name in byName && byName[f.name].help == f.help && byName[f.name].kind == f.kind)
    && (forall n :: n in byName ==> byName[n].name == n && exists f :: f in fs && f.name == n)
  }

  /** Every entry holds the first sample of each key of its name, in order. */
  ghost predicate Contents(byName: map<string, Family>, seen: set<string>, samples: seq<Sample>) {
    && seen == Keys(samples)
    && (forall n :: n in byName ==> byName[n].metrics == OfName(Firsts(samples), n))
  }

  /** `byName` and `seen` are the merge of `fs`. */
  ghost predicate IsMergeOf(byName: map<string, Family>, seen: set<string>, fs: seq<Family>) {
    Headers(byName, fs) && Contents(byName, seen, Samples(fs))
  }

  // ----- samples and their first occurrences

  lemma SamplesSnoc(fs: seq<Family>, f: Family)
    ensures Samples(fs + [f]) == Samples(fs) + SamplesOf(f)
  {
    assert (fs + [f])[..|fs|] == fs;
  }

  lemma FirstsSnoc(samples: seq<Sample>, s: Sample)
    ensures Firsts(samples + [s]) == if KeyOf(s) in Keys(samples) then Firsts(samples) else Firsts(samples) + [s]
    ensures Keys(samples + [s]) == Keys(samples) + {KeyOf(s)}
  {
    assert (samples + [s])[..|samples|] == samples;
  }

  lemma OfNameSnoc(samples: seq<Sample>, s: Sample, name: string)
    ensures OfName(samples + [s], name) == OfName(samples, name) + if s.name == name then [s.metric] else []
  {
    assert (samples + [s])[..|samples|] == samples;
  }

  lemma {:induction false} NamesOfSamples(fs: seq<Family>, s: Sample)
    requires s in Samples(fs)
    ensures exists f :: f in fs && f.name == s.name && s.metric in f.metrics
  {
    var n := |fs| - 1;
    if s in SamplesOf(fs[n]) {
      assert fs[n] in fs;
    } else {
      NamesOfSamples(fs[..n], s);
      var f :| f in fs[..n] && f.name == s.name && s.metric in f.metrics;
      assert f in fs;
    }
  }

  /** Position `k` holds the first sample with its key. */
  ghost predicate IsFirst(samples: seq<Sample>, k: nat)
    requires k < |samples|
  {
    forall j :: 0 <= j < k ==> KeyOf(samples[j]) != KeyOf(samples[k])
  }

  lemma NewKeyIsFirst(samples: seq<Sample>)
    requires samples != [] && KeyOf(samples[|samples| - 1]) !in Keys(samples[..|samples| - 1])
    ensures IsFirst(samples, |samples| - 1)
  {
    hide KeyOf;
    var rest := samples[..|samples| - 1];
    forall j | 0 <= j < |rest|
      ensures KeyOf(samples[j]) != KeyOf(samples[|samples| - 1])
    {
      KeysContain(rest, j);
    }
  }

  lemma IsFirstInPrefix(samples: seq<Sample>, n: nat, k: nat)
    requires k < n <= |samples|
    ensures IsFirst(samples[..n], k) <==> IsFirst(samples, k)
  {
    hide KeyOf;
    assert forall j :: 0 <= j < n ==> samples[..n][j] == samples[j];
  }

  /** Every kept sample is the first one with its key. */
  lemma {:induction false} FirstsAreFirst(samples: seq<Sample>, i: nat) returns (k: nat)
    requires i < |Firsts(samples)|
    ensures k < |samples| && samples[k] == Firsts(samples)[i] && IsFirst(samples, k)
  {
    hide KeyOf, IsFirst;
    var n := |samples| - 1;
    if i < |Firsts(samples[..n])| {
      k := FirstsAreFirst(samples[..n], i);
      IsFirstInPrefix(samples, n, k);
    } else {
      k := n;
      NewKeyIsFirst(samples);
    }
  }

  /** Conversely, the first sample with a key is kept. */
  lemma {:induction false} FirstIsKept(samples: seq<Sample>, k: nat)
    requires k < |samples| && IsFirst(samples, k)
    ensures samples[k] in Firsts(samples)
  {
    hide KeyOf;
    var n := |samples| - 1;
    if k < n {
      IsFirstInPrefix(samples, n, k);
      FirstIsKept(samples[..n], k);
    } else {
      assert KeyOf(samples[n]) !in Keys(samples[..n]);
    }
  }

  lemma KeysContain(samples: seq<Sample>, i: nat)
    requires i < |samples|
    ensures KeyOf(samples[i]) in Keys(samples)
  {
    assert samples[i] in samples;
  }

  ghost predicate DistinctKeys(samples: seq<Sample>) {
    forall i, j :: 0 <= i < j < |samples| ==> KeyOf(samples[i]) != KeyOf(samples[j])
  }

  lemma DistinctKeysSnoc(samples: seq<Sample>, s: Sample)
    requires DistinctKeys(samples) && KeyOf(s) !in Keys(samples)
    ensures DistinctKeys(samples + [s])
  {
    hide KeyOf;
    forall i | 0 <= i < |samples|
      ensures KeyOf(samples[i]) != KeyOf(s)
    {
      KeysContain(samples, i);
    }
  }

  lemma NothingKept()
    ensures DistinctKeys(Firsts([])) && Keys(Firsts([])) == Keys([])
  {
  }

  /** No key is kept twice, and none is lost. */
  lemma {:induction false} FirstsHaveDistinctKeys(samples: seq<Sample>)
    ensures DistinctKeys(Firsts(samples)) && Keys(Firsts(samples)) == Keys(samples)
  {
    hide KeyOf, DistinctKeys, Keys, Firsts;
    if samples == [] {
      NothingKept();
    } else {
      var rest, last := samples[..|samples| - 1], samples[|samples| - 1];
      FirstsHaveDistinctKeys(rest);
      assert samples == rest + [last];
      FirstsSnoc(rest, last);
      KeysSnoc(Firsts(rest), last);
      if KeyOf(last) !in Keys(rest) {
        DistinctKeysSnoc(Firsts(rest), last);
      }
    }
  }

  lemma KeysSnoc(samples: seq<Sample>, s: Sample)
    ensures Keys(samples + [s]) == Keys(samples) + {KeyOf(s)}
  {
    hide KeyOf;
    assert s in samples + [s];
    assert forall x :: x in samples ==> x in samples + [s];
  }

  // ----- the merge loops

  lemma {:induction false} NothingOfName(samples: seq<Sample>, name: string)
    requires forall i :: 0 <= i < |samples| ==> samples[i].name != name
    ensures OfName(samples, name) == []
  {
    if samples != [] {
      NothingOfName(samples[..|samples| - 1], name);
    }
  }

  /** A name that no family has, no kept sample has. */
  lemma NewName(fs: seq<Family>, name: string)
    requires forall f :: f in fs ==> f.name != name
    ensures OfName(Firsts(Samples(fs)), name) == []
  {
    hide KeyOf, Samples, Firsts;
    forall i | 0 <= i < |Firsts(Samples(fs))|
      ensures Firsts(Samples(fs))[i].name != name
    {
      var k := FirstsAreFirst(Samples(fs), i);
      NamesOfSamples(fs, Firsts(Samples(fs))[i]);
    }
    NothingOfName(Firsts(Samples(fs)), name);
  }

  function WithHeader(byName: map<string, Family>, f: Family): map<string, Family> {
    if f.name in byName then byName else byName[f.name := Family(f.name, f.help, f.kind, [])]
  }

  lemma ExtendHeaders(byName: map<string, Family>, fs: seq<Family>, f: Family)
    requires Headers(byName, fs)
    ensures var m := WithHeader(byName, f);
            if m[f.name].help == f.help && m[f.name].kind == f.kind
            then Headers(m, fs + [f])
            else exists g :: g in fs && g.name == f.name && !(g.help == f.help && g.kind == f.kind)
  {
    var m := WithHeader(byName, f);
    assert forall g :: g in fs + [f] <==> g in fs || g == f;
    if m[f.name].help == f.help && m[f.name].kind == f.kind {
      forall n | n in m
        ensures m[n].name == n && exists g :: g in fs + [f] && g.name == n
      {
        if n in byName {
          var g :| g in fs && g.name == n;
          assert g in fs + [f];
        } else {
          assert f in fs + [f];
        }
      }
    }
  }

  lemma ExtendContents(byName: map<string, Family>, seen: set<string>, fs: seq<Family>, f: Family)
    requires Headers(byName, fs) && Contents(byName, seen, Samples(fs))
    ensures Contents(WithHeader(byName, f), seen, Samples(fs))
  {
    hide KeyOf, Firsts, OfName, Keys, Samples;
    if f.name !in byName {
      NewName(fs, f.name);
    }
  }

  /** A family's header either agrees with what was merged, or contradicts a family merged before. */
  lemma AddHeader(byName: map<string, Family>, seen: set<string>, fs: seq<Family>, f: Family)
    requires IsMergeOf(byName, seen, fs)
    ensures var m := WithHeader(byName, f);
            if m[f.name].help == f.help && m[f.name].kind == f.kind
            then IsMergeOf(m, seen, fs + [f.(metrics := [])])
            else exists g :: g in fs && g.name == f.name && !(g.help == f.help && g.kind == f.kind)
  {
    hide Headers, Contents;
    var f0 := f.(metrics := []);
    ExtendHeaders(byName, fs, f0);
    ExtendContents(byName, seen, fs, f0);
    SamplesSnoc(fs, f0);
    assert SamplesOf(f0) == [] && Samples(fs) + [] == Samples(fs);
  }

  function WithMetric(byName: map<string, Family>, s: Sample): map<string, Family>
    requires s.name in byName
  {
    byName[s.name := byName[s.name].(metrics := byName[s.name].metrics + [s.metric])]
  }

  /** Taking one more sample: it is kept exactly if its key is new. */
  lemma AddSample(byName: map<string, Family>, seen: set<string>, samples: seq<Sample>, s: Sample)
    requires s.name in byName && Contents(byName, seen, samples)
    ensures if KeyOf(s) in seen then Contents(byName, seen, samples + [s])
            else Contents(WithMetric(byName, s), seen + {KeyOf(s)}, samples + [s])
  {
    hide KeyOf, Firsts, OfName, Keys;
    FirstsSnoc(samples, s);
    if KeyOf(s) !in seen {
      var m := WithMetric(byName, s);
      forall n | n in m
        ensures m[n].metrics == OfName(Firsts(samples + [s]), n)
      {
        OfNameSnoc(Firsts(samples), s, n);
        assert n in byName;
        assert byName[n].metrics + [] == byName[n].metrics;
      }
    }
  }

  /** Families that differ in their metrics only have the same headers. */
  lemma SameHeaders(byName: map<string, Family>, fs: seq<Family>, f1: Family, f2: Family)
    requires f2 == f1.(metrics := f2.metrics) && Headers(byName, fs + [f1])
    ensures Headers(byName, fs + [f2])
  {
    assert forall g :: g in fs + [f2] <==> g in fs || g == f2;
    assert forall g :: g in fs + [f1] <==> g in fs || g == f1;
    forall n | n in byName
      ensures exists f :: f in fs + [f2] && f.name == n
    {
      var f :| f in fs + [f1] && f.name == n;
      assert f == f1 ==> f2 in fs + [f2] && f2.name == n;
      assert f != f1 ==> f in fs + [f2];
    }
  }

  lemma HeadersIgnoreMetrics(byName: map<string, Family>, fs: seq<Family>, s: Sample)
    requires s.name in byName && Headers(byName, fs)
    ensures Headers(WithMetric(byName, s), fs)
  {
  }

  lemma AddMetric(byName: map<string, Family>, seen: set<string>, fs: seq<Family>, f: Family, k: nat)
    requires k < |f.metrics| && f.name in byName
    requires IsMergeOf(byName, seen, fs + [f.(metrics := f.metrics[..k])])
    ensures var s := Sample(f.name, f.metrics[k]);
            var done := fs + [f.(metrics := f.metrics[..k + 1])];
            if KeyOf(s) in seen then IsMergeOf(byName, seen, done)
            else IsMergeOf(WithMetric(byName, s), seen + {KeyOf(s)}, done)
  {
    hide KeyOf, Headers, Contents, Samples, WithMetric;
    var f1, f2 := f.(metrics := f.metrics[..k]), f.(metrics := f.metrics[..k + 1]);
    var s := Sample(f.name, f.metrics[k]);
    assert Samples(fs + [f2]) == Samples(fs + [f1]) + [s] by {
      SamplesSnoc(fs, f1);
      SamplesSnoc(fs, f2);
      assert SamplesOf(f2) == SamplesOf(f1) + [s];
    }
    SameHeaders(byName, fs, f1, f2);
    HeadersIgnoreMetrics(byName, fs + [f2], s);
    AddSample(byName, seen, Samples(fs + [f1]), s);
  }

  lemma {:induction false} FlatContains(registries: seq<seq<Family>>, n: nat, f: Family)
    requires n <= |registries| && f in Flat(registries[..n])
    ensures f in Flat(registries)
    decreases |registries| - n
  {
    if n == |registries| {
      assert registries[..n] == registries;
    } else {
      assert registries[..n + 1][..n] == registries[..n];
      FlatContains(registries, n + 1, f);
    }
  }

  /** The merge of all registries, or the report that two of them disagree about a family. */
  method Merge(registries: seq<seq<Family>>) returns (r: Option<map<string, Family>>)
    ensures r.Some? <==> Consistent(Flat(registries))
    ensures r.Some? ==> IsMergeOf(r.value, Keys(Samples(Flat(registries))), Flat(registries))
  {
    hide IsMergeOf, Consistent, KeyOf, Samples, Keys;
    var byName: map<string, Family> := map[];
    var seenSeries: set<string> := {};
    MergeOfNothing();
    for n := 0 to |registries|
      invariant IsMergeOf(byName, seenSeries, Flat(registries[..n]))
    {
      ghost var done := Flat(registries[..n]);
      var families := registries[n];
      assert Flat(registries[..n + 1]) == done + families by { assert registries[..n + 1][..n] == registries[..n]; }
      assert done + families[..0] == done;
      for i := 0 to |families|
        invariant IsMergeOf(byName, seenSeries, done + families[..i])
      {
        ghost var fs := done + families[..i];
        var family := families[i];
        AddHeader(byName, seenSeries, fs, family);
        if family.name !in byName {
          byName := byName[family.name := Family(family.name, family.help, family.kind, [])];
        }
        if byName[family.name].help != family.help || byName[family.name].kind != family.kind {
          Disagree(registries, n, i);
          return None;
        }
        assert family.metrics[..0] == [];
        for k := 0 to |family.metrics|
          invariant family.name in byName
          invariant IsMergeOf(byName, seenSeries, fs + [family.(metrics := family.metrics[..k])])
        {
          AddMetric(byName, seenSeries, fs, family, k);
          var key := KeyOf(Sample(family.name, family.metrics[k]));
          if key !in seenSeries {
            seenSeries := seenSeries + {key};
            byName := byName[family.name := byName[family.name].(metrics := byName[family.name].metrics + [family.metrics[k]])];
          }
        }
        assert family.metrics[..|family.metrics|] == family.metrics;
        assert fs + [family] == done + families[..i + 1];
      }
      assert families[..|families|] == families;
    }
    assert registries[..|registries|] == registries;
    MergeFacts(byName, seenSeries, Flat(registries));
    r := Some(byName);
  }

  lemma MergeOfNothing()
    ensures IsMergeOf(map[], {}, [])
  {
  }

  lemma MergeFacts(byName: map<string, Family>, seen: set<string>, fs: seq<Family>)
    requires IsMergeOf(byName, seen, fs)
    ensures Consistent(fs) && seen == Keys(Samples(fs))
  {
  }

  lemma Disagree(registries: seq<seq<Family>>, n: nat, i: nat)
    requires n < |registries| && i < |registries[n]|
    requires exists g :: g in Flat(registries[..n]) + registries[n][..i] && g.name == registries[n][i].name
                         && !(g.help == registries[n][i].help && g.kind == registries[n][i].kind)
    ensures !Consistent(Flat(registries))
  {
    var f := registries[n][i];
    var g :| g in Flat(registries[..n]) + registries[n][..i] && g.name == f.name && !(g.help == f.help && g.kind == f.kind);
    assert registries[..n + 1][..n] == registries[..n];
    assert f in Flat(registries[..n + 1]) && g in Flat(registries[..n + 1]);
    FlatContains(registries, n + 1, f);
    FlatContains(registries, n + 1, g);
  }

  // ----- what the merged families contain

  lemma {:induction false} OfNameMembers(samples: seq<Sample>, name: string, m: Metric)
    ensures m in OfName(samples, name) <==> Sample(name, m) in samples
  {
    if samples != [] {
      var rest, last := samples[..|samples| - 1], samples[|samples| - 1];
      OfNameMembers(rest, name, m);
      assert samples == rest + [last];
    }
  }

  /** A merged family holds a sample exactly if that sample is the first with its key among all
      samples of all registries in walk order. */
  lemma KeptIffFirst(byName: map<string, Family>, seen: set<string>, fs: seq<Family>, name: string, m: Metric)
    requires IsMergeOf(byName, seen, fs)
    ensures name in byName && m in byName[name].metrics <==>
            exists k :: 0 <= k < |Samples(fs)| && Samples(fs)[k] == Sample(name, m) && IsFirst(Samples(fs), k)
  {
    hide KeyOf, IsFirst, Firsts, Samples, OfName;
    var samples := Samples(fs);
    OfNameMembers(Firsts(samples), name, m);
    if name in byName && m in byName[name].metrics {
      var i :| 0 <= i < |Firsts(samples)| && Firsts(samples)[i] == Sample(name, m);
      var k := FirstsAreFirst(samples, i);
    }
    if exists k :: 0 <= k < |samples| && samples[k] == Sample(name, m) && IsFirst(samples, k) {
      var k :| 0 <= k < |samples| && samples[k] == Sample(name, m) && IsFirst(samples, k);
      FirstIsKept(samples, k);
      NamesOfSamples(fs, samples[k]);
    }
  }

  /** The merge never leaves a family empty, provided every gathered family has a sample and
      family names contain no bar. */
  lemma MergedFamiliesNonEmpty(byName: map<string, Family>, seen: set<string>, fs: seq<Family>, name: string)
    requires IsMergeOf(byName, seen, fs) && name in byName
    requires forall f :: f in fs ==> f.metrics != [] && '|' !in f.name
    ensures byName[name].metrics != []
  {
    hide KeyOf, Samples, Firsts, OfName;
    var samples := Samples(fs);
    var f :| f in fs && f.name == name;
    SampleOfFamily(fs, f);
    var i :| 0 <= i < |samples| && samples[i] == Sample(name, f.metrics[0]);
    var k := FirstNamed(samples, name, i);
    forall j | 0 <= j < k
      ensures KeyOf(samples[j]) != KeyOf(samples[k])
    {
      NamesOfSamples(fs, samples[j]);
      DifferentNamesDifferentKeys(samples[j], samples[k]);
    }
    KeptIffFirst(byName, seen, fs, name, samples[k].metric);
  }

  lemma DifferentNamesDifferentKeys(s: Sample, t: Sample)
    requires s.name != t.name && '|' !in s.name && '|' !in t.name
    ensures KeyOf(s) != KeyOf(t)
  {
    if KeyOf(s) == KeyOf(t) {
      KeyDeterminesName(s.name, Sorted(s.metric.labels), t.name, Sorted(t.metric.labels));
    }
  }

  lemma {:induction false} SampleOfFamily(fs: seq<Family>, f: Family)
    requires f in fs && f.metrics != []
    ensures Sample(f.name, f.metrics[0]) in Samples(fs)
  {
    var n := |fs| - 1;
    if fs[n] == f {
      assert SamplesOf(f)[0] in SamplesOf(f);
    } else {
      SampleOfFamily(fs[..n], f);
    }
  }

  lemma {:induction false} FirstNamed(samples: seq<Sample>, name: string, i: nat) returns (k: nat)
    requires i < |samples| && samples[i].name == name
    ensures k <= i && samples[k].name == name && forall j :: 0 <= j < k ==> samples[j].name != name
  {
    if j :| 0 <= j < i && samples[j].name == name {
      k := FirstNamed(samples, name, j);
    } else {
      k := i;
    }
  }

  // ----- families in name order

  ghost predicate Ascending(fs: seq<Family>) {
    forall i, j :: 0 <= i < j < |fs| ==> Less(fs[i].name, fs[j].name)
  }

  method Least(names: set<string>) returns (least: string)
    requires names != {}
    ensures least in names
    ensures forall n :: n in names && n != least ==> Less(least, n)
  {
    hide Less;
    least :| least in names;
    var rest := names - {least};
    while rest != {}
      invariant rest <= names && least in names && least !in rest
      invariant forall n :: n in names - rest && n != least ==> Less(least, n)
      decreases rest
    {
      var n :| n in rest;
      rest := rest - {n};
      LessIsTotal(n, least);
      if Less(n, least) {
        forall m | m in names - rest && m != n
          ensures Less(n, m)
        {
          if m != least {
            LessIsTransitive(n, least, m);
          }
        }
        least := n;
      }
    }
  }

  /** `BTreeMap::into_values`: the entries in ascending order of their names. */
  method IntoValues(byName: map<string, Family>) returns (out: seq<Family>)
    requires forall n :: n in byName ==> byName[n].name == n
    ensures Ascending(out)
    ensures forall f :: f in out <==> f.name in byName && byName[f.name] == f
  {
    hide Less;
    out := [];
    var rest := byName.Keys;
    while rest != {}
      invariant rest <= byName.Keys && Ascending(out)
      invariant forall f :: f in out <==> f.name in byName.Keys - rest && byName[f.name] == f
      invariant forall i, n :: 0 <= i < |out| && n in rest ==> Less(out[i].name, n)
      decreases rest
    {
      var n := Least(rest);
      out := out + [byName[n]];
      rest := rest - {n};
    }
  }
}
