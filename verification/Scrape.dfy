/** One combined scrape (lib/runtime/src/metrics.rs, `prometheus_expfmt_combined`): the walk over
    the registries, then the merge of what they gather, up to the text encoding. */
module Scrape {
  import opened Wrappers
  import opened MetricsMerge
  import opened MergedSeries
  import opened MetricsGraph

  /** What the registries of a walk gather, in walk order. */
  ghost function GatheredBy(walk: seq<MetricsRegistry>): (r: seq<seq<Family>>)
    reads walk
    ensures |r| == |walk|
    ensures forall i :: 0 <= i < |walk| ==> r[i] == walk[i].gathered
  {
    if walk == [] then [] else GatheredBy(walk[..|walk| - 1]) + [walk[|walk| - 1].gathered]
  }

  predicate Clash(f: Family, h: Family) {
    f.name == h.name && !(f.help == h.help && f.kind == h.kind)
  }

  ghost predicate Exposes(g: Graph, root: MetricsRegistry, r: MetricsRegistry, f: Family)
    reads r
  {
    Reaches(g, root, r) && f in r.gathered
  }

  /** Two registries reachable from `root` expose a family of one name with different help or type. */
  ghost predicate Conflict(g: Graph, root: MetricsRegistry)
    reads g.Keys
  {
    exists a, b, f, h :: a in g && b in g && Exposes(g, root, a, f) && Exposes(g, root, b, h) && Clash(f, h)
  }

  lemma {:induction false} FlatMembers(registries: seq<seq<Family>>, f: Family)
    ensures f in Flat(registries) <==> exists i :: 0 <= i < |registries| && f in registries[i]
  {
    if registries != [] {
      var n := |registries| - 1;
      FlatMembers(registries[..n], f);
      if f in Flat(registries[..n]) {
        var i :| 0 <= i < n && f in registries[..n][i];
        assert f in registries[i];
      }
      if i :| 0 <= i < n && f in registries[i] {
        assert f in registries[..n][i];
      }
    }
  }

  lemma FamilyOfWalk(walk: seq<MetricsRegistry>, f: Family)
    ensures f in Flat(GatheredBy(walk)) <==> exists r :: r in walk && f in r.gathered
  {
    FlatMembers(GatheredBy(walk), f);
    if r :| r in walk && f in r.gathered {
      var i :| 0 <= i < |walk| && walk[i] == r;
      assert f in GatheredBy(walk)[i];
    }
    if i :| 0 <= i < |walk| && f in GatheredBy(walk)[i] {
      assert walk[i] in walk;
    }
  }

  lemma ConsistentIffNoConflict(g: Graph, root: MetricsRegistry, walk: seq<MetricsRegistry>)
    requires forall r :: r in walk ==> r in g
    requires forall r :: r in g ==> (r in walk <==> Reaches(g, root, r))
    ensures Consistent(Flat(GatheredBy(walk))) <==> !Conflict(g, root)
  {
    hide Reaches, Clash;
    if Conflict(g, root) {
      var a, b, f, h :| a in g && b in g && Exposes(g, root, a, f) && Exposes(g, root, b, h) && Clash(f, h);
      FamilyOfWalk(walk, f);
      FamilyOfWalk(walk, h);
      ClashIsInconsistent(Flat(GatheredBy(walk)), f, h);
    }
    if !Consistent(Flat(GatheredBy(walk))) {
      var f, h := Inconsistency(Flat(GatheredBy(walk)));
      FamilyOfWalk(walk, f);
      FamilyOfWalk(walk, h);
      var a :| a in walk && f in a.gathered;
      var b :| b in walk && h in b.gathered;
      assert Exposes(g, root, a, f) && Exposes(g, root, b, h);
    }
  }

  lemma ClashIsInconsistent(fs: seq<Family>, f: Family, h: Family)
    requires f in fs && h in fs && Clash(f, h)
    ensures !Consistent(fs)
  {
  }

  lemma Inconsistency(fs: seq<Family>) returns (f: Family, h: Family)
    requires !Consistent(fs)
    ensures f in fs && h in fs && Clash(f, h)
  {
    f, h :| f in fs && h in fs && Clash(f, h);
  }

  method CollectGathered(walk: seq<MetricsRegistry>) returns (r: seq<seq<Family>>)
    ensures r == GatheredBy(walk)
  {
    r := [];
    for i := 0 to |walk|
      invariant r == GatheredBy(walk[..i])
    {
      assert walk[..i + 1][..i] == walk[..i];
      r := r + [walk[i].gathered];
    }
    assert walk[..|walk|] == walk;
  }

  predicate SameHeader(f: Family, h: Family) {
    f.name == h.name && f.help == h.help && f.kind == h.kind
  }

  /** `out` has a family with the name, help and type of every family that a reachable registry exposes,
      and no other. */
  ghost predicate HeadersExposed(g: Graph, root: MetricsRegistry, out: seq<Family>)
    reads g.Keys
  {
    && (forall f :: f in out ==> exists x, h :: x in g && Exposes(g, root, x, h) && SameHeader(f, h))
    && (forall x, h :: x in g && Exposes(g, root, x, h) ==> exists f :: f in out && SameHeader(f, h))
  }

  /** Every exposed sample has a bar-free family name and labels that embed nothing like a further label. */
  ghost predicate PlainGraph(g: Graph)
    reads g.Keys
  {
    forall x, h, m :: x in g && h in x.gathered && m in h.metrics ==> PlainSample(Sample(h.name, m))
  }

  /** One sample per series: every series that a reachable registry exposes is in `out`, none is there
      twice, and what is there is the first sample of its series in the order of `regs`. */
  ghost predicate SeriesKept(g: Graph, root: MetricsRegistry, out: seq<Family>, regs: seq<seq<Family>>)
    reads g.Keys
  {
    && (forall x, h, m :: x in g && Exposes(g, root, x, h) && m in h.metrics ==> HasSeries(out, Sample(h.name, m)))
    && (forall f, i, j :: f in out && 0 <= i < j < |f.metrics| ==>
          multiset(f.metrics[i].labels) != multiset(f.metrics[j].labels))
    && (forall f :: f in out ==> exists ps :: KeptFrom(regs, f, ps))
  }

  ghost predicate HasSeries(out: seq<Family>, s: Sample) {
    exists f, i :: f in out && 0 <= i < |f.metrics| && SameSeries(Sample(f.name, f.metrics[i]), s)
  }

  /** The scrape fails exactly when two reachable registries disagree about a family.  Otherwise it
      returns one family per name that a reachable registry exposes, with its help and type, in
      strictly ascending order of names; a family holds a sample exactly if that sample is the first
      with its key in walk order; and no family is empty if no gathered one is.  If label values embed
      nothing that reads like a further label, there is exactly one sample of every exposed series, the
      first one in walk order. */
  method CombinedFamilies(root: MetricsRegistry, ghost g: Graph) returns (r: Option<seq<Family>>)
    requires Snapshot(g) && root in g
    ensures r.None? <==> Conflict(g, root)
    ensures r.Some? ==>
              var samples := Samples(Flat(GatheredBy(StackWalk(g, [root], []))));
              && Ascending(r.value)
              && DistinctKeys(Firsts(samples))
              && (forall f :: f in r.value ==> f.metrics == OfName(Firsts(samples), f.name))
              && (forall s :: s in Firsts(samples) ==> exists f :: f in r.value && f.name == s.name)
    ensures r.Some? ==> HeadersExposed(g, root, r.value)
    ensures r.Some? && PlainGraph(g) ==> SeriesKept(g, root, r.value, GatheredBy(StackWalk(g, [root], [])))
    ensures r.Some? && (forall x, f :: x in g && f in x.gathered ==> f.metrics != [] && '|' !in f.name) ==>
              forall f :: f in r.value ==> f.metrics != []
  {
    hide Reaches, Conflict, StackWalk, Consistent, Samples, Firsts, OfName, Flat, Keys, DistinctKeys, IsMergeOf, Ascending;
    hide FoundThroughParent, Distinct, HeadersExposed, PlainGraph, SeriesKept;
    var walk := RegistriesForCombinedScrape(root, g);
    ReachableInGraph(g, root, walk);
    var families := CollectGathered(walk);
    ConsistentIffNoConflict(g, root, walk);
    var merged := Merge(families);
    if merged.None? {
      return None;
    }
    ghost var fs := Flat(families);
    NamesMatch(merged.value, fs);
    var out := IntoValues(merged.value);
    FirstsHaveDistinctKeys(Samples(fs));
    OutputFacts(merged.value, out, fs, g, walk);
    OutputHeaders(merged.value, out, fs, g, root, walk);
    if PlainGraph(g) {
      OutputSeries(out, fs, g, root, walk);
    }
    r := Some(out);
  }

  lemma NamesMatch(byName: map<string, Family>, fs: seq<Family>)
    requires IsMergeOf(byName, Keys(Samples(fs)), fs)
    ensures forall n :: n in byName ==> byName[n].name == n
  {
  }

  lemma ReachableInGraph(g: Graph, root: MetricsRegistry, walk: seq<MetricsRegistry>)
    requires forall r :: r in walk <==> Reaches(g, root, r)
    ensures forall r :: r in walk ==> r in g
  {
    forall r | r in walk
      ensures r in g
    {
      var n: nat :| Within(g, root, r, n);
    }
  }

  lemma OutputFacts(byName: map<string, Family>, out: seq<Family>, fs: seq<Family>, g: Graph, walk: seq<MetricsRegistry>)
    requires IsMergeOf(byName, Keys(Samples(fs)), fs)
    requires fs == Flat(GatheredBy(walk)) && forall r :: r in walk ==> r in g
    requires forall f :: f in out <==> f.name in byName && byName[f.name] == f
    ensures forall f :: f in out ==> f.metrics == OfName(Firsts(Samples(fs)), f.name)
    ensures forall s :: s in Firsts(Samples(fs)) ==> exists f :: f in out && f.name == s.name
    ensures (forall x, f :: x in g && f in x.gathered ==> f.metrics != [] && '|' !in f.name) ==>
              forall f :: f in out ==> f.metrics != []
  {
    hide KeyOf, Samples, Firsts, OfName, Flat, Keys;
    forall s | s in Firsts(Samples(fs))
      ensures exists f :: f in out && f.name == s.name
    {
      var i :| 0 <= i < |Firsts(Samples(fs))| && Firsts(Samples(fs))[i] == s;
      var k := FirstsAreFirst(Samples(fs), i);
      NamesOfSamples(fs, s);
      assert byName[s.name] in out;
    }
    if forall x, f :: x in g && f in x.gathered ==> f.metrics != [] && '|' !in f.name {
      forall f | f in fs
        ensures f.metrics != [] && '|' !in f.name
      {
        FamilyOfWalk(walk, f);
      }
      forall f | f in out
        ensures f.metrics != []
      {
        MergedFamiliesNonEmpty(byName, Keys(Samples(fs)), fs, f.name);
      }
    }
  }

  lemma OutputHeaders(byName: map<string, Family>, out: seq<Family>, fs: seq<Family>, g: Graph,
                      root: MetricsRegistry, walk: seq<MetricsRegistry>)
    requires IsMergeOf(byName, Keys(Samples(fs)), fs) && fs == Flat(GatheredBy(walk))
    requires forall r :: r in walk ==> r in g
    requires forall r :: r in g ==> (r in walk <==> Reaches(g, root, r))
    requires forall f :: f in out <==> f.name in byName && byName[f.name] == f
    ensures HeadersExposed(g, root, out)
  {
    hide Contents, Samples, Keys, Flat, Reaches;
    forall f | f in out
      ensures exists x, h :: x in g && Exposes(g, root, x, h) && SameHeader(f, h)
    {
      var h :| h in fs && h.name == f.name;
      FamilyOfWalk(walk, h);
      var x :| x in walk && h in x.gathered;
      assert Exposes(g, root, x, h) && SameHeader(f, h);
    }
    forall x, h | x in g && Exposes(g, root, x, h)
      ensures exists f :: f in out && SameHeader(f, h)
    {
      FamilyOfWalk(walk, h);
      assert byName[h.name] in out && SameHeader(byName[h.name], h);
    }
  }

  lemma PlainWalk(g: Graph, walk: seq<MetricsRegistry>)
    requires PlainGraph(g) && forall r :: r in walk ==> r in g
    ensures PlainPlaces(GatheredBy(walk))
  {
    hide PlainSample;
    var regs := GatheredBy(walk);
    forall a | IsPlace(regs, a)
      ensures PlainSample(At(regs, a))
    {
      var x, h := walk[a.registry], regs[a.registry][a.family];
      assert x in walk && h in x.gathered && h.metrics[a.metric] in h.metrics;
    }
  }

  lemma PlaceInWalk(walk: seq<MetricsRegistry>, x: MetricsRegistry, h: Family, m: Metric) returns (a: Place)
    requires x in walk && h in x.gathered && m in h.metrics
    ensures IsPlace(GatheredBy(walk), a) && At(GatheredBy(walk), a) == Sample(h.name, m)
  {
    var i :| 0 <= i < |walk| && walk[i] == x;
    var j :| 0 <= j < |x.gathered| && x.gathered[j] == h;
    var k :| 0 <= k < |h.metrics| && h.metrics[k] == m;
    a := Place(i, j, k);
  }

  lemma OutputSeries(out: seq<Family>, fs: seq<Family>, g: Graph, root: MetricsRegistry, walk: seq<MetricsRegistry>)
    requires fs == Flat(GatheredBy(walk)) && PlainGraph(g) && HeadersExposed(g, root, out)
    requires forall r :: r in walk ==> r in g
    requires forall r :: r in g ==> (r in walk <==> Reaches(g, root, r))
    requires forall f :: f in out ==> f.metrics == OfName(Firsts(Samples(fs)), f.name)
    ensures SeriesKept(g, root, out, GatheredBy(walk))
  {
    hide PlainGraph, Flat, Samples, Firsts, OfName, Reaches, KeptFrom, PlainPlaces, SameSeries, IsPlace, At;
    var regs := GatheredBy(walk);
    PlainWalk(g, walk);
    forall f | f in out
      ensures exists ps :: KeptFrom(regs, f, ps)
    {
      var ps := KeptByPlace(regs, f);
    }
    forall f, i, j | f in out && 0 <= i < j < |f.metrics|
      ensures multiset(f.metrics[i].labels) != multiset(f.metrics[j].labels)
    {
      var ps := KeptByPlace(regs, f);
      KeptAreDifferent(regs, f, ps, i, j);
    }
    forall x, h, m | x in g && Exposes(g, root, x, h) && m in h.metrics
      ensures HasSeries(out, Sample(h.name, m))
    {
      var a := PlaceInWalk(walk, x, h, m);
      var f :| f in out && SameHeader(f, h);
      var ps := KeptByPlace(regs, f);
      var i := EverySeriesKept(regs, f, ps, a);
    }
  }
}
