/** The tree (in general: graph) of metric registries and the walk that collects it for one scrape
    (lib/runtime/src/metrics.rs).  Registries are identified by their object, as the source
    identifies them by the pointer to the underlying Prometheus registry. */
module MetricsGraph {
  import opened Wrappers
  import opened MetricsMerge

  class MetricsRegistry {
    var childRegistries: seq<MetricsRegistry>
    /** What the underlying Prometheus registry gathers. */
    var gathered: seq<Family>

    constructor ()
      ensures childRegistries == [] && gathered == []
    {
      childRegistries, gathered := [], [];
    }

    /** Adding a child again, also through a clone, changes nothing. */
    method AddChildRegistry(child: MetricsRegistry)
      requires Distinct(childRegistries)
      modifies this`childRegistries
      ensures Distinct(childRegistries)
      ensures childRegistries == if child in old(childRegistries) then old(childRegistries)
                                 else old(childRegistries) + [child]
    {
      if child !in childRegistries {
        childRegistries := childRegistries + [child];
      }
    }
  }

  type Graph = map<MetricsRegistry, seq<MetricsRegistry>>

  /** `g` records the children of finitely many registries and mentions no others. */
  ghost predicate Snapshot(g: Graph)
    reads g.Keys
  {
    && (forall r :: r in g ==> r.childRegistries == g[r])
    && (forall r :: r in g ==> forall c :: c in g[r] ==> c in g)
  }

  ghost predicate Reaches(g: Graph, a: MetricsRegistry, b: MetricsRegistry) {
    exists n: nat :: Within(g, a, b, n)
  }

  /** `b` is at most `n` child links away from `a`. */
  ghost predicate Within(g: Graph, a: MetricsRegistry, b: MetricsRegistry, n: nat) {
    a in g && b in g &&
    (a == b || (n > 0 && exists c :: c in g[a] && Within(g, c, b, n - 1)))
  }

  lemma ReachesSelf(g: Graph, a: MetricsRegistry)
    requires a in g
    ensures Reaches(g, a, a)
  {
    assert Within(g, a, a, 0);
  }

  lemma ReachesThroughChild(g: Graph, a: MetricsRegistry, c: MetricsRegistry, b: MetricsRegistry)
    requires a in g && c in g[a] && Reaches(g, c, b)
    ensures Reaches(g, a, b)
  {
    var n: nat :| Within(g, c, b, n);
    assert Within(g, a, b, n + 1);
  }

  /** A set that contains `a` and all children of its members contains all `a` reaches. */
  lemma {:induction false} ClosedContainsReachable(g: Graph, s: set<MetricsRegistry>, a: MetricsRegistry, b: MetricsRegistry, n: nat)
    requires a in s && Within(g, a, b, n)
    requires forall x :: x in s ==> x in g && forall c :: c in g[x] ==> c in s
    ensures b in s
  {
    if a != b {
      var c :| c in g[a] && Within(g, c, b, n - 1);
      ClosedContainsReachable(g, s, c, b, n - 1);
    }
  }

  /** Every registry after position `from` was found as a child of an earlier one. */
  ghost predicate FoundThroughParent(g: Graph, out: seq<MetricsRegistry>, from: nat) {
    forall i :: from < i < |out| ==> exists j :: from <= j < i && out[j] in g && out[i] in g[out[j]]
  }

  /** What a visit of `r` adds to `out`: registries not seen before, each once, all reached from
      `r`, and with them all their children. */
  ghost predicate Visited(g: Graph, r: MetricsRegistry, out: seq<MetricsRegistry>, out': seq<MetricsRegistry>) {
    && out <= out' && Distinct(out')
    && r in out'
    && (forall x :: x in out' ==> x in g)
    && (forall x :: x in out' && x !in out ==> Reaches(g, r, x))
    && (forall x, c :: x in out' && x !in out && c in g[x] ==> c in out')
    && (|out'| > |out| ==> out'[|out|] == r)
    && FoundThroughParent(g, out', |out|)
  }

  /** The walk with an explicit stack of registries still to visit: the reference for the order. */
  ghost function StackWalk(g: Graph, todo: seq<MetricsRegistry>, out: seq<MetricsRegistry>): seq<MetricsRegistry>
    decreases g.Keys - (set x | x in out), |todo|
  {
    if todo == [] then out
    else if todo[0] in out || todo[0] !in g then StackWalk(g, todo[1..], out)
    else
      assert todo[0] in g.Keys - (set x | x in out);
      StackWalk(g, g[todo[0]] + todo[1..], out + [todo[0]])
  }

  /** The state of a visit of `r` after its first `k` children. */
  ghost predicate Visiting(g: Graph, r: MetricsRegistry, out: seq<MetricsRegistry>, cur: seq<MetricsRegistry>, k: nat)
    requires r in g && k <= |g[r]|
  {
    && out + [r] <= cur && Distinct(cur)
    && (forall x :: x in cur ==> x in g)
    && (forall x :: x in cur && x !in out ==> Reaches(g, r, x))
    && (forall x, c :: x in cur && x !in out && x != r && c in g[x] ==> c in cur)
    && (forall i :: 0 <= i < k ==> g[r][i] in cur)
    && FoundThroughParent(g, cur, |out|)
  }

  lemma VisitingStarts(g: Graph, r: MetricsRegistry, out: seq<MetricsRegistry>)
    requires r in g && r !in out && Distinct(out) && forall x :: x in out ==> x in g
    ensures Visiting(g, r, out, out + [r], 0)
  {
    ReachesSelf(g, r);
  }

  lemma PrefixMembers(x: seq<MetricsRegistry>, y: seq<MetricsRegistry>)
    requires x <= y
    ensures forall r :: r in x ==> r in y
  {
    forall r | r in x
      ensures r in y
    {
      var i :| 0 <= i < |x| && x[i] == r;
      assert y[i] == r;
    }
  }

  lemma VisitingContinues(g: Graph, r: MetricsRegistry, out: seq<MetricsRegistry>, cur: seq<MetricsRegistry>,
                          next: seq<MetricsRegistry>, k: nat)
    requires r in g && k < |g[r]| && Visiting(g, r, out, cur, k)
    requires Visited(g, g[r][k], cur, next)
    ensures Visiting(g, r, out, next, k + 1)
  {
    hide Reaches, FoundThroughParent;
    PrefixMembers(cur, next);
    assert out + [r] <= next;
    forall x, c | x in next && x !in out && x != r && c in g[x]
      ensures c in next
    {
      if x in cur {
        assert c in cur;
      }
    }
    forall i | 0 <= i < k + 1
      ensures g[r][i] in next
    {
      if i < k {
        assert g[r][i] in cur;
      }
    }
    forall x | x in next && x !in out
      ensures Reaches(g, r, x)
    {
      if x !in cur {
        ReachesThroughChild(g, r, g[r][k], x);
      }
    }
    assert cur[|out|] == r;
    FoundThroughParentExtends(g, cur, next, |out|, g[r][k]);
  }

  lemma VisitingEnds(g: Graph, r: MetricsRegistry, out: seq<MetricsRegistry>, cur: seq<MetricsRegistry>)
    requires r in g && Visiting(g, r, out, cur, |g[r]|)
    ensures Visited(g, r, out, cur)
  {
    hide Reaches, FoundThroughParent;
    assert cur[|out|] == r;
  }

  lemma StackWalkEnters(g: Graph, r: MetricsRegistry, rest: seq<MetricsRegistry>, out: seq<MetricsRegistry>)
    requires r in g && r !in out
    ensures StackWalk(g, [r] + rest, out) == StackWalk(g, g[r][0..] + rest, out + [r])
  {
    assert ([r] + rest)[1..] == rest && g[r][0..] == g[r];
  }

  lemma AlreadyVisited(g: Graph, r: MetricsRegistry, rest: seq<MetricsRegistry>, out: seq<MetricsRegistry>)
    requires r in out && Distinct(out) && forall x :: x in out ==> x in g
    ensures Visited(g, r, out, out) && StackWalk(g, [r] + rest, out) == StackWalk(g, rest, out)
  {
    assert ([r] + rest)[1..] == rest;
    hide Reaches;
  }

  lemma VisitingFacts(g: Graph, r: MetricsRegistry, out: seq<MetricsRegistry>, cur: seq<MetricsRegistry>, k: nat)
    requires r in g && k <= |g[r]| && Visiting(g, r, out, cur, k)
    ensures Distinct(cur) && r in cur && (forall x :: x in cur ==> x in g) && (forall x :: x in out ==> x in cur)
  {
    hide Reaches, FoundThroughParent;
    PrefixMembers(out + [r], cur);
    assert r in out + [r];
  }

  /** `rest` is what a stack walk at this point would still have to visit after `r`. */
  method Visit(r: MetricsRegistry, out: seq<MetricsRegistry>, seen: set<MetricsRegistry>,
               ghost g: Graph, ghost rest: seq<MetricsRegistry>)
    returns (out': seq<MetricsRegistry>, seen': set<MetricsRegistry>)
    requires Snapshot(g) && r in g
    requires Distinct(out) && seen == (set x | x in out) && seen <= g.Keys
    ensures seen' == set x | x in out'
    ensures Visited(g, r, out, out')
    ensures StackWalk(g, [r] + rest, out) == StackWalk(g, rest, out')
    decreases g.Keys - seen
  {
    hide Reaches, FoundThroughParent, StackWalk, Visited, Visiting, Distinct;
    if r in seen {
      AlreadyVisited(g, r, rest, out);
      return out, seen;
    }
    out', seen' := out + [r], seen + {r};
    var children := r.childRegistries;
    VisitingStarts(g, r, out);
    StackWalkEnters(g, r, rest, out);
    for k := 0 to |children|
      invariant seen' == (set x | x in out')
      invariant Visiting(g, r, out, out', k)
      invariant StackWalk(g, [r] + rest, out) == StackWalk(g, children[k..] + rest, out')
    {
      ghost var before := out';
      VisitingFacts(g, r, out, out', k);
      assert r in seen' && seen < seen';
      assert children[k..] + rest == [children[k]] + (children[k + 1..] + rest);
      out', seen' := Visit(children[k], out', seen', g, children[k + 1..] + rest);
      VisitingContinues(g, r, out, before, out', k);
    }
    VisitingEnds(g, r, out, out');
    assert children[|children|..] + rest == rest;
  }

  lemma FoundThroughParentExtends(g: Graph, before: seq<MetricsRegistry>, after: seq<MetricsRegistry>, from: nat, child: MetricsRegistry)
    requires from < |before| && before <= after
    requires before[from] in g && child in g[before[from]]
    requires FoundThroughParent(g, before, from) && FoundThroughParent(g, after, |before|)
    requires |after| > |before| ==> after[|before|] == child
    ensures FoundThroughParent(g, after, from)
  {
    forall i | from < i < |after|
      ensures exists j :: from <= j < i && after[j] in g && after[i] in g[after[j]]
    {
      if i < |before| {
        var j :| from <= j < i && before[j] in g && before[i] in g[before[j]];
        assert after[j] == before[j] && after[i] == before[i];
      } else if i == |before| {
        assert after[from] == before[from];
      }
    }
  }

  /** The scrape walk ends on every graph, cyclic or not, and returns the root first and then exactly
      the registries reachable from it, each once and each after one of its parents, in the order of
      a depth-first walk that takes children first to last. */
  method RegistriesForCombinedScrape(root: MetricsRegistry, ghost g: Graph) returns (out: seq<MetricsRegistry>)
    requires Snapshot(g) && root in g
    ensures out != [] && out[0] == root && Distinct(out)
    ensures forall x :: x in out <==> Reaches(g, root, x)
    ensures FoundThroughParent(g, out, 0)
    ensures out == StackWalk(g, [root], [])
  {
    var seen;
    out, seen := Visit(root, [], {}, g, []);
    assert [root] + [] == [root];
    forall x | Reaches(g, root, x)
      ensures x in out
    {
      var n: nat :| Within(g, root, x, n);
      ClosedContainsReachable(g, seen, root, x, n);
    }
  }
}
