/** The order of the scrape walk without a stack (lib/runtime/src/metrics.rs): every registry comes right
    where a depth-first walk that takes children first to last puts it. */
module WalkOrder {
  import opened Wrappers
  import opened MetricsGraph

  /** Position `i` holds the first child not seen before of the latest registry that has such a child. */
  ghost predicate NextInWalk(g: Graph, out: seq<MetricsRegistry>, i: nat)
    requires 0 < i < |out|
  {
    exists j, k :: 0 <= j < i && out[j] in g && 0 <= k < |g[out[j]]| && ComesFrom(g, out[..i], out[i], j, k)
  }

  ghost predicate ComesFrom(g: Graph, before: seq<MetricsRegistry>, x: MetricsRegistry, j: nat, k: nat)
    requires j < |before| && before[j] in g && k < |g[before[j]]|
  {
    && g[before[j]][k] == x && x !in before
    && (forall q :: 0 <= q < k ==> g[before[j]][q] in before)
    && (forall m :: j < m < |before| ==> before[m] in g && forall c :: c in g[before[m]] ==> c in before)
  }

  ghost predicate InOrder(g: Graph, out: seq<MetricsRegistry>) {
    forall i :: 0 < i < |out| ==> NextInWalk(g, out, i)
  }

  /** What is left to visit, latest registry first, after `cuts[j]` children of the `j`-th one. */
  ghost function Todo(g: Graph, out: seq<MetricsRegistry>, cuts: seq<nat>): seq<MetricsRegistry>
    requires Cut(g, out, cuts)
    decreases |out|
  {
    if out == [] then []
    else
      var n := |out| - 1;
      g[out[n]][cuts[n]..] + Todo(g, out[..n], cuts[..n])
  }

  ghost predicate Cut(g: Graph, out: seq<MetricsRegistry>, cuts: seq<nat>) {
    |cuts| == |out| && forall j :: 0 <= j < |out| ==> out[j] in g && cuts[j] <= |g[out[j]]|
  }

  /** All children in front of the cuts have been visited. */
  ghost predicate Done(g: Graph, out: seq<MetricsRegistry>, cuts: seq<nat>)
    requires Cut(g, out, cuts)
  {
    forall j, q :: 0 <= j < |out| && 0 <= q < cuts[j] ==> g[out[j]][q] in out
  }

  /** The top of the stack is the next child of the latest registry that has children left. */
  lemma {:induction false} TopOf(g: Graph, out: seq<MetricsRegistry>, cuts: seq<nat>) returns (j: nat)
    requires Cut(g, out, cuts) && Todo(g, out, cuts) != []
    ensures j < |out| && cuts[j] < |g[out[j]]| && Todo(g, out, cuts)[0] == g[out[j]][cuts[j]]
    ensures forall m :: j < m < |out| ==> cuts[m] == |g[out[m]]|
    ensures Cut(g, out, cuts[j := cuts[j] + 1]) && Todo(g, out, cuts[j := cuts[j] + 1]) == Todo(g, out, cuts)[1..]
    decreases |out|
  {
    var n := |out| - 1;
    if cuts[n] < |g[out[n]]| {
      j := n;
      assert cuts[n := cuts[n] + 1][..n] == cuts[..n];
    } else {
      assert g[out[n]][cuts[n]..] == [];
      j := TopOf(g, out[..n], cuts[..n]);
      assert cuts[j := cuts[j] + 1][..n] == cuts[..n][j := cuts[..n][j] + 1];
    }
  }

  lemma OrderStays(g: Graph, out: seq<MetricsRegistry>, x: MetricsRegistry, j: nat, k: nat)
    requires InOrder(g, out) && j < |out| && out[j] in g && k < |g[out[j]]| && ComesFrom(g, out, x, j, k)
    ensures InOrder(g, out + [x])
  {
    hide ComesFrom;
    var longer := out + [x];
    forall i | 0 < i < |longer|
      ensures NextInWalk(g, longer, i)
    {
      if i < |out| {
        assert NextInWalk(g, out, i);
        assert longer[..i] == out[..i] && longer[i] == out[i];
        var p, q :| 0 <= p < i && out[p] in g && 0 <= q < |g[out[p]]| && ComesFrom(g, out[..i], out[i], p, q);
        assert longer[p] == out[p];
      } else {
        assert longer[..i] == out && longer[i] == x && longer[j] == out[j];
      }
    }
  }

  lemma Entered(g: Graph, out: seq<MetricsRegistry>, cuts: seq<nat>, x: MetricsRegistry)
    requires Cut(g, out, cuts) && Done(g, out, cuts) && x in g
    ensures Cut(g, out + [x], cuts + [0]) && Done(g, out + [x], cuts + [0])
    ensures Todo(g, out + [x], cuts + [0]) == g[x] + Todo(g, out, cuts)
  {
    assert (out + [x])[..|out|] == out && (cuts + [0])[..|cuts|] == cuts;
    assert g[x][0..] == g[x];
  }

  lemma {:induction false} WalkInOrder(g: Graph, todo: seq<MetricsRegistry>, out: seq<MetricsRegistry>, cuts: seq<nat>)
    requires forall r, c :: r in g && c in g[r] ==> c in g
    requires Cut(g, out, cuts) && Done(g, out, cuts) && todo == Todo(g, out, cuts) && InOrder(g, out)
    ensures InOrder(g, StackWalk(g, todo, out))
    decreases g.Keys - (set x | x in out), |todo|
  {
    hide InOrder, Todo;
    if todo != [] {
      var j := TopOf(g, out, cuts);
      var x, next := todo[0], cuts[j := cuts[j] + 1];
      assert x in g[out[j]];
      if x in out {
        WalkInOrder(g, todo[1..], out, next);
      } else {
        assert ComesFrom(g, out, x, j, cuts[j]) by { FullyDone(g, out, cuts, j); }
        OrderStays(g, out, x, j, cuts[j]);
        EnteredNext(g, out, cuts, j, x);
        assert x in g.Keys - (set y | y in out);
        WalkInOrder(g, g[x] + todo[1..], out + [x], next + [0]);
      }
    }
  }

  lemma FullyDone(g: Graph, out: seq<MetricsRegistry>, cuts: seq<nat>, j: nat)
    requires Cut(g, out, cuts) && Done(g, out, cuts) && j < |out|
    requires forall m :: j < m < |out| ==> cuts[m] == |g[out[m]]|
    ensures forall m :: j < m < |out| ==> out[m] in g && forall c :: c in g[out[m]] ==> c in out
    ensures forall q :: 0 <= q < cuts[j] ==> g[out[j]][q] in out
  {
    forall m, c | j < m < |out| && c in g[out[m]]
      ensures c in out
    {
      var q :| 0 <= q < |g[out[m]]| && g[out[m]][q] == c;
    }
  }

  lemma EnteredNext(g: Graph, out: seq<MetricsRegistry>, cuts: seq<nat>, j: nat, x: MetricsRegistry)
    requires Cut(g, out, cuts) && Done(g, out, cuts) && x in g
    requires j < |out| && cuts[j] < |g[out[j]]| && g[out[j]][cuts[j]] == x
    ensures var next := cuts[j := cuts[j] + 1];
            && Cut(g, out, next) && Cut(g, out + [x], next + [0]) && Done(g, out + [x], next + [0])
            && Todo(g, out + [x], next + [0]) == g[x] + Todo(g, out, next)
  {
    var next := cuts[j := cuts[j] + 1];
    assert (out + [x])[..|out|] == out && (next + [0])[..|next|] == next;
    assert g[x][0..] == g[x];
    hide Todo;
    var all := out + [x];
    forall p, q | 0 <= p < |all| && 0 <= q < (next + [0])[p]
      ensures g[all[p]][q] in all
    {
      if p == j && q == cuts[j] {
        assert all[|out|] == x;
      } else {
        assert g[out[p]][q] in out;
      }
    }
  }

  /** The whole scrape walk is in order. */
  lemma ScrapeWalkInOrder(g: Graph, root: MetricsRegistry)
    requires Snapshot(g) && root in g
    ensures InOrder(g, StackWalk(g, [root], []))
  {
    var none: seq<MetricsRegistry> := [];
    StackWalkEnters(g, root, none, none);
    assert [root] + none == [root] && g[root][0..] + none == g[root] && none + [root] == [root];
    Entered(g, none, [], root);
    assert [] + [0] == [0];
    WalkInOrder(g, g[root], [root], [0]);
  }
}
