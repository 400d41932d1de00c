/** Several requests on one cache (lib/mocker/src/kv_cache/local_vllm_cache.rs): their signals arrive interleaved in any
    order, and with prefix caching they name the same blocks. */
module SharedCache {
  import opened Wrappers
  import opened SequenceModel
  import opened Driver

  /** A signal and the number of the request that sent it. */
  type Tagged = (nat, MoveBlock)

  function Signals(mix: seq<Tagged>): seq<MoveBlock> {
    if mix == [] then [] else Signals(mix[..|mix| - 1]) + [mix[|mix| - 1].1]
  }

  /** The signals of request `q`, in order. */
  function SentBy(mix: seq<Tagged>, q: nat): seq<MoveBlock> {
    if mix == [] then []
    else
      var last := mix[|mix| - 1];
      SentBy(mix[..|mix| - 1], q) + (if last.0 == q then [last.1] else [])
  }

  /** What request `q` holds if its signals are taken alone. */
  function Own(mix: seq<Tagged>, q: nat): multiset<UniqueBlock> {
    match Ledger(multiset{}, SentBy(mix, q)) case None => multiset{} case Some(h) => h
  }

  /** What the requests below `n` hold together. */
  function Total(mix: seq<Tagged>, n: nat): multiset<UniqueBlock> {
    if n == 0 then multiset{} else Total(mix, n - 1) + Own(mix, n - 1)
  }

  lemma {:induction false} TotalUnchanged(x: seq<Tagged>, y: seq<Tagged>, n: nat)
    requires forall p :: 0 <= p < n ==> Own(x, p) == Own(y, p)
    ensures Total(x, n) == Total(y, n)
  {
    hide Own;
    if n > 0 {
      TotalUnchanged(x, y, n - 1);
    }
  }

  /** If only the holding of request `q` differs, the totals differ by as much. */
  lemma {:induction false} TotalUpdated(x: seq<Tagged>, y: seq<Tagged>, q: nat, n: nat)
    requires q < n && forall p :: 0 <= p < n && p != q ==> Own(x, p) == Own(y, p)
    ensures Total(y, n) + Own(x, q) == Total(x, n) + Own(y, q)
    ensures Own(x, q) <= Total(x, n)
  {
    hide Own;
    if q == n - 1 {
      TotalUnchanged(x, y, n - 1);
    } else {
      TotalUpdated(x, y, q, n - 1);
      AddSame(Total(y, n - 1), Own(x, q), Total(x, n - 1), Own(y, q), Own(x, n - 1));
    }
  }

  lemma AddSame(a: multiset<UniqueBlock>, b: multiset<UniqueBlock>, c: multiset<UniqueBlock>,
                d: multiset<UniqueBlock>, e: multiset<UniqueBlock>)
    requires a + b == c + d && b <= c
    ensures (a + e) + b == (c + e) + d && b <= c + e
  {
    assert (a + e) + b == (a + b) + e;
    assert (c + e) + d == (c + d) + e;
  }

  lemma {:induction false} LedgerSnoc(held: multiset<UniqueBlock>, ms: seq<MoveBlock>, m: MoveBlock)
    ensures Ledger(held, ms + [m]) ==
            match Ledger(held, ms) case None => None case Some(h) => LedgerOne(h, m)
    decreases |ms|
  {
    if ms == [] {
      assert ([] + [m])[1..] == [] && ([] + [m])[0] == m;
    } else {
      assert (ms + [m])[1..] == ms[1..] + [m];
      match LedgerOne(held, ms[0])
      case None =>
      case Some(h) => LedgerSnoc(h, ms[1..], m);
    }
  }

  lemma FrameAdd(mine: multiset<UniqueBlock>, all: multiset<UniqueBlock>, x: multiset<UniqueBlock>)
    ensures (all + x) + mine == (mine + x) + all
  {
  }

  lemma FrameSub(mine: multiset<UniqueBlock>, all: multiset<UniqueBlock>, x: multiset<UniqueBlock>)
    requires x <= mine <= all
    ensures x <= all && (all - x) + mine == (mine - x) + all && mine - x <= all - x
  {
  }

  /** What others hold as well does not change the effect of a signal. */
  lemma LedgerFrame(mine: multiset<UniqueBlock>, all: multiset<UniqueBlock>, m: MoveBlock)
    requires mine <= all && LedgerOne(mine, m).Some?
    ensures LedgerOne(all, m).Some?
    ensures LedgerOne(all, m).value + mine == LedgerOne(mine, m).value + all
  {
    match m
    case Use(blocks, _, _, _, _) => FrameAdd(mine, all, multiset(blocks));
    case Deref(freed) => FrameSub(mine, all, multiset(freed));
    case Promote(uuid, hash, _, _, _, _) => PromoteFrame(mine, all, PartialBlock(uuid), FullBlock(hash));
  }

  lemma PromoteFrame(mine: multiset<UniqueBlock>, all: multiset<UniqueBlock>, x: UniqueBlock, y: UniqueBlock)
    requires x in mine && mine <= all
    ensures x in all
    ensures (all - multiset{x} + multiset{y}) + mine == (mine - multiset{x} + multiset{y}) + all
  {
    FrameSub(mine, all, multiset{x});
    assert (all - multiset{x} + multiset{y}) + mine == ((all - multiset{x}) + mine) + multiset{y};
    assert (mine - multiset{x} + multiset{y}) + all == ((mine - multiset{x}) + all) + multiset{y};
  }

  /** Every request on its own keeps within what it holds. */
  ghost predicate EachAccepted(mix: seq<Tagged>, n: nat) {
    && (forall i :: 0 <= i < |mix| ==> mix[i].0 < n)
    && (forall q :: 0 <= q < n ==> Ledger(multiset{}, SentBy(mix, q)).Some?)
  }

  lemma {:induction false} NothingSent(n: nat)
    ensures Total([], n) == multiset{}
  {
    if n > 0 {
      NothingSent(n - 1);
    }
  }

  lemma FirstPart(mix: seq<Tagged>, n: nat, p: nat)
    requires EachAccepted(mix, n) && mix != [] && p < n
    ensures var first, q, m := mix[..|mix| - 1], mix[|mix| - 1].0, mix[|mix| - 1].1;
            && Ledger(multiset{}, SentBy(first, p)).Some?
            && (p != q ==> Own(mix, p) == Own(first, p))
            && (p == q ==> LedgerOne(Own(first, p), m) == Some(Own(mix, p)))
  {
    hide LedgerOne;
    var first, m := mix[..|mix| - 1], mix[|mix| - 1].1;
    assert SentBy(first, p) + [] == SentBy(first, p);
    LedgerSnoc(multiset{}, SentBy(first, p), m);
    assert Ledger(multiset{}, SentBy(mix, p)).Some?;
    hide Ledger;
  }

  /** Any interleaving of streams that are accepted one by one is accepted, and the ledger then holds
      what they hold together. */
  lemma {:induction false} MixAccepted(mix: seq<Tagged>, n: nat)
    requires EachAccepted(mix, n)
    ensures Ledger(multiset{}, Signals(mix)) == Some(Total(mix, n))
  {
    if mix == [] {
      NothingSent(n);
    } else {
      hide Ledger, LedgerOne, Total, SentBy, Own;
      var first, q, m := mix[..|mix| - 1], mix[|mix| - 1].0, mix[|mix| - 1].1;
      forall p | 0 <= p < n
        ensures Ledger(multiset{}, SentBy(first, p)).Some?
        ensures p != q ==> Own(first, p) == Own(mix, p)
      {
        FirstPart(mix, n, p);
      }
      FirstPart(mix, n, q);
      MixAccepted(first, n);
      LedgerSnoc(multiset{}, Signals(first), m);
      TotalUpdated(first, mix, q, n);
      LedgerFrame(Own(first, q), Total(first, n), m);
      SameSum(LedgerOne(Total(first, n), m).value, Total(mix, n), Own(first, q));
    }
  }

  lemma SameSum(x: multiset<UniqueBlock>, y: multiset<UniqueBlock>, z: multiset<UniqueBlock>)
    requires x + z == y + z
    ensures x == y
  {
    assert x == (x + z) - z && y == (y + z) - z;
  }

  // ----- scheduler runs on one cache

  /** A request in the middle of a run: its run so far, and the state it is in. */
  datatype Request = Request(config: Config, prompt: seq<Token>, states: seq<DriverState>, ops: seq<Op>)

  ghost predicate Running(q: Request) {
    IsRun(q.config, q.prompt, q.states, q.ops)
  }

  ghost function Now(q: Request): DriverState
    requires Running(q)
  {
    q.states[|q.states| - 1]
  }

  /** The blocks a request has allocated. */
  ghost function Chain(q: Request): seq<UniqueBlock>
    requires Running(q)
  {
    var s := Now(q).sequence;
    if Now(q).live then s.blocks[..Covered(q.config, s, s.numAllocated)] else []
  }

  /** The blocks of several requests together, each as often as requests have it allocated. */
  ghost function Chains(qs: seq<Request>): multiset<UniqueBlock>
    requires forall q :: q in qs ==> Running(q)
  {
    if qs == [] then multiset{} else Chains(qs[..|qs| - 1]) + multiset(Chain(qs[|qs| - 1]))
  }

  /** The requests are in the middle of runs, and `mix` interleaves all they have sent so far. */
  ghost predicate Interleaves(qs: seq<Request>, mix: seq<Tagged>) {
    && (forall q :: q in qs ==> Running(q))
    && (forall i :: 0 <= i < |mix| ==> mix[i].0 < |qs|)
    && (forall i :: 0 <= i < |qs| ==> SentBy(mix, i) == Now(qs[i]).sent)
  }

  lemma RunHolds(qs: seq<Request>, mix: seq<Tagged>, i: nat)
    requires Interleaves(qs, mix) && i < |qs|
    ensures Ledger(multiset{}, SentBy(mix, i)) == Some(multiset(Chain(qs[i])))
  {
    hide SentBy;
    var q := qs[i];
    assert Running(q);
    RunConservesBlocks(q.config, q.prompt, q.states, q.ops, |q.states| - 1);
    hide Ledger, Held;
  }

  lemma {:induction false} TotalIsChains(qs: seq<Request>, mix: seq<Tagged>, n: nat)
    requires Interleaves(qs, mix) && n <= |qs|
    ensures Total(mix, n) == Chains(qs[..n])
  {
    hide Ledger, SentBy, Chain;
    if n > 0 {
      RunHolds(qs, mix, n - 1);
      TotalIsChains(qs, mix, n - 1);
      assert qs[..n][..n - 1] == qs[..n - 1];
    }
  }

  /** No leak and no double free on a shared cache: however the signals of any number of scheduler runs
      are interleaved, a reference-counting consumer refuses none of them and holds, for every block,
      exactly as many references as requests have it allocated. */
  lemma SharedCacheConserves(qs: seq<Request>, mix: seq<Tagged>)
    requires Interleaves(qs, mix)
    ensures Ledger(multiset{}, Signals(mix)) == Some(Chains(qs))
  {
    hide Ledger, SentBy, Total, Signals, Chain, Chains;
    forall i | 0 <= i < |qs|
      ensures Ledger(multiset{}, SentBy(mix, i)).Some?
    {
      RunHolds(qs, mix, i);
    }
    MixAccepted(mix, |qs|);
    TotalIsChains(qs, mix, |qs|);
    assert qs[..|qs|] == qs;
  }

  lemma {:induction false} ChainsContain(qs: seq<Request>, i: nat)
    requires (forall q :: q in qs ==> Running(q)) && i < |qs|
    ensures multiset(Chain(qs[i])) <= Chains(qs)
  {
    hide Chain, Running;
    if i < |qs| - 1 {
      ChainsContain(qs[..|qs| - 1], i);
    }
  }

  /** A block that one request has allocated stays held, whatever the other requests release. */
  lemma SharedBlockIsKept(qs: seq<Request>, mix: seq<Tagged>, i: nat, b: UniqueBlock)
    requires Interleaves(qs, mix) && i < |qs| && b in Chain(qs[i])
    ensures Ledger(multiset{}, Signals(mix)).Some? && b in Ledger(multiset{}, Signals(mix)).value
  {
    hide Ledger, Chain, SentBy, Signals, Chains;
    SharedCacheConserves(qs, mix);
    ChainsContain(qs, i);
    assert b in multiset(Chain(qs[i]));
  }
}
