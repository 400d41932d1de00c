/** Allocating a prompt chunk by chunk asks for the same blocks as allocating it at once
    (lib/mocker/src/common/sequence.rs, `allocate_blocks_for_chunk` and `take_creation_signal`). */
module Chunking {
  import opened Wrappers
  import opened BlockMath
  import opened SequenceModel

  /** The content of a run of `Use` signals, field by field. */
  datatype Payload = Payload(blocks: seq<UniqueBlock>, hashes: seq<Hash>, plhs: seq<Lineage>,
                             tokenIds: seq<seq<Token>>)

  function Joined(x: Payload, y: Payload): Payload {
    Payload(x.blocks + y.blocks, x.hashes + y.hashes, x.plhs + y.plhs, x.tokenIds + y.tokenIds)
  }

  const EMPTY: Payload := Payload([], [], [], [])

  function Content(m: MoveBlock): Payload
    requires m.Use?
  {
    Payload(m.blocks, m.hashes, m.plhs, if m.tokenIds.None? then [] else m.tokenIds.value)
  }

  function Merged(ms: seq<MoveBlock>): Payload
    requires forall i :: 0 <= i < |ms| ==> ms[i].Use?
  {
    if ms == [] then EMPTY else Joined(Content(ms[0]), Merged(ms[1..]))
  }

  lemma JoinedEmpty(x: Payload)
    ensures Joined(x, EMPTY) == x && Joined(EMPTY, x) == x
  {
    assert x.blocks + [] == x.blocks && x.hashes + [] == x.hashes;
    assert x.plhs + [] == x.plhs && x.tokenIds + [] == x.tokenIds;
  }

  /** Every signal names the last block of the one before it; the first one names `parent`. */
  ghost predicate Chained(ms: seq<MoveBlock>, parent: Option<UniqueBlock>) {
    ms != [] ==>
      && ms[0].Use? && ms[0].useParent == parent && ms[0].blocks != []
      && Chained(ms[1..], Some(ms[0].blocks[|ms[0].blocks| - 1]))
  }

  /** The signals of one `allocate_blocks_for_chunk`: at most one. */
  function ChunkSignal(c: Config, s: SeqState, target: nat): (ms: seq<MoveBlock>)
    requires c.blockSize > 0 && |s.plhs| == |s.blockHashes|
    ensures |ms| <= 1 && forall i :: 0 <= i < |ms| ==> ms[i].Use?
  {
    var signal := Prepared(c, s, target);
    if signal.None? then [] else [signal.value]
  }

  /** The signals of allocating up to each of `targets` in turn. */
  function ChunkSignals(c: Config, s: SeqState, targets: seq<nat>): (ms: seq<MoveBlock>)
    requires c.blockSize > 0 && |s.plhs| == |s.blockHashes|
    ensures forall i :: 0 <= i < |ms| ==> ms[i].Use?
    decreases |targets|
  {
    if targets == [] then []
    else ChunkSignal(c, s, targets[0]) + ChunkSignals(c, Committed(s, targets[0]), targets[1..])
  }

  /** The part of the chain from block `lo` to block `hi`. */
  function Slice(c: Config, s: SeqState, lo: nat, hi: nat): Payload
    requires lo <= hi <= |s.blocks| && |s.plhs| == |s.blockHashes|
  {
    var k := |s.blockHashes|;
    Payload(s.blocks[lo..hi], s.blockHashes[Min(lo, k)..Min(hi, k)], s.plhs[Min(lo, k)..Min(hi, k)],
            if c.emitTokenIds then TokenIdsOf(c, s, Min(lo, k), Min(hi, k)) else [])
  }

  function ParentAt(s: SeqState, i: nat): Option<UniqueBlock>
    requires i <= |s.blocks|
  {
    if i == 0 then None else Some(s.blocks[i - 1])
  }

  ghost predicate Ascending(targets: seq<nat>) {
    forall i, j :: 0 <= i <= j < |targets| ==> targets[i] <= targets[j]
  }

  lemma SlicesJoin(c: Config, s: SeqState, lo: nat, mid: nat, hi: nat)
    requires lo <= mid <= hi <= |s.blocks| && |s.plhs| == |s.blockHashes|
    ensures Joined(Slice(c, s, lo, mid), Slice(c, s, mid, hi)) == Slice(c, s, lo, hi)
  {
    var k := |s.blockHashes|;
    var l, m, h := Min(lo, k), Min(mid, k), Min(hi, k);
    assert s.blocks[lo..mid] + s.blocks[mid..hi] == s.blocks[lo..hi];
    assert s.blockHashes[l..m] + s.blockHashes[m..h] == s.blockHashes[l..h];
    assert s.plhs[l..m] + s.plhs[m..h] == s.plhs[l..h];
    assert TokenIdsOf(c, s, l, m) + TokenIdsOf(c, s, m, h) == TokenIdsOf(c, s, l, h);
  }

  lemma MergedCons(ms: seq<MoveBlock>, ns: seq<MoveBlock>)
    requires |ms| <= 1
    requires forall i :: 0 <= i < |ms| ==> ms[i].Use?
    requires forall i :: 0 <= i < |ns| ==> ns[i].Use?
    ensures Merged(ms + ns) == Joined(Merged(ms), Merged(ns))
  {
    hide Joined, Content;
    if ms == [] {
      assert ms + ns == ns;
      JoinedEmpty(Merged(ns));
    } else {
      assert (ms + ns)[1..] == ns && ms[1..] == [];
      JoinedEmpty(Content(ms[0]));
    }
  }

  lemma OneChunk(c: Config, s: SeqState, target: nat)
    requires c.blockSize > 0 && |s.plhs| == |s.blockHashes| && s.numAllocated <= target
    ensures var lo, hi, ms := Covered(c, s, s.numAllocated), Covered(c, s, target), ChunkSignal(c, s, target);
            && lo <= hi
            && Merged(ms) == Slice(c, s, lo, hi)
            && (ms == [] <==> lo == hi)
            && (ms != [] ==> ms[0].useParent == ParentAt(s, lo) && ms[0].blocks == s.blocks[lo..hi])
  {
    CeilDivMonotone(s.numAllocated, target, c.blockSize);
    var ms := ChunkSignal(c, s, target);
    var lo, k := Covered(c, s, s.numAllocated), |s.blockHashes|;
    assert TokenIdsOf(c, s, Min(lo, k), Min(lo, k)) == [];
    if ms != [] {
      assert ms[1..] == [];
      JoinedEmpty(Content(ms[0]));
      assert k <= lo ==> TokenIdsOf(c, s, k, k) == [];
    }
  }

  /** Chunks that end at `hi` deliver, in order, exactly the chain between what was allocated
      and `hi`, each naming the last block of the chunk before it as parent. */
  lemma {:induction false} ChunksCoverSlice(c: Config, s: SeqState, targets: seq<nat>)
    requires c.blockSize > 0 && |s.plhs| == |s.blockHashes|
    requires Ascending([s.numAllocated] + targets)
    ensures var last := ([s.numAllocated] + targets)[|targets|];
            var lo, hi := Covered(c, s, s.numAllocated), Covered(c, s, last);
            && lo <= hi
            && Merged(ChunkSignals(c, s, targets)) == Slice(c, s, lo, hi)
            && Chained(ChunkSignals(c, s, targets), ParentAt(s, lo))
    decreases |targets|
  {
    var all := [s.numAllocated] + targets;
    if targets == [] {
      OneChunk(c, s, s.numAllocated);
    } else {
      var t := Committed(s, targets[0]);
      TailAscends(all);
      assert all[1..] == targets == [t.numAllocated] + targets[1..];
      ChunksCoverSlice(c, t, targets[1..]);
      FirstThenRest(c, s, targets, ([t.numAllocated] + targets[1..])[|targets| - 1]);
    }
  }

  lemma TailAscends(all: seq<nat>)
    requires |all| >= 2 && Ascending(all)
    ensures Ascending(all[1..]) && all[0] <= all[1]
  {
    forall i, j | 0 <= i <= j < |all| - 1
      ensures all[1..][i] <= all[1..][j]
    {
      assert all[i + 1] <= all[j + 1];
    }
  }

  lemma FirstThenRest(c: Config, s: SeqState, targets: seq<nat>, last: nat)
    requires c.blockSize > 0 && |s.plhs| == |s.blockHashes|
    requires targets != [] && s.numAllocated <= targets[0]
    requires var t, rest := Committed(s, targets[0]), targets[1..];
             var mid, hi := Covered(c, t, t.numAllocated), Covered(c, t, last);
             && mid <= hi
             && Merged(ChunkSignals(c, t, rest)) == Slice(c, t, mid, hi)
             && Chained(ChunkSignals(c, t, rest), ParentAt(t, mid))
    ensures var lo, hi := Covered(c, s, s.numAllocated), Covered(c, s, last);
            && lo <= hi
            && Merged(ChunkSignals(c, s, targets)) == Slice(c, s, lo, hi)
            && Chained(ChunkSignals(c, s, targets), ParentAt(s, lo))
  {
    hide Joined, Merged, ChunkSignal, Covered, Slice, Chained;
    var t := Committed(s, targets[0]);
    var lo, mid, hi := Covered(c, s, s.numAllocated), Covered(c, s, targets[0]), Covered(c, s, last);
    var first, rest := ChunkSignal(c, s, targets[0]), ChunkSignals(c, t, targets[1..]);
    assert ChunkSignals(c, s, targets) == first + rest;
    hide ChunkSignals, ParentAt;
    assert ParentAt(t, mid) == ParentAt(s, mid) by { ParentAnyCommit(s, targets[0], mid); }
    CoveredAnyCommit(c, s, targets[0], last);
    CoveredAnyCommit(c, s, targets[0], targets[0]);
    OneChunk(c, s, targets[0]);
    SliceAnyCommit(c, s, targets[0], mid, hi);
    SlicesJoin(c, s, lo, mid, hi);
    MergedCons(first, rest);
    ChainedCons(s, first, rest, lo, mid);
  }

  lemma ChainedCons(s: SeqState, first: seq<MoveBlock>, rest: seq<MoveBlock>, lo: nat, mid: nat)
    requires |first| <= 1 && lo <= mid <= |s.blocks|
    requires first == [] <==> lo == mid
    requires first != [] ==> first[0].Use? && first[0].useParent == ParentAt(s, lo)
                             && first[0].blocks == s.blocks[lo..mid]
    requires Chained(rest, ParentAt(s, mid))
    ensures Chained(first + rest, ParentAt(s, lo))
  {
    if first == [] {
      assert first + rest == rest;
    } else {
      assert (first + rest)[1..] == rest;
    }
  }

  lemma ParentAnyCommit(s: SeqState, n: nat, i: nat)
    requires i <= |s.blocks|
    ensures ParentAt(Committed(s, n), i) == ParentAt(s, i)
  {
  }

  lemma CoveredAnyCommit(c: Config, s: SeqState, n: nat, tokens: nat)
    requires c.blockSize > 0
    ensures Covered(c, Committed(s, n), tokens) == Covered(c, s, tokens)
  {
  }

  lemma SliceAnyCommit(c: Config, s: SeqState, n: nat, lo: nat, hi: nat)
    requires lo <= hi <= |s.blocks| && |s.plhs| == |s.blockHashes|
    ensures Slice(c, Committed(s, n), lo, hi) == Slice(c, s, lo, hi)
  {
    var k := |s.blockHashes|;
    assert TokenIdsOf(c, Committed(s, n), Min(lo, k), Min(hi, k)) == TokenIdsOf(c, s, Min(lo, k), Min(hi, k));
  }

  /** However a prompt is chunked, the signals concatenate to the one-shot creation signal. */
  lemma ChunkedEqualsOneShot(c: Config, s: SeqState, targets: seq<nat>)
    requires Shape(c, s) && s.numAllocated == 0
    requires targets != [] && Ascending(targets) && targets[|targets| - 1] == |s.tokens|
    ensures var oneShot := ChunkSignals(c, s, [|s.tokens|]);
            && Merged(ChunkSignals(c, s, targets)) == Merged(oneShot)
            && Merged(oneShot).blocks == s.blocks
            && Merged(oneShot).hashes == s.blockHashes && Merged(oneShot).plhs == s.plhs
            && (c.emitTokenIds ==>
                  && |Merged(oneShot).tokenIds| == |s.blockHashes|
                  && forall i :: 0 <= i < |s.blockHashes| ==>
                       Merged(oneShot).tokenIds[i] == BlockTokens(s.tokens, c.blockSize, i))
            && (!c.emitTokenIds ==> Merged(oneShot).tokenIds == [])
    ensures Chained(ChunkSignals(c, s, targets), None)
  {
    hide Merged, ChunkSignals, Chained;
    CeilDivIs(0, c.blockSize, 0);
    ChunksCoverSlice(c, s, targets);
    ChunksCoverSlice(c, s, [|s.tokens|]);
    assert s.blocks[0..|s.blocks|] == s.blocks;
  }
}
