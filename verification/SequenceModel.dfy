/**
 The paged-KV view of one request (lib/mocker/src/common/sequence.rs) as values:
 the state an `ActiveSequence` carries, what each operation makes of it, and the
 signals it announces.  The class in ActiveSequence.dfy is proved against these
 functions; Driver.dfy proves what whole runs keep.

 A token sequence is a plain `seq` of tokens.  Hash functions are parameters, and
 every random value the source draws is an explicit `Draw`.
 */
module SequenceModel {
  import opened Wrappers
  import opened BlockMath

  type Token = nat
  type Hash = nat
  type Uuid = nat
  type Lineage = nat

  datatype UniqueBlock = PartialBlock(uuid: Uuid) | FullBlock(hash: Hash)

  datatype MoveBlock =
    | Use(blocks: seq<UniqueBlock>, hashes: seq<Hash>, plhs: seq<Lineage>,
          tokenIds: Option<seq<seq<Token>>>, useParent: Option<UniqueBlock>)
    | Deref(freed: seq<UniqueBlock>)
    | Promote(uuid: Uuid, seqHash: Hash, parent: Option<Hash>, blockHash: Hash,
              plh: Lineage, promoted: Option<seq<Token>>)

  /** `block` hashes the tokens of one block, `chain` extends a parent's sequence hash by
      a block hash, `lineage` packs (sequence hash, parent's sequence hash, position). */
  datatype Hasher = Hasher(block: seq<Token> -> Hash, chain: (Hash, Hash) -> Hash,
                           lineage: (Hash, Option<Hash>, nat) -> Lineage)

  /** The fields that never change after construction. */
  datatype Config = Config(blockSize: nat, caching: bool, emitTokenIds: bool,
                           maxOutput: nat, hasher: Hasher)

  /** One round of random values: a block UUID, a block identity, a lineage seed. */
  datatype Draw = Draw(uuid: Uuid, hash: Hash, lineageSeed: Hash)

  datatype SeqState = SeqState(tokens: seq<Token>, blocks: seq<UniqueBlock>,
                               blockHashes: seq<Hash>, plhs: seq<Lineage>,
                               generated: nat, numAllocated: nat)

  // ----- hashes as functions of the token prefix

  function BlockTokens(tokens: seq<Token>, b: nat, i: nat): seq<Token> {
    if (i + 1) * b <= |tokens| then
      assert (i + 1) * b == i * b + b;
      tokens[i * b..(i + 1) * b]
    else []
  }

  function SequenceHash(h: Hasher, tokens: seq<Token>, b: nat, i: nat): Hash {
    if i == 0 then h.block(BlockTokens(tokens, b, 0))
    else h.chain(SequenceHash(h, tokens, b, i - 1), h.block(BlockTokens(tokens, b, i)))
  }

  function LineageHash(h: Hasher, tokens: seq<Token>, b: nat, i: nat): Lineage {
    h.lineage(SequenceHash(h, tokens, b, i),
              if i == 0 then None else Some(SequenceHash(h, tokens, b, i - 1)), i)
  }

  /** The identity given to complete block `i`: its content hash, or a random one. */
  function Identity(c: Config, tokens: seq<Token>, i: nat, draw: Draw): Hash {
    if c.caching then SequenceHash(c.hasher, tokens, c.blockSize, i) else draw.hash
  }

  function LineageOf(c: Config, tokens: seq<Token>, i: nat, position: nat, draw: Draw): Lineage {
    if c.caching then LineageHash(c.hasher, tokens, c.blockSize, i)
    else c.hasher.lineage(draw.lineageSeed, None, position)
  }

  /** Hashes of block `i` depend on nothing beyond the first (i+1)*b tokens. */
  lemma {:induction false} HashOfPrefix(h: Hasher, x: seq<Token>, y: seq<Token>, b: nat, i: nat)
    requires (i + 1) * b <= |x| && (i + 1) * b <= |y|
    requires x[..(i + 1) * b] == y[..(i + 1) * b]
    ensures BlockTokens(x, b, i) == BlockTokens(y, b, i)
    ensures SequenceHash(h, x, b, i) == SequenceHash(h, y, b, i)
    ensures LineageHash(h, x, b, i) == LineageHash(h, y, b, i)
  {
    var end := (i + 1) * b;
    assert end == i * b + b;
    assert x[i * b..end] == x[..end][i * b..] == y[i * b..end];
    if i > 0 {
      assert x[..i * b] == x[..end][..i * b] == y[..i * b];
      HashOfPrefix(h, x, y, b, i - 1);
    }
  }

  // ----- shape and cache invariants

  /** Every block but the last is full, and the hash caches cover exactly the full ones. */
  ghost predicate Shape(c: Config, s: SeqState) {
    && c.blockSize >= 2
    && |s.blocks| == CeilDiv(|s.tokens|, c.blockSize)
    && |s.plhs| == |s.blockHashes|
    && |s.blockHashes| <= |s.blocks| <= |s.blockHashes| + 1
    && |s.blockHashes| * c.blockSize <= |s.tokens|
    && (forall i :: 0 <= i < |s.blocks| ==> (s.blocks[i].FullBlock? <==> i < |s.blockHashes|))
  }

  /** What the three caches hold for block `i` is what a recomputation would give. */
  ghost predicate CachedAt(c: Config, s: SeqState, i: nat)
    requires i < |s.blockHashes| <= |s.blocks| && |s.plhs| == |s.blockHashes|
  {
    && s.blockHashes[i] == c.hasher.block(BlockTokens(s.tokens, c.blockSize, i))
    && (c.caching ==>
          && s.blocks[i] == FullBlock(SequenceHash(c.hasher, s.tokens, c.blockSize, i))
          && s.plhs[i] == LineageHash(c.hasher, s.tokens, c.blockSize, i))
  }

  ghost predicate Cached(c: Config, s: SeqState) {
    && Shape(c, s)
    && (forall i :: 0 <= i < |s.blockHashes| ==> CachedAt(c, s, i))
  }

  // ----- construction

  function FullBlocks(c: Config, tokens: seq<Token>, draws: nat -> Draw, n: nat): (r: seq<UniqueBlock>) {
    seq(n, i requires 0 <= i => FullBlock(Identity(c, tokens, i, draws(i))))
  }

  function FullHashes(c: Config, tokens: seq<Token>, n: nat): (r: seq<Hash>) {
    seq<Hash>(n, i requires 0 <= i => c.hasher.block(BlockTokens(tokens, c.blockSize, i)))
  }

  function FullLineage(c: Config, tokens: seq<Token>, draws: nat -> Draw, n: nat): (r: seq<Lineage>) {
    seq<Lineage>(n, i requires 0 <= i => LineageOf(c, tokens, i, i, draws(i)))
  }

  function Created(c: Config, tokens: seq<Token>, draws: nat -> Draw, tail: Uuid): SeqState
    requires c.blockSize >= 2
  {
    var n := |tokens| / c.blockSize;
    SeqState(tokens,
             FullBlocks(c, tokens, draws, n)
             + (if |tokens| % c.blockSize == 0 then [] else [PartialBlock(tail)]),
             FullHashes(c, tokens, n), FullLineage(c, tokens, draws, n), 0, 0)
  }

  lemma CreatedShape(c: Config, tokens: seq<Token>, draws: nat -> Draw, tail: Uuid)
    requires c.blockSize >= 2
    ensures Shape(c, Created(c, tokens, draws, tail))
    ensures |Created(c, tokens, draws, tail).blockHashes| == |tokens| / c.blockSize
  {
    CeilDivSucc(|tokens|, c.blockSize);
    DivModIs(|tokens|, c.blockSize, |tokens| / c.blockSize, |tokens| % c.blockSize);
    hide Identity, LineageOf, BlockTokens, CeilDiv;
  }

  lemma CreatedCachedAt(c: Config, tokens: seq<Token>, draws: nat -> Draw, tail: Uuid, i: nat)
    requires c.blockSize >= 2 && i < |tokens| / c.blockSize
    requires Shape(c, Created(c, tokens, draws, tail))
    requires |Created(c, tokens, draws, tail).blockHashes| == |tokens| / c.blockSize
    ensures CachedAt(c, Created(c, tokens, draws, tail), i)
  {
    hide Shape, SequenceHash, LineageHash, BlockTokens;
    var s := Created(c, tokens, draws, tail);
    assert s.blockHashes[i] == c.hasher.block(BlockTokens(tokens, c.blockSize, i));
    assert s.blocks[i] == FullBlock(Identity(c, tokens, i, draws(i)));
    assert s.plhs[i] == LineageOf(c, tokens, i, i, draws(i));
  }

  lemma CreatedIsCached(c: Config, tokens: seq<Token>, draws: nat -> Draw, tail: Uuid)
    requires c.blockSize >= 2
    ensures Cached(c, Created(c, tokens, draws, tail))
    ensures |Created(c, tokens, draws, tail).blockHashes| == |tokens| / c.blockSize
  {
    hide CachedAt, Created;
    CreatedShape(c, tokens, draws, tail);
    forall i | 0 <= i < |tokens| / c.blockSize
      ensures CachedAt(c, Created(c, tokens, draws, tail), i)
    {
      CreatedCachedAt(c, tokens, draws, tail, i);
    }
  }

  // ----- push

  /** The parent named by a promotion: the identity of the last block of a full chain. */
  function ParentHash(blocks: seq<UniqueBlock>): (r: Option<Hash>)
    requires blocks != [] ==> blocks[|blocks| - 1].FullBlock?
  {
    if blocks == [] then None else Some(blocks[|blocks| - 1].hash)
  }

  predicate LastIsPartial(s: SeqState) {
    s.blocks != [] && s.blocks[|s.blocks| - 1].PartialBlock?
  }

  function Appended(s: SeqState, token: Token): SeqState {
    s.(tokens := s.tokens + [token], generated := s.generated + 1)
  }

  /** The trailing partial block becomes a full one; `tokens.last_complete_block()` is its content. */
  function Promoted(c: Config, s: SeqState, draw: Draw): SeqState
    requires c.blockSize > 0 && LastIsPartial(s) && |s.tokens| / c.blockSize > 0
  {
    var last := |s.tokens| / c.blockSize - 1;
    s.(blocks := s.blocks[..|s.blocks| - 1] + [FullBlock(Identity(c, s.tokens, last, draw))],
       blockHashes := s.blockHashes + [c.hasher.block(BlockTokens(s.tokens, c.blockSize, last))],
       plhs := s.plhs + [LineageOf(c, s.tokens, last, |s.blockHashes|, draw)])
  }

  function PromoteSignal(c: Config, s: SeqState, draw: Draw): MoveBlock
    requires c.blockSize > 0 && LastIsPartial(s) && |s.tokens| / c.blockSize > 0
    requires |s.blocks| > 1 ==> s.blocks[|s.blocks| - 2].FullBlock?
  {
    var last := |s.tokens| / c.blockSize - 1;
    var content := BlockTokens(s.tokens, c.blockSize, last);
    Promote(s.blocks[|s.blocks| - 1].uuid, Identity(c, s.tokens, last, draw),
            ParentHash(s.blocks[..|s.blocks| - 1]), c.hasher.block(content),
            LineageOf(c, s.tokens, last, |s.blockHashes|, draw),
            if c.emitTokenIds then Some(content) else None)
  }

  function UsePartial(uuid: Uuid): MoveBlock {
    Use([PartialBlock(uuid)], [], [], None, None)
  }

  /** Does the next token open a new block? */
  predicate Opens(c: Config, s: SeqState)
    requires c.blockSize > 0
  {
    (|s.tokens| + 1) % c.blockSize == 1
  }

  /** At a block boundary a trailing partial block is filled, and what precedes it is full. */
  lemma PromotionIsSafe(c: Config, s: SeqState, token: Token)
    requires Shape(c, s) && Opens(c, s) && LastIsPartial(s)
    ensures |Appended(s, token).tokens| / c.blockSize == |s.tokens| / c.blockSize == |s.blocks|
    ensures |s.blocks| == |s.blockHashes| + 1
    ensures |s.blocks| > 1 ==> s.blocks[|s.blocks| - 2].FullBlock?
  {
    CeilDivSucc(|s.tokens|, c.blockSize);
  }

  function Pushed(c: Config, s: SeqState, token: Token, draw: Draw): SeqState
    requires Shape(c, s)
  {
    var s1 := Appended(s, token);
    if !Opens(c, s) then s1
    else
      var s2 := if LastIsPartial(s) then PromotionIsSafe(c, s, token); Promoted(c, s1, draw) else s1;
      s2.(blocks := s2.blocks + [PartialBlock(draw.uuid)])
  }

  function PushSignals(c: Config, s: SeqState, token: Token, draw: Draw): seq<MoveBlock>
    requires Shape(c, s)
  {
    var s1 := Appended(s, token);
    if !Opens(c, s) then []
    else if LastIsPartial(s) then
      PromotionIsSafe(c, s, token);
      [PromoteSignal(c, s1, draw), UsePartial(draw.uuid)]
    else [UsePartial(draw.uuid)]
  }

  /** Appending a token changes none of the facts cached about complete blocks. */
  lemma AppendKeepsCache(c: Config, s: SeqState, token: Token, i: nat)
    requires Cached(c, s) && i < |s.blockHashes|
    ensures CachedAt(c, Appended(s, token), i)
  {
    var s1 := Appended(s, token);
    MulMonotone(i + 1, |s.blockHashes|, c.blockSize);
    assert s.tokens[..(i + 1) * c.blockSize] == s1.tokens[..(i + 1) * c.blockSize];
    HashOfPrefix(c.hasher, s.tokens, s1.tokens, c.blockSize, i);
    assert CachedAt(c, s, i);
  }

  lemma PushShape(c: Config, s: SeqState, token: Token, draw: Draw)
    requires Shape(c, s)
    ensures Shape(c, Pushed(c, s, token, draw))
    ensures s.blockHashes <= Pushed(c, s, token, draw).blockHashes
  {
    CeilDivSucc(|s.tokens|, c.blockSize);
    if Opens(c, s) && LastIsPartial(s) {
      PromotionIsSafe(c, s, token);
    }
  }

  lemma PushKeepsCache(c: Config, s: SeqState, token: Token, draw: Draw)
    requires Cached(c, s)
    ensures Cached(c, Pushed(c, s, token, draw))
  {
    PushShape(c, s, token, draw);
    var t := Pushed(c, s, token, draw);
    if Opens(c, s) && LastIsPartial(s) {
      PromotionIsSafe(c, s, token);
    }
    forall i | 0 <= i < |t.blockHashes|
      ensures CachedAt(c, t, i)
    {
      if i < |s.blockHashes| {
        AppendKeepsCache(c, s, token, i);
      }
    }
  }

  // ----- pop

  function Popped(c: Config, s: SeqState): SeqState
    requires c.blockSize > 0
  {
    var tokens := if s.tokens == [] then [] else s.tokens[..|s.tokens| - 1];
    SeqState(tokens,
             if |tokens| % c.blockSize == 0 && s.blocks != [] then s.blocks[..|s.blocks| - 1] else s.blocks,
             s.blockHashes, s.plhs,
             if s.generated == 0 then 0 else s.generated - 1,
             s.numAllocated)
  }

  /** Undoing a token is safe exactly when the last block is still partial (or nothing is left to undo). */
  lemma PopShapeIff(c: Config, s: SeqState)
    requires Shape(c, s)
    ensures Shape(c, Popped(c, s)) <==> s.tokens == [] || LastIsPartial(s)
  {
    var t := Popped(c, s);
    var b, k := c.blockSize, |s.blockHashes|;
    if s.tokens != [] {
      var n := |s.tokens| - 1;
      CeilDivSucc(n, b);
      DivModIs(n, b, n / b, n % b);
      assert |s.blocks| > 0;
      if LastIsPartial(s) {
        assert k == |s.blocks| - 1;
      } else {
        assert k == |s.blocks|;
      }
    }
  }

  lemma PopKeepsCache(c: Config, s: SeqState)
    requires Cached(c, s)
    requires s.tokens == [] || LastIsPartial(s)
    ensures Cached(c, Popped(c, s))
  {
    PopShapeIff(c, s);
    var t := Popped(c, s);
    forall i | 0 <= i < |t.blockHashes|
      ensures CachedAt(c, t, i)
    {
      assert CachedAt(c, s, i);
      MulMonotone(i + 1, |s.blockHashes|, c.blockSize);
      assert s.tokens[..(i + 1) * c.blockSize] == t.tokens[..(i + 1) * c.blockSize];
      HashOfPrefix(c.hasher, s.tokens, t.tokens, c.blockSize, i);
    }
  }

  /** A pop takes back a push that opened a block: only a promotion stays behind. */
  lemma PopUndoesOpening(c: Config, s: SeqState, token: Token, draw: Draw)
    requires Shape(c, s) && Opens(c, s)
    ensures LastIsPartial(Pushed(c, s, token, draw))
    ensures var t := Popped(c, Pushed(c, s, token, draw));
            && t.tokens == s.tokens && t.generated == s.generated && t.numAllocated == s.numAllocated
            && |t.blocks| == |s.blocks|
            && t.blocks == (if LastIsPartial(s) then
                              PromotionIsSafe(c, s, token);
                              Promoted(c, Appended(s, token), draw).blocks
                            else s.blocks)
  {
    CeilDivSucc(|s.tokens|, c.blockSize);
    if LastIsPartial(s) {
      PromotionIsSafe(c, s, token);
    }
  }

  // ----- allocation and release

  function Min(x: nat, y: nat): nat { if x < y then x else y }

  /** The number of blocks covered by the first `tokens` tokens. */
  function Covered(c: Config, s: SeqState, tokens: nat): (n: nat)
    requires c.blockSize > 0
    ensures n <= |s.blocks|
  {
    Min(CeilDiv(tokens, c.blockSize), |s.blocks|)
  }

  function TokenIdsOf(c: Config, s: SeqState, lo: nat, hi: nat): (r: seq<seq<Token>>)
    requires lo <= hi
    ensures |r| == hi - lo
  {
    seq(hi - lo, i requires 0 <= i => BlockTokens(s.tokens, c.blockSize, lo + i))
  }

  function Prepared(c: Config, s: SeqState, cumulative: nat): (r: Option<MoveBlock>)
    requires c.blockSize > 0 && |s.plhs| == |s.blockHashes|
  {
    var prev := Covered(c, s, s.numAllocated);
    var target := Covered(c, s, cumulative);
    if target <= prev then None
    else
      var k := |s.blockHashes|;
      var lo, hi := Min(prev, k), Min(target, k);
      Some(Use(s.blocks[prev..target], s.blockHashes[lo..hi], s.plhs[lo..hi],
               if c.emitTokenIds && lo < hi then Some(TokenIdsOf(c, s, lo, hi)) else None,
               if prev == 0 then None else Some(s.blocks[prev - 1])))
  }

  function Committed(s: SeqState, cumulative: nat): SeqState {
    s.(numAllocated := cumulative)
  }

  lemma CommitKeepsCache(c: Config, s: SeqState, n: nat)
    requires Cached(c, s)
    ensures Cached(c, Committed(s, n))
  {
    forall i | 0 <= i < |s.blockHashes|
      ensures CachedAt(c, Committed(s, n), i)
    {
      assert CachedAt(c, s, i);
    }
  }

  /** One `Deref` per block, last block first. */
  function FreeSignals(blocks: seq<UniqueBlock>): (r: seq<MoveBlock>)
    ensures |r| == |blocks|
    ensures forall i :: 0 <= i < |r| ==> r[i] == Deref([blocks[|blocks| - 1 - i]])
  {
    if blocks == [] then []
    else [Deref([blocks[|blocks| - 1]])] + FreeSignals(blocks[..|blocks| - 1])
  }

  function FreeSignalsFor(c: Config, s: SeqState, activeTokens: nat): seq<MoveBlock>
    requires c.blockSize > 0
  {
    FreeSignals(s.blocks[..Covered(c, s, activeTokens)])
  }

  /** `generate`: push, and release everything once the output limit is reached. */
  function GenerateSignals(c: Config, s: SeqState, token: Token, draw: Draw): seq<MoveBlock>
    requires Shape(c, s) && s.generated < c.maxOutput
  {
    var t := Pushed(c, s, token, draw);
    PushSignals(c, s, token, draw)
    + (if t.generated != c.maxOutput then [] else FreeSignalsFor(c, t, |t.tokens|))
  }

  // ----- what the signal consumer demands of every signal

  function FullCount(blocks: seq<UniqueBlock>): nat {
    if blocks == [] then 0
    else (if blocks[0].FullBlock? then 1 else 0) + FullCount(blocks[1..])
  }

  /** The assertions of the KV cache on a `Use`: one lineage hash per full block, hashes and
      token ids absent or one per full block, and a parent that is not partial. */
  ghost predicate WellFormed(m: MoveBlock) {
    m.Use? ==>
      && |m.plhs| == FullCount(m.blocks)
      && (m.hashes == [] || |m.hashes| == FullCount(m.blocks))
      && (m.tokenIds.Some? ==> |m.tokenIds.value| == FullCount(m.blocks))
      && (m.useParent.Some? ==> m.useParent.value.FullBlock?)
  }

  lemma {:induction false} FullCountOfChain(blocks: seq<UniqueBlock>, k: nat)
    requires k <= |blocks|
    requires forall i :: 0 <= i < |blocks| ==> (blocks[i].FullBlock? <==> i < k)
    ensures FullCount(blocks) == k
  {
    if blocks != [] {
      FullCountOfChain(blocks[1..], if k == 0 then 0 else k - 1);
    }
  }

  lemma PreparedIsWellFormed(c: Config, s: SeqState, cumulative: nat)
    requires Shape(c, s)
    ensures var r := Prepared(c, s, cumulative); r.Some? ==> r.value.Use? && WellFormed(r.value)
  {
    var prev, target, k := Covered(c, s, s.numAllocated), Covered(c, s, cumulative), |s.blockHashes|;
    if prev < target {
      FullCountOfChain(s.blocks[prev..target], Min(target, k) - Min(prev, k));
    }
  }

  lemma PushSignalsWellFormed(c: Config, s: SeqState, token: Token, draw: Draw)
    requires Shape(c, s)
    ensures forall m :: m in PushSignals(c, s, token, draw) ==> WellFormed(m)
    // A push asks for one block, the drawn partial one, with nothing attached, exactly if it opens a block.
    ensures var ms := PushSignals(c, s, token, draw);
            if Opens(c, s) then ms != [] && ms[|ms| - 1] == Use([PartialBlock(draw.uuid)], [], [], None, None)
            else ms == []
  {
    FullCountOfChain([PartialBlock(draw.uuid)], 0);
  }
}
