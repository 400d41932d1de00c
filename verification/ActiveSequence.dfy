/**
 `ActiveSequence` (lib/mocker/src/common/sequence.rs): the object that keeps the block
 chain and its hash caches up to date in place.  Every method is proved to compute what
 SequenceModel.dfy says, so the run theorems of Driver.dfy and Chunking.dfy are about it.
 */
module ActiveSequences {
  import opened Wrappers
  import opened BlockMath
  import opened SequenceModel

  const DEFAULT_BLOCK_SIZE := 64

  class ActiveSequence {
    const blockSize: nat
    const maxOutputTokens: nat
    const numInputTokens: nat
    const enablePrefixCaching: bool
    const emitTokenIds: bool
    const hasher: Hasher

    var uniqueBlocks: seq<UniqueBlock>
    var blockHashes: seq<Hash>
    var plhs: seq<Lineage>
    var tokens: seq<Token>
    var generatedTokens: nat
    var numAllocatedTokens: nat

    ghost function Settings(): Config {
      Config(blockSize, enablePrefixCaching, emitTokenIds, maxOutputTokens, hasher)
    }

    ghost function View(): SeqState
      reads this
    {
      SeqState(tokens, uniqueBlocks, blockHashes, plhs, generatedTokens, numAllocatedTokens)
    }

    ghost predicate Valid()
      reads this
    {
      Cached(Settings(), View())
    }

    /** Derives the three caches from the tokens of a prompt, block by block. */
    static method CreateSequenceCache(c: Config, tokens: seq<Token>, draws: nat -> Draw, tail: Uuid)
      returns (uniqueBlocks: seq<UniqueBlock>, blockHashes: seq<Hash>, plhs: seq<Lineage>)
      requires c.blockSize >= 2
      ensures var s := Created(c, tokens, draws, tail);
              uniqueBlocks == s.blocks && blockHashes == s.blockHashes && plhs == s.plhs
    {
      uniqueBlocks, blockHashes, plhs := [], [], [];
      var blockCount := |tokens| / c.blockSize;
      for pos := 0 to blockCount
        invariant |uniqueBlocks| == |blockHashes| == |plhs| == pos
        invariant forall i :: 0 <= i < pos ==> uniqueBlocks[i] == FullBlock(Identity(c, tokens, i, draws(i)))
        invariant forall i :: 0 <= i < pos ==> blockHashes[i] == c.hasher.block(BlockTokens(tokens, c.blockSize, i))
        invariant forall i :: 0 <= i < pos ==> plhs[i] == LineageOf(c, tokens, i, i, draws(i))
      {
        blockHashes := blockHashes + [c.hasher.block(BlockTokens(tokens, c.blockSize, pos))];
        if c.caching {
          uniqueBlocks := uniqueBlocks + [FullBlock(SequenceHash(c.hasher, tokens, c.blockSize, pos))];
          plhs := plhs + [LineageHash(c.hasher, tokens, c.blockSize, pos)];
        } else {
          uniqueBlocks := uniqueBlocks + [FullBlock(draws(pos).hash)];
          plhs := plhs + [c.hasher.lineage(draws(pos).lineageSeed, None, pos)];
        }
      }
      assert uniqueBlocks == FullBlocks(c, tokens, draws, blockCount);
      assert blockHashes == FullHashes(c, tokens, blockCount);
      assert plhs == FullLineage(c, tokens, draws, blockCount);
      if |tokens| % c.blockSize != 0 {
        uniqueBlocks := uniqueBlocks + [PartialBlock(tail)];
      }
    }

    /** The source refuses a block size below 2 ("invalid ActiveSequence"). */
    constructor (tokens: seq<Token>, maxOutputTokens: nat, blockSize: Option<nat>, enablePrefixCaching: bool,
                 emitTokenIds: bool, hasher: Hasher, draws: nat -> Draw, tail: Uuid)
      requires blockSize.Some? ==> blockSize.value >= 2
      ensures Valid()
      ensures this.blockSize == (if blockSize.None? then DEFAULT_BLOCK_SIZE else blockSize.value)
      ensures Settings() == Config(this.blockSize, enablePrefixCaching, emitTokenIds, maxOutputTokens, hasher)
      ensures View() == Created(Settings(), tokens, draws, tail)
      ensures numInputTokens == |tokens|
    {
      var size := if blockSize.None? then DEFAULT_BLOCK_SIZE else blockSize.value;
      var c := Config(size, enablePrefixCaching, emitTokenIds, maxOutputTokens, hasher);
      var blocks, hashes, lineage := CreateSequenceCache(c, tokens, draws, tail);
      this.blockSize, this.maxOutputTokens, this.numInputTokens := size, maxOutputTokens, |tokens|;
      this.enablePrefixCaching, this.emitTokenIds, this.hasher := enablePrefixCaching, emitTokenIds, hasher;
      this.uniqueBlocks, this.blockHashes, this.plhs, this.tokens := blocks, hashes, lineage, tokens;
      this.generatedTokens, this.numAllocatedTokens := 0, 0;
      new;
      CreatedIsCached(c, tokens, draws, tail);
    }

    /** Builds the `Use` signal for reaching `cumulative` tokens and changes nothing. */
    method PrepareAllocation(cumulative: nat) returns (r: Option<MoveBlock>)
      requires Valid()
      ensures r == Prepared(Settings(), View(), cumulative)
    {
      var prev := Min(CeilDiv(numAllocatedTokens, blockSize), |uniqueBlocks|);
      var target := Min(CeilDiv(cumulative, blockSize), |uniqueBlocks|);
      if target <= prev {
        return None;
      }
      var lo := Min(prev, |blockHashes|);
      var hi := Min(target, |blockHashes|);
      var tokenIds: Option<seq<seq<Token>>> := None;
      if emitTokenIds && lo < hi {
        var ids := CollectTokenIds(lo, hi);
        tokenIds := Some(ids);
      }
      var parent := if prev == 0 then None else Some(uniqueBlocks[prev - 1]);
      return Some(Use(uniqueBlocks[prev..target], blockHashes[lo..hi], plhs[lo..hi], tokenIds, parent));
    }

    method CollectTokenIds(lo: nat, hi: nat) returns (ids: seq<seq<Token>>)
      requires Valid() && lo <= hi <= |blockHashes|
      ensures ids == TokenIdsOf(Settings(), View(), lo, hi)
    {
      ids := [];
      for i := lo to hi
        invariant |ids| == i - lo
        invariant forall j :: 0 <= j < |ids| ==> ids[j] == BlockTokens(tokens, blockSize, lo + j)
      {
        MulMonotone(i + 1, |blockHashes|, blockSize);
        assert (i + 1) * blockSize == i * blockSize + blockSize;
        ids := ids + [tokens[i * blockSize..(i + 1) * blockSize]];
      }
    }

    method CommitAllocation(cumulative: nat)
      requires Valid()
      modifies this`numAllocatedTokens
      ensures View() == Committed(old(View()), cumulative)
      ensures Valid()
    {
      CommitKeepsCache(Settings(), View(), cumulative);
      numAllocatedTokens := cumulative;
    }

    method AllocateBlocksForChunk(cumulative: nat) returns (r: Option<MoveBlock>)
      requires Valid()
      modifies this`numAllocatedTokens
      ensures r == Prepared(Settings(), old(View()), cumulative)
      ensures View() == Committed(old(View()), cumulative)
      ensures Valid()
    {
      r := PrepareAllocation(cumulative);
      CommitAllocation(cumulative);
    }

    method TakeCreationSignal() returns (r: Option<MoveBlock>)
      requires Valid()
      modifies this`numAllocatedTokens
      ensures r == Prepared(Settings(), old(View()), |tokens|)
      ensures View() == Committed(old(View()), |tokens|)
      ensures Valid()
    {
      r := AllocateBlocksForChunk(|tokens|);
    }

    /** Turns the trailing partial block, which the last complete block of tokens fills, into a full one. */
    method PromoteLast(draw: Draw) returns (signal: MoveBlock)
      requires blockSize > 0 && LastIsPartial(View()) && |tokens| / blockSize > 0
      // The source panics on a partial block here ("Cannot have a partial block as parent").
      requires |uniqueBlocks| > 1 ==> uniqueBlocks[|uniqueBlocks| - 2].FullBlock?
      modifies this`uniqueBlocks, this`blockHashes, this`plhs
      ensures View() == Promoted(Settings(), old(View()), draw)
      ensures signal == PromoteSignal(Settings(), old(View()), draw)
    {
      hide SequenceHash, LineageHash, BlockTokens;
      var uuid := uniqueBlocks[|uniqueBlocks| - 1].uuid;
      var last := |tokens| / blockSize - 1;
      var content := BlockTokens(tokens, blockSize, last);
      var seqHash := if enablePrefixCaching then SequenceHash(hasher, tokens, blockSize, last) else draw.hash;
      var blockHash := hasher.block(content);
      var plh := if enablePrefixCaching then LineageHash(hasher, tokens, blockSize, last)
                 else hasher.lineage(draw.lineageSeed, None, |blockHashes|);
      var promoted := if emitTokenIds then Some(content) else None;
      blockHashes := blockHashes + [blockHash];
      plhs := plhs + [plh];
      uniqueBlocks := uniqueBlocks[..|uniqueBlocks| - 1];
      var parent: Option<Hash> := None;
      if uniqueBlocks != [] {
        parent := Some(uniqueBlocks[|uniqueBlocks| - 1].hash);
      }
      uniqueBlocks := uniqueBlocks + [FullBlock(seqHash)];
      signal := Promote(uuid, seqHash, parent, blockHash, plh, promoted);
    }

    /** Appends a token.  A filled partial block is promoted only when the next token opens a block. */
    method Push(token: Token, draw: Draw) returns (signals: seq<MoveBlock>)
      requires Valid()
      modifies this`uniqueBlocks, this`blockHashes, this`plhs, this`tokens, this`generatedTokens
      ensures signals == PushSignals(Settings(), old(View()), token, draw)
      ensures View() == Pushed(Settings(), old(View()), token, draw)
      ensures Valid()
    {
      ghost var c, s := Settings(), View();
      PushKeepsCache(c, s, token, draw);
      assert Shape(c, s);
      hide Cached, Shape, Promoted, PromoteSignal;
      tokens := tokens + [token];
      generatedTokens := generatedTokens + 1;
      if |tokens| % blockSize != 1 {
        return [];
      }
      signals := [];
      if uniqueBlocks != [] && uniqueBlocks[|uniqueBlocks| - 1].PartialBlock? {
        PromotionIsSafe(c, s, token);
        var signal := PromoteLast(draw);
        signals := [signal];
      }
      uniqueBlocks := uniqueBlocks + [PartialBlock(draw.uuid)];
      signals := signals + [Use([PartialBlock(draw.uuid)], [], [], None, None)];
    }

    method FreeSignalForTokens(activeTokens: nat) returns (signals: seq<MoveBlock>)
      requires Valid()
      ensures signals == FreeSignalsFor(Settings(), View(), activeTokens)
    {
      var active := Min(CeilDiv(activeTokens, blockSize), |uniqueBlocks|);
      signals := [];
      for i := active downto 0
        invariant |signals| == active - i
        invariant forall j :: 0 <= j < |signals| ==> signals[j] == Deref([uniqueBlocks[active - 1 - j]])
      {
        signals := signals + [Deref([uniqueBlocks[i]])];
      }
    }

    /** The source panics once the output limit is reached; callers check first. */
    method Generate(token: Token, draw: Draw) returns (signals: seq<MoveBlock>)
      requires Valid() && generatedTokens < maxOutputTokens
      modifies this`uniqueBlocks, this`blockHashes, this`plhs, this`tokens, this`generatedTokens
      ensures signals == GenerateSignals(Settings(), old(View()), token, draw)
      ensures View() == Pushed(Settings(), old(View()), token, draw)
      ensures Valid()
    {
      signals := Push(token, draw);
      if generatedTokens != maxOutputTokens {
        return;
      }
      var frees := FreeSignalForTokens(|tokens|);
      signals := signals + frees;
    }

    method FreeSignal() returns (signals: seq<MoveBlock>)
      requires Valid()
      ensures signals == FreeSignalsFor(Settings(), View(), numAllocatedTokens)
    {
      signals := FreeSignalForTokens(numAllocatedTokens);
    }

    method ResetWithSignal() returns (signals: seq<MoveBlock>)
      requires Valid()
      modifies this`numAllocatedTokens
      ensures signals == FreeSignalsFor(Settings(), old(View()), old(numAllocatedTokens))
      ensures View() == Committed(old(View()), 0)
      ensures Valid()
    {
      signals := FreeSignal();
      CommitAllocation(0);
    }

    /** Takes back the last token.  Legal only while the last block is partial. */
    method Pop()
      requires Valid()
      requires tokens == [] || LastIsPartial(View())
      modifies this`uniqueBlocks, this`tokens, this`generatedTokens
      ensures View() == Popped(Settings(), old(View()))
      ensures Valid()
    {
      PopKeepsCache(Settings(), View());
      if tokens != [] {
        tokens := tokens[..|tokens| - 1];
      }
      generatedTokens := if generatedTokens == 0 then 0 else generatedTokens - 1;
      if |tokens| % blockSize == 0 && uniqueBlocks != [] {
        uniqueBlocks := uniqueBlocks[..|uniqueBlocks| - 1];
      }
    }
  }
}
