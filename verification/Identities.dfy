/** What the identity of a block says about tokens (lib/mocker/src/common/sequence.rs, and `from_chunk` in
    lib/tokens/src/lib.rs): with prefix caching it stands for the whole prefix, without it for a
    random draw. */
module Identities {
  import opened Wrappers
  import opened BlockMath
  import opened SequenceModel
  import opened Driver

  // ----- blocks of tokens

  /** The first `n` blocks of tokens, one after the other. */
  function JoinedBlocks(tokens: seq<Token>, b: nat, n: nat): seq<Token> {
    if n == 0 then [] else JoinedBlocks(tokens, b, n - 1) + BlockTokens(tokens, b, n - 1)
  }

  /** Cutting tokens into blocks loses, repeats and reorders nothing. */
  lemma {:induction false} BlocksJoin(tokens: seq<Token>, b: nat, n: nat)
    requires n * b <= |tokens|
    ensures JoinedBlocks(tokens, b, n) == tokens[..n * b]
    ensures forall i :: 0 <= i < n ==> |BlockTokens(tokens, b, i)| == b
  {
    if n > 0 {
      assert n * b == (n - 1) * b + b;
      BlocksJoin(tokens, b, n - 1);
      assert tokens[..n * b] == tokens[..(n - 1) * b] + tokens[(n - 1) * b..n * b];
    } else {
      assert 0 * b == 0;
    }
  }

  // ----- identities are chained

  /** The identity of block `i`, its hash and its lineage, by the tokens of the block and the identity of the
      block before it. */
  ghost predicate ChainedAt(c: Config, s: SeqState, i: nat)
    requires i < |s.blockHashes| == |s.plhs| <= |s.blocks| && (i + 1) * c.blockSize <= |s.tokens|
  {
    && i * c.blockSize <= (i + 1) * c.blockSize
    && s.blockHashes[i] == c.hasher.block(s.tokens[i * c.blockSize..(i + 1) * c.blockSize])
    && s.blocks[i].FullBlock?
    && (if i == 0 then
          && s.blocks[0].hash == s.blockHashes[0]
          && s.plhs[0] == c.hasher.lineage(s.blocks[0].hash, None, 0)
        else
          && s.blocks[i - 1].FullBlock?
          && s.blocks[i].hash == c.hasher.chain(s.blocks[i - 1].hash, s.blockHashes[i])
          && s.plhs[i] == c.hasher.lineage(s.blocks[i].hash, Some(s.blocks[i - 1].hash), i))
  }

  ghost predicate Chained(c: Config, s: SeqState) {
    && |s.plhs| == |s.blockHashes| <= |s.blocks| && |s.blockHashes| * c.blockSize <= |s.tokens|
    && (forall i :: 0 <= i < |s.blockHashes| ==> (i + 1) * c.blockSize <= |s.tokens| && ChainedAt(c, s, i))
  }

  lemma CachedIsChainedAt(c: Config, s: SeqState, i: nat)
    requires Cached(c, s) && c.caching && i < |s.blockHashes|
    ensures (i + 1) * c.blockSize <= |s.tokens| && ChainedAt(c, s, i)
  {
    MulMonotone(i + 1, |s.blockHashes|, c.blockSize);
    assert (i + 1) * c.blockSize == i * c.blockSize + c.blockSize;
    assert CachedAt(c, s, i);
    if i > 0 {
      assert CachedAt(c, s, i - 1);
    }
  }

  /** With prefix caching, after every legal history every identity is the hash of the block's own tokens
      chained to the identity before it, and every lineage hash names both and the position. */
  lemma HistoryChainsIdentities(c: Config, states: seq<SeqState>, edits: seq<Edit>, i: nat)
    requires IsHistory(c, states, edits) && i < |states| && c.caching
    ensures Chained(c, states[i])
  {
    hide Edits, ChainedAt;
    HistoryKeepsCache(c, states, edits, i);
    var s := states[i];
    forall k | 0 <= k < |s.blockHashes|
      ensures (k + 1) * c.blockSize <= |s.tokens| && ChainedAt(c, s, k)
    {
      CachedIsChainedAt(c, s, k);
    }
  }

  // ----- equal identities mean equal prefixes

  ghost predicate InjectiveBlocks(h: Hasher) {
    forall x, y :: h.block(x) == h.block(y) ==> x == y
  }

  ghost predicate InjectiveChain(h: Hasher) {
    forall p, x, q, y :: h.chain(p, x) == h.chain(q, y) ==> p == q && x == y
  }

  ghost predicate InjectiveLineage(h: Hasher) {
    forall x, p, i, y, q, j :: h.lineage(x, p, i) == h.lineage(y, q, j) ==> x == y && p == q && i == j
  }

  lemma BlockDetermines(h: Hasher, x: seq<Token>, y: seq<Token>)
    requires InjectiveBlocks(h) && h.block(x) == h.block(y)
    ensures x == y
  {
  }

  lemma ChainDetermines(h: Hasher, p: Hash, x: Hash, q: Hash, y: Hash)
    requires InjectiveChain(h) && h.chain(p, x) == h.chain(q, y)
    ensures p == q && x == y
  {
  }

  /** What `Chained` says about block `i`. */
  lemma ChainedFacts(c: Config, s: SeqState, i: nat)
    requires Chained(c, s) && i < |s.blockHashes|
    ensures |s.plhs| == |s.blockHashes| <= |s.blocks| && (i + 1) * c.blockSize <= |s.tokens| && ChainedAt(c, s, i)
  {
    hide ChainedAt;
  }

  lemma SameBlock(c: Config, s: SeqState, t: SeqState, i: nat)
    requires Chained(c, s) && Chained(c, t) && InjectiveBlocks(c.hasher)
    requires i < |s.blockHashes| && i < |t.blockHashes| && s.blockHashes[i] == t.blockHashes[i]
    ensures i * c.blockSize <= (i + 1) * c.blockSize <= |s.tokens| && (i + 1) * c.blockSize <= |t.tokens|
    ensures s.tokens[i * c.blockSize..(i + 1) * c.blockSize] == t.tokens[i * c.blockSize..(i + 1) * c.blockSize]
  {
    hide Chained, InjectiveBlocks;
    ChainedFacts(c, s, i);
    ChainedFacts(c, t, i);
    BlockDetermines(c.hasher, s.tokens[i * c.blockSize..(i + 1) * c.blockSize],
                    t.tokens[i * c.blockSize..(i + 1) * c.blockSize]);
  }

  lemma SameParent(c: Config, s: SeqState, t: SeqState, i: nat)
    requires Chained(c, s) && Chained(c, t) && InjectiveChain(c.hasher)
    requires |s.blockHashes| <= |s.blocks| && |t.blockHashes| <= |t.blocks|
    requires i < |s.blockHashes| && i < |t.blockHashes| && s.blocks[i] == t.blocks[i]
    ensures s.blockHashes[i] == t.blockHashes[i] && (i > 0 ==> s.blocks[i - 1] == t.blocks[i - 1])
  {
    hide Chained, InjectiveChain;
    ChainedFacts(c, s, i);
    ChainedFacts(c, t, i);
    if i > 0 {
      ChainDetermines(c.hasher, s.blocks[i - 1].hash, s.blockHashes[i], t.blocks[i - 1].hash, t.blockHashes[i]);
    }
  }

  /** If hashes do not collide, one identity at one position stands for one prefix. */
  lemma {:induction false} SameIdentitySamePrefix(c: Config, s: SeqState, t: SeqState, i: nat)
    requires Chained(c, s) && Chained(c, t) && InjectiveBlocks(c.hasher) && InjectiveChain(c.hasher)
    requires |s.blockHashes| <= |s.blocks| && |t.blockHashes| <= |t.blocks|
    requires i < |s.blockHashes| && i < |t.blockHashes| && s.blocks[i] == t.blocks[i]
    ensures (i + 1) * c.blockSize <= |s.tokens| && (i + 1) * c.blockSize <= |t.tokens|
    ensures s.tokens[..(i + 1) * c.blockSize] == t.tokens[..(i + 1) * c.blockSize]
  {
    hide Chained, InjectiveBlocks, InjectiveChain;
    SameParent(c, s, t, i);
    SameBlock(c, s, t, i);
    if i > 0 {
      SameIdentitySamePrefix(c, s, t, i - 1);
      TwoParts(s.tokens, i * c.blockSize, (i + 1) * c.blockSize);
      TwoParts(t.tokens, i * c.blockSize, (i + 1) * c.blockSize);
    } else {
      assert 0 * c.blockSize == 0;
      assert s.tokens[0..c.blockSize] == s.tokens[..c.blockSize] && t.tokens[0..c.blockSize] == t.tokens[..c.blockSize];
    }
  }

  lemma TwoParts(tokens: seq<Token>, m: nat, n: nat)
    requires m <= n <= |tokens|
    ensures tokens[..n] == tokens[..m] + tokens[m..n]
  {
  }

  lemma LineageDetermines(h: Hasher, x: Hash, p: Option<Hash>, i: nat, y: Hash, q: Option<Hash>, j: nat)
    requires InjectiveLineage(h) && h.lineage(x, p, i) == h.lineage(y, q, j)
    ensures x == y && i == j
  {
  }

  lemma LineageAt(c: Config, s: SeqState, i: nat) returns (parent: Option<Hash>)
    requires Chained(c, s) && i < |s.blockHashes|
    ensures |s.plhs| == |s.blockHashes| <= |s.blocks| && s.blocks[i].FullBlock?
    ensures s.plhs[i] == c.hasher.lineage(s.blocks[i].hash, parent, i)
  {
    hide Chained;
    ChainedFacts(c, s, i);
    parent := if i == 0 then None else Some(s.blocks[i - 1].hash);
  }

  /** One lineage hash means one position and one identity. */
  lemma SameLineageSameIdentity(c: Config, s: SeqState, t: SeqState, i: nat, j: nat)
    requires Chained(c, s) && Chained(c, t) && InjectiveLineage(c.hasher)
    requires |s.plhs| == |s.blockHashes| <= |s.blocks| && |t.plhs| == |t.blockHashes| <= |t.blocks|
    requires i < |s.blockHashes| && j < |t.blockHashes| && s.plhs[i] == t.plhs[j]
    ensures i == j && s.blocks[i] == t.blocks[j]
  {
    hide Chained, InjectiveLineage;
    var p := LineageAt(c, s, i);
    var q := LineageAt(c, t, j);
    LineageDetermines(c.hasher, s.blocks[i].hash, p, i, t.blocks[j].hash, q, j);
  }

  /** With prefix caching two requests share the block at a position if and only if their tokens agree that
      far, whatever their histories, as long as hashes do not collide; and one lineage hash means one position
      and one prefix. */
  lemma SharedIffSamePrefix(c: Config, xs: seq<SeqState>, xedits: seq<Edit>, ys: seq<SeqState>, yedits: seq<Edit>, i: nat)
    requires IsHistory(c, xs, xedits) && IsHistory(c, ys, yedits) && c.caching
    requires InjectiveBlocks(c.hasher) && InjectiveChain(c.hasher)
    requires i < |xs[|xedits|].blockHashes| && i < |ys[|yedits|].blockHashes|
    ensures var s, t, n := xs[|xedits|], ys[|yedits|], (i + 1) * c.blockSize;
            && n <= |s.tokens| && n <= |t.tokens| && i < |s.blocks| && i < |t.blocks| && i < |s.plhs| && i < |t.plhs|
            && (s.blocks[i] == t.blocks[i] <==> s.tokens[..n] == t.tokens[..n])
            && (InjectiveLineage(c.hasher) ==> (s.plhs[i] == t.plhs[i] <==> s.tokens[..n] == t.tokens[..n]))
  {
    var s, t, n := xs[|xedits|], ys[|yedits|], (i + 1) * c.blockSize;
    HistoryChainsIdentities(c, xs, xedits, |xedits|);
    HistoryChainsIdentities(c, ys, yedits, |yedits|);
    hide InjectiveBlocks, InjectiveChain, InjectiveLineage, Chained, ChainedAt, IsHistory;
    ChainedFacts(c, s, i);
    ChainedFacts(c, t, i);
    if s.blocks[i] == t.blocks[i] {
      SameIdentitySamePrefix(c, s, t, i);
    }
    if s.tokens[..n] == t.tokens[..n] {
      EqualPrefixesShareBlocks(c, xs, xedits, ys, yedits, i);
    }
    if InjectiveLineage(c.hasher) && s.plhs[i] == t.plhs[i] {
      SameLineageSameIdentity(c, s, t, i, i);
      SameIdentitySamePrefix(c, s, t, i);
    }
  }

  // ----- without prefix caching identities are drawn

  /** Block `i` carries the values of `draw`. */
  ghost predicate DrawnAt(c: Config, s: SeqState, i: nat, draw: Draw)
    requires i < |s.blockHashes| == |s.plhs| <= |s.blocks|
  {
    s.blocks[i] == FullBlock(draw.hash) && s.plhs[i] == c.hasher.lineage(draw.lineageSeed, None, i)
  }

  ghost predicate DrawnAll(c: Config, s: SeqState, draws: seq<Draw>) {
    && |draws| == |s.blockHashes| == |s.plhs| <= |s.blocks|
    && (forall i :: 0 <= i < |draws| ==> DrawnAt(c, s, i, draws[i]))
  }

  /** The draws that blocks were given, in order: at creation one per full block, later the draw of every push
      that opens a block behind a partial one. */
  ghost function PromotingDraws(c: Config, first: seq<Draw>, states: seq<SeqState>, edits: seq<Edit>, i: nat): seq<Draw>
    requires IsHistory(c, states, edits) && i < |states|
  {
    if i == 0 then first
    else
      PromotingDraws(c, first, states, edits, i - 1)
      + (if edits[i - 1].PushToken? && Opens(c, states[i - 1]) && LastIsPartial(states[i - 1]) then [edits[i - 1].draw] else [])
  }

  lemma CreatedDrawn(c: Config, tokens: seq<Token>, draws: nat -> Draw, tail: Uuid)
    requires c.blockSize >= 2 && !c.caching
    ensures DrawnAll(c, Created(c, tokens, draws, tail), seq(|tokens| / c.blockSize, i requires 0 <= i => draws(i)))
  {
    hide Shape, BlockTokens;
    CreatedShape(c, tokens, draws, tail);
    ShapeLengths(c, Created(c, tokens, draws, tail));
    var s, first := Created(c, tokens, draws, tail), seq(|tokens| / c.blockSize, i requires 0 <= i => draws(i));
    forall i | 0 <= i < |first|
      ensures DrawnAt(c, s, i, first[i])
    {
      assert first[i] == draws(i);
      assert s.blocks[i] == FullBlock(Identity(c, tokens, i, draws(i)));
      assert s.plhs[i] == LineageOf(c, tokens, i, i, draws(i));
    }
  }

  lemma ShapeLengths(c: Config, s: SeqState)
    requires Shape(c, s)
    ensures |s.plhs| == |s.blockHashes| <= |s.blocks|
  {
  }

  lemma PushDrawn(c: Config, s: SeqState, token: Token, draw: Draw, draws: seq<Draw>)
    requires Shape(c, s) && !c.caching && DrawnAll(c, s, draws)
    ensures DrawnAll(c, Pushed(c, s, token, draw),
                     draws + if Opens(c, s) && LastIsPartial(s) then [draw] else [])
  {
    hide BlockTokens;
    PushShape(c, s, token, draw);
    if Opens(c, s) && LastIsPartial(s) {
      PromotionIsSafe(c, s, token);
      var t, k := Pushed(c, s, token, draw), |draws|;
      assert DrawnAt(c, t, k, draw);
      assert forall i :: 0 <= i < k ==> t.blocks[i] == s.blocks[i] && t.plhs[i] == s.plhs[i];
      assert forall i :: 0 <= i < k ==> DrawnAt(c, s, i, draws[i]);
    } else {
      assert draws + [] == draws;
      assert forall i :: 0 <= i < |draws| ==> DrawnAt(c, s, i, draws[i]);
    }
  }

  lemma PopDrawn(c: Config, s: SeqState, draws: seq<Draw>)
    requires Shape(c, s) && (s.tokens == [] || LastIsPartial(s)) && DrawnAll(c, s, draws)
    ensures DrawnAll(c, Popped(c, s), draws)
  {
    PopShapeIff(c, s);
    var t := Popped(c, s);
    assert forall i :: 0 <= i < |draws| ==> DrawnAt(c, s, i, draws[i]) && t.blocks[i] == s.blocks[i];
  }

  lemma StartOf(c: Config, states: seq<SeqState>, edits: seq<Edit>) returns (tokens: seq<Token>, draws: nat -> Draw, tail: Uuid)
    requires IsHistory(c, states, edits)
    ensures c.blockSize >= 2 && states != [] && states[0] == Created(c, tokens, draws, tail)
  {
    tokens, draws, tail :| states[0] == Created(c, tokens, draws, tail);
  }

  /** Without prefix caching every full block carries exactly the values drawn for it, after every legal
      history. */
  lemma {:induction false} HistoryDrawsIdentities(c: Config, states: seq<SeqState>, edits: seq<Edit>, i: nat)
    returns (first: seq<Draw>)
    requires IsHistory(c, states, edits) && i < |states| && !c.caching
    ensures |first| == FullAtCreation(c, states)
    ensures DrawnAll(c, states[i], PromotingDraws(c, first, states, edits, i))
  {
    var tokens, draws, tail := StartOf(c, states, edits);
    hide DrawnAll, Created, IsHistory;
    first := seq(|tokens| / c.blockSize, i requires 0 <= i => draws(i));
    CreatedTokens(c, tokens, draws, tail);
    CreatedDrawn(c, tokens, draws, tail);
    DrawnFrom(c, first, states, edits, i);
  }

  lemma {:induction false} DrawnFrom(c: Config, first: seq<Draw>, states: seq<SeqState>, edits: seq<Edit>, i: nat)
    requires IsHistory(c, states, edits) && i < |states| && !c.caching && DrawnAll(c, states[0], first)
    ensures DrawnAll(c, states[i], PromotingDraws(c, first, states, edits, i))
  {
    hide DrawnAll, Pushed, Popped, Created, Shape, Opens, LastIsPartial;
    if i > 0 {
      DrawnFrom(c, first, states, edits, i - 1);
      var draws := PromotingDraws(c, first, states, edits, i - 1);
      assert Edits(c, states[i - 1], edits[i - 1], states[i]);
      match edits[i - 1]
      case PushToken(token, draw) => PushDrawn(c, states[i - 1], token, draw, draws);
      case PopToken =>
        PopDrawn(c, states[i - 1], draws);
        assert draws + [] == draws;
    }
  }

  /** So requests that draw different values share no full block, even for equal tokens. */
  lemma DifferentDrawsShareNothing(c: Config, s: SeqState, x: seq<Draw>, t: SeqState, y: seq<Draw>, i: nat, j: nat)
    requires DrawnAll(c, s, x) && DrawnAll(c, t, y)
    requires forall d, e :: d in x && e in y ==> d.hash != e.hash
    requires i < |s.blockHashes| && j < |t.blockHashes|
    ensures s.blocks[i] != t.blocks[j]
  {
    assert DrawnAt(c, s, i, x[i]) && DrawnAt(c, t, j, y[j]);
  }
}
