/**
 Whole runs of one request under the scheduler (lib/mocker/src/scheduler/vllm/core.rs):
 chunked allocation that may be cut short, decode steps whose block request may be
 refused and undone, preemption, re-admission, completion and removal.  The consumer of
 the signals is represented by replaying them.
 */
module Driver {
  import opened Wrappers
  import opened BlockMath
  import opened SequenceModel

  // ----- replaying signals

  /** The strict consumer keeps the chain of held blocks: it promotes and frees only at the end. */
  function Released(held: seq<UniqueBlock>, freed: seq<UniqueBlock>): Option<seq<UniqueBlock>> {
    if freed == [] then Some(held)
    else if held != [] && held[|held| - 1] == freed[0] then Released(held[..|held| - 1], freed[1..])
    else None
  }

  function ReplayOne(held: seq<UniqueBlock>, m: MoveBlock): Option<seq<UniqueBlock>> {
    match m
    case Use(blocks, _, _, _, _) => Some(held + blocks)
    case Deref(freed) => Released(held, freed)
    case Promote(uuid, hash, _, _, _, _) =>
      if held != [] && held[|held| - 1] == PartialBlock(uuid)
      then Some(held[..|held| - 1] + [FullBlock(hash)])
      else None
  }

  function Replay(held: seq<UniqueBlock>, ms: seq<MoveBlock>): Option<seq<UniqueBlock>>
    decreases |ms|
  {
    if ms == [] then Some(held)
    else match ReplayOne(held, ms[0])
      case None => None
      case Some(h) => Replay(h, ms[1..])
  }

  /** The reference-counting consumer keeps a multiset and refuses to free or promote what it
      does not hold. */
  function LedgerOne(held: multiset<UniqueBlock>, m: MoveBlock): Option<multiset<UniqueBlock>> {
    match m
    case Use(blocks, _, _, _, _) => Some(held + multiset(blocks))
    case Deref(freed) => if multiset(freed) <= held then Some(held - multiset(freed)) else None
    case Promote(uuid, hash, _, _, _, _) =>
      if PartialBlock(uuid) in held
      then Some(held - multiset{PartialBlock(uuid)} + multiset{FullBlock(hash)})
      else None
  }

  function Ledger(held: multiset<UniqueBlock>, ms: seq<MoveBlock>): Option<multiset<UniqueBlock>>
    decreases |ms|
  {
    if ms == [] then Some(held)
    else match LedgerOne(held, ms[0])
      case None => None
      case Some(h) => Ledger(h, ms[1..])
  }

  lemma {:induction false} ReleasedAsMultiset(held: seq<UniqueBlock>, freed: seq<UniqueBlock>)
    requires Released(held, freed).Some?
    ensures multiset(held) == multiset(Released(held, freed).value) + multiset(freed)
  {
    if freed != [] {
      ReleasedAsMultiset(held[..|held| - 1], freed[1..]);
      assert held == held[..|held| - 1] + [freed[0]];
      assert freed == [freed[0]] + freed[1..];
    }
  }

  lemma WithoutLast(held: seq<UniqueBlock>)
    requires held != []
    ensures held[|held| - 1] in multiset(held)
    ensures multiset(held) - multiset{held[|held| - 1]} == multiset(held[..|held| - 1])
  {
    assert held == held[..|held| - 1] + [held[|held| - 1]];
  }

  lemma ReplayOneRefinesLedger(held: seq<UniqueBlock>, m: MoveBlock)
    requires ReplayOne(held, m).Some?
    ensures LedgerOne(multiset(held), m) == Some(multiset(ReplayOne(held, m).value))
  {
    hide Released;
    match m
    case Use(_, _, _, _, _) =>
    case Deref(freed) =>
      ReleasedAsMultiset(held, freed);
      assert multiset(held) - multiset(freed) == multiset(Released(held, freed).value);
    case Promote(_, _, _, _, _, _) => WithoutLast(held);
  }

  /** Whatever the strict consumer accepts, the reference-counting one accepts, with the same content. */
  lemma {:induction false} ReplayRefinesLedger(held: seq<UniqueBlock>, ms: seq<MoveBlock>)
    requires Replay(held, ms).Some?
    ensures Ledger(multiset(held), ms) == Some(multiset(Replay(held, ms).value))
    decreases |ms|
  {
    if ms != [] {
      ReplayOneRefinesLedger(held, ms[0]);
      ReplayRefinesLedger(ReplayOne(held, ms[0]).value, ms[1..]);
    }
  }

  lemma {:induction false} ReplayConcat(held: seq<UniqueBlock>, ms: seq<MoveBlock>, ns: seq<MoveBlock>)
    requires Replay(held, ms).Some?
    ensures Replay(held, ms + ns) == Replay(Replay(held, ms).value, ns)
    decreases |ms|
  {
    if ms == [] {
      assert ms + ns == ns;
    } else {
      assert (ms + ns)[1..] == ms[1..] + ns;
      ReplayConcat(ReplayOne(held, ms[0]).value, ms[1..], ns);
    }
  }

  /** Freeing a chain last block first returns everything and nothing else. */
  lemma {:induction false} ReplayFrees(blocks: seq<UniqueBlock>)
    ensures Replay(blocks, FreeSignals(blocks)) == Some([])
  {
    if blocks != [] {
      var rest := blocks[..|blocks| - 1];
      assert Released(blocks, [blocks[|blocks| - 1]]) == Some(rest);
      assert FreeSignals(blocks)[1..] == FreeSignals(rest);
      ReplayFrees(rest);
    }
  }

  /** Replaying a push on the whole chain gives the whole chain after the push. */
  lemma ReplayPush(c: Config, s: SeqState, token: Token, draw: Draw)
    requires Shape(c, s)
    ensures Replay(s.blocks, PushSignals(c, s, token, draw)) == Some(Pushed(c, s, token, draw).blocks)
  {
    var ms, t := PushSignals(c, s, token, draw), Pushed(c, s, token, draw);
    if Opens(c, s) {
      var use := UsePartial(draw.uuid);
      if LastIsPartial(s) {
        PromotionIsSafe(c, s, token);
        var p := Promoted(c, Appended(s, token), draw);
        assert ReplayOne(s.blocks, ms[0]) == Some(p.blocks);
        assert ms[1..] == [use];
        assert Replay(p.blocks, [use]) == Replay(p.blocks + [PartialBlock(draw.uuid)], []);
      } else {
        assert Replay(s.blocks, [use]) == Replay(s.blocks + [PartialBlock(draw.uuid)], []);
      }
    }
  }

  // ----- the driver

  datatype Op =
    | Allocate(target: nat, accepted: nat)
    | Decode(token: Token, draw: Draw)
    | DecodeRefused(token: Token, draw: Draw)
    | Preempt
    | Drop

  /** `log` is every signal announced so far, `sent` what the consumer processed of them:
      a `Use` counts with the blocks that were granted. */
  datatype DriverState = DriverState(sequence: SeqState, live: bool, log: seq<MoveBlock>, sent: seq<MoveBlock>)

  /** What the strict consumer holds: `None` if it ever saw a block freed or promoted out of turn. */
  function Held(d: DriverState): Option<seq<UniqueBlock>> {
    Replay([], d.sent)
  }

  /** When the scheduler takes each step. */
  predicate Enabled(c: Config, d: DriverState, op: Op)
    requires c.blockSize > 0 && |d.sequence.plhs| == |d.sequence.blockHashes|
  {
    var s := d.sequence;
    d.live &&
    match op
    case Allocate(target, accepted) =>
      && s.numAllocated < target <= |s.tokens|
      && var signal := Prepared(c, s, target);
         (signal.Some? ==> accepted <= |signal.value.blocks|)
    case Decode(_, _) => s.numAllocated == |s.tokens| && s.generated < c.maxOutput
    case DecodeRefused(_, _) => s.numAllocated == |s.tokens| && s.generated < c.maxOutput && Opens(c, s)
    case Preempt => true
    case Drop => true
  }

  /** How many tokens count as allocated after `accepted` of the requested blocks were granted. */
  function CommitTarget(c: Config, s: SeqState, target: nat, accepted: nat, requested: nat): nat
    requires c.blockSize > 0
  {
    if accepted == requested then target
    else Min((Covered(c, s, s.numAllocated) + accepted) * c.blockSize, target)
  }

  function Step(c: Config, d: DriverState, op: Op): DriverState
    requires Shape(c, d.sequence) && Enabled(c, d, op)
  {
    var s := d.sequence;
    match op
    case Allocate(target, accepted) =>
      (match Prepared(c, s, target)
       case None => d.(sequence := Committed(s, target))
       case Some(use) =>
         d.(sequence := Committed(s, CommitTarget(c, s, target, accepted, |use.blocks|)),
            log := d.log + [use],
            sent := d.sent + [use.(blocks := use.blocks[..accepted])]))
    case Decode(token, draw) =>
      var ms, t := GenerateSignals(c, s, token, draw), Pushed(c, s, token, draw);
      var more := t.generated < c.maxOutput;
      DriverState(if more then Committed(t, |t.tokens|) else t, more, d.log + ms, d.sent + ms)
    case DecodeRefused(token, draw) =>
      var ms := PushSignals(c, s, token, draw);
      // Everything before the refused `Use` has been processed.
      DriverState(Popped(c, Pushed(c, s, token, draw)), true,
                  d.log + GenerateSignals(c, s, token, draw), d.sent + ms[..|ms| - 1])
    case Preempt =>
      var ms := FreeSignalsFor(c, s, s.numAllocated);
      d.(sequence := Committed(s, 0), log := d.log + ms, sent := d.sent + ms)
    case Drop =>
      var ms := FreeSignalsFor(c, s, s.numAllocated);
      d.(live := false, log := d.log + ms, sent := d.sent + ms)
  }

  /** What every driver state keeps: sound caches, and a consumer that holds exactly the
      allocated prefix of the chain, or nothing once the request is gone. */
  ghost predicate Inv(c: Config, d: DriverState) {
    && Cached(c, d.sequence)
    && d.sequence.numAllocated <= |d.sequence.tokens|
    && Held(d) == Some(if d.live then d.sequence.blocks[..Covered(c, d.sequence, d.sequence.numAllocated)] else [])
  }

  lemma FullyAllocated(c: Config, s: SeqState)
    requires Shape(c, s)
    ensures Covered(c, s, |s.tokens|) == |s.blocks|
    ensures s.blocks[..Covered(c, s, |s.tokens|)] == s.blocks
  {
  }

  /** Committing what was granted covers exactly the granted blocks. */
  lemma CommitCoversGrant(c: Config, s: SeqState, target: nat, accepted: nat)
    requires Shape(c, s) && s.numAllocated <= target <= |s.tokens|
    requires var prev, want := Covered(c, s, s.numAllocated), Covered(c, s, target);
             prev < want && accepted <= want - prev
    ensures var prev, want := Covered(c, s, s.numAllocated), Covered(c, s, target);
            var n := CommitTarget(c, s, target, accepted, want - prev);
            n <= |s.tokens| && Covered(c, s, n) == prev + accepted
  {
    var got := Covered(c, s, s.numAllocated) + accepted;
    CeilDivIs(got * c.blockSize, c.blockSize, got);
    if target < got * c.blockSize {
      CeilDivMonotone(target, got * c.blockSize, c.blockSize);
    }
  }

  /** What is committed after a grant is the greatest number of tokens up to the target that the blocks held
      then can take. */
  lemma CommitIsGreatest(c: Config, s: SeqState, target: nat, accepted: nat, m: nat)
    requires Shape(c, s) && s.numAllocated <= target <= |s.tokens|
    requires var prev, want := Covered(c, s, s.numAllocated), Covered(c, s, target);
             prev < want && accepted <= want - prev && m <= target && Covered(c, s, m) <= prev + accepted
    ensures var prev, want := Covered(c, s, s.numAllocated), Covered(c, s, target);
            var n := CommitTarget(c, s, target, accepted, want - prev);
            m <= n <= target && Covered(c, s, n) == prev + accepted
  {
    CommitCoversGrant(c, s, target, accepted);
    var got := Covered(c, s, s.numAllocated) + accepted;
    CeilDivMonotone(m, |s.tokens|, c.blockSize);
    MulMonotone(CeilDiv(m, c.blockSize), got, c.blockSize);
  }

  /** Replaying a grant extends the held prefix of the chain by the granted blocks. */
  lemma ReplayGrant(s: SeqState, sent: seq<MoveBlock>, use: MoveBlock, prev: nat, want: nat, accepted: nat)
    requires prev <= want <= |s.blocks| && accepted <= want - prev && use.Use?
    requires use.blocks == s.blocks[prev..want][..accepted] && Replay([], sent) == Some(s.blocks[..prev])
    ensures Replay([], sent + [use]) == Some(s.blocks[..prev + accepted])
  {
    ReplayConcat([], sent, [use]);
    assert [use][1..] == [];
    assert Replay(s.blocks[..prev], [use]) == Replay(s.blocks[..prev] + use.blocks, []);
    assert s.blocks[..prev] + use.blocks == s.blocks[..prev + accepted];
  }

  lemma StepAllocate(c: Config, d: DriverState, target: nat, accepted: nat)
    requires Inv(c, d) && Enabled(c, d, Allocate(target, accepted))
    ensures Inv(c, Step(c, d, Allocate(target, accepted)))
  {
    hide CachedAt, CommitTarget, Replay;
    var s := d.sequence;
    var e := Step(c, d, Allocate(target, accepted));
    CommitKeepsCache(c, s, e.sequence.numAllocated);
    var prev, want := Covered(c, s, s.numAllocated), Covered(c, s, target);
    if prev < want {
      CommitCoversGrant(c, s, target, accepted);
      var use := Prepared(c, s, target).value;
      ReplayGrant(s, d.sent, use.(blocks := use.blocks[..accepted]), prev, want, accepted);
      hide Prepared;
    } else {
      CeilDivMonotone(s.numAllocated, target, c.blockSize);
    }
  }

  lemma StepDecode(c: Config, d: DriverState, token: Token, draw: Draw)
    requires Inv(c, d) && Enabled(c, d, Decode(token, draw))
    ensures Inv(c, Step(c, d, Decode(token, draw)))
  {
    hide CachedAt;
    var s, t := d.sequence, Pushed(c, d.sequence, token, draw);
    PushKeepsCache(c, s, token, draw);
    FullyAllocated(c, s);
    FullyAllocated(c, t);
    ReplayPush(c, s, token, draw);
    var ms := PushSignals(c, s, token, draw);
    ReplayConcat([], d.sent, GenerateSignals(c, s, token, draw));
    if t.generated == c.maxOutput {
      ReplayConcat(s.blocks, ms, FreeSignals(t.blocks));
      ReplayFrees(t.blocks);
    } else {
      assert ms + [] == ms;
      CommitKeepsCache(c, t, |t.tokens|);
    }
  }

  lemma StepDecodeRefused(c: Config, d: DriverState, token: Token, draw: Draw)
    requires Inv(c, d) && Enabled(c, d, DecodeRefused(token, draw))
    ensures Inv(c, Step(c, d, DecodeRefused(token, draw)))
  {
    hide CachedAt;
    var s, t := d.sequence, Pushed(c, d.sequence, token, draw);
    PushKeepsCache(c, s, token, draw);
    PopUndoesOpening(c, s, token, draw);
    PopKeepsCache(c, t);
    FullyAllocated(c, s);
    FullyAllocated(c, Popped(c, t));
    var ms := PushSignals(c, s, token, draw);
    ReplayConcat([], d.sent, ms[..|ms| - 1]);
    if LastIsPartial(s) {
      PromotionIsSafe(c, s, token);
      assert ms[..|ms| - 1] == [ms[0]];
      var p := Promoted(c, Appended(s, token), draw).blocks;
      assert ReplayOne(s.blocks, ms[0]) == Some(p);
      assert Replay(s.blocks, [ms[0]]) == Replay(p, []);
    } else {
      assert ms[..|ms| - 1] == [];
    }
  }

  lemma StepRelease(c: Config, d: DriverState, op: Op)
    requires Inv(c, d) && Enabled(c, d, op) && (op.Preempt? || op.Drop?)
    ensures Inv(c, Step(c, d, op))
    ensures Held(Step(c, d, op)) == Some([])
  {
    var s := d.sequence;
    ReplayConcat([], d.sent, FreeSignalsFor(c, s, s.numAllocated));
    ReplayFrees(s.blocks[..Covered(c, s, s.numAllocated)]);
    if op.Preempt? {
      CeilDivIs(0, c.blockSize, 0);
      CommitKeepsCache(c, s, 0);
    }
  }

  lemma StepKeepsInv(c: Config, d: DriverState, op: Op)
    requires Inv(c, d) && Enabled(c, d, op)
    ensures Inv(c, Step(c, d, op))
  {
    match op
    case Allocate(target, accepted) => StepAllocate(c, d, target, accepted);
    case Decode(token, draw) => StepDecode(c, d, token, draw);
    case DecodeRefused(token, draw) => StepDecodeRefused(c, d, token, draw);
    case Preempt => StepRelease(c, d, op);
    case Drop => StepRelease(c, d, op);
  }

  // ----- promotions over a run

  function Promotions(log: seq<MoveBlock>): (r: seq<MoveBlock>)
    ensures forall i :: 0 <= i < |r| ==> r[i].Promote?
  {
    if log == [] then []
    else Promotions(log[..|log| - 1]) + (if log[|log| - 1].Promote? then [log[|log| - 1]] else [])
  }

  lemma {:induction false} PromotionsConcat(x: seq<MoveBlock>, y: seq<MoveBlock>)
    ensures Promotions(x + y) == Promotions(x) + Promotions(y)
  {
    if y == [] {
      assert x + y == x;
    } else {
      assert (x + y)[..|x + y| - 1] == x + y[..|y| - 1];
      PromotionsConcat(x, y[..|y| - 1]);
    }
  }

  lemma {:induction false} NoPromotions(log: seq<MoveBlock>)
    requires forall i :: 0 <= i < |log| ==> !log[i].Promote?
    ensures Promotions(log) == []
  {
    if log != [] {
      NoPromotions(log[..|log| - 1]);
    }
  }

  /** The promotion of block `i` announces that block's cached hashes and, if asked for, its tokens,
      and names the identity of block `i - 1` as its parent. */
  ghost predicate Announces(c: Config, s: SeqState, m: MoveBlock, i: nat)
    requires i < |s.blockHashes| <= |s.blocks| && |s.plhs| == |s.blockHashes|
  {
    && m.Promote?
    && m.promoted == (if c.emitTokenIds then Some(BlockTokens(s.tokens, c.blockSize, i)) else None)
    && s.blocks[i] == FullBlock(m.seqHash) && s.blockHashes[i] == m.blockHash && s.plhs[i] == m.plh
    && (if i == 0 then m.parent == None
        else s.blocks[i - 1].FullBlock? && m.parent == Some(s.blocks[i - 1].hash))
  }

  /** The promotions announced so far are those of the full blocks from index `first` on,
      in order, one each; and every announced signal meets the consumer's assertions. */
  ghost predicate LogInv(c: Config, d: DriverState, first: nat) {
    var s, ps := d.sequence, Promotions(d.log);
    && Shape(c, s)
    && first + |ps| == |s.blockHashes|
    && (forall j :: 0 <= j < |ps| ==> Announces(c, s, ps[j], first + j))
    && (forall j :: 0 <= j < |d.log| ==> WellFormed(d.log[j]))
  }

  lemma PushSignalKinds(c: Config, s: SeqState, token: Token, draw: Draw)
    requires Shape(c, s)
    ensures var ms := PushSignals(c, s, token, draw);
            if Opens(c, s) && LastIsPartial(s) then |ms| == 2 && ms[0].Promote? && !ms[1].Promote?
            else forall i :: 0 <= i < |ms| ==> !ms[i].Promote?
  {
    if Opens(c, s) && LastIsPartial(s) {
      PromotionIsSafe(c, s, token);
    }
  }

  /** A push announces a promotion exactly if it opens a block behind a partial one. */
  lemma PushPromotions(c: Config, s: SeqState, token: Token, draw: Draw)
    requires Shape(c, s)
    ensures var ms := PushSignals(c, s, token, draw);
            if Opens(c, s) && LastIsPartial(s) then |ms| == 2 && Promotions(ms) == [ms[0]] else Promotions(ms) == []
  {
    hide PushSignals, Promotions, Opens, LastIsPartial;
    PushSignalKinds(c, s, token, draw);
    var ms := PushSignals(c, s, token, draw);
    if Opens(c, s) && LastIsPartial(s) {
      assert ms == [ms[0]] + [ms[1]];
      PromotionsConcat([ms[0]], [ms[1]]);
      OnePromotion(ms[0]);
      NoPromotions([ms[1]]);
    } else {
      NoPromotions(ms);
    }
  }

  lemma OnePromotion(m: MoveBlock)
    requires m.Promote?
    ensures Promotions([m]) == [m]
  {
    assert [m][..0] == [];
  }

  lemma PromotionAnnounced(c: Config, s: SeqState, token: Token, draw: Draw)
    requires Shape(c, s) && Opens(c, s) && LastIsPartial(s)
    ensures var t, k := Pushed(c, s, token, draw), |s.blockHashes|;
            && |t.blockHashes| == |t.plhs| == k + 1 && |t.blocks| == k + 2
            && Announces(c, t, PushSignals(c, s, token, draw)[0], k)
  {
    hide SequenceHash, LineageHash, BlockTokens, Identity, LineageOf;
    PromotionIsSafe(c, s, token);
    var t, k := Pushed(c, s, token, draw), |s.blockHashes|;
    assert s.blocks[..k + 1] == s.blocks[..|s.blocks|] && t.blocks[..k] == s.blocks[..k];
    assert k > 0 ==> t.blocks[k - 1] == s.blocks[k - 1];
  }

  lemma PushAnnounces(c: Config, s: SeqState, token: Token, draw: Draw)
    requires Shape(c, s)
    ensures var t, ps := Pushed(c, s, token, draw), Promotions(PushSignals(c, s, token, draw));
            && Shape(c, t)
            && |t.blockHashes| == |s.blockHashes| + |ps|
            && (forall j :: 0 <= j < |ps| ==> Announces(c, t, ps[j], |s.blockHashes| + j))
  {
    hide Announces, PushSignals, Promotions;
    PushShape(c, s, token, draw);
    PushPromotions(c, s, token, draw);
    if Opens(c, s) && LastIsPartial(s) {
      PromotionAnnounced(c, s, token, draw);
      hide Pushed;
    }
  }

  /** The tokens of all full blocks of `s` are still there in `t`. */
  ghost predicate SameFullTokens(c: Config, s: SeqState, t: SeqState) {
    var n := |s.blockHashes| * c.blockSize;
    n <= |s.tokens| && n <= |t.tokens| && s.tokens[..n] == t.tokens[..n]
  }

  lemma SameBlockTokens(c: Config, s: SeqState, t: SeqState, i: nat)
    requires SameFullTokens(c, s, t) && i < |s.blockHashes|
    ensures BlockTokens(s.tokens, c.blockSize, i) == BlockTokens(t.tokens, c.blockSize, i)
  {
    var n := |s.blockHashes| * c.blockSize;
    MulMonotone(i + 1, |s.blockHashes|, c.blockSize);
    var end := (i + 1) * c.blockSize;
    assert s.tokens[..end] == s.tokens[..n][..end] == t.tokens[..end];
    HashOfPrefix(c.hasher, s.tokens, t.tokens, c.blockSize, i);
  }

  /** What is announced about block `i` stays true while full blocks and their tokens are kept. */
  lemma AnnouncesTransfers(c: Config, s: SeqState, t: SeqState, m: MoveBlock, i: nat)
    requires i < |s.blockHashes| <= |s.blocks| && |s.plhs| == |s.blockHashes|
    requires s.blockHashes <= t.blockHashes && s.plhs <= t.plhs
    requires |t.plhs| == |t.blockHashes| <= |t.blocks|
    requires forall k :: 0 <= k < |s.blockHashes| ==> t.blocks[k] == s.blocks[k]
    requires SameFullTokens(c, s, t) && Announces(c, s, m, i)
    ensures Announces(c, t, m, i)
  {
    SameBlockTokens(c, s, t, i);
    hide BlockTokens, SameFullTokens;
    assert t.blocks[i] == s.blocks[i];
    assert i > 0 ==> t.blocks[i - 1] == s.blocks[i - 1];
  }

  /** Announcing `more` on top of the log, while the state keeps its full blocks and gains those
      that `more` promotes. */
  lemma LogGrows(c: Config, d: DriverState, e: DriverState, first: nat, more: seq<MoveBlock>)
    requires LogInv(c, d, first) && e.log == d.log + more && Shape(c, e.sequence)
    requires d.sequence.blockHashes <= e.sequence.blockHashes && d.sequence.plhs <= e.sequence.plhs
    requires forall i :: 0 <= i < |d.sequence.blockHashes| ==> e.sequence.blocks[i] == d.sequence.blocks[i]
    requires SameFullTokens(c, d.sequence, e.sequence)
    requires |e.sequence.blockHashes| == |d.sequence.blockHashes| + |Promotions(more)|
    requires forall j :: 0 <= j < |Promotions(more)| ==>
               Announces(c, e.sequence, Promotions(more)[j], |d.sequence.blockHashes| + j)
    requires forall j :: 0 <= j < |more| ==> WellFormed(more[j])
    ensures LogInv(c, e, first)
  {
    hide Announces, WellFormed, Promotions, SameFullTokens, CeilDiv;
    PromotionsConcat(d.log, more);
    var ps, k := Promotions(d.log), |d.sequence.blockHashes|;
    forall j | 0 <= j < |Promotions(e.log)|
      ensures Announces(c, e.sequence, Promotions(e.log)[j], first + j)
    {
      if j < |ps| {
        AnnouncesTransfers(c, d.sequence, e.sequence, ps[j], first + j);
      } else {
        assert Announces(c, e.sequence, Promotions(more)[j - |ps|], k + (j - |ps|));
      }
    }
  }

  lemma GenerateAnnounces(c: Config, s: SeqState, token: Token, draw: Draw)
    requires Shape(c, s) && s.generated < c.maxOutput
    ensures Promotions(GenerateSignals(c, s, token, draw)) == Promotions(PushSignals(c, s, token, draw))
    ensures forall m :: m in GenerateSignals(c, s, token, draw) ==> WellFormed(m)
  {
    var t, ms := Pushed(c, s, token, draw), PushSignals(c, s, token, draw);
    var frees := if t.generated != c.maxOutput then [] else FreeSignalsFor(c, t, |t.tokens|);
    PromotionsConcat(ms, frees);
    NoPromotions(frees);
    PushSignalsWellFormed(c, s, token, draw);
  }

  lemma PushPrefix(c: Config, s: SeqState, token: Token, draw: Draw)
    requires Shape(c, s)
    ensures var t := Pushed(c, s, token, draw);
            && s.blockHashes <= t.blockHashes && s.plhs <= t.plhs
            && |t.blocks| >= |s.blocks|
            && (forall i :: 0 <= i < |s.blockHashes| ==> t.blocks[i] == s.blocks[i])
  {
    if Opens(c, s) && LastIsPartial(s) {
      PromotionIsSafe(c, s, token);
    }
  }

  /** The state after a decode step keeps the caches of the state after its push. */
  lemma DecodeKeepsCaches(c: Config, d: DriverState, op: Op)
    requires Shape(c, d.sequence) && Enabled(c, d, op) && (op.Decode? || op.DecodeRefused?)
    ensures var t, u := Pushed(c, d.sequence, op.token, op.draw), Step(c, d, op).sequence;
            && u.blockHashes == t.blockHashes && u.plhs == t.plhs
            && |t.blockHashes| <= |u.blocks| <= |t.blocks| && u.blocks == t.blocks[..|u.blocks|]
    ensures Step(c, d, op).log == d.log + GenerateSignals(c, d.sequence, op.token, op.draw)
  {
    hide GenerateSignals, PushSignals;
    PushShape(c, d.sequence, op.token, op.draw);
    if op.DecodeRefused? {
      PopUndoesOpening(c, d.sequence, op.token, op.draw);
    }
  }

  /** A decode step, refused or not, only touches tokens behind the full blocks. */
  lemma DecodeKeepsTokens(c: Config, d: DriverState, op: Op)
    requires Shape(c, d.sequence) && Enabled(c, d, op) && (op.Decode? || op.DecodeRefused?)
    requires Shape(c, Step(c, d, op).sequence)
    ensures SameFullTokens(c, d.sequence, Step(c, d, op).sequence)
    ensures SameFullTokens(c, Pushed(c, d.sequence, op.token, op.draw), Step(c, d, op).sequence)
  {
    hide GenerateSignals, PushSignals;
    var t, u := Pushed(c, d.sequence, op.token, op.draw), Step(c, d, op).sequence;
    PushShape(c, d.sequence, op.token, op.draw);
    DecodeKeepsCaches(c, d, op);
    assert t.tokens == d.sequence.tokens + [op.token];
    assert u.tokens == t.tokens || u.tokens == t.tokens[..|t.tokens| - 1];
  }

  lemma DecodeKeepsLog(c: Config, d: DriverState, op: Op, first: nat)
    requires Shape(c, d.sequence) && Enabled(c, d, op) && (op.Decode? || op.DecodeRefused?)
    requires LogInv(c, d, first) && Shape(c, Step(c, d, op).sequence)
    ensures LogInv(c, Step(c, d, op), first)
  {
    hide Announces, WellFormed, Step, Pushed, PushSignals, GenerateSignals, Promotions, SameFullTokens;
    var s, token, draw := d.sequence, op.token, op.draw;
    var t, u := Pushed(c, s, token, draw), Step(c, d, op).sequence;
    PushAnnounces(c, s, token, draw);
    GenerateAnnounces(c, s, token, draw);
    PushPrefix(c, s, token, draw);
    DecodeKeepsCaches(c, d, op);
    DecodeKeepsTokens(c, d, op);
    var ps, k := Promotions(GenerateSignals(c, s, token, draw)), |s.blockHashes|;
    forall j | 0 <= j < |ps|
      ensures Announces(c, u, ps[j], k + j)
    {
      AnnouncesTransfers(c, t, u, ps[j], k + j);
    }
    LogGrows(c, d, Step(c, d, op), first, GenerateSignals(c, s, token, draw));
  }

  lemma AllocateKeepsLog(c: Config, d: DriverState, op: Op, first: nat)
    requires Shape(c, d.sequence) && Enabled(c, d, op) && op.Allocate?
    requires LogInv(c, d, first) && Shape(c, Step(c, d, op).sequence)
    ensures LogInv(c, Step(c, d, op), first)
  {
    hide Announces, WellFormed, CommitTarget;
    var signal := Prepared(c, d.sequence, op.target);
    PreparedIsWellFormed(c, d.sequence, op.target);
    hide Prepared;
    var more := if signal.None? then [] else [signal.value];
    NoPromotions(more);
    assert Step(c, d, op).log == d.log + more;
    LogGrows(c, d, Step(c, d, op), first, more);
  }

  lemma ReleaseKeepsLog(c: Config, d: DriverState, op: Op, first: nat)
    requires Shape(c, d.sequence) && Enabled(c, d, op) && (op.Preempt? || op.Drop?)
    requires LogInv(c, d, first) && Shape(c, Step(c, d, op).sequence)
    ensures LogInv(c, Step(c, d, op), first)
  {
    hide Announces, FullCount;
    var more := FreeSignalsFor(c, d.sequence, d.sequence.numAllocated);
    NoPromotions(more);
    LogGrows(c, d, Step(c, d, op), first, more);
  }

  // ----- runs

  lemma StepKeepsLog(c: Config, d: DriverState, op: Op, first: nat)
    requires Inv(c, d) && LogInv(c, d, first) && Enabled(c, d, op)
    ensures Inv(c, Step(c, d, op)) && LogInv(c, Step(c, d, op), first)
  {
    StepKeepsInv(c, d, op);
    if op.Decode? || op.DecodeRefused? {
      DecodeKeepsLog(c, d, op, first);
    } else if op.Allocate? {
      AllocateKeepsLog(c, d, op, first);
    } else {
      ReleaseKeepsLog(c, d, op, first);
    }
  }

  /** `e` follows from `d` by an enabled step. */
  ghost predicate Follows(c: Config, d: DriverState, op: Op, e: DriverState) {
    Shape(c, d.sequence) && Enabled(c, d, op) && e == Step(c, d, op)
  }

  /** How many blocks `tokens` fill. */
  function FullIn(c: Config, tokens: seq<Token>): nat {
    if c.blockSize == 0 then 0 else |tokens| / c.blockSize
  }

  function Initial(c: Config, tokens: seq<Token>, draws: nat -> Draw, tail: Uuid): DriverState
    requires c.blockSize >= 2
  {
    DriverState(Created(c, tokens, draws, tail), true, [], [])
  }

  lemma InitialInv(c: Config, tokens: seq<Token>, draws: nat -> Draw, tail: Uuid)
    requires c.blockSize >= 2
    ensures var d := Initial(c, tokens, draws, tail);
            Inv(c, d) && LogInv(c, d, FullIn(c, tokens))
  {
    CreatedIsCached(c, tokens, draws, tail);
    CeilDivIs(0, c.blockSize, 0);
  }

  /** A run from a freshly created request. */
  ghost predicate IsRun(c: Config, tokens: seq<Token>, states: seq<DriverState>, ops: seq<Op>) {
    && c.blockSize >= 2
    && |states| == |ops| + 1
    && (exists draws, tail :: states[0] == Initial(c, tokens, draws, tail))
    && (forall i :: 0 <= i < |ops| ==> Follows(c, states[i], ops[i], states[i + 1]))
  }

  lemma {:induction false} RunInvariant(c: Config, tokens: seq<Token>, states: seq<DriverState>, ops: seq<Op>, i: nat)
    requires IsRun(c, tokens, states, ops) && i < |states|
    ensures Inv(c, states[i]) && LogInv(c, states[i], FullIn(c, tokens))
  {
    hide Inv, LogInv, Step, Enabled, Shape, Initial;
    if i == 0 {
      var draws, tail :| states[0] == Initial(c, tokens, draws, tail);
      InitialInv(c, tokens, draws, tail);
    } else {
      RunInvariant(c, tokens, states, ops, i - 1);
      assert Follows(c, states[i - 1], ops[i - 1], states[i]);
      StepKeepsLog(c, states[i - 1], ops[i - 1], FullIn(c, tokens));
    }
  }

  /** No leak and no double free, in every state of every run: the strict consumer holds exactly
      the allocated prefix of the chain, hence the whole chain when fully allocated and nothing
      after preemption, removal or completion; and a reference-counting consumer, which never
      refuses, holds the same blocks. */
  lemma RunConservesBlocks(c: Config, tokens: seq<Token>, states: seq<DriverState>, ops: seq<Op>, i: nat)
    requires IsRun(c, tokens, states, ops) && i < |states|
    ensures var s, held := states[i].sequence, Held(states[i]);
            && held.Some?
            && (states[i].live ==> held.value == s.blocks[..Covered(c, s, s.numAllocated)])
            && (states[i].live && s.numAllocated == |s.tokens| ==> held.value == s.blocks)
            && (!states[i].live ==> held.value == [])
            && (i > 0 && ops[i - 1].Preempt? ==> held.value == [])
            && Ledger(multiset{}, states[i].sent) == Some(multiset(held.value))
  {
    hide LogInv, CachedAt, Step, Enabled, Replay, Ledger;
    RunInvariant(c, tokens, states, ops, i);
    FullyAllocated(c, states[i].sequence);
    var none: seq<UniqueBlock> := [];
    assert multiset(none) == multiset{};
    ReplayRefinesLedger(none, states[i].sent);
    if i > 0 && ops[i - 1].Preempt? {
      RunInvariant(c, tokens, states, ops, i - 1);
      assert Follows(c, states[i - 1], ops[i - 1], states[i]);
      StepRelease(c, states[i - 1], ops[i - 1]);
    }
  }

  /** Over every run each block is promoted at most once, however tokens are pushed, popped and
      pushed again: the announced promotions are exactly the blocks that became full since
      creation, in order, each naming its predecessor as parent; and every announced signal
      meets the consumer's assertions. */
  lemma RunPromotesOnce(c: Config, tokens: seq<Token>, states: seq<DriverState>, ops: seq<Op>, i: nat)
    requires IsRun(c, tokens, states, ops) && i < |states|
    ensures var s, ps, first := states[i].sequence, Promotions(states[i].log), FullIn(c, tokens);
            && Cached(c, s)
            && first + |ps| == |s.blockHashes|
            && (forall j :: 0 <= j < |ps| ==> Announces(c, s, ps[j], first + j))
            && (forall m :: m in states[i].log ==> WellFormed(m))
  {
    RunInvariant(c, tokens, states, ops, i);
  }

  // ----- how much a run generates

  /** The tokens behind the prompt are the generated ones, never more than the limit, and a request that has
      reached a positive limit is gone. */
  ghost predicate Generated(c: Config, d: DriverState, prompt: seq<Token>) {
    var s := d.sequence;
    && prompt <= s.tokens && s.generated == |s.tokens| - |prompt| <= c.maxOutput
    && (d.live && s.generated > 0 ==> s.generated < c.maxOutput)
  }

  lemma StepGenerates(c: Config, d: DriverState, op: Op, prompt: seq<Token>)
    requires Shape(c, d.sequence) && Enabled(c, d, op) && Generated(c, d, prompt)
    ensures Generated(c, Step(c, d, op), prompt)
    ensures op.Decode? ==> Step(c, d, op).sequence.tokens == d.sequence.tokens + [op.token]
    ensures !op.Decode? ==> Step(c, d, op).sequence.tokens == d.sequence.tokens
  {
    hide GenerateSignals, PushSignals, CommitTarget, Prepared, Shape;
    if op.DecodeRefused? {
      PopUndoesOpening(c, d.sequence, op.token, op.draw);
    }
  }

  /** In every state of every run the tokens are the prompt and the decoded tokens, in order, within the
      output limit. */
  lemma {:induction false} RunGenerates(c: Config, tokens: seq<Token>, states: seq<DriverState>, ops: seq<Op>, i: nat)
    requires IsRun(c, tokens, states, ops) && i < |states|
    ensures Generated(c, states[i], tokens)
    ensures states[i].sequence.tokens == tokens + DecodedTokens(ops[..i])
  {
    hide Inv, LogInv, Step, Enabled, Shape, Generated;
    if i == 0 {
      NothingGenerated(c, tokens, states, ops);
    } else {
      RunGenerates(c, tokens, states, ops, i - 1);
      assert Follows(c, states[i - 1], ops[i - 1], states[i]);
      StepGenerates(c, states[i - 1], ops[i - 1], tokens);
      assert ops[..i][..i - 1] == ops[..i - 1];
      assert tokens + DecodedTokens(ops[..i - 1]) + [] == tokens + DecodedTokens(ops[..i - 1]);
    }
  }

  lemma NothingGenerated(c: Config, tokens: seq<Token>, states: seq<DriverState>, ops: seq<Op>)
    requires IsRun(c, tokens, states, ops)
    ensures Generated(c, states[0], tokens) && states[0].sequence.tokens == tokens + DecodedTokens(ops[..0])
  {
    assert tokens + [] == tokens;
  }

  /** The tokens of the decode steps that were not refused. */
  function DecodedTokens(ops: seq<Op>): seq<Token> {
    if ops == [] then []
    else DecodedTokens(ops[..|ops| - 1]) + (if ops[|ops| - 1].Decode? then [ops[|ops| - 1].token] else [])
  }

  // ----- agreement between requests

  /** Editing outside the scheduler's discipline: pushes, and pops while the last block is partial. */
  datatype Edit = PushToken(token: Token, draw: Draw) | PopToken

  ghost predicate Edits(c: Config, s: SeqState, edit: Edit, t: SeqState) {
    && Shape(c, s)
    && match edit
       case PushToken(token, draw) => t == Pushed(c, s, token, draw)
       case PopToken => (s.tokens == [] || LastIsPartial(s)) && t == Popped(c, s)
  }

  /** Any legal history of one request, from its creation on. */
  ghost predicate IsHistory(c: Config, states: seq<SeqState>, edits: seq<Edit>) {
    && c.blockSize >= 2 && |states| == |edits| + 1
    && (exists tokens, draws, tail :: states[0] == Created(c, tokens, draws, tail))
    && (forall i :: 0 <= i < |edits| ==> Edits(c, states[i], edits[i], states[i + 1]))
  }

  lemma {:induction false} HistoryKeepsCache(c: Config, states: seq<SeqState>, edits: seq<Edit>, i: nat)
    requires IsHistory(c, states, edits) && i < |states|
    ensures Cached(c, states[i])
  {
    hide Cached, Pushed, Popped, Created, Shape;
    if i == 0 {
      var tokens, draws, tail :| states[0] == Created(c, tokens, draws, tail);
      CreatedIsCached(c, tokens, draws, tail);
    } else {
      HistoryKeepsCache(c, states, edits, i - 1);
      assert Edits(c, states[i - 1], edits[i - 1], states[i]);
      match edits[i - 1]
      case PushToken(token, draw) => PushKeepsCache(c, states[i - 1], token, draw);
      case PopToken => PopKeepsCache(c, states[i - 1]);
    }
  }

  /** How many blocks were full when the history began. */
  function FullAtCreation(c: Config, states: seq<SeqState>): nat {
    if states == [] then 0 else FullIn(c, states[0].tokens)
  }

  /** Every signal that a history announces, up to its `i`-th edit. */
  ghost function HistoryLog(c: Config, states: seq<SeqState>, edits: seq<Edit>, i: nat): seq<MoveBlock>
    requires IsHistory(c, states, edits) && i < |states|
  {
    if i == 0 then []
    else
      HistoryLog(c, states, edits, i - 1)
      + (match edits[i - 1]
         case PushToken(token, draw) =>
           assert Edits(c, states[i - 1], edits[i - 1], states[i]);
           PushSignals(c, states[i - 1], token, draw)
         case PopToken => [])
  }

  lemma PushKeepsLog(c: Config, s: SeqState, token: Token, draw: Draw, log: seq<MoveBlock>, first: nat)
    requires Shape(c, s) && LogInv(c, DriverState(s, true, log, []), first)
    ensures LogInv(c, DriverState(Pushed(c, s, token, draw), true, log + PushSignals(c, s, token, draw), []), first)
  {
    hide Announces, WellFormed, PushSignals, Promotions, LogInv, Shape;
    var t, ms := Pushed(c, s, token, draw), PushSignals(c, s, token, draw);
    PushAnnounces(c, s, token, draw);
    PushPrefix(c, s, token, draw);
    PushSignalsWellFormed(c, s, token, draw);
    PushKeepsTokens(c, s, token, draw);
    hide Pushed;
    LogGrows(c, DriverState(s, true, log, []), DriverState(t, true, log + ms, []), first, ms);
  }

  lemma PushKeepsTokens(c: Config, s: SeqState, token: Token, draw: Draw)
    requires Shape(c, s)
    ensures SameFullTokens(c, s, Pushed(c, s, token, draw))
  {
    assert Pushed(c, s, token, draw).tokens == s.tokens + [token];
  }

  lemma PopKeepsLog(c: Config, s: SeqState, log: seq<MoveBlock>, first: nat)
    requires Shape(c, s) && (s.tokens == [] || LastIsPartial(s)) && LogInv(c, DriverState(s, true, log, []), first)
    ensures LogInv(c, DriverState(Popped(c, s), true, log, []), first)
  {
    hide Announces, WellFormed, Promotions, LogInv;
    PopShapeIff(c, s);
    NoPromotions([]);
    assert log + [] == log;
    LogGrows(c, DriverState(s, true, log, []), DriverState(Popped(c, s), true, log, []), first, []);
  }

  lemma CreatedLog(c: Config, tokens: seq<Token>, draws: nat -> Draw, tail: Uuid)
    requires c.blockSize >= 2
    ensures LogInv(c, DriverState(Created(c, tokens, draws, tail), true, [], []), FullIn(c, tokens))
  {
    CreatedIsCached(c, tokens, draws, tail);
    hide Created;
  }

  /** However tokens are pushed, legally popped and pushed again, each block is promoted at most once: the
      promotions announced are those of the blocks that became full since creation, in order. */
  lemma {:induction false} HistoryPromotesOnce(c: Config, states: seq<SeqState>, edits: seq<Edit>, i: nat)
    requires IsHistory(c, states, edits) && i < |states|
    ensures LogInv(c, DriverState(states[i], true, HistoryLog(c, states, edits, i), []), FullAtCreation(c, states))
  {
    hide LogInv, Pushed, Popped, Created, Shape, PushSignals;
    var first := FullAtCreation(c, states);
    if i == 0 {
      var tokens, draws, tail :| states[0] == Created(c, tokens, draws, tail);
      CreatedTokens(c, tokens, draws, tail);
      CreatedLog(c, tokens, draws, tail);
    } else {
      HistoryPromotesOnce(c, states, edits, i - 1);
      assert Edits(c, states[i - 1], edits[i - 1], states[i]);
      var log := HistoryLog(c, states, edits, i - 1);
      match edits[i - 1]
      case PushToken(token, draw) => PushKeepsLog(c, states[i - 1], token, draw, log, first);
      case PopToken =>
        PopKeepsLog(c, states[i - 1], log, first);
        assert log + [] == log;
    }
  }

  lemma CreatedTokens(c: Config, tokens: seq<Token>, draws: nat -> Draw, tail: Uuid)
    requires c.blockSize >= 2
    ensures Created(c, tokens, draws, tail).tokens == tokens
  {
  }

  /** With prefix caching, two requests agree on every block that both have promoted as soon as their
      tokens agree that far, whatever their histories. */
  lemma EqualPrefixesShareBlocks(c: Config, xs: seq<SeqState>, xedits: seq<Edit>, ys: seq<SeqState>, yedits: seq<Edit>, i: nat)
    requires IsHistory(c, xs, xedits) && IsHistory(c, ys, yedits) && c.caching
    requires var s, t := xs[|xedits|], ys[|yedits|];
             && i < |s.blockHashes| && i < |t.blockHashes|
             && (i + 1) * c.blockSize <= |s.tokens| && (i + 1) * c.blockSize <= |t.tokens|
             && s.tokens[..(i + 1) * c.blockSize] == t.tokens[..(i + 1) * c.blockSize]
    ensures var s, t := xs[|xedits|], ys[|yedits|];
            && i < |s.blocks| && i < |t.blocks| && i < |s.plhs| && i < |t.plhs|
            && s.blocks[i] == t.blocks[i] && s.blockHashes[i] == t.blockHashes[i] && s.plhs[i] == t.plhs[i]
  {
    hide Edits;
    var s, t := xs[|xedits|], ys[|yedits|];
    HistoryKeepsCache(c, xs, xedits, |xedits|);
    HistoryKeepsCache(c, ys, yedits, |yedits|);
    assert CachedAt(c, s, i) && CachedAt(c, t, i);
    HashOfPrefix(c.hasher, s.tokens, t.tokens, c.blockSize, i);
  }
}
