/** The cache behind the signals as it is kept (lib/mocker/src/kv_cache/local_vllm_cache.rs): a set of
    partial blocks by UUID and a reference count per full block.  Releasing or promoting a block that is
    not there aborts. */
module BlockCache {
  import opened Wrappers
  import opened SequenceModel
  import opened Driver
  import opened SharedCache

  datatype Cache = Cache(partials: set<Uuid>, refcounts: multiset<Hash>)

  const EMPTY: Cache := Cache({}, multiset{})

  /** A partial block that is already there stays as it is. */
  function Taken(c: Cache, b: UniqueBlock): Cache {
    match b
    case PartialBlock(u) => c.(partials := c.partials + {u})
    case FullBlock(h) => c.(refcounts := c.refcounts + multiset{h})
  }

  function TakenAll(c: Cache, blocks: seq<UniqueBlock>): Cache
    decreases |blocks|
  {
    if blocks == [] then c else TakenAll(Taken(c, blocks[0]), blocks[1..])
  }

  /** `None` is the abort. */
  function Dropped(c: Cache, b: UniqueBlock): Option<Cache> {
    match b
    case PartialBlock(u) => if u in c.partials then Some(c.(partials := c.partials - {u})) else None
    case FullBlock(h) => if h in c.refcounts then Some(c.(refcounts := c.refcounts - multiset{h})) else None
  }

  function DroppedAll(c: Cache, blocks: seq<UniqueBlock>): Option<Cache>
    decreases |blocks|
  {
    if blocks == [] then Some(c)
    else match Dropped(c, blocks[0])
      case None => None
      case Some(d) => DroppedAll(d, blocks[1..])
  }

  function Processed(c: Cache, m: MoveBlock): Option<Cache> {
    match m
    case Use(blocks, _, _, _, _) => Some(TakenAll(c, blocks))
    case Deref(freed) => DroppedAll(c, freed)
    case Promote(uuid, hash, _, _, _, _) =>
      match Dropped(c, PartialBlock(uuid))
      case None => None
      case Some(d) => Some(Taken(d, FullBlock(hash)))
  }

  function ProcessedAll(ms: seq<MoveBlock>): Option<Cache> {
    if ms == [] then Some(EMPTY)
    else match ProcessedAll(ms[..|ms| - 1])
      case None => None
      case Some(c) => Processed(c, ms[|ms| - 1])
  }

  // ----- the cache and the ledger of references

  ghost predicate Matches(c: Cache, held: multiset<UniqueBlock>) {
    && (forall u :: u in c.partials <==> PartialBlock(u) in held)
    && (forall h :: c.refcounts[h] == held[FullBlock(h)])
  }

  /** No partial block is referenced twice. */
  ghost predicate Single(held: multiset<UniqueBlock>) {
    forall u :: held[PartialBlock(u)] <= 1
  }

  lemma TakenMatches(c: Cache, held: multiset<UniqueBlock>, b: UniqueBlock)
    requires Matches(c, held)
    ensures Matches(Taken(c, b), held + multiset{b})
  {
  }

  lemma {:induction false} TakenAllMatches(c: Cache, held: multiset<UniqueBlock>, blocks: seq<UniqueBlock>)
    requires Matches(c, held)
    ensures Matches(TakenAll(c, blocks), held + multiset(blocks))
    decreases |blocks|
  {
    hide Matches, Taken;
    if blocks == [] {
      assert held + multiset(blocks) == held;
    } else {
      TakenMatches(c, held, blocks[0]);
      TakenAllMatches(Taken(c, blocks[0]), held + multiset{blocks[0]}, blocks[1..]);
      assert blocks == [blocks[0]] + blocks[1..];
      assert held + multiset{blocks[0]} + multiset(blocks[1..]) == held + multiset(blocks);
    }
  }

  lemma DroppedMatches(c: Cache, held: multiset<UniqueBlock>, b: UniqueBlock)
    requires Matches(c, held) && Single(held) && b in held
    ensures Dropped(c, b).Some? && Matches(Dropped(c, b).value, held - multiset{b})
    ensures Single(held - multiset{b})
  {
    match b
    case PartialBlock(u) => assert held[PartialBlock(u)] == 1;
    case FullBlock(h) => assert c.refcounts[h] == held[b];
  }

  lemma {:induction false} DroppedAllMatches(c: Cache, held: multiset<UniqueBlock>, blocks: seq<UniqueBlock>)
    requires Matches(c, held) && Single(held) && multiset(blocks) <= held
    ensures DroppedAll(c, blocks).Some? && Matches(DroppedAll(c, blocks).value, held - multiset(blocks))
    decreases |blocks|
  {
    hide Matches, Single, Dropped;
    if blocks == [] {
      assert held - multiset(blocks) == held;
    } else {
      var b, rest := blocks[0], blocks[1..];
      assert blocks == [b] + rest;
      assert multiset(blocks) == multiset{b} + multiset(rest);
      assert b in multiset(blocks);
      DroppedMatches(c, held, b);
      DroppedAllMatches(Dropped(c, b).value, held - multiset{b}, rest);
      assert held - multiset{b} - multiset(rest) == held - multiset(blocks);
    }
  }

  /** As long as no partial block is referenced twice, the cache does what the ledger does. */
  lemma ProcessedMatches(c: Cache, held: multiset<UniqueBlock>, m: MoveBlock)
    requires Matches(c, held) && Single(held) && LedgerOne(held, m).Some?
    ensures Processed(c, m).Some? && Matches(Processed(c, m).value, LedgerOne(held, m).value)
  {
    hide Matches, Single, Taken, Dropped, TakenAll, DroppedAll;
    match m
    case Use(blocks, _, _, _, _) => TakenAllMatches(c, held, blocks);
    case Deref(freed) => DroppedAllMatches(c, held, freed);
    case Promote(uuid, hash, _, _, _, _) =>
      DroppedMatches(c, held, PartialBlock(uuid));
      TakenMatches(Dropped(c, PartialBlock(uuid)).value, held - multiset{PartialBlock(uuid)}, FullBlock(hash));
  }

  // ----- one run holds at most one partial block, at every signal

  ghost predicate OnlyLastPartial(chain: seq<UniqueBlock>) {
    forall i :: 0 <= i < |chain| - 1 ==> chain[i].FullBlock?
  }

  /** At every point of the stream the strict consumer holds at most one partial block, the last one. */
  ghost predicate Careful(chain: seq<UniqueBlock>, ms: seq<MoveBlock>)
    decreases |ms|
  {
    && OnlyLastPartial(chain)
    && (ms != [] ==> ReplayOne(chain, ms[0]).Some? && Careful(ReplayOne(chain, ms[0]).value, ms[1..]))
  }

  lemma {:induction false} CarefulConcat(chain: seq<UniqueBlock>, ms: seq<MoveBlock>, ns: seq<MoveBlock>)
    requires Careful(chain, ms) && Replay(chain, ms).Some? && Careful(Replay(chain, ms).value, ns)
    ensures Careful(chain, ms + ns)
    decreases |ms|
  {
    hide OnlyLastPartial, ReplayOne;
    if ms == [] {
      assert ms + ns == ns;
    } else {
      assert (ms + ns)[1..] == ms[1..] + ns;
      CarefulConcat(ReplayOne(chain, ms[0]).value, ms[1..], ns);
    }
  }

  lemma {:induction false} CarefulPrefix(chain: seq<UniqueBlock>, ms: seq<MoveBlock>, k: nat)
    requires Careful(chain, ms) && k <= |ms|
    ensures Replay(chain, ms[..k]).Some? && OnlyLastPartial(Replay(chain, ms[..k]).value)
    decreases |ms|
  {
    hide OnlyLastPartial, ReplayOne;
    if k > 0 {
      CarefulPrefix(ReplayOne(chain, ms[0]).value, ms[1..], k - 1);
      assert ms[..k][1..] == ms[1..][..k - 1];
    }
  }

  lemma {:induction false} FreesCareful(chain: seq<UniqueBlock>)
    requires OnlyLastPartial(chain)
    ensures Careful(chain, FreeSignals(chain))
  {
    if chain != [] {
      var rest := chain[..|chain| - 1];
      FreesCareful(rest);
      assert FreeSignals(chain)[1..] == FreeSignals(rest);
      assert Released(chain, [chain[|chain| - 1]]) == Some(rest);
    }
  }

  lemma ShapedPrefix(c: Config, s: SeqState, n: nat)
    requires Shape(c, s) && n <= |s.blocks|
    ensures OnlyLastPartial(s.blocks[..n])
  {
  }

  lemma OneCareful(chain: seq<UniqueBlock>, m: MoveBlock)
    requires OnlyLastPartial(chain) && ReplayOne(chain, m).Some? && OnlyLastPartial(ReplayOne(chain, m).value)
    ensures Careful(chain, [m]) && Replay(chain, [m]) == ReplayOne(chain, m)
  {
    hide ReplayOne, OnlyLastPartial;
    assert [m][1..] == [];
    NothingCareful(ReplayOne(chain, m).value);
  }

  lemma NothingCareful(chain: seq<UniqueBlock>)
    requires OnlyLastPartial(chain)
    ensures Careful(chain, []) && Replay(chain, []) == Some(chain)
  {
  }

  lemma PromotionCareful(c: Config, s: SeqState, token: Token, draw: Draw)
    requires Shape(c, s) && Opens(c, s) && LastIsPartial(s)
    ensures var m := PushSignals(c, s, token, draw)[0];
            Careful(s.blocks, [m]) && Replay(s.blocks, [m]).Some? && OnlyLastPartial(Replay(s.blocks, [m]).value)
  {
    PromotionIsSafe(c, s, token);
    OneCareful(s.blocks, PushSignals(c, s, token, draw)[0]);
  }

  lemma PushCareful(c: Config, s: SeqState, token: Token, draw: Draw)
    requires Shape(c, s)
    ensures Careful(s.blocks, PushSignals(c, s, token, draw))
  {
    var ms := PushSignals(c, s, token, draw);
    PushShape(c, s, token, draw);
    ReplayPush(c, s, token, draw);
    ShapedPrefix(c, s, |s.blocks|);
    assert s.blocks[..|s.blocks|] == s.blocks;
    if Opens(c, s) {
      var t := Pushed(c, s, token, draw);
      ShapedPrefix(c, t, |t.blocks|);
      assert t.blocks[..|t.blocks|] == t.blocks;
      if LastIsPartial(s) {
        PromotionCareful(c, s, token, draw);
        assert ms == [ms[0]] + [ms[1]];
        ReplayConcat(s.blocks, [ms[0]], [ms[1]]);
        UseCareful(Replay(s.blocks, [ms[0]]).value, ms[1], t.blocks);
        CarefulConcat(s.blocks, [ms[0]], [ms[1]]);
      } else {
        assert ms == [ms[0]];
        UseCareful(s.blocks, ms[0], t.blocks);
      }
    } else {
      NothingCareful(s.blocks);
    }
  }

  lemma UseCareful(chain: seq<UniqueBlock>, m: MoveBlock, after: seq<UniqueBlock>)
    requires m.Use? && OnlyLastPartial(chain) && OnlyLastPartial(after) && Replay(chain, [m]) == Some(after)
    ensures Careful(chain, [m])
  {
    assert [m][1..] == [];
    OneCareful(chain, m);
  }

  /** The signals one step adds to what was sent. */
  lemma StepCareful(c: Config, d: DriverState, op: Op) returns (more: seq<MoveBlock>)
    requires Inv(c, d) && Enabled(c, d, op)
    ensures Step(c, d, op).sent == d.sent + more
    ensures Held(d).Some? && Careful(Held(d).value, more)
  {
    hide CachedAt, Held;
    var s := d.sequence;
    var n := Covered(c, s, s.numAllocated);
    ShapedPrefix(c, s, n);
    match op
    case Allocate(target, accepted) => more := AllocateCareful(c, d, target, accepted);
    case Decode(token, draw) => more := DecodeCareful(c, d, token, draw);
    case DecodeRefused(token, draw) => more := RefusedCareful(c, d, token, draw);
    case Preempt =>
      more := FreeSignals(s.blocks[..n]);
      FreesCareful(s.blocks[..n]);
    case Drop =>
      more := FreeSignals(s.blocks[..n]);
      FreesCareful(s.blocks[..n]);
  }

  lemma AllocateCareful(c: Config, d: DriverState, target: nat, accepted: nat) returns (more: seq<MoveBlock>)
    requires Shape(c, d.sequence) && Enabled(c, d, Allocate(target, accepted))
    ensures Step(c, d, Allocate(target, accepted)).sent == d.sent + more
    ensures Careful(d.sequence.blocks[..Covered(c, d.sequence, d.sequence.numAllocated)], more)
  {
    hide CommitTarget;
    var s := d.sequence;
    var prev, want := Covered(c, s, s.numAllocated), Covered(c, s, target);
    ShapedPrefix(c, s, prev);
    var signal := Prepared(c, s, target);
    if signal.None? {
      more := [];
      NothingCareful(s.blocks[..prev]);
      assert d.sent + [] == d.sent;
    } else {
      var use := signal.value.(blocks := signal.value.blocks[..accepted]);
      more := [use];
      ShapedPrefix(c, s, prev + accepted);
      assert s.blocks[..prev] + s.blocks[prev..want][..accepted] == s.blocks[..prev + accepted];
      OneCareful(s.blocks[..prev], use);
    }
  }

  lemma DecodeCareful(c: Config, d: DriverState, token: Token, draw: Draw) returns (more: seq<MoveBlock>)
    requires Shape(c, d.sequence) && Enabled(c, d, Decode(token, draw))
    ensures Step(c, d, Decode(token, draw)).sent == d.sent + more
    ensures Careful(d.sequence.blocks[..Covered(c, d.sequence, d.sequence.numAllocated)], more)
  {
    hide PushSignals, Careful, Replay;
    var s, t := d.sequence, Pushed(c, d.sequence, token, draw);
    FullyAllocated(c, s);
    PushCareful(c, s, token, draw);
    PushShape(c, s, token, draw);
    ReplayPush(c, s, token, draw);
    FullyAllocated(c, t);
    var ms := PushSignals(c, s, token, draw);
    more := GenerateSignals(c, s, token, draw);
    hide Pushed;
    if t.generated == c.maxOutput {
      ShapedPrefix(c, t, |t.blocks|);
      FreesCareful(t.blocks);
      CarefulConcat(s.blocks, ms, FreeSignals(t.blocks));
    } else {
      assert ms + [] == ms;
    }
  }

  lemma RefusedCareful(c: Config, d: DriverState, token: Token, draw: Draw) returns (more: seq<MoveBlock>)
    requires Shape(c, d.sequence) && Enabled(c, d, DecodeRefused(token, draw))
    ensures Step(c, d, DecodeRefused(token, draw)).sent == d.sent + more
    ensures Careful(d.sequence.blocks[..Covered(c, d.sequence, d.sequence.numAllocated)], more)
  {
    var s := d.sequence;
    FullyAllocated(c, s);
    var ms := PushSignals(c, s, token, draw);
    more := ms[..|ms| - 1];
    if LastIsPartial(s) {
      PromotionCareful(c, s, token, draw);
      assert more == [ms[0]];
    } else {
      ShapedPrefix(c, s, |s.blocks|);
      assert more == [];
      NothingCareful(s.blocks);
    }
  }

  lemma {:induction false} RunIsCareful(c: Config, tokens: seq<Token>, states: seq<DriverState>, ops: seq<Op>, i: nat)
    requires IsRun(c, tokens, states, ops) && i < |states|
    ensures Careful([], states[i].sent)
  {
    hide Inv, LogInv, Step, Enabled, Shape, Initial, Careful;
    if i == 0 {
      NothingSentYet(c, tokens, states, ops);
      NothingCareful([]);
    } else {
      RunIsCareful(c, tokens, states, ops, i - 1);
      RunInvariant(c, tokens, states, ops, i - 1);
      assert Follows(c, states[i - 1], ops[i - 1], states[i]);
      var more := StepCareful(c, states[i - 1], ops[i - 1]);
      CarefulConcat([], states[i - 1].sent, more);
    }
  }

  lemma NothingSentYet(c: Config, tokens: seq<Token>, states: seq<DriverState>, ops: seq<Op>)
    requires IsRun(c, tokens, states, ops)
    ensures states[0].sent == []
  {
  }

  // ----- whose partial blocks they are

  function Partials(blocks: seq<UniqueBlock>): set<Uuid> {
    set b | b in blocks && b.PartialBlock? :: b.uuid
  }

  /** The UUIDs of the partial blocks a stream asks for. */
  function Uuids(ms: seq<MoveBlock>): set<Uuid> {
    if ms == [] then {}
    else Uuids(ms[..|ms| - 1]) + (if ms[|ms| - 1].Use? then Partials(ms[|ms| - 1].blocks) else {})
  }

  lemma {:induction false} UuidsConcat(ms: seq<MoveBlock>, ns: seq<MoveBlock>)
    ensures Uuids(ms + ns) == Uuids(ms) + Uuids(ns)
  {
    if ns == [] {
      assert ms + ns == ms;
    } else {
      assert (ms + ns)[..|ms + ns| - 1] == ms + ns[..|ns| - 1];
      UuidsConcat(ms, ns[..|ns| - 1]);
    }
  }

  lemma LedgerOnePartials(held: multiset<UniqueBlock>, m: MoveBlock, u: Uuid)
    requires LedgerOne(held, m).Some? && PartialBlock(u) in LedgerOne(held, m).value
    ensures PartialBlock(u) in held || (m.Use? && u in Partials(m.blocks))
  {
    if m.Use? && PartialBlock(u) !in held {
      assert PartialBlock(u) in multiset(m.blocks);
      assert PartialBlock(u) in m.blocks;
    }
  }

  /** A stream only ever holds partial blocks it asked for. */
  lemma {:induction false} HeldWasUsed(ms: seq<MoveBlock>, u: Uuid)
    requires Ledger(multiset{}, ms).Some? && PartialBlock(u) in Ledger(multiset{}, ms).value
    ensures u in Uuids(ms)
  {
    if ms != [] {
      var first, m := ms[..|ms| - 1], ms[|ms| - 1];
      assert ms == first + [m];
      LedgerSnoc(multiset{}, first, m);
      hide Ledger, LedgerOne, Partials;
      LedgerOnePartials(Ledger(multiset{}, first).value, m, u);
      if PartialBlock(u) in Ledger(multiset{}, first).value {
        HeldWasUsed(first, u);
      }
    }
  }

  /** The UUIDs drawn in a run: the one of the partial block at creation, and one per decode step. */
  function Drawn(start: seq<UniqueBlock>, ops: seq<Op>): set<Uuid> {
    if ops == [] then Partials(start)
    else
      var op := ops[|ops| - 1];
      Drawn(start, ops[..|ops| - 1]) + (if op.Decode? || op.DecodeRefused? then {op.draw.uuid} else {})
  }

  lemma PartialsOfPart(part: seq<UniqueBlock>, whole: seq<UniqueBlock>)
    requires forall b :: b in part ==> b in whole || b.FullBlock?
    ensures Partials(part) <= Partials(whole)
  {
  }

  lemma {:induction false} FreesUseNothing(chain: seq<UniqueBlock>)
    ensures Uuids(FreeSignals(chain)) == {}
  {
    NoUse(FreeSignals(chain));
  }

  lemma {:induction false} NoUse(ms: seq<MoveBlock>)
    requires forall i :: 0 <= i < |ms| ==> !ms[i].Use?
    ensures Uuids(ms) == {}
  {
    if ms != [] {
      NoUse(ms[..|ms| - 1]);
    }
  }

  lemma UuidsOfOne(m: MoveBlock)
    ensures Uuids([m]) == if m.Use? then Partials(m.blocks) else {}
  {
    assert [m][..0] == [];
  }

  lemma PartialsSnoc(blocks: seq<UniqueBlock>, u: Uuid)
    ensures Partials(blocks + [PartialBlock(u)]) == Partials(blocks) + {u}
  {
    assert PartialBlock(u) in blocks + [PartialBlock(u)];
    assert forall b :: b in blocks ==> b in blocks + [PartialBlock(u)];
  }

  /** Pushing a token brings in no other partial block than the one it draws. */
  lemma PushPartials(c: Config, s: SeqState, token: Token, draw: Draw)
    requires Shape(c, s)
    ensures Partials(Pushed(c, s, token, draw).blocks) <= Partials(s.blocks) + {draw.uuid}
  {
    hide Partials;
    if Opens(c, s) {
      if LastIsPartial(s) {
        PromotionIsSafe(c, s, token);
        var p := Promoted(c, Appended(s, token), draw).blocks;
        PartialsOfPart(p, s.blocks);
        PartialsSnoc(p, draw.uuid);
      } else {
        PartialsSnoc(s.blocks, draw.uuid);
      }
    }
  }

  lemma PushUuids(c: Config, s: SeqState, token: Token, draw: Draw)
    requires Shape(c, s)
    ensures Uuids(PushSignals(c, s, token, draw)) <= {draw.uuid}
    ensures Opens(c, s) ==> PushSignals(c, s, token, draw) != []
  {
    var ms := PushSignals(c, s, token, draw);
    if Opens(c, s) {
      var use := UsePartial(draw.uuid);
      UuidsOfOne(use);
      PartialsSnoc([], draw.uuid);
      assert [] + [PartialBlock(draw.uuid)] == [PartialBlock(draw.uuid)];
      if LastIsPartial(s) {
        UuidsOfOne(ms[0]);
        UuidsConcat([ms[0]], [use]);
        assert ms == [ms[0]] + [use];
      }
    }
  }

  lemma {:induction false} UuidsOfPart(ms: seq<MoveBlock>, k: nat)
    requires k <= |ms|
    ensures Uuids(ms[..k]) <= Uuids(ms)
  {
    assert ms == ms[..k] + ms[k..];
    UuidsConcat(ms[..k], ms[k..]);
  }

  ghost predicate UuidsWithin(d: DriverState, drawn: set<Uuid>) {
    Partials(d.sequence.blocks) <= drawn && Uuids(d.sent) <= drawn
  }

  lemma StepUuids(c: Config, d: DriverState, op: Op, drawn: set<Uuid>)
    requires Shape(c, d.sequence) && Enabled(c, d, op) && UuidsWithin(d, drawn)
    ensures UuidsWithin(Step(c, d, op), drawn + (if op.Decode? || op.DecodeRefused? then {op.draw.uuid} else {}))
  {
    match op
    case Allocate(target, accepted) => AllocateUuids(c, d, target, accepted, drawn);
    case Decode(token, draw) => DecodeUuids(c, d, op, drawn);
    case DecodeRefused(token, draw) => DecodeUuids(c, d, op, drawn);
    case Preempt => ReleaseUuids(c, d, op, drawn);
    case Drop => ReleaseUuids(c, d, op, drawn);
  }

  lemma AllocateUuids(c: Config, d: DriverState, target: nat, accepted: nat, drawn: set<Uuid>)
    requires Shape(c, d.sequence) && Enabled(c, d, Allocate(target, accepted)) && UuidsWithin(d, drawn)
    ensures UuidsWithin(Step(c, d, Allocate(target, accepted)), drawn)
  {
    hide CommitTarget, Partials;
    var signal := Prepared(c, d.sequence, target);
    if signal.Some? {
      var use := signal.value.(blocks := signal.value.blocks[..accepted]);
      UuidsConcat(d.sent, [use]);
      UuidsOfOne(use);
      PartialsOfPart(use.blocks, d.sequence.blocks);
    }
  }

  lemma DecodeUuids(c: Config, d: DriverState, op: Op, drawn: set<Uuid>)
    requires Shape(c, d.sequence) && Enabled(c, d, op) && UuidsWithin(d, drawn) && (op.Decode? || op.DecodeRefused?)
    ensures UuidsWithin(Step(c, d, op), drawn + {op.draw.uuid})
  {
    hide Partials, PushSignals, Pushed;
    var s, t := d.sequence, Pushed(c, d.sequence, op.token, op.draw);
    var ms := PushSignals(c, s, op.token, op.draw);
    PushUuids(c, s, op.token, op.draw);
    PushPartials(c, s, op.token, op.draw);
    if op.Decode? {
      var frees := if t.generated != c.maxOutput then [] else FreeSignalsFor(c, t, |t.tokens|);
      NoUse(frees);
      UuidsConcat(ms, frees);
      UuidsConcat(d.sent, ms + frees);
    } else {
      UuidsOfPart(ms, |ms| - 1);
      UuidsConcat(d.sent, ms[..|ms| - 1]);
      var u := Popped(c, t).blocks;
      PartialsOfPart(u, t.blocks);
    }
  }

  lemma ReleaseUuids(c: Config, d: DriverState, op: Op, drawn: set<Uuid>)
    requires Shape(c, d.sequence) && Enabled(c, d, op) && UuidsWithin(d, drawn) && (op.Preempt? || op.Drop?)
    ensures UuidsWithin(Step(c, d, op), drawn)
  {
    hide Partials;
    var frees := FreeSignalsFor(c, d.sequence, d.sequence.numAllocated);
    FreesUseNothing(d.sequence.blocks[..Covered(c, d.sequence, d.sequence.numAllocated)]);
    UuidsConcat(d.sent, frees);
  }

  /** A run asks for no partial block whose UUID it has not drawn. */
  lemma {:induction false} RunUsesDrawn(c: Config, tokens: seq<Token>, states: seq<DriverState>, ops: seq<Op>, i: nat)
    requires IsRun(c, tokens, states, ops) && i < |states|
    ensures UuidsWithin(states[i], Drawn(states[0].sequence.blocks, ops[..i]))
  {
    hide Inv, LogInv, Step, Enabled, Shape, Initial, Partials;
    if i == 0 {
      NothingSentYet(c, tokens, states, ops);
    } else {
      RunUsesDrawn(c, tokens, states, ops, i - 1);
      assert Follows(c, states[i - 1], ops[i - 1], states[i]);
      assert ops[..i][..i - 1] == ops[..i - 1];
      StepUuids(c, states[i - 1], ops[i - 1], Drawn(states[0].sequence.blocks, ops[..i - 1]));
    }
  }

  // ----- several runs on one cache

  ghost function DrawnBy(q: Request): set<Uuid>
    requires Running(q)
  {
    Drawn(q.states[0].sequence.blocks, q.ops)
  }

  /** Different requests draw different UUIDs. */
  ghost predicate DrawsApart(qs: seq<Request>)
    requires forall q :: q in qs ==> Running(q)
  {
    forall i, j :: 0 <= i < j < |qs| ==> DrawnBy(qs[i]) !! DrawnBy(qs[j])
  }

  ghost predicate PartialsIn(held: multiset<UniqueBlock>, uuids: set<Uuid>) {
    forall u :: PartialBlock(u) in held ==> u in uuids
  }

  lemma SingleSum(a: multiset<UniqueBlock>, x: set<Uuid>, b: multiset<UniqueBlock>, y: set<Uuid>)
    requires Single(a) && Single(b) && PartialsIn(a, x) && PartialsIn(b, y) && x !! y
    ensures Single(a + b) && PartialsIn(a + b, x + y)
  {
    forall u
      ensures (a + b)[PartialBlock(u)] <= 1
    {
      assert !(PartialBlock(u) in a && PartialBlock(u) in b);
    }
  }

  lemma ChainIsSingle(chain: seq<UniqueBlock>)
    requires OnlyLastPartial(chain)
    ensures Single(multiset(chain))
  {
    if chain != [] {
      var rest, last := chain[..|chain| - 1], chain[|chain| - 1];
      assert chain == rest + [last];
      forall u
        ensures multiset(chain)[PartialBlock(u)] <= 1
      {
        assert PartialBlock(u) !in rest;
        assert multiset(rest)[PartialBlock(u)] == 0;
      }
    }
  }

  lemma {:induction false} SentByPrefix(mix: seq<Tagged>, k: nat, q: nat)
    requires k <= |mix|
    ensures SentBy(mix[..k], q) <= SentBy(mix, q)
    decreases |mix|
  {
    if k < |mix| {
      SentByPrefix(mix[..|mix| - 1], k, q);
      assert mix[..|mix| - 1][..k] == mix[..k];
    } else {
      assert mix[..k] == mix;
    }
  }

  /** At every point of the interleaving each request holds at most one partial block, one it has drawn. */
  lemma OwnIsSingle(qs: seq<Request>, mix: seq<Tagged>, k: nat, q: nat)
    requires Interleaves(qs, mix) && k <= |mix| && q < |qs|
    ensures Ledger(multiset{}, SentBy(mix[..k], q)).Some? && Single(Own(mix[..k], q))
    ensures PartialsIn(Own(mix[..k], q), DrawnBy(qs[q]))
  {
    hide IsRun, SentBy, Careful, OnlyLastPartial, Single, Uuids, Drawn, Partials;
    var r := qs[q];
    assert Running(r);
    var n := RunLength(r);
    RunIsCareful(r.config, r.prompt, r.states, r.ops, n);
    SentByPrefix(mix, k, q);
    var sent, part := Now(r).sent, SentBy(mix[..k], q);
    CarefulPrefix([], sent, |part|);
    assert part == sent[..|part|];
    var none: seq<UniqueBlock> := [];
    assert multiset(none) == multiset{};
    ReplayRefinesLedger(none, part);
    ChainIsSingle(Replay([], part).value);
    hide Ledger, Replay;
    RunUsesDrawn(r.config, r.prompt, r.states, r.ops, n);
    assert r.ops[..n] == r.ops;
    UuidsOfPart(sent, |part|);
    forall u | PartialBlock(u) in Own(mix[..k], q)
      ensures u in DrawnBy(qs[q])
    {
      HeldWasUsed(part, u);
    }
  }

  lemma RunLength(r: Request) returns (n: nat)
    requires Running(r)
    ensures n == |r.states| - 1 == |r.ops| && Now(r) == r.states[n]
  {
    n := |r.ops|;
  }

  ghost function DrawnBelow(qs: seq<Request>, n: nat): set<Uuid>
    requires (forall q :: q in qs ==> Running(q)) && n <= |qs|
  {
    if n == 0 then {} else DrawnBelow(qs, n - 1) + DrawnBy(qs[n - 1])
  }

  lemma {:induction false} DrawnBelowApart(qs: seq<Request>, n: nat, m: nat)
    requires (forall q :: q in qs ==> Running(q)) && DrawsApart(qs) && n <= m < |qs|
    ensures DrawnBelow(qs, n) !! DrawnBy(qs[m])
  {
    hide DrawnBy, Running;
    if n > 0 {
      DrawnBelowApart(qs, n - 1, m);
    }
  }

  lemma AllRunning(qs: seq<Request>, mix: seq<Tagged>)
    requires Interleaves(qs, mix)
    ensures forall q :: q in qs ==> Running(q)
  {
  }

  lemma NothingIsSingle()
    ensures Single(multiset{}) && PartialsIn(multiset{}, {})
  {
  }

  lemma {:induction false} TotalIsSingle(qs: seq<Request>, mix: seq<Tagged>, k: nat, n: nat)
    requires Interleaves(qs, mix) && DrawsApart(qs) && k <= |mix| && n <= |qs|
    ensures Single(Total(mix[..k], n)) && PartialsIn(Total(mix[..k], n), DrawnBelow(qs, n))
  {
    hide Own, DrawnBy, Single, PartialsIn, DrawsApart, Running, Interleaves;
    AllRunning(qs, mix);
    if n == 0 {
      NothingIsSingle();
    } else {
      TotalIsSingle(qs, mix, k, n - 1);
      OwnIsSingle(qs, mix, k, n - 1);
      DrawnBelowApart(qs, n - 1, n - 1);
      SingleSum(Total(mix[..k], n - 1), DrawnBelow(qs, n - 1), Own(mix[..k], n - 1), DrawnBy(qs[n - 1]));
    }
  }

  lemma {:induction false} MixProcessed(qs: seq<Request>, mix: seq<Tagged>, k: nat)
    requires Interleaves(qs, mix) && DrawsApart(qs) && k <= |mix|
    ensures ProcessedAll(Signals(mix[..k])).Some?
    ensures Matches(ProcessedAll(Signals(mix[..k])).value, Total(mix[..k], |qs|))
  {
    hide Interleaves, DrawsApart, Matches, Single, Own, Ledger, LedgerOne, Processed, EachAccepted;
    if k == 0 {
      NothingProcessed(|qs|);
      assert mix[..0] == [];
    } else {
      MixProcessed(qs, mix, k - 1);
      TotalIsSingle(qs, mix, k - 1, |qs|);
      MixLedgers(qs, mix, k - 1);
      MixLedgers(qs, mix, k);
      var m := mix[k - 1].1;
      assert mix[..k][..k - 1] == mix[..k - 1];
      LedgerSnoc(multiset{}, Signals(mix[..k - 1]), m);
      assert Signals(mix[..k]) == Signals(mix[..k - 1]) + [m];
      ProcessedMatches(ProcessedAll(Signals(mix[..k - 1])).value, Total(mix[..k - 1], |qs|), m);
    }
  }

  lemma NothingProcessed(n: nat)
    ensures ProcessedAll(Signals([])) == Some(EMPTY) && Matches(EMPTY, Total([], n))
  {
    NothingSent(n);
  }

  /** Every beginning of the interleaving is accepted by the ledger. */
  lemma MixLedgers(qs: seq<Request>, mix: seq<Tagged>, k: nat)
    requires Interleaves(qs, mix) && k <= |mix|
    ensures Ledger(multiset{}, Signals(mix[..k])) == Some(Total(mix[..k], |qs|))
  {
    hide Ledger, Total, Own, Single, DrawnBy, SentBy;
    forall q | 0 <= q < |qs|
      ensures Ledger(multiset{}, SentBy(mix[..k], q)).Some?
    {
      OwnIsSingle(qs, mix, k, q);
    }
    MixAccepted(mix[..k], |qs|);
  }

  /** If different requests draw different UUIDs, the cache aborts on no interleaving of their signals,
      and then holds the partial blocks the requests have allocated and, for every full block, as many
      references as requests have it allocated. */
  lemma CacheNeverAborts(qs: seq<Request>, mix: seq<Tagged>)
    requires Interleaves(qs, mix) && DrawsApart(qs)
    ensures ProcessedAll(Signals(mix)).Some?
    ensures Matches(ProcessedAll(Signals(mix)).value, Chains(qs))
  {
    hide Interleaves, DrawsApart, Matches, Total, Chains, ProcessedAll;
    MixProcessed(qs, mix, |mix|);
    TotalIsChains(qs, mix, |qs|);
    assert mix[..|mix|] == mix && qs[..|qs|] == qs;
  }

  /** That the condition is needed: two requests that draw one UUID hold one block, and the second release
      aborts. */
  lemma SharedUuidAborts(u: Uuid)
    ensures var use, free := UsePartial(u), Deref([PartialBlock(u)]);
            ProcessedAll([use, use, free, free]) == None
  {
    var use, free := UsePartial(u), Deref([PartialBlock(u)]);
    var one, b := Cache({u}, multiset{}), [PartialBlock(u)];
    assert b[1..] == [];
    assert TakenAll(EMPTY, b) == TakenAll(one, []) == one;
    assert TakenAll(one, b) == TakenAll(Cache({u} + {u}, multiset{}), []);
    assert {u} + {u} == {u} && {u} - {u} == {};
    assert DroppedAll(one, b) == DroppedAll(EMPTY, []) == Some(EMPTY);
    assert DroppedAll(EMPTY, b) == None;
    assert Processed(EMPTY, use) == Some(one) && Processed(one, use) == Some(one);
    assert Processed(one, free) == Some(EMPTY) && Processed(EMPTY, free) == None;
    hide Processed;
    assert [use, use, free, free][..3] == [use, use, free] && [use, use, free][..2] == [use, use];
    assert [use, use][..1] == [use] && [use][..0] == [];
    assert ProcessedAll([use]) == Some(one);
    assert ProcessedAll([use, use]) == Some(one);
    assert ProcessedAll([use, use, free]) == Some(EMPTY);
  }
}
