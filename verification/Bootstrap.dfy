/**
 The prefill/decode rendezvous (lib/mocker/src/common/bootstrap.rs) as a protocol.  Every
 entry-locked section, wake-up, time-out and ACK write is one atomic step; runs interleave
 them freely over any number of rooms and connections.
 */
module Bootstrap {
  import opened Wrappers

  type RoomId = nat
  type ConnId = nat

  /** A stored room; `waiter` is the connection at the other end of the wake-up channel. */
  datatype Room = Room(ready: bool, waiter: Option<ConnId>)

  /** Where a decode connection is.  `Woken`: the wake-up is in its channel.  `Orphaned`: its sender was
      dropped.  `Expired`: the timer fired and the room is still to be removed.  `Granted`: about to ACK. */
  datatype Phase = Waiting | Woken | Orphaned | Expired | Granted | Acked | Failed

  datatype Conn = Conn(room: RoomId, phase: Phase)

  /** `completions` counts the `complete_room` calls of a room, `lost` those among them that no
      connection was or will be served by. */
  datatype State = State(rooms: map<RoomId, Room>, conns: map<ConnId, Conn>,
                         completions: map<RoomId, nat>, lost: map<RoomId, nat>)

  const INITIAL: State := State(map[], map[], map[], map[])

  datatype Step =
    | Connect(conn: ConnId, room: RoomId)
    | Complete(room: RoomId)
    | Receive(conn: ConnId)
    | Expire(conn: ConnId)
    | Cleanup(conn: ConnId)
    | Write(conn: ConnId, ok: bool)

  predicate Enabled(s: State, step: Step) {
    match step
    case Connect(c, _) => c !in s.conns
    case Complete(_) => true
    case Receive(c) => c in s.conns && (s.conns[c].phase.Woken? || s.conns[c].phase.Orphaned?)
    case Expire(c) => c in s.conns && (s.conns[c].phase.Waiting? || s.conns[c].phase.Woken? || s.conns[c].phase.Orphaned?)
    case Cleanup(c) => c in s.conns && s.conns[c].phase.Expired?
    case Write(c, _) => c in s.conns && s.conns[c].phase.Granted?
  }

  function RoomOf(s: State, step: Step): RoomId
    requires Enabled(s, step)
  {
    if step.Connect? || step.Complete? then step.room else s.conns[step.conn].room
  }

  function Lookup(rooms: map<RoomId, Room>, r: RoomId): Option<Room> {
    if r in rooms then Some(rooms[r]) else None
  }

  /** Dropping a sender ends the wait of the connection behind it. */
  function Dropped(s: State, room: Option<Room>): map<ConnId, Conn> {
    if room.Some? && room.value.waiter.Some? && room.value.waiter.value in s.conns
       && s.conns[room.value.waiter.value].phase.Waiting?
    then map[room.value.waiter.value := s.conns[room.value.waiter.value].(phase := Orphaned)]
    else map[]
  }

  /** What a step writes: the entry of its room, some connections, and the two counters. */
  datatype Effect = Effect(entry: Option<Room>, conns: map<ConnId, Conn>, completed: nat, lost: nat)

  function EffectOf(s: State, step: Step): Effect
    requires Enabled(s, step)
  {
    var r := RoomOf(s, step);
    var entry := Lookup(s.rooms, r);
    match step
    case Connect(c, _) =>
      if entry.Some? && entry.value.ready then Effect(None, map[c := Conn(r, Granted)], 0, 0)
      else if entry.Some? then
        Effect(Some(entry.value.(waiter := Some(c))), Dropped(s, entry) + map[c := Conn(r, Waiting)], 0, 0)
      else Effect(Some(Room(false, Some(c))), map[c := Conn(r, Waiting)], 0, 0)
    case Complete(_) =>
      if entry.Some? && entry.value.waiter.Some? then
        var w := entry.value.waiter.value;
        if w in s.conns && s.conns[w].phase.Waiting?
        then Effect(None, map[w := s.conns[w].(phase := Woken)], 1, 0)
        else Effect(None, map[], 1, 1)
      else if entry.Some? then
        Effect(Some(entry.value.(ready := true)), map[], 1, if entry.value.ready then 1 else 0)
      else Effect(Some(Room(true, None)), map[], 1, 0)
    case Receive(c) =>
      Effect(entry, map[c := s.conns[c].(phase := if s.conns[c].phase.Woken? then Granted else Failed)], 0, 0)
    case Expire(c) =>
      Effect(entry, map[c := s.conns[c].(phase := Expired)], 0, if s.conns[c].phase.Woken? then 1 else 0)
    case Cleanup(c) =>
      Effect(None, Dropped(s, entry) + map[c := s.conns[c].(phase := Failed)], 0,
             if entry.Some? && entry.value.ready then 1 else 0)
    case Write(c, ok) =>
      Effect(entry, map[c := s.conns[c].(phase := if ok then Acked else Failed)], 0, if ok then 0 else 1)
  }

  function Count(m: map<RoomId, nat>, r: RoomId): nat { if r in m then m[r] else 0 }

  function Bump(m: map<RoomId, nat>, r: RoomId, n: nat): map<RoomId, nat> {
    if n == 0 then m else m[r := Count(m, r) + n]
  }

  function Put(rooms: map<RoomId, Room>, r: RoomId, entry: Option<Room>): map<RoomId, Room> {
    if entry.None? then rooms - {r} else rooms[r := entry.value]
  }

  function Written(s: State, r: RoomId, e: Effect): State {
    State(Put(s.rooms, r, e.entry), s.conns + e.conns, Bump(s.completions, r, e.completed), Bump(s.lost, r, e.lost))
  }

  function Apply(s: State, step: Step): State
    requires Enabled(s, step)
  {
    Written(s, RoomOf(s, step), EffectOf(s, step))
  }

  // ----- invariants of every interleaving

  /** A stored room is ready without a waiter, or has a waiter and is not ready. */
  ghost predicate RoomsSound(s: State) {
    forall r :: RoomSound(s, r)
  }

  predicate RoomSound(s: State, r: RoomId) {
    r in s.rooms ==> (s.rooms[r].ready <==> s.rooms[r].waiter.None?)
  }

  /** The waiter of a room is one of its own connections and has not been served. */
  ghost predicate WaitersSound(s: State) {
    forall r :: r in s.rooms && s.rooms[r].waiter.Some? ==>
      && s.rooms[r].waiter.value in s.conns
      && s.conns[s.rooms[r].waiter.value].room == r
      && (s.conns[s.rooms[r].waiter.value].phase.Waiting? || s.conns[s.rooms[r].waiter.value].phase.Expired?)
  }

  /** No lost wake-up: a waiting connection is the one its room would wake. */
  ghost predicate WaitingIsWaiter(s: State) {
    forall c :: c in s.conns && s.conns[c].phase.Waiting? ==>
      s.conns[c].room in s.rooms && s.rooms[s.conns[c].room].waiter == Some(c)
  }

  predicate Served(c: Conn, r: RoomId) {
    c.room == r && (c.phase.Woken? || c.phase.Granted? || c.phase.Acked?)
  }

  ghost function ServedConns(s: State, r: RoomId): set<ConnId> {
    set c | c in s.conns && Served(s.conns[c], r)
  }

  ghost function AckedConns(s: State, r: RoomId): set<ConnId> {
    set c | c in s.conns && s.conns[c] == Conn(r, Acked)
  }

  function Stored(s: State, r: RoomId): nat {
    if r in s.rooms && s.rooms[r].ready then 1 else 0
  }

  /** Every completion is accounted for: it served one connection, is stored for the next one, or is lost. */
  ghost predicate Conserved(s: State, r: RoomId) {
    Count(s.completions, r) == |ServedConns(s, r)| + Stored(s, r) + Count(s.lost, r)
  }

  ghost predicate Inv(s: State) {
    RoomsSound(s) && WaitersSound(s) && WaitingIsWaiter(s) && forall r :: Conserved(s, r)
  }

  ghost predicate Tables(s: State) { RoomsSound(s) && WaitersSound(s) && WaitingIsWaiter(s) }

  /** The tables stay sound if an update is sound for the one room it is about. */
  ghost predicate LocallySound(s: State, r: RoomId, entry: Option<Room>, conns: map<ConnId, Conn>) {
    && (forall c :: c in conns ==> conns[c].room == r && (c in s.conns ==> s.conns[c].room == r))
    && (entry.Some? ==> (entry.value.ready <==> entry.value.waiter.None?))
    && (entry.Some? && entry.value.waiter.Some? ==>
          var w := entry.value.waiter.value;
          && w in s.conns + conns && (s.conns + conns)[w].room == r
          && ((s.conns + conns)[w].phase.Waiting? || (s.conns + conns)[w].phase.Expired?))
    && (forall c :: c in s.conns + conns && (s.conns + conns)[c] == Conn(r, Waiting) ==>
          entry.Some? && entry.value.waiter == Some(c))
  }

  lemma LocalUpdateKeepsTables(s: State, t: State, r: RoomId, entry: Option<Room>, conns: map<ConnId, Conn>)
    requires Tables(s) && LocallySound(s, r, entry, conns)
    requires t.rooms == Put(s.rooms, r, entry) && t.conns == s.conns + conns
    ensures Tables(t)
  {
    forall q
      ensures RoomSound(t, q)
    {
      assert RoomSound(s, q);
    }
    forall q | q in t.rooms && q != r
      ensures q in s.rooms && t.rooms[q] == s.rooms[q]
      ensures t.rooms[q].waiter.Some? ==> t.rooms[q].waiter.value !in conns
    {
    }
    forall c | c in t.conns && t.conns[c].phase.Waiting?
      ensures t.conns[c].room in t.rooms && t.rooms[t.conns[c].room].waiter == Some(c)
    {
      if t.conns[c].room == r {
        assert t.conns[c] == Conn(r, Waiting);
      } else {
        assert c !in conns && s.conns[c] == t.conns[c];
      }
    }
  }

  lemma ConnectIsSound(s: State, c: ConnId, r: RoomId)
    requires Tables(s) && c !in s.conns
    ensures var e := EffectOf(s, Connect(c, r)); LocallySound(s, r, e.entry, e.conns)
  {
    RoomSoundAt(s, r);
    if r in s.rooms && !s.rooms[r].ready {
      TakeoverIsSound(s, c, r);
    } else {
      NobodyWaits(s, r);
      hide Tables, Dropped;
      var e := EffectOf(s, Connect(c, r));
      assert e.entry == if r in s.rooms then None else Some(Room(false, Some(c)));
      assert e.conns == map[c := Conn(r, if r in s.rooms then Granted else Waiting)];
      hide EffectOf;
    }
  }

  lemma NobodyWaits(s: State, r: RoomId)
    requires Tables(s) && (r !in s.rooms || s.rooms[r].ready)
    ensures forall d :: d in s.conns ==> s.conns[d] != Conn(r, Waiting)
  {
    RoomSoundAt(s, r);
  }

  lemma TakeoverIsSound(s: State, c: ConnId, r: RoomId)
    requires Tables(s) && c !in s.conns && r in s.rooms && !s.rooms[r].ready
    ensures var e := EffectOf(s, Connect(c, r)); LocallySound(s, r, e.entry, e.conns)
  {
    RoomSoundAt(s, r);
    var w := s.rooms[r].waiter.value;
    assert w in s.conns && s.conns[w].room == r;
    assert forall d :: d in s.conns && s.conns[d] == Conn(r, Waiting) ==> d == w;
    hide Tables;
    var e := EffectOf(s, Connect(c, r));
    assert e.entry == Some(Room(false, Some(c)));
    assert e.conns == if s.conns[w].phase.Waiting? then map[w := Conn(r, Orphaned), c := Conn(r, Waiting)]
                      else map[c := Conn(r, Waiting)];
    hide EffectOf;
  }

  lemma CompleteIsSound(s: State, r: RoomId)
    requires Tables(s)
    ensures var e := EffectOf(s, Complete(r)); LocallySound(s, r, e.entry, e.conns)
  {
    assert RoomSound(s, r);
  }

  lemma CleanupIsSound(s: State, c: ConnId)
    requires Tables(s) && Enabled(s, Cleanup(c))
    ensures var e := EffectOf(s, Cleanup(c)); LocallySound(s, s.conns[c].room, e.entry, e.conns)
  {
  }

  lemma ConnStepIsSound(s: State, step: Step)
    requires Tables(s) && Enabled(s, step) && (step.Receive? || step.Expire? || step.Write?)
    ensures LocallySound(s, RoomOf(s, step), EffectOf(s, step).entry, EffectOf(s, step).conns)
  {
    assert RoomSound(s, RoomOf(s, step));
  }

  lemma EffectIsSound(s: State, step: Step)
    requires Tables(s) && Enabled(s, step)
    ensures LocallySound(s, RoomOf(s, step), EffectOf(s, step).entry, EffectOf(s, step).conns)
  {
    hide Tables, LocallySound, EffectOf;
    match step
    case Connect(c, r) => ConnectIsSound(s, c, r);
    case Complete(r) => CompleteIsSound(s, r);
    case Cleanup(c) => CleanupIsSound(s, c);
    case Receive(_) => ConnStepIsSound(s, step);
    case Expire(_) => ConnStepIsSound(s, step);
    case Write(_, _) => ConnStepIsSound(s, step);
  }

  lemma StepKeepsTables(s: State, step: Step)
    requires Tables(s) && Enabled(s, step)
    ensures Tables(Apply(s, step))
  {
    hide Tables, LocallySound, EffectOf;
    EffectIsSound(s, step);
    LocalUpdateKeepsTables(s, Apply(s, step), RoomOf(s, step), EffectOf(s, step).entry, EffectOf(s, step).conns);
  }

  /** A step writes connections of its own room only. */
  lemma EffectIsLocal(s: State, step: Step, c: ConnId)
    requires Tables(s) && Enabled(s, step) && c in EffectOf(s, step).conns
    ensures EffectOf(s, step).conns[c].room == RoomOf(s, step)
    ensures c in s.conns ==> s.conns[c].room == RoomOf(s, step)
  {
  }

  lemma ServedElsewhere(s: State, step: Step, r: RoomId)
    requires Tables(s) && Enabled(s, step) && RoomOf(s, step) != r
    ensures ServedConns(Apply(s, step), r) == ServedConns(s, r)
  {
    hide EffectOf;
    var t, e := Apply(s, step), EffectOf(s, step);
    forall c
      ensures c in ServedConns(t, r) <==> c in ServedConns(s, r)
    {
      if c in e.conns {
        EffectIsLocal(s, step, c);
      }
    }
  }

  /** The connection that a step starts serving, or stops serving. */
  function Gained(s: State, step: Step): set<ConnId>
    requires Enabled(s, step)
  {
    if step.Connect? && Stored(s, step.room) == 1 then {step.conn}
    else if step.Complete? then EffectOf(s, step).conns.Keys
    else {}
  }

  function Forsaken(s: State, step: Step): set<ConnId>
    requires Enabled(s, step)
  {
    if (step.Expire? && s.conns[step.conn].phase.Woken?) || (step.Write? && !step.ok) then {step.conn} else {}
  }

  lemma EffectServes(s: State, step: Step, c: ConnId)
    requires Tables(s) && Enabled(s, step) && c in EffectOf(s, step).conns
    ensures var r := RoomOf(s, step);
            var before := c in s.conns && Served(s.conns[c], r);
            && (c in Gained(s, step) ==> !before) && (c in Forsaken(s, step) ==> before)
            && (Served(EffectOf(s, step).conns[c], r) <==> (before || c in Gained(s, step)) && c !in Forsaken(s, step))
  {
  }

  lemma GainedIsWritten(s: State, step: Step)
    requires Enabled(s, step)
    ensures Gained(s, step) <= EffectOf(s, step).conns.Keys && Forsaken(s, step) <= EffectOf(s, step).conns.Keys
  {
  }

  lemma ServedHere(s: State, step: Step)
    requires Tables(s) && Enabled(s, step)
    ensures var r := RoomOf(s, step);
            && Gained(s, step) !! ServedConns(s, r) && Forsaken(s, step) <= ServedConns(s, r)
            && ServedConns(Apply(s, step), r) == ServedConns(s, r) + Gained(s, step) - Forsaken(s, step)
  {
    hide EffectOf, Served, Gained, Forsaken, Tables;
    GainedIsWritten(s, step);
    var r, t, e := RoomOf(s, step), Apply(s, step), EffectOf(s, step);
    forall c | c in e.conns
      ensures (c in Gained(s, step) ==> c !in ServedConns(s, r)) && (c in Forsaken(s, step) ==> c in ServedConns(s, r))
      ensures c in ServedConns(t, r) <==> (c in ServedConns(s, r) || c in Gained(s, step)) && c !in Forsaken(s, step)
    {
      EffectServes(s, step, c);
    }
  }

  /** What a step changes in the counters and the stored completion of a room. */
  lemma CountsAfter(s: State, step: Step, r: RoomId)
    requires Enabled(s, step)
    ensures var t, e := Apply(s, step), EffectOf(s, step);
            if RoomOf(s, step) == r then
              && Count(t.completions, r) == Count(s.completions, r) + e.completed
              && Count(t.lost, r) == Count(s.lost, r) + e.lost
              && Stored(t, r) == (if e.entry.Some? && e.entry.value.ready then 1 else 0)
            else
              && Count(t.completions, r) == Count(s.completions, r) && Count(t.lost, r) == Count(s.lost, r)
              && Stored(t, r) == Stored(s, r)
  {
    hide EffectOf, RoomOf;
  }

  /** Every step balances: completions made against connections served, stored and lost. */
  lemma StepBalances(s: State, step: Step)
    requires Enabled(s, step) && RoomSound(s, RoomOf(s, step))
    ensures var r, e := RoomOf(s, step), EffectOf(s, step);
            var stored := if e.entry.Some? && e.entry.value.ready then 1 else 0;
            e.completed + Stored(s, r) + |Forsaken(s, step)| == |Gained(s, step)| + stored + e.lost
  {
    if step.Complete? {
      var e := EffectOf(s, step);
      assert Gained(s, step) == e.conns.Keys;
      if e.conns != map[] {
        assert e.conns.Keys == {s.rooms[step.room].waiter.value};
      }
    }
  }

  lemma RoomSoundAt(s: State, r: RoomId)
    requires Tables(s)
    ensures RoomSound(s, r)
  {
  }

  lemma StepConserves(s: State, step: Step, r: RoomId)
    requires Tables(s) && Enabled(s, step) && Conserved(s, r)
    ensures Conserved(Apply(s, step), r)
  {
    hide ServedConns, EffectOf, Gained, Forsaken, Tables, Apply, RoomSound, Count, Stored, Enabled;
    RoomSoundAt(s, r);
    CountsAfter(s, step, r);
    if RoomOf(s, step) == r {
      ServedHere(s, step);
      StepBalances(s, step);
      SetBalance(ServedConns(s, r), Gained(s, step), Forsaken(s, step));
    } else {
      ServedElsewhere(s, step, r);
    }
  }

  lemma SetBalance(before: set<ConnId>, gained: set<ConnId>, gone: set<ConnId>)
    requires gained !! before && gone <= before
    ensures |before + gained - gone| == |before| + |gained| - |gone|
  {
    assert before + gained - gone == (before - gone) + gained;
  }

  // ----- runs

  ghost predicate IsRun(states: seq<State>, steps: seq<Step>) {
    && |states| == |steps| + 1 && states[0] == INITIAL
    && (forall i :: 0 <= i < |steps| ==> Enabled(states[i], steps[i]) && states[i + 1] == Apply(states[i], steps[i]))
  }

  /** In every interleaving: every stored room is ready or has a waiter but not both, every waiting
      connection can still be woken, and every completion is served once, stored or lost. */
  lemma {:induction false} RunInvariant(states: seq<State>, steps: seq<Step>, i: nat)
    requires IsRun(states, steps) && i < |states|
    ensures Inv(states[i])
  {
    if i > 0 {
      RunInvariant(states, steps, i - 1);
      StepKeepsTables(states[i - 1], steps[i - 1]);
      forall r
        ensures Conserved(states[i], r)
      {
        StepConserves(states[i - 1], steps[i - 1], r);
      }
    } else {
      assert forall r :: ServedConns(INITIAL, r) == {};
    }
  }

  /** No decode is let through without a prefill: ACKs never outnumber completions. */
  lemma AcksNeverExceedCompletions(states: seq<State>, steps: seq<Step>, i: nat, r: RoomId)
    requires IsRun(states, steps) && i < |states|
    ensures |AckedConns(states[i], r)| <= Count(states[i].completions, r)
  {
    RunInvariant(states, steps, i);
    assert Conserved(states[i], r);
    SubsetSize(AckedConns(states[i], r), ServedConns(states[i], r));
  }

  lemma {:induction false} SubsetSize(x: set<ConnId>, y: set<ConnId>)
    requires x <= y
    ensures |x| <= |y|
  {
    assert y == x + (y - x);
  }

  // ----- one decode and one prefill meet

  /** A step of another room leaves a room's entry and its connections alone. */
  lemma OtherRoomUntouched(s: State, step: Step, r: RoomId, c: ConnId)
    requires Tables(s) && Enabled(s, step) && RoomOf(s, step) != r
    requires c in s.conns ==> s.conns[c].room == r
    requires step.Connect? ==> step.conn != c
    ensures var t := Apply(s, step);
            && Lookup(t.rooms, r) == Lookup(s.rooms, r)
            && (c in t.conns <==> c in s.conns) && (c in s.conns ==> t.conns[c] == s.conns[c])
  {
    assert c !in EffectOf(s, step).conns by {
      if c in EffectOf(s, step).conns {
        EffectIsLocal(s, step, c);
      }
    }
    hide EffectOf, Tables;
  }

  /** Only connection `c` and one completion ever concern room `r`, and `c` neither times out nor
      fails to write. */
  ghost predicate OnePair(states: seq<State>, steps: seq<Step>, r: RoomId, c: ConnId)
    requires IsRun(states, steps)
  {
    && (forall i :: 0 <= i < |steps| && RoomOf(states[i], steps[i]) == r ==>
          steps[i] in {Connect(c, r), Complete(r), Receive(c), Write(c, true)})
    && (forall i :: 0 <= i < |steps| && steps[i].Connect? && steps[i].conn == c ==> steps[i].room == r)
    && (forall i, j :: 0 <= i < j < |steps| ==> !(steps[i] == Complete(r) && steps[j] == Complete(r)))
  }

  /** Where the pair stands, given who has arrived. */
  ghost predicate Meeting(s: State, r: RoomId, c: ConnId, connected: bool, completed: bool) {
    && (c in s.conns <==> connected) && (connected ==> s.conns[c].room == r)
    && Lookup(s.rooms, r) == (if connected && !completed then Some(Room(false, Some(c)))
                              else if completed && !connected then Some(Room(true, None))
                              else None)
    && (connected && !completed ==> s.conns[c].phase.Waiting?)
    && (connected && completed ==> s.conns[c].phase.Woken? || s.conns[c].phase.Granted? || s.conns[c].phase.Acked?)
  }

  lemma StepOfPair(s: State, step: Step, r: RoomId, c: ConnId, connected: bool, completed: bool)
    requires Enabled(s, step) && Meeting(s, r, c, connected, completed)
    requires step in {Connect(c, r), Complete(r), Receive(c), Write(c, true)}
    requires step == Complete(r) ==> !completed
    ensures Meeting(Apply(s, step), r, c, connected || step.Connect?, completed || step.Complete?)
  {
  }

  lemma {:induction false} PairMeets(states: seq<State>, steps: seq<Step>, r: RoomId, c: ConnId, i: nat)
    requires IsRun(states, steps) && OnePair(states, steps, r, c) && i < |states|
    ensures Meeting(states[i], r, c, Connect(c, r) in steps[..i], Complete(r) in steps[..i])
  {
    if i > 0 {
      var s, step := states[i - 1], steps[i - 1];
      PairMeets(states, steps, r, c, i - 1);
      RunInvariant(states, steps, i - 1);
      assert steps[..i] == steps[..i - 1] + [step];
      var connected, completed := Connect(c, r) in steps[..i - 1], Complete(r) in steps[..i - 1];
      if RoomOf(s, step) == r {
        StepOfPair(s, step, r, c, connected, completed);
      } else {
        OtherRoomUntouched(s, step, r, c);
      }
    }
  }

  /** Whichever of the two arrives first, and whatever happens in other rooms meanwhile: once both
      have arrived and the connection has nothing left to do, it was ACKed and the room is gone. */
  lemma RendezvousCompletes(states: seq<State>, steps: seq<Step>, r: RoomId, c: ConnId)
    requires IsRun(states, steps) && OnePair(states, steps, r, c)
    requires Connect(c, r) in steps && Complete(r) in steps
    requires !Enabled(states[|steps|], Receive(c)) && !Enabled(states[|steps|], Write(c, true))
    ensures c in states[|steps|].conns && states[|steps|].conns[c] == Conn(r, Acked)
    ensures r !in states[|steps|].rooms
  {
    PairMeets(states, steps, r, c, |steps|);
    assert steps[..|steps|] == steps;
  }

  // ----- rooms are independent

  lemma EffectIndependent(s: State, a: Step, b: Step)
    requires Tables(s) && Enabled(s, a) && Enabled(s, b) && RoomOf(s, a) != RoomOf(s, b)
    requires a.Connect? && b.Connect? ==> a.conn != b.conn
    ensures Enabled(Apply(s, a), b) && RoomOf(Apply(s, a), b) == RoomOf(s, b)
    ensures EffectOf(Apply(s, a), b) == EffectOf(s, b)
  {
    var t, r := Apply(s, a), RoomOf(s, b);
    if !b.Complete? {
      OtherRoomUntouched(s, a, r, b.conn);
    }
    if r in s.rooms && s.rooms[r].waiter.Some? {
      assert WaitersSound(s);
      OtherRoomUntouched(s, a, r, s.rooms[r].waiter.value);
    }
    assert Lookup(t.rooms, r) == Lookup(s.rooms, r) by {
      hide EffectOf;
    }
    hide Apply, Tables;
  }

  lemma EffectsDisjoint(s: State, a: Step, b: Step, c: ConnId)
    requires Tables(s) && Enabled(s, a) && Enabled(s, b) && RoomOf(s, a) != RoomOf(s, b)
    requires a.Connect? && b.Connect? ==> a.conn != b.conn
    ensures !(c in EffectOf(s, a).conns && c in EffectOf(s, b).conns)
  {
    if c in EffectOf(s, a).conns && c in EffectOf(s, b).conns {
      EffectIsLocal(s, a, c);
      EffectIsLocal(s, b, c);
    }
  }

  /** Steps of different rooms commute. */
  lemma RoomsCommute(s: State, a: Step, b: Step)
    requires Tables(s) && Enabled(s, a) && Enabled(s, b) && RoomOf(s, a) != RoomOf(s, b)
    requires a.Connect? && b.Connect? ==> a.conn != b.conn
    ensures Enabled(Apply(s, a), b) && Enabled(Apply(s, b), a)
    ensures Apply(Apply(s, a), b) == Apply(Apply(s, b), a)
  {
    EffectIndependent(s, a, b);
    EffectIndependent(s, b, a);
    forall c
      ensures !(c in EffectOf(s, a).conns && c in EffectOf(s, b).conns)
    {
      EffectsDisjoint(s, a, b, c);
    }
    hide EffectOf, Tables, Enabled;
    CommutingUpdates(s, RoomOf(s, a), EffectOf(s, a), RoomOf(s, b), EffectOf(s, b));
  }

  lemma CommutingUpdates(s: State, p: RoomId, d: Effect, q: RoomId, e: Effect)
    requires p != q && forall c :: !(c in d.conns && c in e.conns)
    ensures Written(Written(s, p, d), q, e) == Written(Written(s, q, e), p, d)
  {
    PutsCommute(s.rooms, p, d.entry, q, e.entry);
    BumpsCommute(s.completions, p, d.completed, q, e.completed);
    BumpsCommute(s.lost, p, d.lost, q, e.lost);
    assert s.conns + d.conns + e.conns == s.conns + e.conns + d.conns;
    hide Put, Bump;
  }

  lemma PutsCommute(m: map<RoomId, Room>, p: RoomId, x: Option<Room>, q: RoomId, y: Option<Room>)
    requires p != q
    ensures Put(Put(m, p, x), q, y) == Put(Put(m, q, y), p, x)
  {
    var left, right := Put(Put(m, p, x), q, y), Put(Put(m, q, y), p, x);
    assert left.Keys == right.Keys;
  }

  lemma BumpsCommute(m: map<RoomId, nat>, p: RoomId, x: nat, q: RoomId, y: nat)
    requires p != q
    ensures Bump(Bump(m, p, x), q, y) == Bump(Bump(m, q, y), p, x)
  {
    var left, right := Bump(Bump(m, p, x), q, y), Bump(Bump(m, q, y), p, x);
    assert left.Keys == right.Keys;
  }

  // ----- the server object

  /** The connections after the sender held by `waiter`'s room is dropped. */
  function AfterDrop(conns: map<ConnId, Conn>, waiter: Option<ConnId>): map<ConnId, Conn> {
    if waiter.Some? && waiter.value in conns && conns[waiter.value].phase.Waiting?
    then conns[waiter.value := conns[waiter.value].(phase := Orphaned)]
    else conns
  }

  lemma AfterDropIs(s: State, room: Room)
    ensures s.conns + Dropped(s, Some(room)) == AfterDrop(s.conns, room.waiter)
  {
  }

  /** What a connection to a room that is not ready writes. */
  lemma ConnectTakesOver(s: State, c: ConnId, r: RoomId)
    requires c !in s.conns && r in s.rooms && !s.rooms[r].ready
    ensures Apply(s, Connect(c, r)) ==
            s.(rooms := s.rooms[r := s.rooms[r].(waiter := Some(c))],
               conns := AfterDrop(s.conns, s.rooms[r].waiter)[c := Conn(r, Waiting)])
  {
    AfterDropIs(s, s.rooms[r]);
    NoBump(s.completions, r);
    NoBump(s.lost, r);
    hide Dropped, AfterDrop, Bump;
    var dropped, m := Dropped(s, Some(s.rooms[r])), map[c := Conn(r, Waiting)];
    assert s.conns + (dropped + m) == (s.conns + dropped) + m;
    assert (s.conns + dropped) + m == (s.conns + dropped)[c := Conn(r, Waiting)];
  }

  lemma ConnectIs(s: State, c: ConnId, r: RoomId)
    requires c !in s.conns
    ensures Apply(s, Connect(c, r)) ==
            if r in s.rooms && s.rooms[r].ready then s.(rooms := s.rooms - {r}, conns := s.conns[c := Conn(r, Granted)])
            else if r in s.rooms then
              s.(rooms := s.rooms[r := s.rooms[r].(waiter := Some(c))],
                 conns := AfterDrop(s.conns, s.rooms[r].waiter)[c := Conn(r, Waiting)])
            else s.(rooms := s.rooms[r := Room(false, Some(c))], conns := s.conns[c := Conn(r, Waiting)])
  {
    hide Dropped, AfterDrop, Bump;
    if r in s.rooms && !s.rooms[r].ready {
      hide Apply;
      ConnectTakesOver(s, c, r);
    } else {
      NoBump(s.completions, r);
      NoBump(s.lost, r);
      var e := EffectOf(s, Connect(c, r));
      assert s.conns + e.conns == s.conns[c := e.conns[c]];
    }
  }

  lemma CompleteIs(s: State, r: RoomId)
    ensures var t := Apply(s, Complete(r));
            && t.completions == Bump(s.completions, r, 1)
            && t.lost == Bump(s.lost, r, EffectOf(s, Complete(r)).lost)
            && t.rooms == (if r in s.rooms && s.rooms[r].waiter.Some? then s.rooms - {r}
                           else if r in s.rooms then s.rooms[r := s.rooms[r].(ready := true)]
                           else s.rooms[r := Room(true, None)])
            && t.conns == (if r in s.rooms && s.rooms[r].waiter.Some? && s.rooms[r].waiter.value in s.conns
                              && s.conns[s.rooms[r].waiter.value].phase.Waiting?
                           then s.conns[s.rooms[r].waiter.value := s.conns[s.rooms[r].waiter.value].(phase := Woken)]
                           else s.conns)
  {
    hide Bump;
  }

  lemma CleanupIs(s: State, c: ConnId)
    requires Enabled(s, Cleanup(c))
    ensures var r := s.conns[c].room;
            var waiter := if r in s.rooms then s.rooms[r].waiter else None;
            Apply(s, Cleanup(c)) == s.(rooms := s.rooms - {r},
                                       conns := AfterDrop(s.conns, waiter)[c := Conn(r, Failed)],
                                       lost := Bump(s.lost, r, Stored(s, r)))
  {
    hide Bump;
    var r := s.conns[c].room;
    var m := map[c := Conn(r, Failed)];
    if r in s.rooms {
      AfterDropIs(s, s.rooms[r]);
      hide Dropped, AfterDrop;
      assert s.conns + (Dropped(s, Some(s.rooms[r])) + m) == (s.conns + Dropped(s, Some(s.rooms[r]))) + m;
      assert (s.conns + Dropped(s, Some(s.rooms[r]))) + m == (s.conns + Dropped(s, Some(s.rooms[r])))[c := Conn(r, Failed)];
    } else {
      assert s.conns + (Dropped(s, None) + m) == s.conns[c := Conn(r, Failed)];
    }
    NoBump(s.completions, r);
  }

  lemma NoBump(m: map<RoomId, nat>, r: RoomId)
    ensures Bump(m, r, 0) == m
  {
  }

  /** The shared room table, with the tasks and channels of the connections it refers to. */
  class BootstrapServer {
    var rooms: map<RoomId, Room>
    var conns: map<ConnId, Conn>
    ghost var completions: map<RoomId, nat>
    ghost var lost: map<RoomId, nat>

    ghost function View(): State
      reads this
    {
      State(rooms, conns, completions, lost)
    }

    constructor ()
      ensures View() == INITIAL
    {
      rooms, conns, completions, lost := map[], map[], map[], map[];
    }

    /** Replaces or removes a stored sender: a connection still waiting on it sees it dropped. */
    method DropSender(waiter: Option<ConnId>)
      modifies this`conns
      ensures conns == AfterDrop(old(conns), waiter)
    {
      if waiter.Some? && waiter.value in conns && conns[waiter.value].phase.Waiting? {
        conns := conns[waiter.value := conns[waiter.value].(phase := Orphaned)];
      }
    }

    /** The locked section of `serve_decode`: does the connection have to wait? */
    method ServeDecode(conn: ConnId, room: RoomId) returns (pending: bool)
      requires conn !in conns
      modifies this`rooms, this`conns
      ensures View() == Apply(old(View()), Connect(conn, room))
      ensures pending <==> !(room in old(rooms) && old(rooms)[room].ready)
    {
      hide Apply, AfterDrop;
      ConnectIs(View(), conn, room);
      if room in rooms {
        if rooms[room].ready {
          rooms := rooms - {room};
          conns := conns[conn := Conn(room, Granted)];
          pending := false;
        } else {
          DropSender(rooms[room].waiter);
          rooms := rooms[room := rooms[room].(waiter := Some(conn))];
          conns := conns[conn := Conn(room, Waiting)];
          pending := true;
        }
      } else {
        rooms := rooms[room := Room(false, Some(conn))];
        conns := conns[conn := Conn(room, Waiting)];
        pending := true;
      }
    }

    /** `complete_room`: wakes the waiter and removes the room, or leaves it marked ready. */
    method CompleteRoom(room: RoomId)
      modifies this
      ensures View() == Apply(old(View()), Complete(room))
    {
      hide Apply, EffectOf, Bump;
      CompleteIs(View(), room);
      completions, lost := Bump(completions, room, 1), Bump(lost, room, EffectOf(View(), Complete(room)).lost);
      if room in rooms {
        var waiter := rooms[room].waiter;
        if waiter.Some? {
          // Sending succeeds if the receiver is still there; the result is ignored.
          if waiter.value in conns && conns[waiter.value].phase.Waiting? {
            conns := conns[waiter.value := conns[waiter.value].(phase := Woken)];
          }
          rooms := rooms - {room};
        } else {
          rooms := rooms[room := rooms[room].(ready := true)];
        }
      } else {
        rooms := rooms[room := Room(true, None)];
      }
    }

    /** What a timed-out connection does last: remove whatever the table holds for its room. */
    method RemoveAfterTimeout(conn: ConnId)
      requires Enabled(View(), Cleanup(conn))
      modifies this
      ensures View() == Apply(old(View()), Cleanup(conn))
    {
      hide Apply, Bump;
      CleanupIs(View(), conn);
      var room := conns[conn].room;
      lost := Bump(lost, room, Stored(View(), room));
      if room in rooms {
        DropSender(rooms[room].waiter);
      }
      rooms := rooms - {room};
      conns := conns[conn := Conn(room, Failed)];
    }
  }
}
