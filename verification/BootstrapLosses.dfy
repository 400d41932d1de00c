/** What decode connections and completions of the rendezvous can lose, and exactly when
    (lib/mocker/src/common/bootstrap.rs, `serve_decode`: the replaced waiter and the removal after a
    time-out). */
module BootstrapLosses {
  import opened Wrappers
  import opened Bootstrap

  // ----- connections that will not be ACKed any more

  predicate Doomed(p: Phase) { p.Orphaned? || p.Expired? || p.Failed? }

  /** The step takes the room from a waiting connection: another connection arrives there, or cleans up
      after its own time-out. */
  predicate Displaces(s: State, step: Step, c: ConnId)
    requires Enabled(s, step)
  {
    && c in s.conns && s.conns[c].phase.Waiting?
    && ((step.Connect? && step.room == s.conns[c].room) || (step.Cleanup? && s.conns[step.conn].room == s.conns[c].room))
  }

  /** What ends the hopes of connection `c`: its own time-out, its own failed write, or being displaced. */
  predicate Dooms(s: State, step: Step, c: ConnId)
    requires Enabled(s, step)
  {
    step == Expire(c) || step == Write(c, false) || Displaces(s, step, c)
  }

  lemma ConnectDooms(s: State, d: ConnId, r: RoomId, c: ConnId)
    requires Tables(s) && d !in s.conns && c in s.conns
    ensures var t := Apply(s, Connect(d, r));
            && c in t.conns && t.conns[c].room == s.conns[c].room
            && (Doomed(t.conns[c].phase) <==> Doomed(s.conns[c].phase) || Dooms(s, Connect(d, r), c))
  {
    RoomSoundAt(s, r);
  }

  lemma CompleteDooms(s: State, r: RoomId, c: ConnId)
    requires Tables(s) && c in s.conns
    ensures var t := Apply(s, Complete(r));
            && c in t.conns && t.conns[c].room == s.conns[c].room
            && (Doomed(t.conns[c].phase) <==> Doomed(s.conns[c].phase) || Dooms(s, Complete(r), c))
  {
    CompleteIs(s, r);
    hide Apply;
  }

  lemma CleanupDooms(s: State, d: ConnId, c: ConnId)
    requires Tables(s) && Enabled(s, Cleanup(d)) && c in s.conns
    ensures var t := Apply(s, Cleanup(d));
            && c in t.conns && t.conns[c].room == s.conns[c].room
            && (Doomed(t.conns[c].phase) <==> Doomed(s.conns[c].phase) || Dooms(s, Cleanup(d), c))
  {
    CleanupIs(s, d);
    hide Apply;
  }

  lemma OwnStepDooms(s: State, step: Step, c: ConnId)
    requires Enabled(s, step) && (step.Receive? || step.Expire? || step.Write?) && c in s.conns
    ensures var t := Apply(s, step);
            && c in t.conns && t.conns[c].room == s.conns[c].room
            && (Doomed(t.conns[c].phase) <==> Doomed(s.conns[c].phase) || Dooms(s, step, c))
  {
  }

  lemma StepDooms(s: State, step: Step, c: ConnId)
    requires Tables(s) && Enabled(s, step) && c in s.conns
    ensures var t := Apply(s, step);
            && c in t.conns && t.conns[c].room == s.conns[c].room
            && (Doomed(t.conns[c].phase) <==> Doomed(s.conns[c].phase) || Dooms(s, step, c))
  {
    hide Tables, Apply, Dooms, Doomed;
    match step
    case Connect(d, r) => ConnectDooms(s, d, r, c);
    case Complete(r) => CompleteDooms(s, r, c);
    case Cleanup(d) => CleanupDooms(s, d, c);
    case Receive(_) => OwnStepDooms(s, step, c);
    case Expire(_) => OwnStepDooms(s, step, c);
    case Write(_, _) => OwnStepDooms(s, step, c);
  }

  lemma NewConnection(s: State, step: Step, c: ConnId)
    requires Tables(s) && Enabled(s, step) && c !in s.conns && c in Apply(s, step).conns
    ensures step.Connect? && step.conn == c && !Doomed(Apply(s, step).conns[c].phase) && !Dooms(s, step, c)
  {
    hide Tables;
    assert c in EffectOf(s, step).conns by { hide EffectOf; }
    assert step.Connect? && step.conn == c by { hide Apply, Doomed, Dooms; }
    ConnectIs(s, c, step.room);
    hide Apply, EffectOf;
  }

  ghost predicate DoomedBefore(states: seq<State>, steps: seq<Step>, i: nat, c: ConnId)
    requires IsRun(states, steps) && i < |states|
  {
    exists k :: 0 <= k < i && Dooms(states[k], steps[k], c)
  }

  lemma {:induction false} AbsentUndoomed(states: seq<State>, steps: seq<Step>, i: nat, c: ConnId)
    requires IsRun(states, steps) && i < |states| && c !in states[i].conns
    ensures !DoomedBefore(states, steps, i, c)
  {
    if i > 0 {
      if c in states[i - 1].conns {
        StaysConnected(states[i - 1], steps[i - 1], c);
      }
      AbsentUndoomed(states, steps, i - 1, c);
    }
  }

  lemma StaysConnected(s: State, step: Step, c: ConnId)
    requires Enabled(s, step) && c in s.conns
    ensures c in Apply(s, step).conns
  {
    hide EffectOf;
  }

  /** In every state of every interleaving a connection is doomed if and only if it timed out, failed to
      write, or was displaced while it waited. */
  lemma {:induction false} DoomedIff(states: seq<State>, steps: seq<Step>, i: nat, c: ConnId)
    requires IsRun(states, steps) && i < |states| && c in states[i].conns
    ensures Doomed(states[i].conns[c].phase) <==> DoomedBefore(states, steps, i, c)
  {
    hide Apply, Dooms, Doomed, Tables;
    if i > 0 {
      RunTables(states, steps, i - 1);
      var s, step := states[i - 1], steps[i - 1];
      if c in s.conns {
        DoomedIff(states, steps, i - 1, c);
        StepDooms(s, step, c);
      } else {
        AbsentUndoomed(states, steps, i - 1, c);
        NewConnection(s, step, c);
      }
    }
  }

  lemma RunTables(states: seq<State>, steps: seq<Step>, i: nat)
    requires IsRun(states, steps) && i < |states|
    ensures Tables(states[i])
  {
    RunInvariant(states, steps, i);
  }

  /** A connection that neither times out nor fails to write ends without an ACK if and only if, while it
      waited, another connection arrived at its room or cleaned it up. */
  lemma EndsUnservedIff(states: seq<State>, steps: seq<Step>, i: nat, c: ConnId)
    requires IsRun(states, steps) && i < |states| && c in states[i].conns
    requires states[i].conns[c].phase.Acked? || states[i].conns[c].phase.Failed?
    requires forall k :: 0 <= k < i ==> steps[k] != Expire(c) && steps[k] != Write(c, false)
    ensures states[i].conns[c].phase.Failed? <==> exists k :: 0 <= k < i && Displaces(states[k], steps[k], c)
  {
    hide Displaces, Apply;
    DoomedIff(states, steps, i, c);
    if k :| 0 <= k < i && Displaces(states[k], steps[k], c) {
      assert Dooms(states[k], steps[k], c);
    }
  }

  // ----- what being doomed means

  /** The states a list of steps leads through. */
  ghost predicate Leads(states: seq<State>, steps: seq<Step>) {
    && |states| == |steps| + 1
    && (forall i :: 0 <= i < |steps| ==> Enabled(states[i], steps[i]) && states[i + 1] == Apply(states[i], steps[i]))
  }

  /** Some continuation ACKs the connection. */
  ghost predicate CanBeAcked(s: State, c: ConnId) {
    exists states, steps :: AckedAfter(s, c, states, steps)
  }

  ghost predicate AckedAfter(s: State, c: ConnId, states: seq<State>, steps: seq<Step>) {
    && Leads(states, steps) && states[0] == s
    && c in states[|steps|].conns && states[|steps|].conns[c].phase.Acked?
  }

  lemma {:induction false} DoomedStays(s: State, c: ConnId, states: seq<State>, steps: seq<Step>, i: nat)
    requires Tables(s) && c in s.conns && Doomed(s.conns[c].phase)
    requires Leads(states, steps) && states[0] == s && i < |states|
    ensures Tables(states[i]) && c in states[i].conns && Doomed(states[i].conns[c].phase)
  {
    hide Tables, Apply, Dooms, Doomed;
    if i > 0 {
      DoomedStays(s, c, states, steps, i - 1);
      StepKeepsTables(states[i - 1], steps[i - 1]);
      StepDooms(states[i - 1], steps[i - 1], c);
    }
  }

  /** One more step in front of a continuation. */
  lemma AckedLater(s: State, step: Step, c: ConnId)
    requires Enabled(s, step) && CanBeAcked(Apply(s, step), c)
    ensures CanBeAcked(s, c)
  {
    hide Apply, Enabled;
    var states, steps :| AckedAfter(Apply(s, step), c, states, steps);
    var longer, all := [s] + states, [step] + steps;
    forall i | 0 <= i < |all|
      ensures Enabled(longer[i], all[i]) && longer[i + 1] == Apply(longer[i], all[i])
    {
      if i > 0 {
        assert longer[i] == states[i - 1] && all[i] == steps[i - 1] && longer[i + 1] == states[i];
      }
    }
    assert AckedAfter(s, c, longer, all);
  }

  lemma AckedNow(s: State, c: ConnId)
    requires c in s.conns && s.conns[c].phase.Acked?
    ensures CanBeAcked(s, c)
  {
    assert AckedAfter(s, c, [s], []);
  }

  lemma GrantedCanBeAcked(s: State, c: ConnId)
    requires c in s.conns && s.conns[c].phase.Granted?
    ensures CanBeAcked(s, c)
  {
    AckedNow(Apply(s, Write(c, true)), c);
    AckedLater(s, Write(c, true), c);
  }

  lemma WokenCanBeAcked(s: State, c: ConnId)
    requires c in s.conns && s.conns[c].phase.Woken?
    ensures CanBeAcked(s, c)
  {
    GrantedCanBeAcked(Apply(s, Receive(c)), c);
    AckedLater(s, Receive(c), c);
  }

  lemma WaitingCanBeAcked(s: State, c: ConnId)
    requires Tables(s) && c in s.conns && s.conns[c].phase.Waiting?
    ensures CanBeAcked(s, c)
  {
    var r := s.conns[c].room;
    CompleteIs(s, r);
    hide Apply;
    WokenCanBeAcked(Apply(s, Complete(r)), c);
    AckedLater(s, Complete(r), c);
  }

  /** In every state of every run, the doomed connections are exactly those that no continuation ACKs. */
  lemma DoomedIffNeverAcked(s: State, c: ConnId)
    requires Tables(s) && c in s.conns
    ensures Doomed(s.conns[c].phase) <==> !CanBeAcked(s, c)
  {
    hide Tables, CanBeAcked;
    match s.conns[c].phase
    case Waiting => WaitingCanBeAcked(s, c);
    case Woken => WokenCanBeAcked(s, c);
    case Granted => GrantedCanBeAcked(s, c);
    case Acked => AckedNow(s, c);
    case _ => DoomedNeverAcked(s, c);
  }

  lemma DoomedNeverAcked(s: State, c: ConnId)
    requires Tables(s) && c in s.conns && Doomed(s.conns[c].phase)
    ensures !CanBeAcked(s, c)
  {
    hide Tables;
    forall states, steps
      ensures !AckedAfter(s, c, states, steps)
    {
      if AckedAfter(s, c, states, steps) {
        DoomedStays(s, c, states, steps, |steps|);
      }
    }
  }

  /** So, in every state of every interleaving: no continuation ACKs a connection if and only if it timed
      out, failed to write, or was displaced while it waited. */
  lemma NeverAckedIff(states: seq<State>, steps: seq<Step>, i: nat, c: ConnId)
    requires IsRun(states, steps) && i < |states| && c in states[i].conns
    ensures !CanBeAcked(states[i], c) <==> DoomedBefore(states, steps, i, c)
  {
    hide CanBeAcked, Doomed, DoomedBefore;
    DoomedIff(states, steps, i, c);
    RunTables(states, steps, i);
    DoomedIffNeverAcked(states[i], c);
  }

  // ----- completions that are stored, and discarded

  ghost predicate HasWaiter(s: State, r: RoomId) { r in s.rooms && s.rooms[r].waiter.Some? }

  /** The step stores a completion for the next decode. */
  ghost predicate Deposits(s: State, step: Step, r: RoomId) { step == Complete(r) && !HasWaiter(s, r) }

  /** The step takes whatever is stored for the room: a decode arrives, or one cleans up. */
  predicate Clears(s: State, step: Step, r: RoomId)
    requires Enabled(s, step)
  {
    (step.Connect? && step.room == r) || (step.Cleanup? && s.conns[step.conn].room == r)
  }

  lemma StoredAfter(s: State, step: Step, r: RoomId)
    requires Tables(s) && Enabled(s, step)
    ensures Stored(Apply(s, step), r) == 1 <==> Deposits(s, step, r) || (Stored(s, r) == 1 && !Clears(s, step, r))
  {
    RoomSoundAt(s, r);
    CountsAfter(s, step, r);
    hide Apply, Tables;
  }

  ghost predicate DepositedBefore(states: seq<State>, steps: seq<Step>, i: nat, r: RoomId)
    requires IsRun(states, steps) && i < |states|
  {
    exists j :: 0 <= j < i && Deposits(states[j], steps[j], r) && Undisturbed(states, steps, j, i, r)
  }

  ghost predicate Undisturbed(states: seq<State>, steps: seq<Step>, j: nat, i: nat, r: RoomId)
    requires IsRun(states, steps) && j < i < |states|
  {
    forall k :: j < k < i ==> !Clears(states[k], steps[k], r)
  }

  /** A completion is stored exactly if one came while nobody waited, and no decode has arrived and none
      has cleaned up since. */
  lemma {:induction false} StoredIff(states: seq<State>, steps: seq<Step>, i: nat, r: RoomId)
    requires IsRun(states, steps) && i < |states|
    ensures Stored(states[i], r) == 1 <==> DepositedBefore(states, steps, i, r)
  {
    hide Apply, Deposits, Clears, Tables;
    if i > 0 {
      var s, step := states[i - 1], steps[i - 1];
      StoredIff(states, steps, i - 1, r);
      RunTables(states, steps, i - 1);
      StoredAfter(s, step, r);
      if DepositedBefore(states, steps, i, r) {
        var j :| 0 <= j < i && Deposits(states[j], steps[j], r) && Undisturbed(states, steps, j, i, r);
        assert j < i - 1 ==> Undisturbed(states, steps, j, i - 1, r) && !Clears(s, step, r);
      }
      if Deposits(s, step, r) {
        assert Undisturbed(states, steps, i - 1, i, r);
      } else if Stored(s, r) == 1 && !Clears(s, step, r) {
        var j :| 0 <= j < i - 1 && Deposits(states[j], steps[j], r) && Undisturbed(states, steps, j, i - 1, r);
        assert Undisturbed(states, steps, j, i, r);
      }
    }
  }

  /** Cleaning up after a time-out makes the next decode wait where it would have been let through,
      exactly if a completion came while nobody waited and nobody has taken it since; and exactly then it
      loses a completion. */
  lemma CleanupDiscardsIff(states: seq<State>, steps: seq<Step>, i: nat, c: ConnId, next: ConnId)
    requires IsRun(states, steps) && i < |steps| && steps[i] == Cleanup(c) && next !in states[i].conns
    ensures var s, t, r := states[i], states[i + 1], states[i].conns[c].room;
            && next !in t.conns && Apply(t, Connect(next, r)).conns[next].phase.Waiting?
            && (Apply(s, Connect(next, r)).conns[next].phase.Granted? <==> DepositedBefore(states, steps, i, r))
            && Count(t.lost, r) == Count(s.lost, r) + (if DepositedBefore(states, steps, i, r) then 1 else 0)
  {
    hide DepositedBefore, Bump;
    var s, r := states[i], states[i].conns[c].room;
    StoredIff(states, steps, i, r);
    CleanupIs(s, c);
    CountsAfter(s, Cleanup(c), r);
    assert states[i + 1] == Apply(s, Cleanup(c));
    ConnectIs(s, next, r);
    ConnectIs(states[i + 1], next, r);
    hide Apply;
  }

  // ----- that all this happens

  const WAITING: State := State(map[0 := Room(false, Some(1))], map[1 := Conn(0, Waiting)], map[], map[])
  const EXPIRED: State := State(map[0 := Room(false, Some(1))], map[1 := Conn(0, Expired)], map[], map[])
  const TAKEN_OVER: State := State(map[0 := Room(false, Some(2))],
                                   map[1 := Conn(0, Expired), 2 := Conn(0, Waiting)], map[], map[])
  const UNHEARD: State := State(map[], map[1 := Conn(0, Expired)], map[0 := 1], map[0 := 1])
  const DEPOSITED: State := State(map[0 := Room(true, None)], map[1 := Conn(0, Expired)], map[0 := 2], map[0 := 1])

  lemma FirstSteps()
    ensures Enabled(INITIAL, Connect(1, 0)) && Apply(INITIAL, Connect(1, 0)) == WAITING
    ensures Enabled(WAITING, Expire(1)) && Apply(WAITING, Expire(1)) == EXPIRED
  {
  }

  /** A second decode of the same room ends the wait of the first. */
  lemma SecondDecodeOrphansFirst()
    ensures Enabled(WAITING, Connect(2, 0)) && Apply(WAITING, Connect(2, 0)).conns[1] == Conn(0, Orphaned)
  {
    ConnectIs(WAITING, 2, 0);
  }

  /** Connection 1 times out, connection 2 takes over the room, connection 1 cleans up, and the wait of
      connection 2, which never timed out, is over. */
  lemma TimeoutCanOrphanAnother()
    ensures Leads([INITIAL, WAITING, EXPIRED, TAKEN_OVER], [Connect(1, 0), Expire(1), Connect(2, 0)])
    ensures Enabled(TAKEN_OVER, Cleanup(1)) && Apply(TAKEN_OVER, Cleanup(1)).conns[2] == Conn(0, Orphaned)
  {
    hide Apply;
    FirstSteps();
    TakenOver();
    CleanupIs(TAKEN_OVER, 1);
  }

  lemma TakenOver()
    ensures Apply(EXPIRED, Connect(2, 0)) == TAKEN_OVER
  {
    ConnectIs(EXPIRED, 2, 0);
    hide Apply;
  }

  /** Connection 1 times out, prefill completes twice, and the clean-up of connection 1 discards the
      second completion, although nobody waits. */
  lemma TimeoutCanDiscardCompletion()
    ensures Leads([INITIAL, WAITING, EXPIRED, UNHEARD, DEPOSITED], [Connect(1, 0), Expire(1), Complete(0), Complete(0)])
    ensures Enabled(DEPOSITED, Cleanup(1)) && Apply(DEPOSITED, Cleanup(1)).rooms == map[]
    ensures Count(Apply(DEPOSITED, Cleanup(1)).lost, 0) == 2
  {
    hide Apply, Count;
    FirstSteps();
    CompletedTwice();
    DepositDiscarded();
  }

  lemma DepositDiscarded()
    ensures Apply(DEPOSITED, Cleanup(1)) == State(map[], map[1 := Conn(0, Failed)], map[0 := 2], map[0 := 2])
    ensures Count(map[0 := 2], 0) == 2
  {
    CleanupIs(DEPOSITED, 1);
    hide Apply;
  }

  lemma CompletedTwice()
    ensures Apply(EXPIRED, Complete(0)) == UNHEARD && Apply(UNHEARD, Complete(0)) == DEPOSITED
  {
    assert EffectOf(EXPIRED, Complete(0)) == Effect(None, map[], 1, 1);
    assert EffectOf(UNHEARD, Complete(0)) == Effect(Some(Room(true, None)), map[], 1, 0);
  }
}
