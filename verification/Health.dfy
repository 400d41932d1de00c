/**
 Registration of health-check targets and the manager that starts one monitor task per target
 (lib/runtime/src/system_health.rs, lib/runtime/src/health_check.rs).  Every lock-protected
 section and every message taken from the registration channel is one atomic step; runs
 interleave registrations with the phases of the manager.
 */
module Health {
  import opened Wrappers

  type PortName = string
  type Target = string

  datatype Status = Ready | NotReady

  /** The manager: not started, starting tasks for the targets it found, listening to the channel, or
      gone after a registration it takes for a duplicate. */
  datatype Phase = NotStarted | Spawning(todo: seq<PortName>) | Monitoring | Exited

  /** `registered` and `spawned` record the order of first registrations and of started tasks;
      `found` are the targets present when the manager started; `reported` are the names whose status was
      configured at construction or set since. */
  datatype State = State(targets: map<PortName, Target>, notifiers: set<PortName>, status: map<PortName, Status>,
                         queue: seq<PortName>, phase: Phase, spawned: seq<PortName>,
                         registered: seq<PortName>, found: set<PortName>, reported: set<PortName>, panicked: bool)

  datatype Step =
    | Register(name: PortName, target: Target)
    | SetStatus(name: PortName, status: Status)
    | Start(order: seq<PortName>)
    | SpawnNext
    | TakeReceiver
    | Receive

  function Members(s: seq<PortName>): set<PortName> { set n | n in s }

  ghost predicate Enabled(s: State, step: Step) {
    match step
    case Register(_, _) => true
    case SetStatus(_, _) => true
    // The snapshot of the target table lists every target once, in any order.
    case Start(order) => s.phase.NotStarted? && Distinct(order) && Members(order) == s.targets.Keys
    case SpawnNext => s.phase.Spawning? && s.phase.todo != []
    case TakeReceiver => s.phase == Spawning([])
    case Receive => s.phase.Monitoring? && s.queue != []
  }

  function WithDefault(status: map<PortName, Status>, n: PortName): map<PortName, Status> {
    if n in status then status else status[n := NotReady]
  }

  /** `register_health_check_target`: a second registration of a name is ignored. */
  function Registered(s: State, n: PortName, t: Target): State {
    if n in s.targets then s
    else s.(targets := s.targets[n := t], notifiers := s.notifiers + {n}, status := WithDefault(s.status, n),
            registered := s.registered + [n],
            // Sending fails once the monitor has dropped the receiver.
            queue := if s.phase.Exited? then s.queue else s.queue + [n])
  }

  /** `spawn_portname_health_check_task`: aborts if the name has no notifier. */
  function Spawned(s: State, n: PortName): State {
    if n in s.notifiers then s.(spawned := s.spawned + [n]) else s.(panicked := true)
  }

  function Apply(s: State, step: Step): State
    requires Enabled(s, step)
  {
    match step
    case Register(n, t) => Registered(s, n, t)
    case SetStatus(n, v) => s.(status := s.status[n := v], reported := s.reported + {n})
    case Start(order) => s.(phase := Spawning(order), found := s.targets.Keys)
    case SpawnNext => Spawned(s, s.phase.todo[0]).(phase := Spawning(s.phase.todo[1..]))
    case TakeReceiver => s.(phase := Monitoring)
    case Receive =>
      var n, t := s.queue[0], s.(queue := s.queue[1..]);
      if n in s.spawned then t.(phase := Exited, queue := []) else Spawned(t, n)
  }

  /** Nothing is registered; the configured names already have a status. */
  function Initial(seed: map<PortName, Status>): State {
    State(map[], {}, seed, [], NotStarted, [], [], {}, seed.Keys, false)
  }

  ghost predicate AllReady(names: set<PortName>, status: map<PortName, Status>) {
    forall n :: n in names ==> n in status && status[n].Ready?
  }

  // ----- what every run keeps

  /** The three tables and the record of registrations agree. */
  ghost predicate TablesAgree(s: State) {
    && Members(s.registered) == s.targets.Keys == s.notifiers
    && s.status.Keys == s.reported + s.notifiers
    && (forall n :: n in s.notifiers - s.reported ==> s.status[n] == NotReady)
    && Distinct(s.registered)
    && !s.panicked
  }

  /** Nothing was registered when the manager started: every registration is in the channel or has its
      task, exactly once and in order. */
  ghost predicate EmptyStart(s: State) {
    && s.found == {} && !s.phase.Exited? && (s.phase.Spawning? ==> s.phase.todo == [])
    && s.spawned + s.queue == s.registered
    && (!s.phase.Monitoring? ==> s.spawned == [])
  }

  /** Something was registered before the start: tasks exist for what was found, nothing else. */
  ghost predicate LateStart(s: State) {
    && s.found != {} && !s.phase.NotStarted? && s.found <= s.targets.Keys
    && Distinct(s.spawned)
    && (s.phase.Spawning? ==>
          Distinct(s.spawned + s.phase.todo) && Members(s.spawned + s.phase.todo) == s.found)
    && (!s.phase.Spawning? ==> Members(s.spawned) == s.found)
    && (!s.phase.Exited? ==> s.queue == s.registered && s.registered != [] && s.registered[0] in s.found)
  }

  ghost predicate Inv(s: State) {
    TablesAgree(s) && (EmptyStart(s) || LateStart(s))
  }

  lemma RegisterKeepsTables(s: State, n: PortName, t: Target)
    requires TablesAgree(s)
    ensures TablesAgree(Registered(s, n, t))
  {
    if n !in s.targets {
      var r := Registered(s, n, t);
      assert n !in s.registered by {
        assert Members(s.registered) == s.targets.Keys;
      }
      assert Members(r.registered) == Members(s.registered) + {n};
    }
  }

  lemma RegisterKeeps(s: State, n: PortName, t: Target)
    requires Inv(s)
    ensures Inv(Registered(s, n, t))
  {
    hide TablesAgree, Distinct, Members, WithDefault;
    RegisterKeepsTables(s, n, t);
    if n !in s.targets && EmptyStart(s) {
      assert s.spawned + (s.queue + [n]) == (s.spawned + s.queue) + [n];
      assert EmptyStart(Registered(s, n, t));
    }
  }

  lemma NoMembers(order: seq<PortName>)
    ensures Members(order) == {} <==> order == []
  {
    if order != [] {
      assert order[0] in Members(order);
    }
  }

  lemma StartKeeps(s: State, order: seq<PortName>)
    requires Inv(s) && Enabled(s, Start(order))
    ensures Inv(Apply(s, Start(order)))
  {
    var t := Apply(s, Start(order));
    if s.targets.Keys == {} {
      NoMembers(order);
      assert EmptyStart(t);
    } else {
      assert s.spawned == [] && [] + order == order && [] + s.queue == s.queue;
      assert s.registered != [] && s.registered[0] in Members(s.registered);
      assert LateStart(t);
    }
  }

  lemma DistinctPrefix(x: seq<PortName>, y: seq<PortName>)
    requires Distinct(x + y)
    ensures Distinct(x)
  {
    assert forall i :: 0 <= i < |x| ==> (x + y)[i] == x[i];
  }

  lemma SpawnNextKeeps(s: State)
    requires Inv(s) && Enabled(s, SpawnNext)
    ensures Inv(Apply(s, SpawnNext))
  {
    var n, rest := s.phase.todo[0], s.phase.todo[1..];
    var t := Apply(s, SpawnNext);
    assert n in s.notifiers by {
      assert (s.spawned + s.phase.todo)[|s.spawned|] == n;
      assert n in Members(s.spawned + s.phase.todo);
    }
    assert s.spawned + s.phase.todo == (s.spawned + [n]) + rest;
    DistinctPrefix(s.spawned + [n], rest);
    assert LateStart(t);
  }

  lemma TakeReceiverKeeps(s: State)
    requires Inv(s) && Enabled(s, TakeReceiver)
    ensures Inv(Apply(s, TakeReceiver))
  {
    assert s.spawned + [] == s.spawned;
  }

  lemma ReceiveKeeps(s: State)
    requires Inv(s) && Enabled(s, Receive)
    ensures Inv(Apply(s, Receive))
    // With nothing registered at the start every message gets its task; otherwise the first ends the monitor.
    ensures EmptyStart(s) ==> s.queue[0] !in s.spawned
    ensures LateStart(s) ==> s.queue[0] in s.spawned
  {
    var n := s.queue[0];
    if EmptyStart(s) {
      assert s.registered[|s.spawned|] == n;
      assert n in Members(s.registered);
      assert (s.spawned + [n]) + s.queue[1..] == s.spawned + s.queue;
      assert forall i :: 0 <= i < |s.spawned| ==> s.registered[i] == s.spawned[i];
    } else {
      assert n in Members(s.spawned);
    }
  }

  lemma StepKeepsInv(s: State, step: Step)
    requires Inv(s) && Enabled(s, step)
    ensures Inv(Apply(s, step))
  {
    hide Inv, Enabled;
    match step
    case Register(n, t) => RegisterKeeps(s, n, t);
    case SetStatus(n, v) => SetStatusKeeps(s, n, v);
    case Start(order) => StartKeeps(s, order);
    case SpawnNext => SpawnNextKeeps(s);
    case TakeReceiver => TakeReceiverKeeps(s);
    case Receive => ReceiveKeeps(s);
  }

  lemma SetStatusKeeps(s: State, n: PortName, v: Status)
    requires Inv(s)
    ensures Inv(Apply(s, SetStatus(n, v)))
  {
  }

  ghost predicate IsRun(states: seq<State>, steps: seq<Step>) {
    && |states| == |steps| + 1 && (exists seed :: states[0] == Initial(seed))
    && (forall i :: 0 <= i < |steps| ==> Enabled(states[i], steps[i]) && states[i + 1] == Apply(states[i], steps[i]))
  }

  lemma {:induction false} RunInvariant(states: seq<State>, steps: seq<Step>, i: nat)
    requires IsRun(states, steps) && i < |states|
    ensures Inv(states[i])
  {
    if i > 0 {
      RunInvariant(states, steps, i - 1);
      StepKeepsInv(states[i - 1], steps[i - 1]);
    }
  }

  /** If nothing was registered when the manager started, then in every later state every registered
      name is waiting in the channel or has exactly one task, tasks start in order of registration,
      the monitor is alive, and neither a missing notifier nor a vanished target can occur. */
  lemma ExactlyOneTaskEach(states: seq<State>, steps: seq<Step>, i: nat)
    requires IsRun(states, steps) && i < |states| && states[i].found == {}
    ensures var s := states[i];
            && s.spawned + s.queue == s.registered && Distinct(s.registered)
            && Members(s.registered) == s.targets.Keys
            && !s.phase.Exited? && !s.panicked
            && Members(s.spawned) <= s.targets.Keys && s.targets.Keys <= s.notifiers
            && (s.queue == [] ==> Members(s.spawned) == s.targets.Keys)
  {
    RunInvariant(states, steps, i);
    var s := states[i];
    forall n | n in s.spawned
      ensures n in s.targets
    {
      var k :| 0 <= k < |s.spawned| && s.spawned[k] == n;
      assert s.registered[k] == n;
      assert n in Members(s.registered);
    }
    assert s.spawned + [] == s.spawned;
  }

  /** A target nobody has reported on yet counts as not ready, so no run reports overall readiness
      before every registered target has been configured or probed. */
  lemma ReadyOnlyAfterReports(states: seq<State>, steps: seq<Step>, i: nat)
    requires IsRun(states, steps) && i < |states|
    ensures var s := states[i];
            && s.targets.Keys <= s.status.Keys
            && (AllReady(s.targets.Keys, s.status) ==> s.targets.Keys <= s.reported)
  {
    RunInvariant(states, steps, i);
  }

  /** If something was registered before, nothing registered later is ever monitored. */
  lemma LateStartMonitorsNothingNew(states: seq<State>, steps: seq<Step>, i: nat, n: PortName)
    requires IsRun(states, steps) && i < |states| && states[i].found != {}
    requires n !in states[i].found
    ensures n !in states[i].spawned
  {
    RunInvariant(states, steps, i);
    var s := states[i];
    if s.phase.Spawning? {
      assert n !in Members(s.spawned + s.phase.todo);
    } else {
      assert n !in Members(s.spawned);
    }
  }

  /** The exact condition: once the manager runs and there is nothing left for it to receive, its tasks
      cover the registered targets exactly when nothing was registered before it started, or nothing
      has been registered since. */
  lemma CoveredIff(states: seq<State>, steps: seq<Step>, i: nat)
    requires IsRun(states, steps) && i < |states|
    requires (states[i].phase.Monitoring? || states[i].phase.Exited?) && !Enabled(states[i], Receive)
    ensures Members(states[i].spawned) == states[i].targets.Keys
            <==> states[i].found == {} || states[i].targets.Keys == states[i].found
  {
    RunInvariant(states, steps, i);
    if states[i].found == {} {
      ExactlyOneTaskEach(states, steps, i);
    }
  }

  /** The state after "a" was registered, the manager started, and its one task was started. */
  const EARLY: State := State(map["a" := "x"], {"a"}, map["a" := NotReady], ["a"], Monitoring, ["a"], ["a"], {"a"}, {}, false)

  /** That the condition is needed: with one target registered early, the monitor takes the queued
      message for a duplicate and stops, and a target registered afterwards gets no task. */
  lemma EarlyRegistrationEndsMonitor()
    ensures var s1 := Apply(Initial(map[]), Register("a", "x"));
            && Enabled(s1, Start(["a"]))
            && var s2 := Apply(s1, Start(["a"]));
               && Enabled(s2, SpawnNext) && Enabled(Apply(s2, SpawnNext), TakeReceiver)
               && Apply(Apply(s2, SpawnNext), TakeReceiver) == EARLY
    ensures Enabled(EARLY, Receive) && Apply(EARLY, Receive).phase.Exited?
    ensures var s := Apply(Apply(EARLY, Receive), Register("b", "y"));
            "b" in s.targets && "b" !in s.spawned && !Enabled(s, Receive)
  {
    var s1 := Apply(Initial(map[]), Register("a", "x"));
    assert s1 == State(map["a" := "x"], {"a"}, map["a" := NotReady], ["a"], NotStarted, [], ["a"], {}, {}, false);
    assert Members(["a"]) == {"a"};
    var s2 := Apply(s1, Start(["a"]));
    assert ["a"][1..] == [];
  }

  // ----- the objects

  class SystemHealth {
    var targets: map<PortName, Target>
    var notifiers: set<PortName>
    var portnameHealth: map<PortName, Status>
    var queue: seq<PortName>
    var receiverPresent: bool
    var receiverDropped: bool
    ghost var registered: seq<PortName>
    ghost var reported: set<PortName>

    ghost function View(phase: Phase, spawned: seq<PortName>, found: set<PortName>): State
      reads this
    {
      State(targets, notifiers, portnameHealth, queue, phase, spawned, registered, found, reported, false)
    }

    /** Configured names start as not ready if they will be probed, otherwise with the given status. */
    constructor (usePortnames: seq<PortName>, starting: Status, healthCheckEnabled: bool)
      ensures portnameHealth.Keys == Members(usePortnames)
      ensures forall n :: n in usePortnames ==>
                portnameHealth[n] == if healthCheckEnabled then NotReady else starting
      ensures View(NotStarted, [], {}) == Initial(portnameHealth)
      ensures receiverPresent && !receiverDropped
    {
      var seeded := if healthCheckEnabled then NotReady else starting;
      portnameHealth := map n | n in usePortnames :: seeded;
      targets, notifiers, queue := map[], {}, [];
      registered, reported := [], Members(usePortnames);
      receiverPresent, receiverDropped := true, false;
    }

    method SetPortnameHealthStatus(name: PortName, status: Status)
      modifies this`portnameHealth, this`reported
      ensures portnameHealth == old(portnameHealth)[name := status] && reported == old(reported) + {name}
      // In whatever phase the manager is, this is one step of the protocol.
      ensures forall phase: Phase, spawned, found ::
                View(phase, spawned, found) == Apply(old(View(phase, spawned, found)), SetStatus(name, status))
    {
      portnameHealth := portnameHealth[name := status];
      reported := reported + {name};
    }

    /** Checks and inserts under one lock, so that a name is announced at most once. */
    method RegisterHealthCheckTarget(name: PortName, target: Target)
      modifies this`targets, this`notifiers, this`portnameHealth, this`queue, this`registered
      ensures name in old(targets) ==>
                && targets == old(targets) && notifiers == old(notifiers)
                && portnameHealth == old(portnameHealth) && queue == old(queue) && registered == old(registered)
      ensures name !in old(targets) ==>
                && targets == old(targets)[name := target] && notifiers == old(notifiers) + {name}
                && portnameHealth == WithDefault(old(portnameHealth), name)
                && queue == (if receiverDropped then old(queue) else old(queue) + [name])
                && registered == old(registered) + [name]
      ensures forall phase: Phase, spawned, found :: (receiverDropped <==> phase.Exited?) ==>
                View(phase, spawned, found) == Apply(old(View(phase, spawned, found)), Register(name, target))
    {
      if name in targets {
        return;
      }
      targets := targets[name := target];
      notifiers := notifiers + {name};
      if name !in portnameHealth {
        portnameHealth := portnameHealth[name := NotReady];
      }
      if !receiverDropped {
        queue := queue + [name];
      }
      registered := registered + [name];
    }

    /** Succeeds once. */
    method TakeNewPortnameReceiver() returns (taken: bool)
      modifies this`receiverPresent
      ensures taken == old(receiverPresent) && !receiverPresent
    {
      taken := receiverPresent;
      receiverPresent := false;
    }

    /** The overall status is ready exactly when every registered target is. */
    method GetHealthCheckStatus() returns (ready: bool)
      ensures ready <==> AllReady(targets.Keys, portnameHealth)
    {
      var rest := targets.Keys;
      ready := true;
      while rest != {}
        invariant rest <= targets.Keys
        invariant ready <==> AllReady(targets.Keys - rest, portnameHealth)
        decreases rest
      {
        var n :| n in rest;
        rest := rest - {n};
        var status := if n in portnameHealth then portnameHealth[n] else NotReady;
        ready := ready && status.Ready?;
      }
    }
  }

  /** What starting does when nobody registers meanwhile: one task per target found, then the monitor. */
  function StartedAll(s: State, order: seq<PortName>): State {
    s.(phase := Monitoring, found := s.targets.Keys, spawned := s.spawned + order)
  }

  /** Starting is the steps of the protocol in a row. */
  lemma {:induction false} StartIsSteps(s: State, todo: seq<PortName>, done: State)
    requires s.phase == Spawning(todo) && Members(todo) <= s.notifiers
    requires done == s.(phase := Monitoring, spawned := s.spawned + todo)
    ensures exists states: seq<State>, n: nat :: SpawnSteps(states, n, s) && done == Apply(states[n], TakeReceiver)
    decreases |todo|
  {
    if todo == [] {
      assert s.spawned + [] == s.spawned;
      assert SpawnSteps([s], 0, s);
      assert done == Apply([s][0], TakeReceiver);
    } else {
      var t := Apply(s, SpawnNext);
      assert todo[0] in Members(todo);
      assert s.spawned + todo == (s.spawned + [todo[0]]) + todo[1..];
      StartIsSteps(t, todo[1..], done);
      var states: seq<State>, n: nat :| SpawnSteps(states, n, t) && done == Apply(states[n], TakeReceiver);
      var longer := [s] + states;
      assert SpawnSteps(longer, n + 1, s) && longer[n + 1] == states[n];
    }
  }

  ghost predicate SpawnSteps(states: seq<State>, n: nat, s: State) {
    && |states| == n + 1 && states[0] == s
    && (forall i :: 0 <= i < n ==> Enabled(states[i], SpawnNext) && states[i + 1] == Apply(states[i], SpawnNext))
    && Enabled(states[n], TakeReceiver)
  }

  /** `order` lists every name once. */
  ghost predicate IsSnapshot(order: seq<PortName>, names: set<PortName>) {
    Distinct(order) && Members(order) == names
  }

  /** Registering with the health object of a manager is a step that keeps the manager valid. */
  method RegisterManaged(manager: HealthCheckManager, name: PortName, target: Target)
    requires manager.Valid()
    modifies manager.health
    ensures manager.Valid() && manager.View() == Apply(old(manager.View()), Register(name, target))
  {
    RegisterKeeps(manager.View(), name, target);
    hide Inv;
    manager.health.RegisterHealthCheckTarget(name, target);
    assert manager.View() == Registered(old(manager.View()), name, target);
  }

  /** So is reporting a status. */
  method ReportManaged(manager: HealthCheckManager, name: PortName, status: Status)
    requires manager.Valid()
    modifies manager.health
    ensures manager.Valid() && manager.View() == Apply(old(manager.View()), SetStatus(name, status))
  {
    SetStatusKeeps(manager.View(), name, status);
    hide Inv;
    manager.health.SetPortnameHealthStatus(name, status);
  }

  class HealthCheckManager {
    const health: SystemHealth
    var portnameTasks: set<PortName>
    var phase: Phase
    ghost var spawned: seq<PortName>
    ghost var found: set<PortName>

    ghost function View(): State
      reads this, health
    {
      health.View(phase, spawned, found)
    }

    ghost predicate Valid()
      reads this, health
    {
      && Inv(View()) && portnameTasks == Members(spawned)
      && (health.receiverPresent <==> phase.NotStarted?) && !phase.Spawning?
      && (health.receiverDropped <==> phase.Exited?)
    }

    constructor (health: SystemHealth)
      requires health.receiverPresent && !health.receiverDropped
      requires EmptyStart(health.View(NotStarted, [], {})) && TablesAgree(health.View(NotStarted, [], {}))
      ensures this.health == health && Valid() && phase.NotStarted?
    {
      this.health := health;
      portnameTasks, phase, spawned, found := {}, NotStarted, [], {};
    }

    /** Starts the task of one name; that its notifier exists is a proof obligation, not a run-time check. */
    method SpawnTask(name: PortName)
      requires name in health.notifiers
      modifies this`portnameTasks, this`spawned
      ensures spawned == old(spawned) + [name] && portnameTasks == old(portnameTasks) + {name}
    {
      portnameTasks := portnameTasks + {name};
      spawned := spawned + [name];
    }

    /** The first start starts one task per target found, and then the monitor.  Every further one fails
        because the receiver is gone, after it has started a second task for every target. */
    method Start() returns (ok: bool)
      requires Valid()
      modifies this`portnameTasks, this`spawned, this`found, this`phase, health`receiverPresent
      ensures ok == old(phase).NotStarted?
      ensures ok ==> Valid()
      ensures ok ==>
                exists order :: Enabled(old(View()), Step.Start(order)) && View() == StartedAll(old(View()), order)
      ensures !ok ==>
                && phase == old(phase) && found == old(found) && !health.receiverPresent
                && portnameTasks == old(portnameTasks) + health.targets.Keys
                && exists order :: IsSnapshot(order, health.targets.Keys) && spawned == old(spawned) + order
    {
      hide Inv, Enabled;
      ghost var s := View();
      TargetsHaveNotifiers(s);
      var rest := health.targets.Keys;
      ghost var order: seq<PortName> := [];
      while rest != {}
        invariant phase == s.phase && found == s.found && health.receiverPresent == old(health.receiverPresent)
        invariant rest <= health.targets.Keys && IsSnapshot(order, health.targets.Keys - rest)
        invariant spawned == s.spawned + order && portnameTasks == Members(s.spawned) + Members(order)
        decreases rest
      {
        var n :| n in rest;
        rest := rest - {n};
        SpawnTask(n);
        MembersSnoc(order, n);
        order := order + [n];
      }
      ok := health.TakeNewPortnameReceiver();
      if ok {
        found := health.targets.Keys;
        phase := Monitoring;
        SnapshotEnables(s, order);
        StartKeepsAll(s, order);
      } else {
        assert IsSnapshot(order, health.targets.Keys);
      }
    }

    /** One round of the monitor loop. */
    method ReceiveOne()
      requires Valid() && phase.Monitoring? && health.queue != []
      modifies this`portnameTasks, this`spawned, this`phase, health`queue, health`receiverDropped
      ensures Valid() && View() == Apply(old(View()), Receive)
    {
      ghost var s := View();
      ReceiveKeeps(s);
      QueuedHasNotifier(s);
      hide Inv, Distinct;
      var name := health.queue[0];
      health.queue := health.queue[1..];
      if name in portnameTasks {
        phase := Exited;
        health.queue := [];
        health.receiverDropped := true;
      } else {
        MembersSnoc(spawned, name);
        SpawnTask(name);
      }
    }
  }

  lemma MembersSnoc(s: seq<PortName>, n: PortName)
    ensures Members(s + [n]) == Members(s) + {n}
    ensures Distinct(s) && n !in Members(s) ==> Distinct(s + [n])
  {
  }

  lemma TargetsHaveNotifiers(s: State)
    requires Inv(s)
    ensures s.targets.Keys == s.notifiers
  {
  }

  lemma SnapshotEnables(s: State, order: seq<PortName>)
    requires s.phase.NotStarted? && Distinct(order) && Members(order) == s.targets.Keys
    ensures Enabled(s, Start(order))
  {
  }

  lemma QueuedHasNotifier(s: State)
    requires Inv(s) && Enabled(s, Receive)
    ensures s.queue[0] in s.notifiers
  {
    if EmptyStart(s) {
      assert s.registered[|s.spawned|] == s.queue[0];
    }
    assert s.queue[0] in s.registered;
    assert s.queue[0] in Members(s.registered);
  }

  lemma StartKeepsAll(s: State, order: seq<PortName>)
    requires Inv(s) && Enabled(s, Start(order))
    ensures Inv(StartedAll(s, order))
  {
    var t := StartedAll(s, order);
    if s.targets.Keys == {} {
      NoMembers(order);
      assert s.spawned + [] == s.spawned;
      assert EmptyStart(t);
    } else {
      assert s.spawned == [] && [] + order == order && [] + s.queue == s.queue;
      assert s.registered != [] && s.registered[0] in Members(s.registered);
      assert LateStart(t);
    }
  }
}
