/** Producer, router and aggregator workers as interleaved steps over FIFO channels (src/main.rs:127-242). */
module Pipeline {
  import opened Packets
  import opened LruSpec

  const PRODUCER_BOUND := 30000
  const WORKER_BOUND := 20000

  /** hash stands for the hasher applied to a flow key. */
  datatype Config = Config(workers: nat, capacity: nat, hash: FlowKey -> nat) {
    /** Slot capacity of each worker; it is 0 when the configured capacity is below the number of workers. */
    function WorkerCapacity(): nat
      requires workers > 0
    {
      capacity / workers
    }

    function WorkerFor(key: FlowKey): (w: nat)
      requires workers > 0
      ensures w < workers
    {
      hash(key) % workers
    }
  }

  /** A packet the router has handled, and whether a channel accepted it. */
  datatype Routing = Routing(event: PacketEvent, accepted: bool)

  datatype Worker = Worker(queue: seq<PacketEvent>, processed: seq<PacketEvent>, table: seq<Entry>,
                           sent: seq<Observation>, alive: bool)

  datatype Tagged = Tagged(worker: nat, observation: Observation)

  datatype State = State(produced: seq<PacketEvent>, inbox: seq<PacketEvent>, holding: Option<PacketEvent>,
                         routed: seq<Routing>, workers: seq<Worker>, inference: seq<Tagged>,
                         running: bool, routing: bool)

  datatype Action =
    | Produce(event: PacketEvent)  // the producer sends a packet to the router's channel
    | Take                         // the router receives a packet
    | Deliver                      // the router sends it on, or finds the worker's channel closed
    | Work(worker: nat)            // a worker receives and processes a packet and sends the result
    | Stop                         // the running flag is cleared
    | LeaveRouter                  // the router sees the cleared flag
    | LeaveWorker(worker: nat)     // a worker sees the cleared flag; its channel closes

  function Init(cfg: Config): State {
    State([], [], None, [], seq(cfg.workers, _ => Worker([], [], [], [], true)), [], true, true)
  }

  /** The state after an action, or None while the action cannot happen. Every schedule of the threads is a
      sequence of actions; a full channel blocks its sender, and a flag read early may be stale. */
  function Next(cfg: Config, s: State, a: Action): Option<State>
    requires cfg.workers > 0 && |s.workers| == cfg.workers
  {
    match a
    case Produce(e) =>
      if |s.inbox| >= PRODUCER_BOUND then None
      else Some(s.(produced := s.produced + [e], inbox := s.inbox + [e]))
    case Take =>
      if !s.routing || s.holding.Some? || s.inbox == [] then None
      else Some(s.(holding := Some(s.inbox[0]), inbox := s.inbox[1..]))
    case Deliver =>
      if s.holding.None? then None
      else
        var e := s.holding.value;
        var w := cfg.WorkerFor(e.Key());
        if !s.workers[w].alive then
          Some(s.(holding := None, routed := s.routed + [Routing(e, false)]))
        else if |s.workers[w].queue| >= WORKER_BOUND then None
        else
          Some(s.(holding := None, routed := s.routed + [Routing(e, true)],
                  workers := s.workers[w := s.workers[w].(queue := s.workers[w].queue + [e])]))
    case Work(w) =>
      if w >= cfg.workers || !s.workers[w].alive || s.workers[w].queue == [] then None
      else Some(WorkOn(cfg, s, w))
    case Stop => Some(s.(running := false))
    case LeaveRouter =>
      if s.running || !s.routing || s.holding.Some? then None else Some(s.(routing := false))
    case LeaveWorker(w) =>
      if s.running || w >= cfg.workers || !s.workers[w].alive then None
      else Some(s.(workers := s.workers[w := s.workers[w].(alive := false)]))
  }

  /** A worker of capacity 0 dies on its first packet: the table's expect fires. */
  function WorkOn(cfg: Config, s: State, w: nat): State
    requires cfg.workers > 0 && w < |s.workers| && s.workers[w].queue != []
  {
    var k := s.workers[w];
    var e := k.queue[0];
    var taken := k.(queue := k.queue[1..], processed := k.processed + [e]);
    if cfg.WorkerCapacity() == 0 then
      s.(workers := s.workers[w := taken.(alive := false)])
    else
      var table := Step(cfg.WorkerCapacity(), k.table, e);
      s.(workers := s.workers[w := taken.(table := table, sent := k.sent + [Front(table)])],
         inference := s.inference + [Tagged(w, Front(table))])
  }

  function Execute(cfg: Config, actions: seq<Action>): (r: Option<State>)
    requires cfg.workers > 0
    ensures r.Some? ==> |r.value.workers| == cfg.workers
  {
    if actions == [] then Some(Init(cfg))
    else
      var before := Execute(cfg, actions[..|actions| - 1]);
      if before.None? then None else Next(cfg, before.value, actions[|actions| - 1])
  }

  // ---------- what the channels keep ----------

  function Events(routed: seq<Routing>): seq<PacketEvent> {
    if routed == [] then [] else Events(routed[..|routed| - 1]) + [routed[|routed| - 1].event]
  }

  function Accepted(routed: seq<Routing>): seq<PacketEvent> {
    if routed == [] then []
    else Accepted(routed[..|routed| - 1])
         + (if routed[|routed| - 1].accepted then [routed[|routed| - 1].event] else [])
  }

  /** The packets of a trace that belong to one worker. */
  function For(cfg: Config, w: nat, trace: seq<PacketEvent>): seq<PacketEvent>
    requires cfg.workers > 0
  {
    if trace == [] then []
    else For(cfg, w, trace[..|trace| - 1])
         + (if cfg.WorkerFor(trace[|trace| - 1].Key()) == w then [trace[|trace| - 1]] else [])
  }

  function From(w: nat, inference: seq<Tagged>): seq<Observation> {
    if inference == [] then []
    else From(w, inference[..|inference| - 1])
         + (if inference[|inference| - 1].worker == w then [inference[|inference| - 1].observation] else [])
  }

  function Held(holding: Option<PacketEvent>): seq<PacketEvent> {
    if holding.None? then [] else [holding.value]
  }

  /** Nothing is lost, duplicated or reordered on the way to the router, and no channel overflows. */
  ghost predicate RouterInOrder(s: State) {
    && s.produced == Events(s.routed) + Held(s.holding) + s.inbox
    && |s.inbox| <= PRODUCER_BOUND
    && (AllAlive(s) ==> Accepted(s.routed) == Events(s.routed))
  }

  ghost predicate AllAlive(s: State) {
    forall w :: 0 <= w < |s.workers| ==> s.workers[w].alive
  }

  /** What a worker has processed followed by what waits for it is its share of the accepted packets, and its
      table and results are a function of what it has processed. */
  ghost predicate WorkerInOrder(cfg: Config, s: State, w: nat)
    requires cfg.workers > 0 && w < |s.workers|
  {
    var k := s.workers[w];
    && k.processed + k.queue == For(cfg, w, Accepted(s.routed))
    && |k.queue| <= WORKER_BOUND
    && From(w, s.inference) == k.sent
    && if cfg.WorkerCapacity() == 0 then k.sent == [] && k.table == [] && (k.alive ==> k.processed == [])
       else k.table == Run(cfg.WorkerCapacity(), k.processed)
            && k.sent == Observed(cfg.WorkerCapacity(), k.processed)
  }

  ghost predicate InOrder(cfg: Config, s: State) {
    && cfg.workers > 0
    && |s.workers| == cfg.workers
    && RouterInOrder(s)
    && (forall i :: 0 <= i < |s.inference| ==> s.inference[i].worker < cfg.workers)
    && forall w :: 0 <= w < cfg.workers ==> WorkerInOrder(cfg, s, w)
  }

  lemma {:induction false} RoutedAppend(cfg: Config, routed: seq<Routing>, r: Routing, w: nat)
    requires cfg.workers > 0
    ensures Events(routed + [r]) == Events(routed) + [r.event]
    ensures Accepted(routed + [r]) == Accepted(routed) + (if r.accepted then [r.event] else [])
    ensures For(cfg, w, Accepted(routed + [r])) ==
            For(cfg, w, Accepted(routed)) +
            (if r.accepted && cfg.WorkerFor(r.event.Key()) == w then [r.event] else [])
  {
    assert (routed + [r])[..|routed|] == routed;
    var trace := Accepted(routed);
    assert trace + [] == trace;
    ForAppend(cfg, w, trace, r.event);
  }

  lemma {:induction false} ForAppend(cfg: Config, w: nat, trace: seq<PacketEvent>, e: PacketEvent)
    requires cfg.workers > 0
    ensures For(cfg, w, trace + [e]) ==
            For(cfg, w, trace) + (if cfg.WorkerFor(e.Key()) == w then [e] else [])
  {
    assert (trace + [e])[..|trace|] == trace;
  }

  lemma {:induction false} FromAppend(w: nat, inference: seq<Tagged>, t: Tagged)
    ensures From(w, inference + [t]) == From(w, inference) + (if t.worker == w then [t.observation] else [])
  {
    assert (inference + [t])[..|inference|] == inference;
  }

  lemma NobodyRevives(cfg: Config, s: State, a: Action)
    requires cfg.workers > 0 && |s.workers| == cfg.workers
    requires Next(cfg, s, a).Some? && AllAlive(Next(cfg, s, a).value)
    ensures AllAlive(s)
  {
    var t := Next(cfg, s, a).value;
    forall w | 0 <= w < |s.workers| ensures s.workers[w].alive {
      assert t.workers[w].alive;
    }
  }

  lemma AliveAt(s: State, w: nat)
    requires AllAlive(s) && w < |s.workers|
    ensures s.workers[w].alive
  {
  }

  lemma {:induction false} DeliverKeepsOrder(cfg: Config, s: State)
    requires InOrder(cfg, s) && Next(cfg, s, Deliver).Some?
    ensures InOrder(cfg, Next(cfg, s, Deliver).value)
  {
    hide Events, Accepted, For, From, Run, Observed, AllAlive;
    var e, t := s.holding.value, Next(cfg, s, Deliver).value;
    if AllAlive(t) {
      NobodyRevives(cfg, s, Deliver);
      AliveAt(s, cfg.WorkerFor(e.Key()));
    }
    var r := t.routed[|s.routed|];
    assert t.routed == s.routed + [r] && r.event == e;
    RoutedAppend(cfg, s.routed, r, 0);
    assert Events(s.routed) + [e] + [] + s.inbox == Events(s.routed) + [e] + s.inbox;
    assert r.accepted == s.workers[cfg.WorkerFor(e.Key())].alive;
    forall w | 0 <= w < cfg.workers ensures WorkerInOrder(cfg, t, w) {
      assert WorkerInOrder(cfg, s, w);
      RoutedAppend(cfg, s.routed, r, w);
      var k := s.workers[w];
      assert k.processed + (k.queue + [e]) == k.processed + k.queue + [e];
    }
  }

  lemma {:induction false} WorkKeepsOrder(cfg: Config, s: State, w: nat)
    requires InOrder(cfg, s) && Next(cfg, s, Work(w)).Some?
    ensures InOrder(cfg, Next(cfg, s, Work(w)).value)
  {
    hide Events, Accepted, For, From, Run, Observed, Step, AllAlive;
    var t := Next(cfg, s, Work(w)).value;
    if AllAlive(t) {
      NobodyRevives(cfg, s, Work(w));
    }
    var k, e := s.workers[w], s.workers[w].queue[0];
    assert WorkerInOrder(cfg, s, w);
    assert k.processed + [e] + k.queue[1..] == k.processed + k.queue;
    if cfg.WorkerCapacity() > 0 {
      RunAppend(cfg.WorkerCapacity(), k.processed, e);
    }
    forall v | 0 <= v < cfg.workers ensures WorkerInOrder(cfg, t, v) {
      assert WorkerInOrder(cfg, s, v);
      if cfg.WorkerCapacity() > 0 {
        FromAppend(v, s.inference, t.inference[|s.inference|]);
      }
    }
  }

  lemma {:induction false} OtherStepsKeepOrder(cfg: Config, s: State, a: Action)
    requires InOrder(cfg, s) && Next(cfg, s, a).Some? && !a.Deliver? && !a.Work?
    ensures InOrder(cfg, Next(cfg, s, a).value)
  {
    hide Events, Accepted, For, From, Run, Observed, AllAlive;
    var t := Next(cfg, s, a).value;
    if AllAlive(t) {
      NobodyRevives(cfg, s, a);
    }
    if a.Produce? {
      assert Events(s.routed) + Held(s.holding) + (s.inbox + [a.event])
          == Events(s.routed) + Held(s.holding) + s.inbox + [a.event];
    }
    if a.Take? {
      assert Events(s.routed) + [s.inbox[0]] + s.inbox[1..] == Events(s.routed) + [] + s.inbox;
    }
    forall w | 0 <= w < cfg.workers ensures WorkerInOrder(cfg, t, w) {
      assert WorkerInOrder(cfg, s, w);
    }
  }

  lemma {:induction false} InitInOrder(cfg: Config)
    requires cfg.workers > 0
    ensures InOrder(cfg, Init(cfg))
  {
  }

  /** Whatever the schedule, every reachable state keeps the order invariants. */
  lemma {:induction false} EveryScheduleInOrder(cfg: Config, actions: seq<Action>)
    requires cfg.workers > 0 && Execute(cfg, actions).Some?
    ensures InOrder(cfg, Execute(cfg, actions).value)
  {
    hide InOrder, Next;
    if actions == [] {
      InitInOrder(cfg);
    } else {
      var front, a := actions[..|actions| - 1], actions[|actions| - 1];
      EveryScheduleInOrder(cfg, front);
      var s := Execute(cfg, front).value;
      if a.Deliver? {
        DeliverKeepsOrder(cfg, s);
      } else if a.Work? {
        WorkKeepsOrder(cfg, s, a.worker);
      } else {
        OtherStepsKeepOrder(cfg, s, a);
      }
    }
  }

  // ---------- schedule independence ----------

  predicate Comparable<T(==)>(s: seq<T>, t: seq<T>) {
    s <= t || t <= s
  }

  lemma {:induction false} ForPrefix(cfg: Config, w: nat, trace: seq<PacketEvent>, n: nat)
    requires cfg.workers > 0 && n <= |trace|
    ensures For(cfg, w, trace[..n]) <= For(cfg, w, trace)
  {
    if n == |trace| {
      assert trace[..n] == trace;
    } else {
      ForPrefix(cfg, w, trace[..|trace| - 1], n);
      assert trace[..|trace| - 1][..n] == trace[..n];
    }
  }

  lemma PrefixesCompare<T>(a: seq<T>, b: seq<T>, s: seq<T>, t: seq<T>)
    requires a <= s && b <= t && (s <= t || t <= s)
    ensures |a| <= |b| ==> a <= b
    ensures |a| == |b| ==> a == b
  {
  }

  /** A worker's results depend only on how many packets it has consumed of a given accepted trace. */
  lemma {:induction false} ScheduleDoesNotMatter(cfg: Config, one: seq<Action>, two: seq<Action>, w: nat)
    requires cfg.workers > 0 && w < cfg.workers
    requires Execute(cfg, one).Some? && Execute(cfg, two).Some?
    requires Comparable(Accepted(Execute(cfg, one).value.routed), Accepted(Execute(cfg, two).value.routed))
    ensures var a, b := Execute(cfg, one).value.workers[w], Execute(cfg, two).value.workers[w];
            && (|a.processed| <= |b.processed| ==> a.processed <= b.processed && a.sent <= b.sent)
            && (|a.processed| == |b.processed| ==> a.table == b.table && a.sent == b.sent)
  {
    hide Execute, Accepted, For, From, Run, Observed, RouterInOrder, Next;
    var s, t := Execute(cfg, one).value, Execute(cfg, two).value;
    EveryScheduleInOrder(cfg, one);
    EveryScheduleInOrder(cfg, two);
    assert WorkerInOrder(cfg, s, w) && WorkerInOrder(cfg, t, w);
    var a, b := s.workers[w], t.workers[w];
    var p, q := Accepted(s.routed), Accepted(t.routed);
    if p <= q {
      ForPrefix(cfg, w, q, |p|);
      assert q[..|p|] == p;
    } else {
      ForPrefix(cfg, w, p, |q|);
      assert p[..|q|] == q;
    }
    PrefixesCompare(a.processed, b.processed, For(cfg, w, p), For(cfg, w, q));
    if |a.processed| <= |b.processed| {
      assert a.processed == b.processed[..|a.processed|];
      if cfg.WorkerCapacity() > 0 {
        ObservedPrefix(cfg.WorkerCapacity(), b.processed, |a.processed|);
      }
    }
    if |a.processed| == |b.processed| {
      assert a.processed == b.processed;
    }
  }

  /** While no worker has left, that trace is a prefix of what the producer sent: equal traffic gives equal
      results in any two schedules. */
  lemma {:induction false} SameTrafficSameResults(cfg: Config, one: seq<Action>, two: seq<Action>, w: nat)
    requires cfg.workers > 0 && w < cfg.workers
    requires Execute(cfg, one).Some? && Execute(cfg, two).Some?
    requires AllAlive(Execute(cfg, one).value) && AllAlive(Execute(cfg, two).value)
    requires Comparable(Execute(cfg, one).value.produced, Execute(cfg, two).value.produced)
    ensures var a, b := Execute(cfg, one).value.workers[w], Execute(cfg, two).value.workers[w];
            && (|a.processed| <= |b.processed| ==> a.sent <= b.sent)
            && (|a.processed| == |b.processed| ==> a.table == b.table && a.sent == b.sent)
  {
    hide Execute, Accepted, Events, For, From, Run, Observed, Next;
    EveryScheduleInOrder(cfg, one);
    EveryScheduleInOrder(cfg, two);
    var s, t := Execute(cfg, one).value, Execute(cfg, two).value;
    assert Accepted(s.routed) <= s.produced && Accepted(t.routed) <= t.produced;
    ScheduleDoesNotMatter(cfg, one, two, w);
  }

  /** A worker's capacity is 0 exactly when fewer slots than workers are configured. */
  lemma CapacityIsZeroIff(cfg: Config)
    requires cfg.workers > 0
    ensures cfg.WorkerCapacity() == 0 <==> cfg.capacity < cfg.workers
  {
  }

  /** With a slot for every worker, nobody leaves before the system is told to stop. */
  lemma {:induction false} NobodyLeavesEarly(cfg: Config, actions: seq<Action>)
    requires cfg.capacity >= cfg.workers > 0 && Execute(cfg, actions).Some?
    requires Stop !in actions
    ensures var s := Execute(cfg, actions).value; s.running && s.routing && AllAlive(s)
  {
    CapacityIsZeroIff(cfg);
    if actions != [] {
      NobodyLeavesEarly(cfg, actions[..|actions| - 1]);
      assert actions[|actions| - 1] in actions;
    }
  }

  /** So until then, comparable traffic gives equal results in any two schedules. */
  lemma {:induction false} RunningSystemIsDeterministic(cfg: Config, one: seq<Action>, two: seq<Action>, w: nat)
    requires cfg.capacity >= cfg.workers > w
    requires Execute(cfg, one).Some? && Execute(cfg, two).Some? && Stop !in one && Stop !in two
    requires Comparable(Execute(cfg, one).value.produced, Execute(cfg, two).value.produced)
    ensures var a, b := Execute(cfg, one).value.workers[w], Execute(cfg, two).value.workers[w];
            && (|a.processed| <= |b.processed| ==> a.sent <= b.sent)
            && (|a.processed| == |b.processed| ==> a.table == b.table && a.sent == b.sent)
  {
    NobodyLeavesEarly(cfg, one);
    NobodyLeavesEarly(cfg, two);
    SameTrafficSameResults(cfg, one, two, w);
  }

  // ---------- progress ----------

  function TotalQueued(workers: seq<Worker>): nat {
    if workers == [] then 0 else TotalQueued(workers[..|workers| - 1]) + |workers[|workers| - 1].queue|
  }

  /** How much is still to do for the packets already produced. */
  function Pending(s: State): nat {
    3 * |s.inbox| + 2 * |Held(s.holding)| + TotalQueued(s.workers)
  }

  predicate Drained(s: State) {
    && s.inbox == [] && s.holding == None
    && forall w :: 0 <= w < |s.workers| ==> s.workers[w].queue == []
  }

  lemma {:induction false} QueuedUpdate(workers: seq<Worker>, w: nat, k: Worker)
    requires w < |workers|
    ensures TotalQueued(workers[w := k]) == TotalQueued(workers) - |workers[w].queue| + |k.queue|
  {
    var last := |workers| - 1;
    if w == last {
      assert workers[w := k][..last] == workers[..last];
    } else {
      QueuedUpdate(workers[..last], w, k);
      assert workers[w := k][..last] == workers[..last][w := k];
    }
  }

  lemma {:induction false} NothingQueuedIff(workers: seq<Worker>)
    ensures TotalQueued(workers) == 0 <==> forall w :: 0 <= w < |workers| ==> workers[w].queue == []
  {
    if workers != [] {
      NothingQueuedIff(workers[..|workers| - 1]);
      assert forall w :: 0 <= w < |workers| - 1 ==> workers[..|workers| - 1][w] == workers[w];
    }
  }

  /** Nothing is pending exactly when everything is drained. */
  lemma PendingIff(s: State)
    ensures Pending(s) == 0 <==> Drained(s)
  {
    NothingQueuedIff(s.workers);
  }

  /** A step of the router or of a worker that does not come from the outside. */
  predicate Internal(a: Action) {
    a.Take? || a.Deliver? || a.Work?
  }

  /** Internal steps work off what is pending and produce nothing, so only finitely many can follow each other. */
  lemma {:induction false} InternalStepsFinish(cfg: Config, s: State, a: Action)
    requires cfg.workers > 0 && |s.workers| == cfg.workers && Internal(a) && Next(cfg, s, a).Some?
    ensures var t := Next(cfg, s, a).value;
            Pending(t) < Pending(s) && t.produced == s.produced && |t.workers| == cfg.workers
  {
    hide TotalQueued;
    var t := Next(cfg, s, a).value;
    if a.Work? {
      QueuedUpdate(s.workers, a.worker, t.workers[a.worker]);
    } else if a.Deliver? {
      var w := cfg.WorkerFor(s.holding.value.Key());
      QueuedUpdate(s.workers, w, t.workers[w]);
      assert s.workers[w := s.workers[w]] == s.workers;
    }
  }

  /** While router and workers are there, some internal step is possible until everything is drained. */
  lemma {:induction false} SomethingCanHappen(cfg: Config, s: State) returns (a: Action)
    requires cfg.workers > 0 && |s.workers| == cfg.workers && s.routing && AllAlive(s)
    requires !Drained(s)
    ensures Internal(a) && Next(cfg, s, a).Some?
  {
    if w: nat :| w < |s.workers| && s.workers[w].queue != [] {
      a := Work(w);
    } else if s.holding.Some? {
      a := Deliver;
      assert s.workers[cfg.WorkerFor(s.holding.value.Key())].queue == [];
    } else {
      a := Take;
    }
  }

  /** From every reachable state that has not been told to stop, the pipeline can work off all its packets without
      receiving new ones, and then each worker has processed its whole share of what was produced. */
  lemma {:induction false} EverythingGetsProcessed(cfg: Config, actions: seq<Action>) returns (more: seq<Action>)
    requires cfg.capacity >= cfg.workers > 0 && Execute(cfg, actions).Some? && Stop !in actions
    ensures forall i :: 0 <= i < |more| ==> Internal(more[i])
    ensures Execute(cfg, actions + more).Some?
    ensures var s, t := Execute(cfg, actions).value, Execute(cfg, actions + more).value;
            && Drained(t) && t.produced == s.produced
            && forall w :: 0 <= w < cfg.workers ==> t.workers[w].processed == For(cfg, w, s.produced)
    decreases Pending(Execute(cfg, actions).value)
  {
    hide Next, Execute, For, Internal, Pending;
    var s := Execute(cfg, actions).value;
    NobodyLeavesEarly(cfg, actions);
    if Drained(s) {
      more := [];
      assert actions + more == actions;
      DrainedIsProcessed(cfg, actions);
    } else {
      var a := SomethingCanHappen(cfg, s);
      InternalStepsFinish(cfg, s, a);
      ExecuteAppend(cfg, actions, a);
      InternalIsNotStop(a);
      var rest := EverythingGetsProcessed(cfg, actions + [a]);
      more := [a] + rest;
      assert actions + [a] + rest == actions + more;
    }
  }

  lemma InternalIsNotStop(a: Action)
    requires Internal(a)
    ensures a != Stop
  {
  }

  lemma {:induction false} ExecuteAppend(cfg: Config, actions: seq<Action>, a: Action)
    requires cfg.workers > 0 && Execute(cfg, actions).Some?
    ensures Execute(cfg, actions + [a]) == Next(cfg, Execute(cfg, actions).value, a)
  {
    assert (actions + [a])[..|actions|] == actions;
  }

  lemma {:induction false} DrainedIsProcessed(cfg: Config, actions: seq<Action>)
    requires cfg.capacity >= cfg.workers > 0 && Execute(cfg, actions).Some? && Stop !in actions
    requires Drained(Execute(cfg, actions).value)
    ensures var s := Execute(cfg, actions).value;
            forall w :: 0 <= w < cfg.workers ==> s.workers[w].processed == For(cfg, w, s.produced)
  {
    hide Next, Execute, For, Accepted, Events;
    EveryScheduleInOrder(cfg, actions);
    NobodyLeavesEarly(cfg, actions);
    var s := Execute(cfg, actions).value;
    assert Accepted(s.routed) + [] + [] == Accepted(s.routed);
    forall w | 0 <= w < cfg.workers ensures s.workers[w].processed == For(cfg, w, s.produced) {
      assert WorkerInOrder(cfg, s, w);
      assert s.workers[w].processed + [] == s.workers[w].processed;
    }
  }

  /** Everybody has left. */
  predicate ShutDown(s: State) {
    && !s.running && !s.routing && s.holding == None
    && forall w :: 0 <= w < |s.workers| ==> !s.workers[w].alive
  }

  /** Once the flag is cleared the first n workers can leave, whatever waits in their queues. */
  lemma {:induction false} WorkersCanLeave(cfg: Config, actions: seq<Action>, n: nat) returns (more: seq<Action>)
    requires n <= cfg.workers && cfg.workers > 0 && Execute(cfg, actions).Some? && !Execute(cfg, actions).value.running
    ensures forall i :: 0 <= i < |more| ==> more[i].LeaveWorker?
    ensures Execute(cfg, actions + more).Some?
    ensures var s, t := Execute(cfg, actions).value, Execute(cfg, actions + more).value;
            && !t.running && t.holding == s.holding && t.routing == s.routing
            && forall w :: 0 <= w < n ==> !t.workers[w].alive
  {
    hide Execute;
    if n == 0 {
      more := [];
      assert actions + more == actions;
    } else {
      more := WorkersCanLeave(cfg, actions, n - 1);
      var t := Execute(cfg, actions + more).value;
      if t.workers[n - 1].alive {
        ExecuteAppend(cfg, actions + more, LeaveWorker(n - 1));
        assert actions + more + [LeaveWorker(n - 1)] == actions + (more + [LeaveWorker(n - 1)]);
        more := more + [LeaveWorker(n - 1)];
      }
    }
  }

  /** From every reachable state the system can shut down: clearing the flag lets all workers leave, a closed channel
      releases the router from the packet it holds, and then it leaves too. No packet is processed for this. */
  lemma {:induction false} CanShutDown(cfg: Config, actions: seq<Action>) returns (more: seq<Action>)
    requires cfg.workers > 0 && Execute(cfg, actions).Some?
    ensures forall i :: 0 <= i < |more| ==> !more[i].Produce? && !more[i].Take? && !more[i].Work?
    ensures Execute(cfg, actions + more).Some? && ShutDown(Execute(cfg, actions + more).value)
  {
    hide Execute;
    ExecuteAppend(cfg, actions, Stop);
    var leaving := WorkersCanLeave(cfg, actions + [Stop], cfg.workers);
    more := [Stop] + leaving;
    assert actions + [Stop] + leaving == actions + more;
    if Execute(cfg, actions + more).value.holding.Some? {
      ExecuteAppend(cfg, actions + more, Deliver);
      assert actions + more + [Deliver] == actions + (more + [Deliver]);
      more := more + [Deliver];
    }
    if Execute(cfg, actions + more).value.routing {
      ExecuteAppend(cfg, actions + more, LeaveRouter);
      assert actions + more + [LeaveRouter] == actions + (more + [LeaveRouter]);
      more := more + [LeaveRouter];
    }
  }

  /** A sender waits exactly while its channel is full: the producer's holds 30000 packets, a worker's 20000. */
  lemma {:induction false} SendersWaitWhileFull(cfg: Config, actions: seq<Action>, e: PacketEvent)
    requires cfg.capacity >= cfg.workers > 0 && Execute(cfg, actions).Some? && Stop !in actions
    ensures var s := Execute(cfg, actions).value;
            && (Next(cfg, s, Produce(e)).Some? <==> |s.inbox| < 30000)
            && (s.holding.Some? ==>
                  (Next(cfg, s, Deliver).Some? <==>
                   |s.workers[cfg.WorkerFor(s.holding.value.Key())].queue| < 20000))
  {
    hide Execute;
    NobodyLeavesEarly(cfg, actions);
  }

  /** With fewer slots than workers no schedule ever produces a result, and a worker is dead once it has taken
      its first packet. */
  lemma {:induction false} UndersizedSystemIsSilent(cfg: Config, actions: seq<Action>)
    requires cfg.capacity < cfg.workers && Execute(cfg, actions).Some?
    ensures var s := Execute(cfg, actions).value;
            && s.inference == []
            && forall w :: 0 <= w < cfg.workers && s.workers[w].processed != [] ==> !s.workers[w].alive
  {
    hide Execute, Next, For, Accepted, RouterInOrder;
    CapacityIsZeroIff(cfg);
    EveryScheduleInOrder(cfg, actions);
    var s := Execute(cfg, actions).value;
    forall w | 0 <= w < cfg.workers
      ensures From(w, s.inference) == [] && (s.workers[w].processed != [] ==> !s.workers[w].alive)
    {
      assert WorkerInOrder(cfg, s, w);
    }
    if s.inference != [] {
      FromHas(s.inference[0].worker, s.inference, 0);
    }
  }

  /** Each of the configured slots but fewer than one per worker is given to some worker. */
  lemma CapacityIsShared(cfg: Config)
    requires cfg.workers > 0
    ensures cfg.workers * cfg.WorkerCapacity() <= cfg.capacity < cfg.workers * cfg.WorkerCapacity() + cfg.workers
  {
    ShareOfCapacity(cfg.capacity, cfg.workers);
  }

  /** The worker index is congruent to the hash. */
  lemma WorkerIsHashModulo(cfg: Config, key: FlowKey)
    requires cfg.workers > 0
    ensures cfg.hash(key) == cfg.workers * (cfg.hash(key) / cfg.workers) + cfg.WorkerFor(key)
  {
  }

  // ---------- sharding ----------

  lemma {:induction false} ForIsShare(cfg: Config, w: nat, trace: seq<PacketEvent>, i: nat)
    requires cfg.workers > 0 && i < |For(cfg, w, trace)|
    ensures cfg.WorkerFor(For(cfg, w, trace)[i].Key()) == w
  {
    var front := trace[..|trace| - 1];
    if i < |For(cfg, w, front)| {
      ForIsShare(cfg, w, front, i);
    }
  }

  lemma {:induction false} FlowOfShare(cfg: Config, trace: seq<PacketEvent>, key: FlowKey)
    requires cfg.workers > 0
    ensures Of(For(cfg, cfg.WorkerFor(key), trace), key) == Of(trace, key)
  {
    var w := cfg.WorkerFor(key);
    if trace != [] {
      var front, e := trace[..|trace| - 1], trace[|trace| - 1];
      assert trace == front + [e];
      FlowOfShare(cfg, front, key);
      ForAppend(cfg, w, front, e);
      OfAppend(front, e, key);
      OfAppend(For(cfg, w, front), e, key);
      assert For(cfg, w, front) + [] == For(cfg, w, front);
      assert Of(front, key) + [] == Of(front, key);
    }
  }

  lemma {:induction false} OfPrefix(trace: seq<PacketEvent>, n: nat, key: FlowKey)
    requires n <= |trace|
    ensures Of(trace[..n], key) <= Of(trace, key)
  {
    if n == |trace| {
      assert trace[..n] == trace;
    } else {
      OfPrefix(trace[..|trace| - 1], n, key);
      assert trace[..|trace| - 1][..n] == trace[..n];
    }
  }

  /** The results for one flow in the order the inference thread receives them. */
  function Stream(inference: seq<Tagged>, key: FlowKey): seq<Observation> {
    if inference == [] then []
    else Stream(inference[..|inference| - 1], key)
         + (if inference[|inference| - 1].observation.key == key then [inference[|inference| - 1].observation] else [])
  }

  lemma {:induction false} FromHas(w: nat, inference: seq<Tagged>, i: nat)
    requires i < |inference| && inference[i].worker == w
    ensures inference[i].observation in From(w, inference)
  {
    if i < |inference| - 1 {
      FromHas(w, inference[..|inference| - 1], i);
    }
  }

  lemma {:induction false} StreamFromOneWorker(cfg: Config, inference: seq<Tagged>, key: FlowKey)
    requires cfg.workers > 0
    requires forall i :: 0 <= i < |inference| ==> cfg.WorkerFor(inference[i].observation.key) == inference[i].worker
    ensures Stream(inference, key) == Only(From(cfg.WorkerFor(key), inference), key)
  {
    var w := cfg.WorkerFor(key);
    if inference != [] {
      var front, t := inference[..|inference| - 1], inference[|inference| - 1];
      assert inference == front + [t];
      StreamFromOneWorker(cfg, front, key);
      FromAppend(w, front, t);
      OnlyAppend(From(w, front), t.observation, key);
      assert From(w, front) + [] == From(w, front);
      assert Only(From(w, front), key) + [] == Only(From(w, front), key);
    }
  }

  lemma {:induction false} ResultsStayHome(cfg: Config, s: State, w: nat, o: Observation)
    requires InOrder(cfg, s) && w < cfg.workers && o in s.workers[w].sent
    ensures cfg.WorkerFor(o.key) == w
  {
    hide For, From, Accepted, Observed, RouterInOrder;
    assert WorkerInOrder(cfg, s, w);
    var k := s.workers[w];
    var i :| 0 <= i < |k.sent| && k.sent[i] == o;
    ObservedAt(cfg.WorkerCapacity(), k.processed, i);
    assert k.processed[..i + 1][i] == k.processed[i];
    assert k.processed[i] == For(cfg, w, Accepted(s.routed))[i];
    ForIsShare(cfg, w, Accepted(s.routed), i);
  }

  lemma {:induction false} InferenceTagged(cfg: Config, s: State, i: nat)
    requires InOrder(cfg, s) && i < |s.inference| && s.inference[i].worker < cfg.workers
    ensures cfg.WorkerFor(s.inference[i].observation.key) == s.inference[i].worker
  {
    hide For, From, Accepted, Observed, Run, RouterInOrder;
    var w := s.inference[i].worker;
    assert WorkerInOrder(cfg, s, w);
    FromHas(w, s.inference, i);
    ResultsStayHome(cfg, s, w, s.inference[i].observation);
  }

  /** While each worker's distinct flows fit its capacity, the results the inference thread receives for a flow
      are a prefix of what one large enough table would report for it on the whole accepted trace. */
  lemma {:induction false} ShardingAgreesWithOneTable(cfg: Config, actions: seq<Action>, key: FlowKey, cap: nat)
    requires cfg.workers > 0 && Execute(cfg, actions).Some? && cap >= 1 && cfg.WorkerCapacity() >= 1
    requires var s := Execute(cfg, actions).value;
             && |SeenAfter(s.workers[cfg.WorkerFor(key)].processed, -1)| <= cfg.WorkerCapacity()
             && |SeenAfter(Accepted(s.routed), -1)| <= cap
    ensures var s := Execute(cfg, actions).value;
            Stream(s.inference, key) <= Only(Observed(cap, Accepted(s.routed)), key)
  {
    hide Execute, Accepted, For, From, Run, Observed, Of, Only, SeenAfter, Stream, Next;
    EveryScheduleInOrder(cfg, actions);
    var s, w := Execute(cfg, actions).value, cfg.WorkerFor(key);
    assert WorkerInOrder(cfg, s, w);
    var k, all := s.workers[w], Accepted(s.routed);
    StreamIsWorkers(cfg, s, key);
    ResultsAsIfAlone(cfg.WorkerCapacity(), k.processed, key);
    ResultsAsIfAlone(cap, all, key);
    FlowOfShare(cfg, all, key);
    var share := For(cfg, w, all);
    assert share[..|k.processed|] == k.processed;
    OfPrefix(share, |k.processed|, key);
    var few, many := Of(k.processed, key), Of(all, key);
    assert many[..|few|] == few;
    ObservedPrefix(1, many, |few|);
  }

  lemma {:induction false} StreamIsWorkers(cfg: Config, s: State, key: FlowKey)
    requires InOrder(cfg, s)
    ensures Stream(s.inference, key) == Only(s.workers[cfg.WorkerFor(key)].sent, key)
  {
    hide For, Accepted, Observed, Run, RouterInOrder, Stream, Only, From;
    forall i | 0 <= i < |s.inference|
      ensures cfg.WorkerFor(s.inference[i].observation.key) == s.inference[i].worker
    {
      InferenceTagged(cfg, s, i);
    }
    assert WorkerInOrder(cfg, s, cfg.WorkerFor(key));
    StreamFromOneWorker(cfg, s.inference, key);
  }

  /** When all is processed, each flow's results are complete: they are those of its worker's table over the worker's
      whole share, and those of one large enough table over all traffic while the flows fit both. */
  lemma {:induction false} ResultsGetComplete(cfg: Config, actions: seq<Action>, key: FlowKey)
    returns (more: seq<Action>)
    requires cfg.capacity >= cfg.workers > 0 && Execute(cfg, actions).Some? && Stop !in actions
    ensures Execute(cfg, actions + more).Some? && forall i :: 0 <= i < |more| ==> Internal(more[i])
    ensures var t, cap := Execute(cfg, actions + more).value, cfg.WorkerCapacity();
            var produced := Execute(cfg, actions).value.produced;
            var share := For(cfg, cfg.WorkerFor(key), produced);
            && cap >= 1
            && Stream(t.inference, key) == Only(Observed(cap, share), key)
            && forall large {:trigger Observed(large, produced)} ::
                 large >= 1 && |SeenAfter(produced, -1)| <= large && |SeenAfter(share, -1)| <= cap ==>
                   Stream(t.inference, key) == Only(Observed(large, produced), key)
  {
    hide Next, Execute, For, Stream, Only, Observed, SeenAfter, Internal, InOrder;
    CapacityIsZeroIff(cfg);
    more := EverythingGetsProcessed(cfg, actions);
    var t, w, cap := Execute(cfg, actions + more).value, cfg.WorkerFor(key), cfg.WorkerCapacity();
    var produced := Execute(cfg, actions).value.produced;
    EveryScheduleInOrder(cfg, actions + more);
    StreamIsWorkers(cfg, t, key);
    SentIs(cfg, t, w);
    var share := For(cfg, w, produced);
    forall large | large >= 1 && |SeenAfter(produced, -1)| <= large && |SeenAfter(share, -1)| <= cap
      ensures Stream(t.inference, key) == Only(Observed(large, produced), key)
    {
      ResultsAsIfAlone(cap, share, key);
      ResultsAsIfAlone(large, produced, key);
      FlowOfShare(cfg, produced, key);
    }
  }

  lemma SentIs(cfg: Config, s: State, w: nat)
    requires InOrder(cfg, s) && w < cfg.workers && cfg.WorkerCapacity() >= 1
    ensures s.workers[w].sent == Observed(cfg.WorkerCapacity(), s.workers[w].processed)
  {
    assert WorkerInOrder(cfg, s, w);
  }

  // ---------- capacity ----------

  function TotalResident(workers: seq<Worker>): nat {
    if workers == [] then 0 else TotalResident(workers[..|workers| - 1]) + |workers[|workers| - 1].table|
  }

  lemma {:induction false} TotalResidentBound(workers: seq<Worker>, cap: nat)
    requires forall w :: 0 <= w < |workers| ==> |workers[w].table| <= cap
    ensures TotalResident(workers) <= |workers| * cap
  {
    if workers != [] {
      TotalResidentBound(workers[..|workers| - 1], cap);
      assert |workers| * cap == (|workers| - 1) * cap + cap;
    }
  }

  /** All workers together never hold more flows than configured, and a flow lives in one worker only. */
  lemma {:induction false} ResidentFlowsFit(cfg: Config, actions: seq<Action>)
    requires cfg.workers > 0 && Execute(cfg, actions).Some?
    ensures var s := Execute(cfg, actions).value;
            && TotalResident(s.workers) <= cfg.capacity
            && forall w, key :: 0 <= w < cfg.workers && Resident(s.workers[w].table, key) ==> cfg.WorkerFor(key) == w
  {
    hide Execute, Accepted, For, From, Run, Observed, Resident, Next, TotalResident, RouterInOrder, Find;
    EveryScheduleInOrder(cfg, actions);
    var s, cap := Execute(cfg, actions).value, cfg.WorkerCapacity();
    forall w | 0 <= w < cfg.workers ensures |s.workers[w].table| <= cap {
      assert WorkerInOrder(cfg, s, w);
      if cap > 0 {
        RunIsWellFormed(cap, s.workers[w].processed);
      }
    }
    TotalResidentBound(s.workers, cap);
    ShareOfCapacity(cfg.capacity, cfg.workers);
    forall w, key | 0 <= w < cfg.workers && Resident(s.workers[w].table, key) ensures cfg.WorkerFor(key) == w {
      ResidentAtHome(cfg, s, w, key);
    }
  }

  lemma ShareOfCapacity(capacity: nat, workers: nat)
    requires workers > 0
    ensures workers * (capacity / workers) <= capacity < workers * (capacity / workers) + workers
  {
  }

  lemma {:induction false} ResidentAtHome(cfg: Config, s: State, w: nat, key: FlowKey)
    requires InOrder(cfg, s) && w < cfg.workers && Resident(s.workers[w].table, key)
    ensures cfg.WorkerFor(key) == w
  {
    hide Accepted, For, From, Observed, Run, RouterInOrder;
    assert WorkerInOrder(cfg, s, w);
    var cap, trace := cfg.WorkerCapacity(), s.workers[w].processed;
    assert cap > 0;
    RunIsMostRecentFirst(cap, trace);
    var i := LastSeen(trace, s.workers[w].table[Find(s.workers[w].table, key)].key);
    assert trace[i] == For(cfg, w, Accepted(s.routed))[i];
    ForIsShare(cfg, w, Accepted(s.routed), i);
  }
}
