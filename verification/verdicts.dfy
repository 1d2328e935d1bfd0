/** From the pipeline to the blocklist: the verdicts the inference thread records for one address
    (src/main.rs:525-544). */
module Verdicts {
  import opened Packets
  import opened LruSpec
  import opened Windows
  import opened Pipeline
  import Blocklists

  /** The verdict on a result: the address is the one the metrics report. */
  function VerdictOf(classify: FlowMetrics -> bool, o: Observation): Blocklists.Event {
    var m := o.Metrics();
    Blocklists.Verdict(m.srcIp, classify(m))
  }

  /** The inference thread's part in the blocklist's log: one verdict for each result. */
  function Log(classify: FlowMetrics -> bool, inference: seq<Tagged>): seq<Blocklists.Event> {
    if inference == [] then []
    else
      var o := inference[|inference| - 1].observation;
      Log(classify, inference[..|inference| - 1]) + [VerdictOf(classify, o)]
  }

  /** The verdicts on one address among some results. */
  function VerdictsOn(classify: FlowMetrics -> bool, ip: IpAddr, os: seq<Observation>): seq<bool> {
    if os == [] then []
    else
      var o := os[|os| - 1];
      VerdictsOn(classify, ip, os[..|os| - 1]) + (if o.key.ipMin == ip then [classify(o.Metrics())] else [])
  }

  /** All results in the order the inference thread receives them. */
  function Received(inference: seq<Tagged>): (os: seq<Observation>)
    ensures |os| == |inference|
  {
    seq(|inference|, i requires 0 <= i < |inference| => inference[i].observation)
  }

  /** The reported address is the smaller one of the flow's key. */
  lemma ReportedAddress(o: Observation)
    ensures o.Metrics().srcIp == o.key.ipMin
  {
  }

  lemma {:induction false} LogAppend(classify: FlowMetrics -> bool, inference: seq<Tagged>, t: Tagged)
    ensures Log(classify, inference + [t])
            == Log(classify, inference) + [VerdictOf(classify, t.observation)]
  {
    assert (inference + [t])[..|inference|] == inference;
  }

  /** After the verdicts of some results an address is listed exactly when the last verdict on it is anomalous. */
  lemma {:induction false} ListedIffLastVerdict(classify: FlowMetrics -> bool, ttl: nat, inference: seq<Tagged>,
                                                ip: IpAddr)
    ensures var bs := VerdictsOn(classify, ip, Received(inference));
            ip in Blocklists.Run(ttl, Log(classify, inference)).list <==> bs != [] && bs[|bs| - 1]
  {
    if inference == [] {
    } else {
      var front, t := inference[..|inference| - 1], inference[|inference| - 1];
      assert inference == front + [t];
      ListedIffLastVerdict(classify, ttl, front, ip);
      ListedAfterVerdict(classify, ttl, front, t, ip);
    }
  }

  lemma {:induction false} ListedAfterVerdict(classify: FlowMetrics -> bool, ttl: nat, front: seq<Tagged>, t: Tagged,
                                              ip: IpAddr)
    requires var bs := VerdictsOn(classify, ip, Received(front));
             ip in Blocklists.Run(ttl, Log(classify, front)).list <==> bs != [] && bs[|bs| - 1]
    ensures var bs := VerdictsOn(classify, ip, Received(front + [t]));
            ip in Blocklists.Run(ttl, Log(classify, front + [t])).list <==> bs != [] && bs[|bs| - 1]
  {
    hide Blocklists.Run, Log, VerdictsOn, Observation.Metrics;
    var o := t.observation;
    LogAppend(classify, front, t);
    ReportedAddress(o);
    Blocklists.RunAppend(ttl, Log(classify, front), VerdictOf(classify, o));
    assert Received(front + [t]) == Received(front) + [o];
    VerdictsAppend(classify, ip, Received(front), o);
  }

  lemma {:induction false} VerdictsAppend(classify: FlowMetrics -> bool, ip: IpAddr, os: seq<Observation>,
                                          o: Observation)
    ensures VerdictsOn(classify, ip, os + [o])
            == VerdictsOn(classify, ip, os) + (if o.key.ipMin == ip then [classify(o.Metrics())] else [])
  {
    assert (os + [o])[..|os|] == os;
  }

  lemma {:induction false} VerdictsPrefix(classify: FlowMetrics -> bool, ip: IpAddr, os: seq<Observation>, n: nat)
    requires n <= |os|
    ensures VerdictsOn(classify, ip, os[..n]) <= VerdictsOn(classify, ip, os)
  {
    if n == |os| {
      assert os[..n] == os;
    } else {
      VerdictsPrefix(classify, ip, os[..|os| - 1], n);
      assert os[..|os| - 1][..n] == os[..n];
    }
  }

  /** When one worker produced every result on an address, the verdicts on it come in that worker's order. */
  lemma {:induction false} VerdictsFromOneWorker(classify: FlowMetrics -> bool, ip: IpAddr, w: nat,
                                                 inference: seq<Tagged>)
    requires forall i :: 0 <= i < |inference| && inference[i].observation.key.ipMin == ip ==> inference[i].worker == w
    ensures VerdictsOn(classify, ip, Received(inference)) == VerdictsOn(classify, ip, From(w, inference))
  {
    if inference != [] {
      var front, t := inference[..|inference| - 1], inference[|inference| - 1];
      assert inference == front + [t];
      assert forall i :: 0 <= i < |front| ==> front[i] == inference[i];
      VerdictsFromOneWorker(classify, ip, w, front);
      assert Received(inference) == Received(front) + [t.observation];
      VerdictsAppend(classify, ip, Received(front), t.observation);
      FromAppend(w, front, t);
      if t.worker == w {
        VerdictsAppend(classify, ip, From(w, front), t.observation);
      } else {
        assert From(w, front) + [] == From(w, front);
      }
      assert VerdictsOn(classify, ip, Received(front)) + [] == VerdictsOn(classify, ip, Received(front));
    }
  }

  /** All accepted packets of flows reported under an address belong to one worker. */
  ghost predicate OneWorker(cfg: Config, s: State, ip: IpAddr, w: nat)
    requires cfg.workers > 0
  {
    forall i :: 0 <= i < |Accepted(s.routed)| && Accepted(s.routed)[i].Key().ipMin == ip ==>
      cfg.WorkerFor(Accepted(s.routed)[i].Key()) == w
  }

  lemma {:induction false} ForComesFrom(cfg: Config, w: nat, trace: seq<PacketEvent>, i: nat)
    requires cfg.workers > 0 && i < |For(cfg, w, trace)|
    ensures For(cfg, w, trace)[i] in trace
  {
    var front := trace[..|trace| - 1];
    if i < |For(cfg, w, front)| {
      ForComesFrom(cfg, w, front, i);
      assert forall e :: e in front ==> e in trace;
    }
  }

  lemma {:induction false} ResultsOnAddress(cfg: Config, s: State, ip: IpAddr, w: nat, i: nat)
    requires InOrder(cfg, s) && OneWorker(cfg, s, ip, w)
    requires i < |s.inference| && s.inference[i].observation.key.ipMin == ip
    ensures s.inference[i].worker == w
  {
    hide For, From, Accepted, Observed, Run, RouterInOrder;
    var v, o := s.inference[i].worker, s.inference[i].observation;
    assert WorkerInOrder(cfg, s, v);
    FromHas(v, s.inference, i);
    var k := s.workers[v];
    var j :| 0 <= j < |k.sent| && k.sent[j] == o;
    ObservedAt(cfg.WorkerCapacity(), k.processed, j);
    assert k.processed[..j + 1][j] == k.processed[j];
    assert k.processed[j] == For(cfg, v, Accepted(s.routed))[j];
    ForIsShare(cfg, v, Accepted(s.routed), j);
    ForComesFrom(cfg, v, Accepted(s.routed), j);
  }

  lemma {:induction false} AddressHasOneSource(classify: FlowMetrics -> bool, cfg: Config, s: State, ip: IpAddr, w: nat)
    requires InOrder(cfg, s) && w < cfg.workers && OneWorker(cfg, s, ip, w)
    ensures VerdictsOn(classify, ip, Received(s.inference)) == VerdictsOn(classify, ip, s.workers[w].sent)
  {
    hide For, Accepted, Observed, Run, RouterInOrder, From, OneWorker, VerdictsOn, Received;
    forall i | 0 <= i < |s.inference| && s.inference[i].observation.key.ipMin == ip
      ensures s.inference[i].worker == w
    {
      ResultsOnAddress(cfg, s, ip, w, i);
    }
    assert WorkerInOrder(cfg, s, w);
    VerdictsFromOneWorker(classify, ip, w, s.inference);
  }

  /** If one worker serves all flows of an address, the order of the verdicts on it, and with it whether it is
      listed, depends only on how many packets that worker has consumed, not on the schedule. */
  lemma {:induction false} VerdictsDoNotDependOnSchedule(classify: FlowMetrics -> bool, cfg: Config, one: seq<Action>,
                                                         two: seq<Action>, ip: IpAddr, w: nat, ttl: nat)
    requires w < cfg.workers && Execute(cfg, one).Some? && Execute(cfg, two).Some?
    requires Comparable(Accepted(Execute(cfg, one).value.routed), Accepted(Execute(cfg, two).value.routed))
    requires OneWorker(cfg, Execute(cfg, one).value, ip, w) && OneWorker(cfg, Execute(cfg, two).value, ip, w)
    requires |Execute(cfg, one).value.workers[w].processed| <= |Execute(cfg, two).value.workers[w].processed|
    ensures var s, t := Execute(cfg, one).value, Execute(cfg, two).value;
            && VerdictsOn(classify, ip, Received(s.inference)) <= VerdictsOn(classify, ip, Received(t.inference))
            && (|s.workers[w].processed| == |t.workers[w].processed| ==>
                  (ip in Blocklists.Run(ttl, Log(classify, s.inference)).list <==>
                   ip in Blocklists.Run(ttl, Log(classify, t.inference)).list))
  {
    hide Execute, Accepted, OneWorker, InOrder, VerdictsOn, Received, Log, Blocklists.Run, Comparable;
    var s, t := Execute(cfg, one).value, Execute(cfg, two).value;
    EveryScheduleInOrder(cfg, one);
    EveryScheduleInOrder(cfg, two);
    ScheduleDoesNotMatter(cfg, one, two, w);
    AddressHasOneSource(classify, cfg, s, ip, w);
    AddressHasOneSource(classify, cfg, t, ip, w);
    var a, b := s.workers[w].sent, t.workers[w].sent;
    VerdictsPrefix(classify, ip, b, |a|);
    assert b[..|a|] == a;
    ListedIffLastVerdict(classify, ttl, s.inference, ip);
    ListedIffLastVerdict(classify, ttl, t.inference, ip);
  }

  // ---------- two workers ----------

  /** What the first packet of a flow is reported as. */
  function First(e: PacketEvent): Observation {
    Observation(e.Key(), [SummaryFrom(e.srcIp, e)])
  }

  /** A packet travels from the producer to an idle worker's queue. */
  lemma {:induction false} RouteOne(cfg: Config, actions: seq<Action>, e: PacketEvent) returns (next: seq<Action>)
    requires cfg.workers > 0 && Execute(cfg, actions).Some?
    requires var s := Execute(cfg, actions).value;
             && s.inbox == [] && s.holding.None? && s.routing
             && s.workers[cfg.WorkerFor(e.Key())] == Worker([], [], [], [], true)
    ensures Execute(cfg, next).Some?
    ensures var s, t, w := Execute(cfg, actions).value, Execute(cfg, next).value, cfg.WorkerFor(e.Key());
            t == s.(produced := s.produced + [e], routed := s.routed + [Routing(e, true)],
                    workers := s.workers[w := Worker([e], [], [], [], true)])
  {
    hide Execute;
    var s := Execute(cfg, actions).value;
    assert s.inbox + [e] == [e] && [e][1..] == s.inbox && [] + [e] == [e];
    ExecuteAppend(cfg, actions, Produce(e));
    var l1 := actions + [Produce(e)];
    ExecuteAppend(cfg, l1, Take);
    var l2 := l1 + [Take];
    ExecuteAppend(cfg, l2, Deliver);
    next := l2 + [Deliver];
  }

  /** A worker serves the one packet that waits for it. */
  lemma {:induction false} ServeOne(cfg: Config, actions: seq<Action>, e: PacketEvent) returns (next: seq<Action>)
    requires cfg.capacity >= cfg.workers > 0 && Execute(cfg, actions).Some?
    requires Execute(cfg, actions).value.workers[cfg.WorkerFor(e.Key())] == Worker([e], [], [], [], true)
    ensures Execute(cfg, next).Some?
    ensures var s, t, w := Execute(cfg, actions).value, Execute(cfg, next).value, cfg.WorkerFor(e.Key());
            t == s.(workers := s.workers[w := Worker([], [e], [Admitted(0, e)], [First(e)], true)],
                    inference := s.inference + [Tagged(w, First(e))])
  {
    hide Execute;
    CapacityIsZeroIff(cfg);
    var w := cfg.WorkerFor(e.Key());
    ExecuteAppend(cfg, actions, Work(w));
    next := actions + [Work(w)];
    assert Step(cfg.WorkerCapacity(), [], e) == [Admitted(0, e)];
    assert [e][1..] == [] && [] + [e] == [e] && [] + [First(e)] == [First(e)];
  }

  /** If two flows of one address live in different workers and their first packets are judged differently, two
      schedules of the same traffic, both run to the end, disagree on whether the address is listed. */
  lemma {:induction false} VerdictsDependOnSchedule(classify: FlowMetrics -> bool, cfg: Config, d: PacketEvent,
                                                    e: PacketEvent, ttl: nat)
    returns (one: seq<Action>, two: seq<Action>)
    requires cfg.capacity >= cfg.workers > 0
    requires d.Key().ipMin == e.Key().ipMin && cfg.WorkerFor(d.Key()) != cfg.WorkerFor(e.Key())
    requires classify(First(d).Metrics()) != classify(First(e).Metrics())
    ensures Execute(cfg, one).Some? && Execute(cfg, two).Some?
    ensures var s, t := Execute(cfg, one).value, Execute(cfg, two).value;
            && s.produced == t.produced == [d, e] && s.routed == t.routed && s.workers == t.workers
            && !(d.Key().ipMin in Blocklists.Run(ttl, Log(classify, s.inference)).list <==>
                 d.Key().ipMin in Blocklists.Run(ttl, Log(classify, t.inference)).list)
  {
    hide Execute, Blocklists.Run, Log;
    var ip := d.Key().ipMin;
    var start: seq<Action> := [];
    Starts(cfg);
    var l1 := RouteOne(cfg, start, d);
    var l2 := RouteOne(cfg, l1, e);
    one := ServeOne(cfg, l2, d);
    one := ServeOne(cfg, one, e);
    two := ServeOne(cfg, l2, e);
    two := ServeOne(cfg, two, d);
    var s, t := Execute(cfg, one).value, Execute(cfg, two).value;
    TwoVerdicts(classify, s.inference, ip);
    TwoVerdicts(classify, t.inference, ip);
    ListedIffLastVerdict(classify, ttl, s.inference, ip);
    ListedIffLastVerdict(classify, ttl, t.inference, ip);
  }

  /** For instance with a classifier that only looks at the mean length, and any two packets on either side of its
      bound. */
  lemma {:induction false} LengthsDecideListing(cfg: Config, d: PacketEvent, e: PacketEvent, bound: nat, ttl: nat)
    returns (one: seq<Action>, two: seq<Action>)
    requires cfg.capacity >= cfg.workers > 0 && e.len <= bound < d.len
    requires d.Key().ipMin == e.Key().ipMin && cfg.WorkerFor(d.Key()) != cfg.WorkerFor(e.Key())
    ensures Execute(cfg, one).Some? && Execute(cfg, two).Some?
    ensures var s, t := Execute(cfg, one).value, Execute(cfg, two).value;
            var classify := (m: FlowMetrics) => m.meanLen > bound as real;
            && s.produced == t.produced == [d, e] && s.routed == t.routed && s.workers == t.workers
            && !(d.Key().ipMin in Blocklists.Run(ttl, Log(classify, s.inference)).list <==>
                 d.Key().ipMin in Blocklists.Run(ttl, Log(classify, t.inference)).list)
  {
    hide Execute, Blocklists.Run, Log, MetricsOf;
    FirstMean(d);
    FirstMean(e);
    one, two := VerdictsDependOnSchedule((m: FlowMetrics) => m.meanLen > bound as real, cfg, d, e, ttl);
  }

  lemma {:induction false} FirstMean(e: PacketEvent)
    ensures First(e).Metrics().meanLen == e.len as real
  {
    var p := SummaryFrom(e.srcIp, e);
    assert Window([p]) == [] + [p];
    TallyBack([], p);
    WholeQuotient(e.len as real, CountOf([p]));
  }

  lemma WholeQuotient(x: real, n: real)
    requires n == 1.0
    ensures x / n == x
  {
  }

  lemma Starts(cfg: Config)
    requires cfg.workers > 0
    ensures Execute(cfg, []) == Some(Init(cfg))
  {
  }

  lemma {:induction false} TwoVerdicts(classify: FlowMetrics -> bool, inference: seq<Tagged>, ip: IpAddr)
    requires |inference| == 2
    requires inference[0].observation.key.ipMin == inference[1].observation.key.ipMin == ip
    ensures VerdictsOn(classify, ip, Received(inference))
            == [classify(inference[0].observation.Metrics()), classify(inference[1].observation.Metrics())]
  {
    var a, b := inference[0].observation, inference[1].observation;
    assert Received(inference) == [] + [a] + [b];
    VerdictsAppend(classify, ip, [], a);
    VerdictsAppend(classify, ip, [] + [a], b);
  }
}
