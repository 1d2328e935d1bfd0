/** The aggregator worker (src/main.rs:144-156): one flow table fed with the packets of one channel. */
module Workers {
  import opened Packets
  import opened Windows
  import opened LruSpec
  import opened FlowTables
  import opened CrateFlowStates
  import opened CrateFlowTables

  /** The metrics computed from observations, one for one. */
  function Reported(os: seq<Observation>): (ms: seq<FlowMetrics>)
    ensures |ms| == |os|
  {
    if os == [] then [] else Reported(os[..|os| - 1]) + [os[|os| - 1].Metrics()]
  }

  lemma ReportedAppend(os: seq<Observation>, o: Observation)
    ensures Reported(os + [o]) == Reported(os) + [o.Metrics()]
  {
    assert (os + [o])[..|os|] == os;
  }

  /** The recency list after some packets: a table of capacity 0 stays empty. */
  function Served(capacity: nat, past: seq<PacketEvent>): seq<Entry> {
    if capacity == 0 then [] else Run(capacity, past)
  }

  /** What a worker sends over some packets: one of capacity 0 dies on its first packet. */
  function SentOver(capacity: nat, events: seq<PacketEvent>): seq<FlowMetrics> {
    if capacity == 0 then [] else Reported(Observed(capacity, events))
  }

  /** What a consistent table has computed from its packets. */
  ghost function Serving(table: FlowTable): Option<seq<Entry>>
    reads table, table.repr
  {
    if table.Valid() then Some(table.entries) else None
  }

  method NewTable(capacity: nat) returns (table: FlowTable)
    ensures fresh(table) && fresh(table.repr) && table !in table.repr
    ensures table.capacity == capacity && Serving(table) == Some([])
  {
    table := new FlowTable(capacity);
  }

  /** One turn of the worker: the table that served the past serves one more packet, or panics. */
  method ProcessNext(table: FlowTable, event: PacketEvent, overwrite: bool, ghost past: seq<PacketEvent>)
    returns (r: Option<FlowMetrics>)
    requires Serving(table) == Some(Served(table.capacity, past))
    modifies table, table.repr
    ensures fresh(table.repr - old(table.repr)) && table !in table.repr
    ensures Serving(table) == Some(Served(table.capacity, past + [event]))
    ensures r.None? <==> table.capacity == 0
    ensures r.Some? ==> SentOver(table.capacity, past + [event]) == SentOver(table.capacity, past) + [r.value]
  {
    if table.capacity > 0 {
      RunAppend(table.capacity, past, event);
      ReportedAppend(Observed(table.capacity, past), Front(Run(table.capacity, past + [event])));
    }
    r := table.ProcessPacket(event, overwrite);
  }

  /** The worker over the packets it receives before it stops. Its table decides whether it dies on a packet. */
  method RunWorker(capacity: nat, events: seq<PacketEvent>, overwrite: bool)
    returns (sent: seq<FlowMetrics>, died: bool)
    ensures sent == SentOver(capacity, events)
    ensures died <==> capacity == 0 && events != []
  {
    hide *;
    sent := [];
    var table := NewTable(capacity);
    NothingYet(capacity, events[..0]);
    for i := 0 to |events|
      invariant fresh(table) && fresh(table.repr) && table.capacity == capacity
      invariant Serving(table) == Some(Served(capacity, events[..i]))
      invariant sent == SentOver(capacity, events[..i])
      invariant i > 0 ==> capacity > 0
    {
      assert events[..i + 1] == events[..i] + [events[i]];
      var r := ProcessNext(table, events[i], overwrite, events[..i]);
      if r.None? {
        NothingSent(events[..i], events);
        return sent, true;
      }
      sent := sent + [r.value];
    }
    assert events[..|events|] == events;
    return sent, false;
  }

  ghost function CrateServing(crate: CrateFlowTable): Option<seq<Entry>>
    reads crate, crate.table, crate.table.repr, crate.repr
  {
    if crate.Valid() then Some(crate.table.entries) else None
  }

  method NewCrateTable(capacity: nat) returns (crate: CrateFlowTable)
    ensures fresh(crate) && fresh(crate.repr) && fresh(crate.table) && fresh(crate.table.repr)
    ensures crate.table.capacity == capacity && CrateServing(crate) == Some([])
  {
    crate := new CrateFlowTable(capacity);
  }

  /** One more packet for the crate's table. */
  method ProcessCrate(crate: CrateFlowTable, event: PacketEvent, ghost past: seq<PacketEvent>)
    returns (r: Option<CrateMetrics>)
    requires crate.table.capacity > 0 && CrateServing(crate) == Some(Run(crate.table.capacity, past))
    modifies crate, crate.repr, crate.table, crate.table.repr
    ensures fresh(crate.repr - old(crate.repr)) && fresh(crate.table.repr - old(crate.table.repr))
    ensures CrateServing(crate) == Some(Run(crate.table.capacity, past + [event]))
    ensures r == Some(Shared(Front(Run(crate.table.capacity, past + [event])).Metrics()))
  {
    RunAppend(crate.table.capacity, past, event);
    r := crate.ProcessPacket(event);
  }

  /** Both implementations side by side: the same slots, recency order, initiators and live histories at every
      packet, so a recycled buffer's stale packets are never observed, and the same values of all features that
      the crate, from its own states, reports. */
  method RunBoth(capacity: nat, events: seq<PacketEvent>)
    returns (a: FlowTable, b: CrateFlowTable, fromA: seq<FlowMetrics>, fromB: seq<CrateMetrics>)
    requires capacity >= 1
    ensures a.Valid() && b.Valid() && fromA == SentOver(capacity, events)
    ensures |fromB| == |fromA| && forall k :: 0 <= k < |fromA| ==> SameFeatures(fromB[k], fromA[k])
    ensures a.entries == b.table.entries == Run(capacity, events)
    ensures a.index == b.table.index && a.held == b.table.held && a.order == b.table.order
    ensures a.lruHead == b.table.lruHead && a.lruTail == b.table.lruTail
  {
    hide *;
    a := NewTable(capacity);
    b := NewCrateTable(capacity);
    fromA, fromB := [], [];
    NothingYet(capacity, events[..0]);
    ServedIsRun(capacity, events[..0]);
    for i := 0 to |events|
      invariant fresh(a) && fresh(a.repr) && a.capacity == b.table.capacity == capacity
      invariant fresh(b) && fresh(b.repr) && fresh(b.table) && fresh(b.table.repr)
      invariant a != b.table && a !in b.repr && a !in b.table.repr && b !in a.repr && b.table !in a.repr
      invariant a.repr !! b.repr && a.repr !! b.table.repr
      invariant Serving(a) == Some(Served(capacity, events[..i]))
      invariant CrateServing(b) == Some(Run(capacity, events[..i]))
      invariant fromA == SentOver(capacity, events[..i])
      invariant |fromB| == |fromA| && forall k :: 0 <= k < |fromA| ==> SameFeatures(fromB[k], fromA[k])
    {
      assert events[..i + 1] == events[..i] + [events[i]];
      var m := ProcessNext(a, events[i], false, events[..i]);
      var n := ProcessCrate(b, events[i], events[..i]);
      SentLast(capacity, events[..i], events[i], m.value);
      SharedIsSame(m.value);
      fromA, fromB := fromA + [m.value], fromB + [n.value];
    }
    assert events[..|events|] == events;
    ServedIsRun(capacity, events);
    ServingMeans(b);
    SameTables(a, b.table, Run(capacity, events));
  }

  lemma ServingMeans(crate: CrateFlowTable)
    requires CrateServing(crate).Some?
    ensures crate.Valid() && Serving(crate.table) == CrateServing(crate)
  {
  }

  lemma SentLast(capacity: nat, past: seq<PacketEvent>, event: PacketEvent, m: FlowMetrics)
    requires capacity > 0 && SentOver(capacity, past + [event]) == SentOver(capacity, past) + [m]
    ensures m == Front(Run(capacity, past + [event])).Metrics()
  {
    RunAppend(capacity, past, event);
    ReportedAppend(Observed(capacity, past), Front(Run(capacity, past + [event])));
    LastElement(SentOver(capacity, past), m, Front(Run(capacity, past + [event])).Metrics());
  }

  lemma LastElement<T>(s: seq<T>, x: T, y: T)
    requires s + [x] == s + [y]
    ensures x == y
  {
    assert (s + [x])[|s|] == (s + [y])[|s|];
  }

  lemma ServedIsRun(capacity: nat, trace: seq<PacketEvent>)
    requires capacity > 0
    ensures Served(capacity, trace) == Run(capacity, trace)
  {
  }

  lemma NothingSent(past: seq<PacketEvent>, events: seq<PacketEvent>)
    ensures SentOver(0, past) == SentOver(0, events)
  {
  }

  lemma NothingYet(capacity: nat, trace: seq<PacketEvent>)
    requires trace == []
    ensures Served(capacity, trace) == [] && SentOver(capacity, trace) == []
  {
  }

  lemma SameTables(a: FlowTable, b: FlowTable, es: seq<Entry>)
    requires a.capacity == b.capacity && Serving(a) == Serving(b) == Some(es)
    ensures a.Valid() && b.Valid() && a.entries == b.entries == es
    ensures a.index == b.index && a.held == b.held && a.order == b.order
    ensures a.lruHead == b.lruHead && a.lruTail == b.lruTail
  {
    SameLedger(a.capacity, a.index, a.held, a.order, b.index, b.held, b.order, es);
  }

  /** Walking next from lruHead k times reaches the flow seen k-th most recently, until min(c, d) flows have been
      listed, where d counts the distinct flows so far; then the list ends. */
  lemma {:induction false} WalkListsRecentFlows(table: FlowTable, trace: seq<PacketEvent>, k: nat)
    requires table.capacity >= 1 && Serving(table) == Some(Run(table.capacity, trace))
    ensures var es, d := Run(table.capacity, trace), |SeenAfter(trace, -1)|;
            var at := Walk(Nexts(table.slab), table.lruHead, k);
            && |es| == (if d < table.capacity then d else table.capacity)
            && MostRecentFirst(table.capacity, trace, es)
            && (if k < |es| then at.Some? && at.value < |table.slab| && table.slab[at.value].key == es[k].key
                else at == None)
  {
    hide Run, MostRecentFirst, SeenAfter, WellFormed, FlowStates.FlowState.Valid;
    ResidentCount(table.capacity, trace);
    RunIsMostRecentFirst(table.capacity, trace);
    WalkVisitsOrder(Prevs(table.slab), Nexts(table.slab), table.order, 0, k);
    var es := table.entries;
    if k < |es| {
      assert es[k] == table.held[table.order[k]];
    }
  }
}
