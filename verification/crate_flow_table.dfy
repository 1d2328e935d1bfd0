/** The aggregator crate's FlowTable (crates/r-nads-aggregator/src/lib.rs:205-291). */
module CrateFlowTables {
  import opened Packets
  import opened Windows
  import opened LruSpec
  import opened FlowTables
  import opened CrateFlowStates

  /** What the slots hold after a packet in slot idx, of a flow known or new. */
  function HeldAfter(held: seq<Entry>, known: bool, idx: nat, event: PacketEvent): seq<Entry>
    requires idx <= |held| && (known ==> idx < |held|)
  {
    if known then held[idx := Touched(held[idx], event)]
    else if idx == |held| then held + [Admitted(idx, event)]
    else held[idx := Admitted(idx, event)]
  }

  /** The table's part of process_packet: relink, and say which slot the packet belongs to. */
  method PlacePacket(table: FlowTable, event: PacketEvent) returns (placed: bool, known: bool, idx: nat)
    requires table.Valid()
    modifies table, table.repr
    ensures table.Valid() && fresh(table.repr - old(table.repr))
    ensures placed <==> table.capacity > 0
    ensures !placed ==> table.entries == [] && table.held == old(table.held)
    ensures placed ==>
              && table.entries == Step(table.capacity, old(table.entries), event)
              && idx <= old(|table.held|) && (known ==> idx < old(|table.held|))
              && table.held == HeldAfter(old(table.held), known, idx, event)
              && idx < |table.held|
              && Front(table.entries) == Observation(event.Key(), table.held[idx].hist)
  {
    hide Step, Ledger, HeldAfter, FlowStates.FlowState.Valid;
    ghost var index, held, order, es := table.index, table.held, table.order, table.entries;
    ListIsDistinct(Prevs(table.slab), Nexts(table.slab), order);
    known := event.Key() in table.index;
    LedgerSizes(table.capacity, index, held, order, es);
    var done := table.ProcessPacket(event, true);
    LedgerSizes(table.capacity, table.index, table.held, table.order, table.entries);
    placed, idx := done.Some?, 0;
    if placed {
      HeldAfterStep(table.capacity, index, held, order, es, event, table.index, table.held, table.order);
      SlotOfFront(table.capacity, table.index, table.held, table.order, es, event);
      idx := table.index[event.Key()];
      WhichHeld(held, table.held, known, idx, event);
    }
  }

  lemma WhichHeld(held: seq<Entry>, after: seq<Entry>, known: bool, idx: nat, event: PacketEvent)
    requires idx <= |held| && (known ==> idx < |held|)
    requires if known then after == held[idx := Touched(held[idx], event)]
             else if idx < |held| then after == held[idx := Admitted(idx, event)]
             else after == held + [Admitted(idx, event)]
    ensures after == HeldAfter(held, known, idx, event) && idx < |after|
  {
  }

  lemma {:induction false} SlotOfFront(cap: nat, index: map<FlowKey, nat>, held: seq<Entry>, order: seq<nat>,
                                       es: seq<Entry>, e: PacketEvent)
    requires cap >= 1 && Ledger(cap, index, held, order, Step(cap, es, e)) && e.Key() in index
    ensures index[e.Key()] < |held|
    ensures Front(Step(cap, es, e)) == Observation(e.Key(), held[index[e.Key()]].hist)
  {
    IndexFinds(cap, index, held, order, Step(cap, es, e), e.Key());
    assert Find(Step(cap, es, e), e.Key()) == 0;
  }

  /** Map, slab and recency list are those of the table that overwrites recycled slots; the crate's own states,
      one for each slot, are kept beside them. */
  class CrateFlowTable {
    const table: FlowTable
    var states: seq<CrateFlowState>

    /** The objects behind the states. */
    ghost var repr: set<object>

    /** No two slots share a state or a buffer. */
    ghost predicate Separated()
      reads this
    {
      && this !in repr
      && (forall i {:trigger states[i]} :: 0 <= i < |states| ==> states[i] in repr && states[i].buffer in repr)
      && (forall i, j {:trigger states[i], states[j]} :: 0 <= i < j < |states| ==>
            states[i] != states[j] && states[i].buffer != states[j].buffer)
    }

    /** Each slot's state has the initiator and the history of what the slot holds. */
    ghost predicate Mirrors(held: seq<Entry>)
      reads this, repr
    {
      && Separated()
      && |states| == |held|
      && (forall i {:trigger states[i]} :: 0 <= i < |states| ==>
            && states[i].Valid()
            && states[i].initiatorIp == held[i].initiator
            && states[i].hist == held[i].hist)
    }

    ghost predicate Apart()
      reads this, table
    {
      && table !in repr && table !in table.repr && this !in table.repr
      && repr !! table.repr
    }

    ghost predicate Valid()
      reads this, table, table.repr, repr
    {
      Apart() && table.Valid() && Mirrors(table.held)
    }

    constructor (capacity: nat)
      ensures Valid() && fresh(table) && fresh(table.repr) && fresh(repr)
      ensures table.capacity == capacity && table.entries == []
    {
      table := new FlowTable(capacity);
      states, repr := [], {};
    }

    /** A packet of a flow that has a slot. */
    method UpdateState(idx: nat, event: PacketEvent, ghost held: seq<Entry>)
      requires Mirrors(held) && idx < |held|
      modifies repr
      ensures Mirrors(HeldAfter(held, true, idx, event))
    {
      hide CrateFlowState.Valid;
      var direction := if event.srcIp == states[idx].initiatorIp then Forward else Backward;
      states[idx].Update(event.timestamp, event.len, direction, event.tcpFlags);
    }

    /** The first packet of a flow: a new state, in the next slot or over the evicted flow's. */
    method PlaceState(idx: nat, event: PacketEvent, ghost held: seq<Entry>)
      requires Mirrors(held) && idx <= |held|
      modifies this
      ensures fresh(repr - old(repr))
      ensures Mirrors(HeldAfter(held, false, idx, event))
    {
      hide CrateFlowState.Valid;
      var state := new CrateFlowState(event.srcIp);
      state.Update(event.timestamp, event.len, Forward, event.tcpFlags);
      assert state.hist == Admitted(idx, event).hist;
      ghost var before := states;
      if idx == |states| {
        states := states + [state];
      } else {
        states := states[idx := state];
      }
      repr := repr + {state, state.buffer};
      assert forall i {:trigger states[i]} :: 0 <= i < |before| && i != idx ==> states[i] == before[i];
    }

    /** The slot's state takes the packet and reports. */
    method StoreState(known: bool, idx: nat, event: PacketEvent, ghost held: seq<Entry>) returns (m: CrateMetrics)
      requires Mirrors(held) && idx <= |held| && (known ==> idx < |held|)
      modifies this, repr
      ensures Mirrors(HeldAfter(held, known, idx, event)) && fresh(repr - old(repr))
      ensures m == Shared(MetricsOf(event.Key(), HeldAfter(held, known, idx, event)[idx].hist))
    {
      hide CrateFlowState.Valid, MetricsOf;
      if known {
        UpdateState(idx, event, held);
      } else {
        PlaceState(idx, event, held);
      }
      m := states[idx].ComputeMetrics(event.Key());
    }

    /** The crate's process_packet: the reference step, and the crate's features of the flow at the front. */
    method ProcessPacket(event: PacketEvent) returns (r: Option<CrateMetrics>)
      requires Valid()
      modifies this, repr, table, table.repr
      ensures Valid() && fresh(repr - old(repr)) && fresh(table.repr - old(table.repr))
      ensures r.None? <==> table.capacity == 0
      ensures table.capacity == 0 ==> table.entries == []
      ensures table.capacity > 0 ==> table.entries == Step(table.capacity, old(table.entries), event)
      ensures table.capacity > 0 ==> r == Some(Shared(Front(table.entries).Metrics()))
    {
      hide CrateFlowState.Valid, FlowTable.Valid, Step, HeldAfter, MetricsOf, Shared;
      ghost var held := table.held;
      var placed, known, idx := PlacePacket(table, event);
      if !placed {
        return None;
      }
      assert Mirrors(held);
      var m := StoreState(known, idx, event, held);
      return Some(m);
    }
  }
}
