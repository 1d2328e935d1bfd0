/** What a flow table of a given capacity computes, as a function of the packets it has processed. */
module LruSpec {
  import opened Packets
  import opened Windows

  /** A resident flow: its slab slot, its key, the address that opened it, and its packets since then. */
  datatype Entry = Entry(slot: nat, key: FlowKey, initiator: IpAddr, hist: seq<PacketSummary>)

  /** Position of a key, or the length when it is absent. */
  function Find(es: seq<Entry>, key: FlowKey): (i: nat)
    ensures i <= |es|
    ensures i < |es| ==> es[i].key == key
    ensures forall j :: 0 <= j < i ==> es[j].key != key
  {
    if es == [] then 0
    else if es[0].key == key then 0
    else 1 + Find(es[1..], key)
  }

  predicate Resident(es: seq<Entry>, key: FlowKey) {
    Find(es, key) < |es|
  }

  function Without<T>(s: seq<T>, i: nat): seq<T>
    requires i < |s|
  {
    s[..i] + s[i + 1..]
  }

  function Touched(en: Entry, e: PacketEvent): Entry {
    en.(hist := en.hist + [SummaryFrom(en.initiator, e)])
  }

  function Admitted(slot: nat, e: PacketEvent): Entry {
    Entry(slot, e.Key(), e.srcIp, [SummaryFrom(e.srcIp, e)])
  }

  /** One packet: a resident flow moves to the front; a new flow takes the slot of the last one when the table
      is full, and the next unused slot otherwise. Most recent first. */
  function Step(cap: nat, es: seq<Entry>, e: PacketEvent): (r: seq<Entry>)
    requires cap >= 1
    ensures r != [] && r[0].key == e.Key()
  {
    var i := Find(es, e.Key());
    if i < |es| then [Touched(es[i], e)] + Without(es, i)
    else if |es| >= cap then [Admitted(es[|es| - 1].slot, e)] + es[..|es| - 1]
    else [Admitted(|es|, e)] + es
  }

  function Run(cap: nat, trace: seq<PacketEvent>): (es: seq<Entry>)
    requires cap >= 1
    ensures trace != [] ==> es != [] && es[0].key == trace[|trace| - 1].Key()
  {
    if trace == [] then [] else Step(cap, Run(cap, trace[..|trace| - 1]), trace[|trace| - 1])
  }

  /** What process_packet computes its result from: the flow and its packets since admission. */
  datatype Observation = Observation(key: FlowKey, hist: seq<PacketSummary>) {
    function Metrics(): FlowMetrics {
      MetricsOf(key, hist)
    }
  }

  function Front(es: seq<Entry>): Observation
    requires es != []
  {
    Observation(es[0].key, es[0].hist)
  }

  /** The observations behind the results of a whole run, one per packet. */
  function Observed(cap: nat, trace: seq<PacketEvent>): (os: seq<Observation>)
    requires cap >= 1
    ensures |os| == |trace|
  {
    if trace == [] then [] else Observed(cap, trace[..|trace| - 1]) + [Front(Run(cap, trace))]
  }

  ghost predicate WellFormed(cap: nat, es: seq<Entry>) {
    && |es| <= cap
    && DistinctKeys(es)
    && DistinctSlots(es)
    && (forall i {:trigger es[i].slot} {:trigger es[i].hist} :: 0 <= i < |es| ==> es[i].slot < |es| && es[i].hist != [])
  }

  ghost predicate DistinctKeys(es: seq<Entry>) {
    forall i, j {:trigger es[i].key, es[j].key} :: 0 <= i < j < |es| ==> es[i].key != es[j].key
  }

  ghost predicate DistinctSlots(es: seq<Entry>) {
    forall i, j {:trigger es[i].slot, es[j].slot} :: 0 <= i < j < |es| ==> es[i].slot != es[j].slot
  }

  /** Which old entry is at position j >= 1 after a step that found the key at i. */
  function Source(i: nat, j: nat): nat
    requires j >= 1
  {
    if j <= i then j - 1 else j
  }

  lemma {:induction false} StepShape(cap: nat, es: seq<Entry>, e: PacketEvent)
    requires cap >= 1 && |es| <= cap
    ensures var i := Find(es, e.Key()); var r := Step(cap, es, e);
            && |r| == (if i < |es| || |es| == cap then |es| else |es| + 1)
            && r[0] == (if i < |es| then Touched(es[i], e)
                        else Admitted(if |es| == cap then es[|es| - 1].slot else |es|, e))
            && forall j :: 1 <= j < |r| ==> Source(i, j) < |es| && r[j] == es[Source(i, j)]
  {
  }

  lemma {:induction false} StepKeepsWellFormed(cap: nat, es: seq<Entry>, e: PacketEvent)
    requires cap >= 1 && WellFormed(cap, es)
    ensures WellFormed(cap, Step(cap, es, e))
  {
    var i := Find(es, e.Key());
    var r := Step(cap, es, e);
    StepShape(cap, es, e);
    forall j, k | 0 <= j < k < |r| ensures r[j].key != r[k].key && r[j].slot != r[k].slot {
      var b := Source(i, k);
      assert r[k] == es[b];
      if j > 0 {
        assert r[j] == es[Source(i, j)] && Source(i, j) < b;
      }
    }
  }

  lemma {:induction false} RunIsWellFormed(cap: nat, trace: seq<PacketEvent>)
    requires cap >= 1
    ensures WellFormed(cap, Run(cap, trace))
  {
    if trace != [] {
      RunIsWellFormed(cap, trace[..|trace| - 1]);
      StepKeepsWellFormed(cap, Run(cap, trace[..|trace| - 1]), trace[|trace| - 1]);
    }
  }

  lemma {:induction false} ResidentIffSomeEntry(es: seq<Entry>, key: FlowKey)
    ensures Resident(es, key) <==> exists i :: 0 <= i < |es| && es[i].key == key
  {
    if Resident(es, key) {
      assert es[Find(es, key)].key == key;
    }
  }

  lemma {:induction false} FindAt(cap: nat, es: seq<Entry>, i: nat)
    requires WellFormed(cap, es) && i < |es|
    ensures Find(es, es[i].key) == i
  {
    var j := Find(es, es[i].key);
    assert j <= i;
    assert es[j].key == es[i].key;
  }

  function Slots(es: seq<Entry>): set<nat> {
    set i | 0 <= i < |es| :: es[i].slot
  }

  function Below(n: nat): (s: set<nat>)
    ensures |s| == n && forall i :: 0 <= i < n <==> i in s
  {
    if n == 0 then {} else Below(n - 1) + {n - 1}
  }

  /** Distinct slots below the number of entries leave no slot out. */
  lemma {:induction false} EverySlotIsListed(cap: nat, es: seq<Entry>, slot: nat) returns (k: nat)
    requires WellFormed(cap, es) && slot < |es|
    ensures k < |es| && es[k].slot == slot
  {
    SlotsSize(es);
    if slot !in Slots(es) {
      SubsetSize(Slots(es), Below(|es|) - {slot});
    }
    k :| 0 <= k < |es| && es[k].slot == slot;
  }

  lemma {:induction false} SlotsSize(es: seq<Entry>)
    requires DistinctSlots(es)
    ensures |Slots(es)| == |es|
  {
    if es != [] {
      var front := es[..|es| - 1];
      SlotsSize(front);
      assert Slots(es) == Slots(front) + {es[|es| - 1].slot};
    }
  }

  // ---------- recency ----------

  /** Index of the last packet of a flow, or -1. */
  function LastSeen(trace: seq<PacketEvent>, key: FlowKey): (i: int)
    ensures -1 <= i < |trace|
    ensures i >= 0 ==> trace[i].Key() == key
    ensures forall j :: i < j < |trace| ==> trace[j].Key() != key
  {
    if trace == [] then -1
    else if trace[|trace| - 1].Key() == key then |trace| - 1
    else LastSeen(trace[..|trace| - 1], key)
  }

  /** The keys of the packets after index n. */
  function SeenAfter(trace: seq<PacketEvent>, n: int): set<FlowKey>
    requires -1 <= n
  {
    set i | n < i < |trace| :: trace[i].Key()
  }

  lemma {:induction false} SeenAfterIff(trace: seq<PacketEvent>, n: int, key: FlowKey)
    requires -1 <= n
    ensures key in SeenAfter(trace, n) <==> LastSeen(trace, key) > n
  {
    var i := LastSeen(trace, key);
    if i > n {
      assert trace[i].Key() in SeenAfter(trace, n);
    }
  }

  /** The resident flows are the most recently seen ones, in order of last arrival, and nothing is missing
      unless the table is full. */
  ghost predicate MostRecentFirst(cap: nat, trace: seq<PacketEvent>, es: seq<Entry>) {
    && (forall i :: 0 <= i < |es| ==> LastSeen(trace, es[i].key) >= 0)
    && (forall i, j :: 0 <= i < j < |es| ==> LastSeen(trace, es[i].key) > LastSeen(trace, es[j].key))
    && (forall key :: LastSeen(trace, key) >= 0 && !Resident(es, key) ==>
          |es| == cap && forall i :: 0 <= i < |es| ==> LastSeen(trace, es[i].key) > LastSeen(trace, key))
  }

  lemma {:induction false} LastSeenAppend(trace: seq<PacketEvent>, e: PacketEvent, key: FlowKey)
    ensures LastSeen(trace + [e], key) == if key == e.Key() then |trace| else LastSeen(trace, key)
  {
    assert (trace + [e])[..|trace|] == trace;
  }

  /** A step drops no flow but the last one of a full table. */
  lemma {:induction false} StepKeepsResidents(cap: nat, es: seq<Entry>, e: PacketEvent, key: FlowKey)
    requires cap >= 1 && WellFormed(cap, es)
    requires Resident(es, key)
    requires Resident(es, e.Key()) || |es| < cap || key != es[cap - 1].key
    ensures Resident(Step(cap, es, e), key)
  {
    var i, k := Find(es, e.Key()), Find(es, key);
    StepShape(cap, es, e);
    var j := if k == i then 0 else if k < i then k + 1 else k;
    assert Step(cap, es, e)[j].key == key;
    ResidentIffSomeEntry(Step(cap, es, e), key);
  }

  lemma {:induction false} StepDrops(cap: nat, es: seq<Entry>, e: PacketEvent, key: FlowKey)
    requires cap >= 1 && WellFormed(cap, es)
    requires Resident(es, key) && !Resident(Step(cap, es, e), key)
    ensures |es| == cap && Find(es, key) == cap - 1 && !Resident(es, e.Key())
  {
    if Resident(es, e.Key()) || |es| < cap || key != es[cap - 1].key {
      StepKeepsResidents(cap, es, e, key);
    }
    FindAt(cap, es, cap - 1);
  }

  lemma {:induction false} StepLastSeen(cap: nat, trace: seq<PacketEvent>, es: seq<Entry>, e: PacketEvent, j: nat)
    requires cap >= 1 && WellFormed(cap, es) && j < |Step(cap, es, e)|
    ensures var i := Find(es, e.Key());
            && (j > 0 ==> Source(i, j) < |es|)
            && LastSeen(trace + [e], Step(cap, es, e)[j].key) ==
               if j == 0 then |trace| else LastSeen(trace, es[Source(i, j)].key)
  {
    StepShape(cap, es, e);
    StepKeepsWellFormed(cap, es, e);
    LastSeenAppend(trace, e, Step(cap, es, e)[j].key);
    assert j > 0 ==> Step(cap, es, e)[j].key != Step(cap, es, e)[0].key;
  }

  lemma {:induction false} StepOrder(cap: nat, trace: seq<PacketEvent>, es: seq<Entry>, e: PacketEvent)
    requires cap >= 1 && WellFormed(cap, es) && MostRecentFirst(cap, trace, es)
    ensures var r := Step(cap, es, e); var next := trace + [e];
            && (forall j :: 0 <= j < |r| ==> LastSeen(next, r[j].key) >= 0)
            && (forall j, k :: 0 <= j < k < |r| ==> LastSeen(next, r[j].key) > LastSeen(next, r[k].key))
  {
    var r := Step(cap, es, e);
    forall j | 0 <= j < |r| ensures LastSeen(trace + [e], r[j].key) >= 0 {
      StepLastSeen(cap, trace, es, e, j);
    }
    forall j, k | 0 <= j < k < |r| ensures LastSeen(trace + [e], r[j].key) > LastSeen(trace + [e], r[k].key) {
      StepLastSeen(cap, trace, es, e, j);
      StepLastSeen(cap, trace, es, e, k);
    }
  }

  lemma {:induction false} StepOmits(cap: nat, trace: seq<PacketEvent>, es: seq<Entry>, e: PacketEvent, key: FlowKey)
    requires cap >= 1 && WellFormed(cap, es) && MostRecentFirst(cap, trace, es)
    requires LastSeen(trace + [e], key) >= 0 && !Resident(Step(cap, es, e), key)
    ensures var r := Step(cap, es, e);
            |r| == cap && forall j :: 0 <= j < |r| ==> LastSeen(trace + [e], r[j].key) > LastSeen(trace + [e], key)
  {
    var i := Find(es, e.Key());
    var r := Step(cap, es, e);
    StepShape(cap, es, e);
    ResidentIffSomeEntry(r, key);
    assert r[0].key == e.Key();
    LastSeenAppend(trace, e, key);
    if Resident(es, key) {
      StepDrops(cap, es, e, key);
    }
    forall j | 0 <= j < |r| ensures LastSeen(trace + [e], r[j].key) > LastSeen(trace + [e], key) {
      LastSeenAppend(trace, e, r[j].key);
      if j > 0 {
        assert r[j] == es[Source(i, j)];
      }
    }
  }

  lemma {:induction false} StepKeepsRecency(cap: nat, trace: seq<PacketEvent>, es: seq<Entry>, e: PacketEvent)
    requires cap >= 1 && WellFormed(cap, es) && MostRecentFirst(cap, trace, es)
    ensures MostRecentFirst(cap, trace + [e], Step(cap, es, e))
  {
    StepOrder(cap, trace, es, e);
    forall key | LastSeen(trace + [e], key) >= 0 && !Resident(Step(cap, es, e), key)
      ensures var r := Step(cap, es, e);
              |r| == cap && forall j :: 0 <= j < |r| ==> LastSeen(trace + [e], r[j].key) > LastSeen(trace + [e], key)
    {
      StepOmits(cap, trace, es, e, key);
    }
  }

  lemma {:induction false} RunIsMostRecentFirst(cap: nat, trace: seq<PacketEvent>)
    requires cap >= 1
    ensures MostRecentFirst(cap, trace, Run(cap, trace))
  {
    if trace != [] {
      var prev, e := trace[..|trace| - 1], trace[|trace| - 1];
      RunIsMostRecentFirst(cap, prev);
      RunIsWellFormed(cap, prev);
      StepKeepsRecency(cap, prev, Run(cap, prev), e);
      assert prev + [e] == trace;
    }
  }

  function KeySet(es: seq<Entry>): set<FlowKey> {
    set i | 0 <= i < |es| :: es[i].key
  }

  lemma {:induction false} KeySetSize(es: seq<Entry>)
    requires DistinctKeys(es)
    ensures |KeySet(es)| == |es|
  {
    if es != [] {
      var front := es[..|es| - 1];
      KeySetSize(front);
      assert KeySet(es) == KeySet(front) + {es[|es| - 1].key};
    }
  }

  lemma {:induction false} SubsetSize<T>(a: set<T>, b: set<T>)
    requires a <= b
    ensures |a| <= |b|
  {
    assert b == a + (b - a);
  }

  /** A table of capacity c holds min(c, d) flows after d distinct ones. */
  lemma {:induction false} ResidentCount(cap: nat, trace: seq<PacketEvent>)
    requires cap >= 1
    ensures var d := |SeenAfter(trace, -1)|;
            |Run(cap, trace)| == if d < cap then d else cap
  {
    var es := Run(cap, trace);
    RunIsWellFormed(cap, trace);
    RunIsMostRecentFirst(cap, trace);
    KeySetSize(es);
    forall key ensures key in KeySet(es) ==> key in SeenAfter(trace, -1) {
      SeenAfterIff(trace, -1, key);
    }
    SubsetSize(KeySet(es), SeenAfter(trace, -1));
    if |es| < cap {
      forall key | key in SeenAfter(trace, -1) ensures key in KeySet(es) {
        SeenAfterIff(trace, -1, key);
        assert Resident(es, key);
        assert es[Find(es, key)].key == key;
      }
      assert KeySet(es) == SeenAfter(trace, -1);
    }
  }

  /** Stack distance: a flow is resident exactly when it has been seen and fewer than c other flows have been
      seen since, so this decides whether its next packet extends its window or starts a new one. */
  lemma {:induction false} ResidentIffFewFlowsSince(cap: nat, trace: seq<PacketEvent>, key: FlowKey)
    requires cap >= 1
    ensures Resident(Run(cap, trace), key) <==>
            LastSeen(trace, key) >= 0 && |SeenAfter(trace, LastSeen(trace, key))| < cap
  {
    RunIsWellFormed(cap, trace);
    RunIsMostRecentFirst(cap, trace);
    if Resident(Run(cap, trace), key) {
      SeenSinceResident(cap, trace, Run(cap, trace), key);
    } else if LastSeen(trace, key) >= 0 {
      SeenSinceAbsent(cap, trace, Run(cap, trace), key);
    }
  }

  /** The flows seen since a resident one are those ahead of it. */
  lemma {:induction false} SeenSinceResident(cap: nat, trace: seq<PacketEvent>, es: seq<Entry>, key: FlowKey)
    requires WellFormed(cap, es) && MostRecentFirst(cap, trace, es) && Resident(es, key)
    ensures LastSeen(trace, key) >= 0 && |SeenAfter(trace, LastSeen(trace, key))| == Find(es, key)
  {
    var n, i := LastSeen(trace, key), Find(es, key);
    forall k ensures k in SeenAfter(trace, n) <==> k in KeySet(es[..i]) {
      SeenAfterIff(trace, n, k);
      if LastSeen(trace, k) > n {
        var j := Find(es, k);
        assert j < i;
        assert es[..i][j].key == k;
      }
    }
    assert SeenAfter(trace, n) == KeySet(es[..i]);
    KeySetSize(es[..i]);
  }

  /** Every resident flow has been seen since an absent one. */
  lemma {:induction false} SeenSinceAbsent(cap: nat, trace: seq<PacketEvent>, es: seq<Entry>, key: FlowKey)
    requires WellFormed(cap, es) && MostRecentFirst(cap, trace, es)
    requires !Resident(es, key) && LastSeen(trace, key) >= 0
    ensures |SeenAfter(trace, LastSeen(trace, key))| >= cap
  {
    var n := LastSeen(trace, key);
    forall k | k in KeySet(es) ensures k in SeenAfter(trace, n) {
      SeenAfterIff(trace, n, k);
    }
    KeySetSize(es);
    SubsetSize(KeySet(es), SeenAfter(trace, n));
  }

  // ---------- histories ----------

  /** The packets of one flow in a trace, with directions relative to the given initiator. */
  function FlowHistory(trace: seq<PacketEvent>, key: FlowKey, initiator: IpAddr): seq<PacketSummary> {
    if trace == [] then []
    else
      var front, e := trace[..|trace| - 1], trace[|trace| - 1];
      FlowHistory(front, key, initiator) + (if e.Key() == key then [SummaryFrom(initiator, e)] else [])
  }

  lemma {:induction false} FlowHistoryAppend(trace: seq<PacketEvent>, e: PacketEvent, key: FlowKey, initiator: IpAddr)
    ensures FlowHistory(trace + [e], key, initiator) ==
            FlowHistory(trace, key, initiator) + (if e.Key() == key then [SummaryFrom(initiator, e)] else [])
  {
    assert (trace + [e])[..|trace|] == trace;
  }

  /** Index of the packet that admitted a resident flow for the current time. */
  function AdmittedAt(cap: nat, trace: seq<PacketEvent>, key: FlowKey): (a: nat)
    requires cap >= 1 && Resident(Run(cap, trace), key)
    ensures a < |trace|
  {
    var prev := trace[..|trace| - 1];
    if !Resident(Run(cap, prev), key) then |trace| - 1 else AdmittedAt(cap, prev, key)
  }

  /** A resident flow has been resident ever since the packet that admitted it... */
  lemma {:induction false} ResidentSinceAdmission(cap: nat, trace: seq<PacketEvent>, key: FlowKey, b: nat)
    requires cap >= 1 && Resident(Run(cap, trace), key) && b <= |trace|
    ensures AdmittedAt(cap, trace, key) < b ==> Resident(Run(cap, trace[..b]), key)
    ensures AdmittedAt(cap, trace, key) == b ==> !Resident(Run(cap, trace[..b]), key)
  {
    var prev := trace[..|trace| - 1];
    if b == |trace| {
      assert trace[..b] == trace;
    } else {
      assert prev[..b] == trace[..b];
      if Resident(Run(cap, prev), key) {
        ResidentSinceAdmission(cap, prev, key, b);
      } else if b == |trace| - 1 {
        assert trace[..b] == prev;
      }
    }
  }

  function EntryFor(es: seq<Entry>, key: FlowKey): (en: Entry)
    requires Resident(es, key)
    ensures en.key == key
  {
    es[Find(es, key)]
  }

  /** The entry's initiator sent the first packet of since, and its history is the flow's part of since. */
  ghost predicate Records(en: Entry, since: seq<PacketEvent>) {
    && since != [] && since[0].Key() == en.key
    && en.initiator == since[0].srcIp
    && en.hist == FlowHistory(since, en.key, en.initiator)
  }

  /** What a step does to one flow's entry. */
  lemma {:induction false} EntryEvolves(cap: nat, es: seq<Entry>, e: PacketEvent, key: FlowKey)
    requires cap >= 1 && WellFormed(cap, es) && Resident(Step(cap, es, e), key)
    ensures var en := EntryFor(Step(cap, es, e), key);
            if e.Key() != key then Resident(es, key) && en == EntryFor(es, key)
            else if Resident(es, key) then en == Touched(EntryFor(es, key), e)
            else en.initiator == e.srcIp && en.hist == [SummaryFrom(e.srcIp, e)]
  {
    var r := Step(cap, es, e);
    StepShape(cap, es, e);
    var k := Find(r, key);
    if e.Key() == key {
      assert Find(r, key) == 0;
    } else {
      FindAt(cap, es, Source(Find(es, e.Key()), k));
    }
  }

  lemma {:induction false} RecordStarts(cap: nat, es: seq<Entry>, e: PacketEvent, key: FlowKey)
    requires cap >= 1 && WellFormed(cap, es)
    requires !Resident(es, key) && Resident(Step(cap, es, e), key)
    ensures Records(EntryFor(Step(cap, es, e), key), [e])
  {
    EntryEvolves(cap, es, e, key);
    FlowHistoryAppend([], e, key, e.srcIp);
    assert [] + [e] == [e];
  }

  lemma {:induction false} RecordContinues(cap: nat, es: seq<Entry>, e: PacketEvent, key: FlowKey,
                                           since: seq<PacketEvent>)
    requires cap >= 1 && WellFormed(cap, es)
    requires Resident(es, key) && Resident(Step(cap, es, e), key) && Records(EntryFor(es, key), since)
    ensures Records(EntryFor(Step(cap, es, e), key), since + [e])
  {
    EntryEvolves(cap, es, e, key);
    FlowHistoryAppend(since, e, key, EntryFor(es, key).initiator);
  }

  lemma {:induction false} RecordStep(cap: nat, prev: seq<PacketEvent>, e: PacketEvent, key: FlowKey, a: nat)
    requires cap >= 1 && a <= |prev| && Resident(Step(cap, Run(cap, prev), e), key)
    requires if Resident(Run(cap, prev), key) then Records(EntryFor(Run(cap, prev), key), prev[a..]) else a == |prev|
    ensures Records(EntryFor(Step(cap, Run(cap, prev), e), key), (prev + [e])[a..])
  {
    hide Step, WellFormed, Records, Resident, Run;
    var es := Run(cap, prev);
    RunIsWellFormed(cap, prev);
    assert (prev + [e])[a..] == prev[a..] + [e];
    if Resident(es, key) {
      RecordContinues(cap, es, e, key, prev[a..]);
    } else {
      RecordStarts(cap, es, e, key);
      assert prev[a..] + [e] == [e];
    }
  }

  /** ... its initiator is that packet's source, and its history is exactly the flow's packets from that one on. */
  lemma {:induction false} HistorySinceAdmission(cap: nat, trace: seq<PacketEvent>, key: FlowKey)
    requires cap >= 1 && Resident(Run(cap, trace), key)
    ensures Records(EntryFor(Run(cap, trace), key), trace[AdmittedAt(cap, trace, key)..])
  {
    var prev, e := trace[..|trace| - 1], trace[|trace| - 1];
    assert trace == prev + [e];
    if Resident(Run(cap, prev), key) {
      HistorySinceAdmission(cap, prev, key);
    }
    RecordStep(cap, prev, e, key, AdmittedAt(cap, trace, key));
  }

  /** Every result is a function of the flow's packets since its current admission, of which MetricsOf looks at
      the last 128: whatever else the table has seen, evicted or recycled does not matter. */
  lemma {:induction false} EveryResult(cap: nat, trace: seq<PacketEvent>, k: nat)
    requires cap >= 1 && k < |trace|
    ensures var key, upto := trace[k].Key(), trace[..k + 1];
            && Resident(Run(cap, upto), key)
            && var a := AdmittedAt(cap, upto, key);
               Observed(cap, trace)[k] == Observation(key, FlowHistory(trace[a..k + 1], key, trace[a].srcIp))
  {
    var key, upto := trace[k].Key(), trace[..k + 1];
    ObservedAt(cap, trace, k);
    assert upto[k].Key() == key;
    assert Run(cap, upto)[0].key == key;
    assert Find(Run(cap, upto), key) == 0;
    HistorySinceAdmission(cap, upto, key);
    var a := AdmittedAt(cap, upto, key);
    assert upto[a..] == trace[a..k + 1] && upto[a] == trace[a];
  }

  lemma {:induction false} ObservedAt(cap: nat, trace: seq<PacketEvent>, k: nat)
    requires cap >= 1 && k < |trace|
    ensures Observed(cap, trace)[k] == Front(Run(cap, trace[..k + 1]))
  {
    if k == |trace| - 1 {
      assert trace[..k + 1] == trace;
    } else {
      ObservedAt(cap, trace[..|trace| - 1], k);
      assert trace[..|trace| - 1][..k + 1] == trace[..k + 1];
    }
  }

  lemma {:induction false} ObservedPrefix(cap: nat, trace: seq<PacketEvent>, n: nat)
    requires cap >= 1 && n <= |trace|
    ensures Observed(cap, trace)[..n] == Observed(cap, trace[..n])
  {
    hide Run, Observed, Front;
    forall k | 0 <= k < n ensures Observed(cap, trace)[k] == Observed(cap, trace[..n])[k] {
      ObservedAt(cap, trace, k);
      ObservedAt(cap, trace[..n], k);
      assert trace[..n][..k + 1] == trace[..k + 1];
    }
  }

  // ---------- inclusion ----------

  /** What is comparable between tables: re-admission may change the initiator, hence directions. */
  function Undirected(hist: seq<PacketSummary>): (r: seq<PacketSummary>)
    ensures |r| == |hist|
  {
    seq(|hist|, i requires 0 <= i < |hist| => hist[i].(direction := Forward))
  }

  ghost predicate IsSuffix<T>(s: seq<T>, t: seq<T>) {
    |s| <= |t| && s == t[|t| - |s|..]
  }

  ghost predicate IncludedIn(small: seq<Entry>, large: seq<Entry>) {
    && |small| <= |large|
    && forall i :: 0 <= i < |small| ==>
         small[i].key == large[i].key && IsSuffix(Undirected(small[i].hist), Undirected(large[i].hist))
  }

  lemma {:induction false} StepKeepsInclusion(c1: nat, c2: nat, small: seq<Entry>, large: seq<Entry>, e: PacketEvent)
    requires 1 <= c1 <= c2 && WellFormed(c1, small) && WellFormed(c2, large)
    requires IncludedIn(small, large) && (|small| == c1 || |small| == |large|)
    ensures var s, l := Step(c1, small, e), Step(c2, large, e);
            IncludedIn(s, l) && (|s| == c1 || |s| == |l|)
  {
    var i, j := Find(small, e.Key()), Find(large, e.Key());
    var s, l := Step(c1, small, e), Step(c2, large, e);
    StepShape(c1, small, e);
    StepShape(c2, large, e);
    if i < |small| {
      FindAt(c2, large, i);
    } else {
      assert forall k :: 0 <= k < |small| ==> large[k].key == small[k].key != e.Key();
    }
    FrontIncluded(small, large, i, j, s[0], l[0], e);
    forall k | 0 <= k < |s|
      ensures s[k].key == l[k].key && IsSuffix(Undirected(s[k].hist), Undirected(l[k].hist))
    {
      if k > 0 {
        assert Source(i, k) == Source(j, k) < |small|;
      }
    }
  }

  lemma {:induction false} FrontIncluded(small: seq<Entry>, large: seq<Entry>, i: nat, j: nat, s: Entry, l: Entry,
                                         e: PacketEvent)
    requires IncludedIn(small, large) && j <= |large| && (if i < |small| then i == j else j >= |small|)
    requires if i < |small| then s == Touched(small[i], e) else s.hist == [SummaryFrom(e.srcIp, e)]
    requires if j < |large| then l == Touched(large[j], e) else l.hist == [SummaryFrom(e.srcIp, e)]
    ensures IsSuffix(Undirected(s.hist), Undirected(l.hist))
  {
    var us, ul := Undirected(s.hist), Undirected(l.hist);
    var last := SummaryFrom(e.srcIp, e).(direction := Forward);
    if i < |small| {
      assert us == Undirected(small[i].hist) + [last];
      assert ul == Undirected(large[i].hist) + [last];
    } else {
      assert us == [last];
      assert ul[|ul| - 1] == last;
    }
  }

  /** LRU inclusion: the smaller table's recency list is a prefix of the larger one's, flow by flow its history
      (apart from directions) is a suffix of the larger one's. */
  lemma {:induction false} LargerTableIncludesSmaller(c1: nat, c2: nat, trace: seq<PacketEvent>)
    requires 1 <= c1 <= c2
    ensures IncludedIn(Run(c1, trace), Run(c2, trace))
    ensures |Run(c1, trace)| == c1 || |Run(c1, trace)| == |Run(c2, trace)|
  {
    if trace != [] {
      var prev, e := trace[..|trace| - 1], trace[|trace| - 1];
      LargerTableIncludesSmaller(c1, c2, prev);
      RunIsWellFormed(c1, prev);
      RunIsWellFormed(c2, prev);
      StepKeepsInclusion(c1, c2, Run(c1, prev), Run(c2, prev), e);
    }
  }

  /** ... and so is its window, packet by packet. */
  lemma {:induction false} WindowsAreIncluded(c1: nat, c2: nat, trace: seq<PacketEvent>, i: nat)
    requires 1 <= c1 <= c2 && i < |Run(c1, trace)|
    ensures i < |Run(c2, trace)|
    ensures IsSuffix(Undirected(Window(Run(c1, trace)[i].hist)), Undirected(Window(Run(c2, trace)[i].hist)))
  {
    hide Run, Window;
    LargerTableIncludesSmaller(c1, c2, trace);
    WindowOfSuffix(Run(c1, trace)[i].hist, Run(c2, trace)[i].hist);
  }

  lemma {:induction false} WindowOfSuffix(h1: seq<PacketSummary>, h2: seq<PacketSummary>)
    requires IsSuffix(Undirected(h1), Undirected(h2))
    ensures IsSuffix(Undirected(Window(h1)), Undirected(Window(h2)))
  {
    var w1, w2 := Window(h1), Window(h2);
    var skip := |w2| - |w1|;
    forall k | 0 <= k < |w1| ensures Undirected(w1)[k] == Undirected(w2)[skip + k] {
      WindowAt(h1, k);
      WindowAt(h2, skip + k);
    }
  }

  lemma WindowAt(h: seq<PacketSummary>, k: nat)
    requires k < |Window(h)|
    ensures Undirected(Window(h))[k] == Undirected(h)[|h| - |Window(h)| + k]
  {
  }

  // ---------- one flow ----------

  /** The packets of one flow. */
  function Of(trace: seq<PacketEvent>, key: FlowKey): seq<PacketEvent> {
    if trace == [] then []
    else Of(trace[..|trace| - 1], key) + (if trace[|trace| - 1].Key() == key then [trace[|trace| - 1]] else [])
  }

  /** The flow's history is the summary of its packets, one for one. */
  lemma {:induction false} HistoryOf(trace: seq<PacketEvent>, key: FlowKey, initiator: IpAddr)
    ensures var hist, ps := FlowHistory(trace, key, initiator), Of(trace, key);
            && |hist| == |ps|
            && forall i :: 0 <= i < |ps| ==> ps[i].Key() == key && hist[i] == SummaryFrom(initiator, ps[i])
  {
    if trace != [] {
      HistoryOf(trace[..|trace| - 1], key, initiator);
    }
  }

  /** In a resident flow between different addresses a packet counts as forward exactly when the endpoint that sent
      it sent the packet that admitted the flow. */
  lemma {:induction false} ForwardIffFromInitiator(cap: nat, trace: seq<PacketEvent>, key: FlowKey, i: nat)
    requires cap >= 1 && Resident(Run(cap, trace), key) && key.ipMin != key.ipMax
    requires i < |EntryFor(Run(cap, trace), key).hist|
    ensures var since, hist := trace[AdmittedAt(cap, trace, key)..], EntryFor(Run(cap, trace), key).hist;
            && |Of(since, key)| == |hist|
            && (hist[i].direction == Forward <==> Of(since, key)[i].Source() == since[0].Source())
  {
    hide Run, FlowHistory, Of, AdmittedAt, Resident;
    HistorySinceAdmission(cap, trace, key);
    var since := trace[AdmittedAt(cap, trace, key)..];
    HistoryOf(since, key, since[0].srcIp);
    DirectionMeaning(since[0], Of(since, key)[i]);
  }

  /** A resident flow between equal addresses has no backward packet, so all its packets count as forward and its
      direction ratio is the size of its window. */
  lemma {:induction false} EqualAddressesNeverBackward(cap: nat, trace: seq<PacketEvent>, key: FlowKey)
    requires cap >= 1 && Resident(Run(cap, trace), key) && key.ipMin == key.ipMax
    ensures var w := Window(EntryFor(Run(cap, trace), key).hist);
            TallyOf(w).packetsBwd == 0 && TallyOf(w).packetsFwd == |w| && DirectionRatio(w) == |w| as real
  {
    hide Run, FlowHistory, Of, AdmittedAt, TallyOf, Resident;
    HistorySinceAdmission(cap, trace, key);
    var since, hist := trace[AdmittedAt(cap, trace, key)..], EntryFor(Run(cap, trace), key).hist;
    HistoryOf(since, key, since[0].srcIp);
    forall i | 0 <= i < |hist| ensures hist[i].direction == Forward {
      DirectionMeaning(since[0], Of(since, key)[i]);
    }
    AllForward(Window(hist));
    Quotient(|Window(hist)| as real);
  }

  lemma Quotient(x: real)
    ensures x / 1.0 == x
  {
  }

  lemma {:induction false} AllForward(w: seq<PacketSummary>)
    requires forall i :: 0 <= i < |w| ==> w[i].direction == Forward
    ensures TallyOf(w).packetsBwd == 0 && TallyOf(w).packetsFwd == |w|
  {
    if w != [] {
      AllForward(w[..|w| - 1]);
    }
  }

  /** The results for one flow. */
  function Only(os: seq<Observation>, key: FlowKey): seq<Observation> {
    if os == [] then []
    else Only(os[..|os| - 1], key) + (if os[|os| - 1].key == key then [os[|os| - 1]] else [])
  }

  lemma {:induction false} OfAppend(trace: seq<PacketEvent>, e: PacketEvent, key: FlowKey)
    ensures Of(trace + [e], key) == Of(trace, key) + (if e.Key() == key then [e] else [])
  {
    assert (trace + [e])[..|trace|] == trace;
  }

  lemma {:induction false} OnlyAppend(os: seq<Observation>, o: Observation, key: FlowKey)
    ensures Only(os + [o], key) == Only(os, key) + (if o.key == key then [o] else [])
  {
    assert (os + [o])[..|os|] == os;
  }

  lemma {:induction false} RunAppend(cap: nat, trace: seq<PacketEvent>, e: PacketEvent)
    requires cap >= 1
    ensures Run(cap, trace + [e]) == Step(cap, Run(cap, trace), e)
    ensures Observed(cap, trace + [e]) == Observed(cap, trace) + [Front(Run(cap, trace + [e]))]
  {
    assert (trace + [e])[..|trace|] == trace;
  }

  /** While the distinct flows fit the table, every flow seen is resident: nothing is ever evicted. */
  lemma {:induction false} AllResident(cap: nat, trace: seq<PacketEvent>, key: FlowKey)
    requires cap >= 1 && |SeenAfter(trace, -1)| <= cap
    ensures Resident(Run(cap, trace), key) <==> LastSeen(trace, key) >= 0
  {
    hide Run, Resident, WellFormed, MostRecentFirst, Find;
    var n := LastSeen(trace, key);
    ResidentIffFewFlowsSince(cap, trace, key);
    if n >= 0 {
      SeenAfterIff(trace, n, key);
      SeenAfterIff(trace, -1, key);
      forall k | k in SeenAfter(trace, n) + {key} ensures k in SeenAfter(trace, -1) {
        SeenAfterIff(trace, n, k);
        SeenAfterIff(trace, -1, k);
      }
      SubsetSize(SeenAfter(trace, n) + {key}, SeenAfter(trace, -1));
    }
  }

  lemma {:induction false} FewerFlowsBefore(trace: seq<PacketEvent>, e: PacketEvent)
    ensures |SeenAfter(trace, -1)| <= |SeenAfter(trace + [e], -1)|
  {
    forall k | k in SeenAfter(trace, -1) ensures k in SeenAfter(trace + [e], -1) {
      SeenAfterIff(trace, -1, k);
      SeenAfterIff(trace + [e], -1, k);
      LastSeenAppend(trace, e, k);
    }
    SubsetSize(SeenAfter(trace, -1), SeenAfter(trace + [e], -1));
  }

  /** Then a flow's entry is what a table of its own would hold... */
  lemma {:induction false} EntryAsIfAlone(cap: nat, trace: seq<PacketEvent>, key: FlowKey)
    requires cap >= 1 && |SeenAfter(trace, -1)| <= cap && Resident(Run(cap, trace), key)
    ensures var alone := Run(1, Of(trace, key));
            && Resident(alone, key)
            && EntryFor(alone, key).initiator == EntryFor(Run(cap, trace), key).initiator
            && EntryFor(alone, key).hist == EntryFor(Run(cap, trace), key).hist
  {
    if trace == [] {
    } else {
      var prev, e := trace[..|trace| - 1], trace[|trace| - 1];
      assert trace == prev + [e];
      FewerFlowsBefore(prev, e);
      if Resident(Run(cap, prev), key) {
        EntryAsIfAlone(cap, prev, key);
      }
      AloneStep(cap, prev, e, key);
    }
  }

  lemma {:induction false} AloneStep(cap: nat, prev: seq<PacketEvent>, e: PacketEvent, key: FlowKey)
    requires cap >= 1 && |SeenAfter(prev, -1)| <= cap && Resident(Run(cap, prev + [e]), key)
    requires var alone := Run(1, Of(prev, key));
             Resident(Run(cap, prev), key) ==>
               && Resident(alone, key)
               && EntryFor(alone, key).initiator == EntryFor(Run(cap, prev), key).initiator
               && EntryFor(alone, key).hist == EntryFor(Run(cap, prev), key).hist
    ensures var alone := Run(1, Of(prev + [e], key));
            && Resident(alone, key)
            && EntryFor(alone, key).initiator == EntryFor(Run(cap, prev + [e]), key).initiator
            && EntryFor(alone, key).hist == EntryFor(Run(cap, prev + [e]), key).hist
  {
    hide Run, WellFormed, Step, Of, SeenAfter, LastSeen, Find;
    RunAppend(cap, prev, e);
    RunIsWellFormed(cap, prev);
    EntryEvolves(cap, Run(cap, prev), e, key);
    OfAppend(prev, e, key);
    if e.Key() == key {
      RunAppend(1, Of(prev, key), e);
      RunIsWellFormed(1, Of(prev, key));
      StepFront(1, Run(1, Of(prev, key)), e);
      EntryEvolves(1, Run(1, Of(prev, key)), e, key);
      if !Resident(Run(cap, prev), key) {
        AllResident(cap, prev, key);
        NothingOf(prev, key);
      }
    } else {
      assert Of(prev, key) + [] == Of(prev, key);
    }
  }

  lemma {:induction false} StepFront(cap: nat, es: seq<Entry>, e: PacketEvent)
    requires cap >= 1
    ensures Resident(Step(cap, es, e), e.Key())
  {
    assert Step(cap, es, e)[0].key == e.Key();
  }

  lemma {:induction false} NothingOf(trace: seq<PacketEvent>, key: FlowKey)
    requires LastSeen(trace, key) < 0
    ensures Of(trace, key) == [] && !Resident(Run(1, Of(trace, key)), key)
  {
    if trace != [] {
      NothingOf(trace[..|trace| - 1], key);
    }
  }

  /** ... and its results are those of a table that sees this flow alone. */
  lemma {:induction false} ResultsAsIfAlone(cap: nat, trace: seq<PacketEvent>, key: FlowKey)
    requires cap >= 1 && |SeenAfter(trace, -1)| <= cap
    ensures Only(Observed(cap, trace), key) == Observed(1, Of(trace, key))
  {
    if trace != [] {
      var prev, e := trace[..|trace| - 1], trace[|trace| - 1];
      assert trace == prev + [e];
      FewerFlowsBefore(prev, e);
      ResultsAsIfAlone(cap, prev, key);
      ResultStep(cap, prev, e, key);
    }
  }

  lemma {:induction false} ResultStep(cap: nat, prev: seq<PacketEvent>, e: PacketEvent, key: FlowKey)
    requires cap >= 1 && |SeenAfter(prev + [e], -1)| <= cap
    requires Only(Observed(cap, prev), key) == Observed(1, Of(prev, key))
    ensures Only(Observed(cap, prev + [e]), key) == Observed(1, Of(prev + [e], key))
  {
    hide Run, WellFormed, Step, Of, SeenAfter, LastSeen, Observed, Only;
    var trace := prev + [e];
    RunAppend(cap, prev, e);
    OnlyAppend(Observed(cap, prev), Front(Run(cap, trace)), key);
    OfAppend(prev, e, key);
    assert Run(cap, trace)[0].key == e.Key();
    if e.Key() == key {
      RunAppend(1, Of(prev, key), e);
      StepFront(cap, Run(cap, prev), e);
      EntryAsIfAlone(cap, trace, key);
      assert Run(1, Of(prev, key) + [e])[0].key == key;
      assert EntryFor(Run(cap, trace), key) == Run(cap, trace)[0];
      assert EntryFor(Run(1, Of(trace, key)), key) == Run(1, Of(trace, key))[0];
    } else {
      assert Of(prev, key) + [] == Of(prev, key);
      assert Only(Observed(cap, prev), key) + [] == Only(Observed(cap, prev), key);
    }
  }
}
