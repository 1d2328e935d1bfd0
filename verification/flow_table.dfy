/** FlowTable: a hash map, a slab of nodes and an intrusive recency list (src/analysis/aggregator.rs:389-558). */
module FlowTables {
  import opened Packets
  import opened Windows
  import opened FlowStates
  import opened LruSpec

  /** A slab element: nodes are stored by value and relinked in place; the state is the flow's ring buffer. */
  datatype LruNode = LruNode(key: FlowKey, state: FlowState, prev: Option<nat>, next: Option<nat>)

  /** The link stored for position k of the recency list, None outside it. */
  function Link(order: seq<nat>, k: int): Option<nat> {
    if 0 <= k < |order| then Some(order[k]) else None
  }

  ghost predicate Distinct(order: seq<nat>) {
    forall i, j :: 0 <= i < j < |order| ==> order[i] != order[j]
  }

  type Links = seq<Option<nat>>

  ghost function Prevs(slab: seq<LruNode>): (s: Links)
    ensures |s| == |slab| && forall i :: 0 <= i < |slab| ==> s[i] == slab[i].prev
  {
    seq(|slab|, i requires 0 <= i < |slab| => slab[i].prev)
  }

  ghost function Nexts(slab: seq<LruNode>): (s: Links)
    ensures |s| == |slab| && forall i :: 0 <= i < |slab| ==> s[i] == slab[i].next
  {
    seq(|slab|, i requires 0 <= i < |slab| => slab[i].next)
  }

  /** Relinking keeps every node's key and state. */
  ghost predicate SameNodes(s: seq<LruNode>, t: seq<LruNode>) {
    && |s| == |t|
    && (forall i {:trigger s[i].key} {:trigger t[i].key} :: 0 <= i < |s| ==> s[i].key == t[i].key)
    && (forall i {:trigger s[i].state} {:trigger t[i].state} :: 0 <= i < |s| ==> s[i].state == t[i].state)
  }

  /** The column holds, for each slot of order, the slot d places further on. */
  ghost predicate Follows(column: Links, order: seq<nat>, d: int) {
    && (forall k :: 0 <= k < |order| ==> order[k] < |column|)
    && (forall k {:trigger column[order[k]]} :: 0 <= k < |order| ==> column[order[k]] == Link(order, k + d))
  }

  /** Columns prevs and nexts form one acyclic doubly linked list that visits the slots of order, each once. */
  ghost predicate ListOf(prevs: Links, nexts: Links, order: seq<nat>) {
    && |prevs| == |nexts|
    && Distinct(order)
    && Follows(prevs, order, -1)
    && Follows(nexts, order, 1)
  }

  /** s[i := v] when there is such an index. */
  ghost function SetLink(s: Links, i: Option<nat>, v: Option<nat>): (r: Links)
    ensures |r| == |s|
  {
    if i.Some? && i.value < |s| then s[i.value := v] else s
  }

  lemma PushFront(prevs: Links, nexts: Links, order: seq<nat>, idx: nat)
    requires ListOf(prevs, nexts, order) && idx < |prevs| && idx !in order
    ensures ListOf(SetLink(prevs[idx := None], Link(order, 0), Some(idx)), nexts[idx := Link(order, 0)],
                   [idx] + order)
  {
    var o := [idx] + order;
    var ps, ns := SetLink(prevs[idx := None], Link(order, 0), Some(idx)), nexts[idx := Link(order, 0)];
    forall k | 0 <= k < |o|
      ensures o[k] < |ps| && ps[o[k]] == Link(o, k - 1) && ns[o[k]] == Link(o, k + 1)
    {
      if k > 0 {
        assert o[k] == order[k - 1] && o[k] != idx;
        assert k > 1 ==> o[k] != order[0];
      }
    }
  }

  lemma WithoutAt(order: seq<nat>, k: nat, j: nat)
    requires Distinct(order) && k < |order| && j < |order| - 1
    ensures var i := if j < k then j else j + 1;
            Without(order, k)[j] == order[i] != order[k]
  {
  }

  lemma WithoutIsDistinct(order: seq<nat>, k: nat)
    requires Distinct(order) && k < |order|
    ensures Distinct(Without(order, k)) && order[k] !in Without(order, k)
  {
    var o := Without(order, k);
    forall i, j | 0 <= i < j < |o| ensures o[i] != o[j] {
      WithoutAt(order, k, i);
      WithoutAt(order, k, j);
    }
    forall j | 0 <= j < |o| ensures o[j] != order[k] {
      WithoutAt(order, k, j);
    }
  }

  lemma LinkWithout(order: seq<nat>, k: nat, j: int)
    requires k < |order|
    ensures Link(Without(order, k), j) == Link(order, if j < k then j else j + 1)
  {
  }

  /** The new ends of the list after removing position k. */
  lemma EndsWithout(order: seq<nat>, k: nat)
    requires k < |order|
    ensures Link(Without(order, k), 0) == if Link(order, k - 1).Some? then Link(order, 0) else Link(order, k + 1)
    ensures Link(Without(order, k), |order| - 2) ==
            if Link(order, k + 1).Some? then Link(order, |order| - 1) else Link(order, k - 1)
  {
    LinkWithout(order, k, 0);
    LinkWithout(order, k, |order| - 2);
  }

  lemma Unlinked(prevs: Links, nexts: Links, order: seq<nat>, k: nat)
    requires ListOf(prevs, nexts, order) && k < |order|
    ensures var idx := order[k];
            && idx < |prevs| && prevs[idx] == Link(order, k - 1) && nexts[idx] == Link(order, k + 1)
            && ListOf(SetLink(prevs, nexts[idx], prevs[idx])[idx := None],
                      SetLink(nexts, prevs[idx], nexts[idx])[idx := None], Without(order, k))
  {
    hide Distinct, Without, SetLink, Link;
    WithoutIsDistinct(order, k);
    assert prevs[order[k]] == Link(order, k - 1) && nexts[order[k]] == Link(order, k + 1);
    UnlinkColumn(prevs, order, k, -1);
    UnlinkColumn(nexts, order, k, 1);
  }

  /** One column of an unlinked node, in either direction. */
  lemma UnlinkColumn(column: Links, order: seq<nat>, k: nat, d: int)
    requires Distinct(order) && Follows(column, order, d) && k < |order| && (d == 1 || d == -1)
    ensures Follows(SetLink(column, Link(order, k - d), Link(order, k + d))[order[k] := None], Without(order, k), d)
  {
    hide Distinct, SetLink, Link;
    var o, column' := Without(order, k), SetLink(column, Link(order, k - d), Link(order, k + d));
    forall j | 0 <= j < |o| ensures o[j] < |column| && column'[order[k] := None][o[j]] == Link(o, j + d) {
      var i := if j < k then j else j + 1;
      WithoutAt(order, k, j);
      LinkWithout(order, k, j + d);
      assert column[order[i]] == Link(order, i + d);
      Relinked(column, order, k, k - d, k + d, i, i + d);
    }
  }

  /** Writing the neighbour's link at position near and clearing position k leaves position i linked right. */
  lemma Relinked(column: Links, order: seq<nat>, k: nat, near: int, far: int, i: nat, at: int)
    requires Distinct(order) && k < |order| && i < |order| && i != k && near != k
    requires forall j :: 0 <= j < |order| ==> order[j] < |column|
    requires column[order[i]] == Link(order, at)
    ensures var column' := SetLink(column, Link(order, near), Link(order, far))[order[k] := None];
            column'[order[i]] == if i == near then Link(order, far) else Link(order, at)
  {
    assert order[i] != order[k];
    assert 0 <= near < |order| && i != near ==> order[near] != order[i];
  }

  /** entries lists what the slots hold in recency order. */
  ghost predicate Arranged(held: seq<Entry>, order: seq<nat>, entries: seq<Entry>) {
    && |entries| == |order|
    && (forall k :: 0 <= k < |order| ==> order[k] < |held|)
    && (forall k {:trigger entries[k]} {:trigger held[order[k]]} :: 0 <= k < |order| ==>
          entries[k] == held[order[k]] && entries[k].slot == order[k])
  }

  /** Changing what the slot at position k holds and moving it to the front. */
  lemma Rearranged(held: seq<Entry>, order: seq<nat>, entries: seq<Entry>, k: nat, en: Entry)
    requires Arranged(held, order, entries) && Distinct(order) && k < |order| && en.slot == order[k]
    ensures Arranged(held[order[k] := en], [order[k]] + Without(order, k), [en] + Without(entries, k))
  {
    var order', entries' := [order[k]] + Without(order, k), [en] + Without(entries, k);
    forall j | 0 <= j < |order'|
      ensures order'[j] < |held| && entries'[j] == held[order[k] := en][order'[j]] && entries'[j].slot == order'[j]
    {
      if j > 0 {
        assert order'[j] == order[Source(k, j)] && entries'[j] == entries[Source(k, j)];
      }
    }
  }

  /** Map, slots and recency list agree. */
  ghost predicate Ledger(cap: nat, index: map<FlowKey, nat>, held: seq<Entry>, order: seq<nat>, entries: seq<Entry>) {
    && Indexes(index, held)
    && Arranged(held, order, entries)
    && |entries| == |held|
    && WellFormed(cap, entries)
  }

  lemma LedgerSizes(cap: nat, index: map<FlowKey, nat>, held: seq<Entry>, order: seq<nat>, es: seq<Entry>)
    requires Ledger(cap, index, held, order, es)
    ensures |held| == |order| == |es| <= cap
  {
  }

  /** A key is in the map exactly when its flow is resident, and then its slot is where the list has it. */
  lemma {:induction false} IndexFinds(cap: nat, index: map<FlowKey, nat>, held: seq<Entry>, order: seq<nat>,
                                      es: seq<Entry>, key: FlowKey)
    requires Ledger(cap, index, held, order, es)
    ensures key in index <==> Resident(es, key)
    ensures key in index ==> order[Find(es, key)] == index[key]
  {
    if key in index {
      var k := EverySlotIsListed(cap, es, index[key]);
      assert held[order[k]].key == key;
      FindAt(cap, es, k);
    }
  }

  lemma {:induction false} LedgerTouch(cap: nat, index: map<FlowKey, nat>, held: seq<Entry>, order: seq<nat>,
                                       es: seq<Entry>, e: PacketEvent)
    requires Ledger(cap, index, held, order, es) && Distinct(order) && e.Key() in index
    ensures cap >= 1
    ensures var k := Find(es, e.Key());
            && k < |order| && order[k] == index[e.Key()] < |held| && held[order[k]].key == e.Key()
            && Ledger(cap, index, held[order[k] := Touched(held[order[k]], e)],
                      [order[k]] + Without(order, k), Step(cap, es, e))
            && Front(Step(cap, es, e)) == Observation(e.Key(), Touched(held[order[k]], e).hist)
  {
    IndexFinds(cap, index, held, order, es, e.Key());
    var k := Find(es, e.Key());
    StepKeepsWellFormed(cap, es, e);
    Rearranged(held, order, es, k, Touched(es[k], e));
    IndexesSameKey(index, held, order[k], Touched(es[k], e));
  }

  lemma IndexesSameKey(index: map<FlowKey, nat>, held: seq<Entry>, slot: nat, en: Entry)
    requires Indexes(index, held) && slot < |held| && en.key == held[slot].key
    ensures Indexes(index, held[slot := en])
  {
  }

  /** The last resident flow gives up its map entry, its slot and its place. */
  lemma {:induction false} LedgerRecycle(cap: nat, index: map<FlowKey, nat>, held: seq<Entry>, order: seq<nat>,
                                         es: seq<Entry>, e: PacketEvent)
    requires Ledger(cap, index, held, order, es) && Distinct(order) && e.Key() !in index && |held| >= cap && order != []
    ensures cap >= 1 && |order| == cap
    ensures var k := |order| - 1; var slot := order[k];
            && slot < |held|
            && Ledger(cap, (index - {held[slot].key})[e.Key() := slot], held[slot := Admitted(slot, e)],
                      [slot] + Without(order, k), Step(cap, es, e))
  {
    var k, slot := cap - 1, order[cap - 1];
    IndexFinds(cap, index, held, order, es, e.Key());
    StepKeepsWellFormed(cap, es, e);
    Rearranged(held, order, es, k, Admitted(slot, e));
    assert Without(es, k) == es[..k];
    IndexesNewKey(index, held, slot, Admitted(slot, e));
  }

  lemma IndexesNewKey(index: map<FlowKey, nat>, held: seq<Entry>, slot: nat, en: Entry)
    requires Indexes(index, held) && slot < |held| && en.key !in index
    ensures Indexes((index - {held[slot].key})[en.key := slot], held[slot := en])
  {
  }

  /** A new flow gets the next unused slot. */
  lemma {:induction false} LedgerInsert(cap: nat, index: map<FlowKey, nat>, held: seq<Entry>, order: seq<nat>,
                                        es: seq<Entry>, e: PacketEvent)
    requires Ledger(cap, index, held, order, es) && e.Key() !in index && |held| < cap
    ensures Ledger(cap, index[e.Key() := |held|], held + [Admitted(|held|, e)], [|held|] + order, Step(cap, es, e))
  {
    hide Indexes, Arranged, WellFormed, Step, Find, Resident;
    IndexFinds(cap, index, held, order, es, e.Key());
    StepKeepsWellFormed(cap, es, e);
    StepInserts(cap, es, e);
    IndexesAppended(index, held, Admitted(|held|, e));
    ArrangedAppended(held, order, es, Admitted(|held|, e));
  }

  lemma StepInserts(cap: nat, es: seq<Entry>, e: PacketEvent)
    requires !Resident(es, e.Key()) && |es| < cap
    ensures Step(cap, es, e) == [Admitted(|es|, e)] + es
  {
  }

  lemma IndexesAppended(index: map<FlowKey, nat>, held: seq<Entry>, en: Entry)
    requires Indexes(index, held) && en.key !in index
    ensures Indexes(index[en.key := |held|], held + [en])
  {
  }

  lemma ArrangedAppended(held: seq<Entry>, order: seq<nat>, es: seq<Entry>, en: Entry)
    requires Arranged(held, order, es) && en.slot == |held|
    ensures Arranged(held + [en], [|held|] + order, [en] + es)
  {
    var order', es' := [|held|] + order, [en] + es;
    forall k | 0 <= k < |order'|
      ensures order'[k] < |held| + 1 && es'[k] == (held + [en])[order'[k]] && es'[k].slot == order'[k]
    {
      if k > 0 {
        assert es[k - 1] == held[order[k - 1]] && es[k - 1].slot == order[k - 1];
      }
    }
  }

  /** The recency list determines the slots' contents, their order and the map. */
  lemma {:induction false} SameLedger(cap: nat, index: map<FlowKey, nat>, held: seq<Entry>, order: seq<nat>,
                                      index': map<FlowKey, nat>, held': seq<Entry>, order': seq<nat>,
                                      entries: seq<Entry>)
    requires Ledger(cap, index, held, order, entries) && Ledger(cap, index', held', order', entries)
    ensures index == index' && held == held' && order == order'
  {
    forall i | 0 <= i < |held| ensures held[i] == held'[i] {
      var k := EverySlotIsListed(cap, entries, i);
      assert order[k] == i && order'[k] == i;
    }
    forall k | 0 <= k < |order| ensures order[k] == order'[k] {
      assert entries[k] == held[order[k]] == held'[order'[k]];
    }
    assert held == held';
    forall key ensures key in index ==> key in index' && index'[key] == index[key] {
      if key in index {
        assert held[index[key]].key == key;
      }
    }
    forall key | key in index' ensures key in index {
      assert held[index'[key]].key == key;
    }
  }

  /** Which slot a packet goes to and what the slots hold afterwards. */
  lemma {:induction false} HeldAfterStep(cap: nat, index: map<FlowKey, nat>, held: seq<Entry>, order: seq<nat>,
                                         es: seq<Entry>, e: PacketEvent, index': map<FlowKey, nat>,
                                         held': seq<Entry>, order': seq<nat>)
    requires Ledger(cap, index, held, order, es) && Distinct(order) && cap >= 1
    requires Ledger(cap, index', held', order', Step(cap, es, e))
    ensures e.Key() in index'
    ensures var idx := index'[e.Key()];
            if e.Key() in index then idx < |held| && held' == held[idx := Touched(held[idx], e)]
            else if |held| >= cap then idx < |held| && held' == held[idx := Admitted(idx, e)]
            else idx == |held| && held' == held + [Admitted(idx, e)]
  {
    hide Ledger, Step, Distinct;
    var next := Step(cap, es, e);
    LedgerSizes(cap, index, held, order, es);
    if e.Key() in index {
      LedgerTouch(cap, index, held, order, es, e);
      var idx := index[e.Key()];
      SameLedger(cap, index, held[idx := Touched(held[idx], e)], [idx] + Without(order, Find(es, e.Key())),
                 index', held', order', next);
    } else if |held| >= cap {
      LedgerRecycle(cap, index, held, order, es, e);
      var k := |order| - 1;
      var idx := order[k];
      SameLedger(cap, (index - {held[idx].key})[e.Key() := idx], held[idx := Admitted(idx, e)],
                 [idx] + Without(order, k), index', held', order', next);
    } else {
      LedgerInsert(cap, index, held, order, es, e);
      SameLedger(cap, index[e.Key() := |held|], held + [Admitted(|held|, e)], [|held|] + order,
                 index', held', order', next);
    }
  }

  /** A slot outside the list is free to change, and new slots may be added. */
  lemma OutsideTheList(slab: seq<LruNode>, after: seq<LruNode>, order: seq<nat>, idx: nat)
    requires ListOf(Prevs(slab), Nexts(slab), order) && |slab| <= |after| && idx !in order
    requires forall i :: 0 <= i < |slab| && i != idx ==> after[i] == slab[i]
    ensures ListOf(Prevs(after), Nexts(after), order)
  {
    forall k | 0 <= k < |order|
      ensures Prevs(after)[order[k]] == Prevs(slab)[order[k]] && Nexts(after)[order[k]] == Nexts(slab)[order[k]]
    {
      assert order[k] != idx && after[order[k]] == slab[order[k]];
    }
  }

  function WithNext(slab: seq<LruNode>, at: Option<nat>, link: Option<nat>): (s: seq<LruNode>)
    ensures |s| == |slab|
  {
    if at.Some? && at.value < |slab| then slab[at.value := slab[at.value].(next := link)] else slab
  }

  function WithPrev(slab: seq<LruNode>, at: Option<nat>, link: Option<nat>): (s: seq<LruNode>)
    ensures |s| == |slab|
  {
    if at.Some? && at.value < |slab| then slab[at.value := slab[at.value].(prev := link)] else slab
  }

  /** The slab after unlinking a node: its neighbours point past it, and it points nowhere. */
  function Spliced(slab: seq<LruNode>, idx: nat): seq<LruNode>
    requires idx < |slab|
  {
    var prev, next := slab[idx].prev, slab[idx].next;
    var s := WithPrev(WithNext(slab, prev, next), next, prev);
    WithNext(WithPrev(s, Some(idx), None), Some(idx), None)
  }

  lemma SpliceKeepsList(slab: seq<LruNode>, order: seq<nat>, k: nat)
    requires ListOf(Prevs(slab), Nexts(slab), order) && k < |order|
    ensures var idx := order[k]; var s := Spliced(slab, idx); var o := Without(order, k);
            && ListOf(Prevs(s), Nexts(s), o) && idx !in o && SameNodes(s, slab)
            && (slab[idx].prev.Some? ==> slab[idx].prev.value < |slab|)
            && (slab[idx].next.Some? ==> slab[idx].next.value < |slab|)
            && Link(o, 0) == (if slab[idx].prev.Some? then Link(order, 0) else slab[idx].next)
            && Link(o, |o| - 1) == (if slab[idx].next.Some? then Link(order, |order| - 1) else slab[idx].prev)
  {
    var idx := order[k];
    var ps, ns := Prevs(slab), Nexts(slab);
    Unlinked(ps, ns, order, k);
    WithoutIsDistinct(order, k);
    EndsWithout(order, k);
    SplicedColumns(slab, idx);
  }

  lemma SplicedColumns(slab: seq<LruNode>, idx: nat)
    requires idx < |slab|
    ensures var s, ps, ns := Spliced(slab, idx), Prevs(slab), Nexts(slab);
            && Prevs(s) == SetLink(ps, ns[idx], ps[idx])[idx := None]
            && Nexts(s) == SetLink(ns, ps[idx], ns[idx])[idx := None]
            && SameNodes(s, slab)
  {
  }

  lemma ListIsDistinct(prevs: Links, nexts: Links, order: seq<nat>)
    requires ListOf(prevs, nexts, order)
    ensures Distinct(order)
    ensures forall k :: 0 <= k < |order| ==> order[k] < |prevs|
  {
  }

  lemma NextSlotIsFree(prevs: Links, nexts: Links, order: seq<nat>)
    requires ListOf(prevs, nexts, order)
    ensures |prevs| !in order
  {
  }

  lemma FrontIsFirst(order: seq<nat>, k: nat)
    requires Distinct(order) && k < |order| && order[k] == order[0]
    ensures [order[k]] + Without(order, k) == order
  {
  }

  /** Map and slab are in bijection: each slot's key maps to the slot, and nothing else is in the map. */
  ghost predicate Indexes(index: map<FlowKey, nat>, held: seq<Entry>) {
    && (forall i {:trigger held[i].key} :: 0 <= i < |held| ==> held[i].key in index && index[held[i].key] == i)
    && (forall key :: key in index ==> index[key] < |held| && held[index[key]].key == key)
  }

  /** Follow next (or prev) links for a number of steps. */
  function Walk(links: Links, at: Option<nat>, steps: nat): Option<nat>
    decreases steps
  {
    if steps == 0 || at.None? || at.value >= |links| then at else Walk(links, links[at.value], steps - 1)
  }

  /** Walking next from the head visits the slots of order one by one and then stops; walking prev from the tail
      visits them backwards. */
  lemma {:induction false} WalkVisitsOrder(prevs: Links, nexts: Links, order: seq<nat>, from: nat, steps: nat)
    requires ListOf(prevs, nexts, order) && from <= |order|
    ensures Walk(nexts, Link(order, from), steps) == Link(order, from + steps)
    ensures Walk(prevs, Link(order, from - 1), steps) == Link(order, from - 1 - steps)
    decreases steps
  {
    if steps > 0 {
      if from < |order| {
        assert nexts[order[from]] == Link(order, from + 1);
        WalkVisitsOrder(prevs, nexts, order, from + 1, steps - 1);
      }
      if from > 0 {
        assert prevs[order[from - 1]] == Link(order, from - 2);
        WalkVisitsOrder(prevs, nexts, order, from - 1, steps - 1);
      }
    }
  }

  class FlowTable {
    var index: map<FlowKey, nat>
    var slab: seq<LruNode>
    const capacity: nat
    var lruHead: Option<nat>
    var lruTail: Option<nat>

    /** Slots in recency order, what each slot holds, the same in recency order, and the objects owned. */
    ghost var order: seq<nat>
    ghost var held: seq<Entry>
    ghost var entries: seq<Entry>
    ghost var repr: set<object>

    /** Following next from lruHead, or prev from lruTail, visits exactly the slots of order. */
    ghost predicate Linked()
      reads this`slab, this`order, this`lruHead, this`lruTail
    {
      && ListOf(Prevs(slab), Nexts(slab), order)
      && lruHead == Link(order, 0)
      && lruTail == Link(order, |order| - 1)
    }

    /** No two slots share a state or a buffer. */
    ghost predicate Separated()
      reads this`slab, this`repr
    {
      && this !in repr
      && (forall i {:trigger slab[i].state} :: 0 <= i < |slab| ==>
            slab[i].state in repr && slab[i].state.buffer in repr)
      && (forall i, j {:trigger slab[i].state, slab[j].state} :: 0 <= i < j < |slab| ==>
            slab[i].state != slab[j].state && slab[i].state.buffer != slab[j].state.buffer)
    }

    /** held[i] is what slot i holds: its key, initiator and history, with a consistent state. */
    ghost predicate Contents()
      reads this`slab, this`repr, this`held, repr
    {
      && Separated()
      && |held| == |slab|
      && (forall i :: 0 <= i < |held| ==> held[i].slot == i)
      && (forall i {:trigger slab[i].key} {:trigger held[i].key} :: 0 <= i < |slab| ==> slab[i].key == held[i].key)
      && (forall i {:trigger slab[i].state} :: 0 <= i < |slab| ==>
            && slab[i].state.Valid()
            && slab[i].state.initiatorIp == held[i].initiator
            && slab[i].state.hist == held[i].hist)
    }

    ghost predicate Valid()
      reads this, repr
    {
      && Contents()
      && Linked()
      && Ledger(capacity, index, held, order, entries)
      && |slab| <= capacity
    }

    constructor (capacity: nat)
      ensures Valid() && fresh(repr)
      ensures this.capacity == capacity && entries == []
    {
      this.capacity := capacity;
      index, slab := map[], [];
      lruHead, lruTail := None, None;
      order, held, entries, repr := [], [], [], {};
    }

    method LinkLruHead(idx: nat)
      requires Linked() && idx < |slab| && idx !in order
      modifies this`slab, this`lruHead, this`lruTail, this`order
      ensures Linked() && order == [idx] + old(order) && SameNodes(slab, old(slab))
    {
      PushFront(Prevs(slab), Nexts(slab), order, idx);
      ghost var ps, ns := Prevs(slab), Nexts(slab);
      var oldHead := lruHead;
      slab := slab[idx := slab[idx].(prev := None)];
      slab := slab[idx := slab[idx].(next := oldHead)];
      if oldHead.Some? {
        var h := oldHead.value;
        slab := slab[h := slab[h].(prev := Some(idx))];
      } else {
        lruTail := Some(idx);
      }
      lruHead := Some(idx);
      order := [idx] + order;
      assert Prevs(slab) == SetLink(ps[idx := None], oldHead, Some(idx));
      assert Nexts(slab) == ns[idx := oldHead];
    }

    method UnlinkLru(idx: nat, ghost k: nat)
      requires Linked() && k < |order| && order[k] == idx
      modifies this`slab, this`lruHead, this`lruTail, this`order
      ensures Linked() && order == Without(old(order), k) && idx !in order && SameNodes(slab, old(slab))
    {
      SpliceKeepsList(slab, order, k);
      ghost var spliced := Spliced(slab, idx);
      var prev, next := slab[idx].prev, slab[idx].next;
      if prev.Some? {
        var p := prev.value;
        slab := slab[p := slab[p].(next := next)];
      } else {
        lruHead := next;
      }
      if next.Some? {
        var n := next.value;
        slab := slab[n := slab[n].(prev := prev)];
      } else {
        lruTail := prev;
      }
      slab := slab[idx := slab[idx].(prev := None)];
      slab := slab[idx := slab[idx].(next := None)];
      order := Without(order, k);
      assert slab == spliced;
    }

    method PromoteLru(idx: nat, ghost k: nat)
      requires Linked() && k < |order| && order[k] == idx
      modifies this`slab, this`lruHead, this`lruTail, this`order
      ensures Linked() && order == [idx] + Without(old(order), k) && SameNodes(slab, old(slab))
    {
      if Some(idx) == lruHead {
        FrontIsFirst(order, k);
        return;
      }
      UnlinkLru(idx, k);
      LinkLruHead(idx);
    }

    /** Feed a packet to the state in one slot; the other slots keep what they hold. */
    method Ingest(idx: nat, direction: Direction, event: PacketEvent)
      requires Contents() && idx < |slab|
      modifies slab[idx].state, slab[idx].state.buffer, this`held
      ensures Contents()
      ensures var en := old(held)[idx];
              held == old(held)[idx := en.(hist :=
                en.hist + [Summarize(event.timestamp, event.len, direction, event.tcpFlags)])]
      ensures unchanged(this`slab, this`order, this`index, this`entries, this`repr, this`lruHead, this`lruTail)
    {
      hide FlowState.Valid;
      var state := slab[idx].state;
      state.Update(event.timestamp, event.len, direction, event.tcpFlags);
      held := held[idx := held[idx].(hist := state.hist)];
    }

    /** First branch of process_packet: the flow exists. */
    method TouchSlot(idx: nat, event: PacketEvent, ghost k: nat)
      requires Contents() && Linked() && k < |order| && order[k] == idx
      modifies this`slab, this`lruHead, this`lruTail, this`order, this`held, repr
      ensures Contents() && Linked() && order == [idx] + Without(old(order), k)
      ensures |slab| == old(|slab|) && held == old(held)[idx := Touched(old(held)[idx], event)]
      ensures unchanged(this`index, this`entries, this`repr)
    {
      hide FlowState.Valid;
      PromoteLru(idx, k);
      assert Contents();
      var direction := if event.srcIp == slab[idx].state.initiatorIp then Forward else Backward;
      Ingest(idx, direction, event);
    }

    /** evict_node: the slot stays in the slab, out of the map and out of the list. */
    method EvictNode(idx: nat, ghost k: nat)
      requires Linked() && k < |order| && order[k] == idx
      modifies this`index, this`slab, this`lruHead, this`lruTail, this`order
      ensures index == old(index) - {old(slab)[idx].key}
      ensures Linked() && order == Without(old(order), k) && idx !in order && SameNodes(slab, old(slab))
    {
      index := index - {slab[idx].key};
      UnlinkLru(idx, k);
    }

    /** Recycling in place: the node and its ring buffer are reused, stale packets included. */
    method ResetSlot(idx: nat, event: PacketEvent)
      requires Contents() && Linked() && idx < |slab| && idx !in order
      modifies this`slab, this`held, slab[idx].state
      ensures Contents() && Linked()
      ensures |slab| == old(|slab|) && held == old(held)[idx := Entry(idx, event.Key(), event.srcIp, [])]
      ensures unchanged(this`index, this`entries, this`order, this`repr)
    {
      hide FlowState.Valid, ListOf;
      ghost var before := slab;
      slab := slab[idx := slab[idx].(key := event.Key())];
      slab[idx].state.Reset(event.srcIp);
      slab := slab[idx := slab[idx].(prev := None, next := None)];
      held := held[idx := Entry(idx, event.Key(), event.srcIp, [])];
      assert forall i {:trigger slab[i].state} :: 0 <= i < |slab| ==> slab[i].state == before[i].state;
      OutsideTheList(before, slab, order, idx);
    }

    /** Recycling by overwriting the slot with a node that has a state of its own. */
    method OverwriteSlot(idx: nat, event: PacketEvent)
      requires Contents() && Linked() && idx < |slab| && idx !in order
      modifies this`slab, this`held, this`repr
      ensures Contents() && Linked() && old(repr) <= repr && fresh(repr - old(repr))
      ensures |slab| == old(|slab|) && held == old(held)[idx := Entry(idx, event.Key(), event.srcIp, [])]
      ensures unchanged(this`index, this`entries, this`order)
    {
      hide FlowState.Valid, ListOf;
      ghost var before := slab;
      var state := new FlowState(event.srcIp);
      slab := slab[idx := LruNode(event.Key(), state, None, None)];
      repr := repr + {state, state.buffer};
      held := held[idx := Entry(idx, event.Key(), event.srcIp, [])];
      assert forall i {:trigger slab[i].state} :: 0 <= i < |slab| && i != idx ==> slab[i].state == before[i].state;
      OutsideTheList(before, slab, order, idx);
    }

    /** A vacant slab slot is always the next one: nothing is ever removed from the slab. */
    method AppendSlot(event: PacketEvent) returns (idx: nat)
      requires Contents() && Linked()
      modifies this`slab, this`held, this`repr
      ensures Contents() && Linked() && old(repr) <= repr && fresh(repr - old(repr))
      ensures idx == old(|slab|) == |slab| - 1 && idx !in order
      ensures held == old(held) + [Entry(idx, event.Key(), event.srcIp, [])]
      ensures unchanged(this`index, this`entries, this`order)
    {
      hide FlowState.Valid, ListOf;
      NextSlotIsFree(Prevs(slab), Nexts(slab), order);
      ghost var before := slab;
      idx := |slab|;
      var state := new FlowState(event.srcIp);
      slab := slab + [LruNode(event.Key(), state, None, None)];
      repr := repr + {state, state.buffer};
      held := held + [Entry(idx, event.Key(), event.srcIp, [])];
      assert forall i {:trigger slab[i].state} :: 0 <= i < idx ==> slab[i].state == before[i].state;
      OutsideTheList(before, slab, order, idx);
    }

    /** The first packet of a flow in its slot, and the front of the list. */
    method FillSlot(idx: nat, event: PacketEvent)
      requires Contents() && Linked() && idx < |slab| && idx !in order
      requires held[idx] == Entry(idx, event.Key(), event.srcIp, [])
      modifies this`slab, this`held, this`lruHead, this`lruTail, this`order, repr
      ensures Contents() && Linked() && order == [idx] + old(order)
      ensures |slab| == old(|slab|) && held == old(held)[idx := Admitted(idx, event)]
      ensures unchanged(this`index, this`entries, this`repr)
    {
      hide FlowState.Valid, ListOf;
      Ingest(idx, Forward, event);
      var first := Summarize(event.timestamp, event.len, Forward, event.tcpFlags);
      assert [] + [first] == [first] == Admitted(idx, event).hist;
      ghost var before := slab;
      LinkLruHead(idx);
      assert forall i {:trigger slab[i].state} :: 0 <= i < |slab| ==> slab[i].state == before[i].state;
    }

    // Each branch ends in a consistent table whose recency list is next, which the ledger lemmas supply.

    method FinishTouch(idx: nat, event: PacketEvent, ghost k: nat, ghost next: seq<Entry>)
      requires Valid() && k < |order| && order[k] == idx
      requires Ledger(capacity, index, held[idx := Touched(held[idx], event)], [idx] + Without(order, k), next)
      modifies this, repr
      ensures Valid() && repr == old(repr) && entries == next && Link(order, 0) == Some(idx)
    {
      hide FlowState.Valid, ListOf, Ledger;
      TouchSlot(idx, event, k);
      entries := next;
    }

    method FinishAdmission(idx: nat, event: PacketEvent, ghost next: seq<Entry>)
      requires Contents() && Linked() && idx < |slab| <= capacity && idx !in order
      requires held[idx] == Entry(idx, event.Key(), event.srcIp, [])
      requires Ledger(capacity, index[event.Key() := idx], held[idx := Admitted(idx, event)], [idx] + order, next)
      modifies this, repr
      ensures Valid() && repr == old(repr) && entries == next && Link(order, 0) == Some(idx)
    {
      hide FlowState.Valid, ListOf, Ledger;
      FillSlot(idx, event);
      index := index[event.Key() := idx];
      entries := next;
    }

    /** Evict the flow in a slot and prepare the slot for a new one, in one of the two ways. */
    method EvictAndReuse(idx: nat, event: PacketEvent, overwrite: bool, ghost k: nat)
      requires Contents() && Linked() && k < |order| && order[k] == idx
      modifies this`index, this`slab, this`held, this`lruHead, this`lruTail, this`order, this`repr, repr
      ensures Contents() && Linked() && idx < |slab| == old(|slab|)
      ensures order == Without(old(order), k) && idx !in order
      ensures index == old(index) - {old(held)[idx].key}
      ensures held == old(held)[idx := Entry(idx, event.Key(), event.srcIp, [])]
      ensures old(repr) <= repr && fresh(repr - old(repr))
    {
      hide FlowState.Valid;
      assert slab[idx].state.Valid();
      EvictNode(idx, k);
      assert Contents();
      if overwrite {
        OverwriteSlot(idx, event);
      } else {
        ResetSlot(idx, event);
      }
    }

    method UpdateResident(event: PacketEvent) returns (idx: nat)
      requires Valid() && event.Key() in index
      modifies this, repr
      ensures Valid() && repr == old(repr)
      ensures capacity >= 1 && entries == Step(capacity, old(entries), event) && Link(order, 0) == Some(idx)
    {
      hide FlowState.Valid, ListOf, Ledger, Distinct, Step;
      ListIsDistinct(Prevs(slab), Nexts(slab), order);
      LedgerTouch(capacity, index, held, order, entries, event);
      idx := index[event.Key()];
      FinishTouch(idx, event, Find(entries, event.Key()), Step(capacity, entries, event));
    }

    method InsertFlow(event: PacketEvent) returns (idx: nat)
      requires Valid() && event.Key() !in index && |slab| < capacity
      modifies this, repr
      ensures Valid() && fresh(repr - old(repr))
      ensures entries == Step(capacity, old(entries), event) && Link(order, 0) == Some(idx)
    {
      hide FlowState.Valid, ListOf, Ledger, Distinct, Step;
      LedgerInsert(capacity, index, held, order, entries, event);
      ghost var next, heldAfter := Step(capacity, entries, event), held + [Admitted(|held|, event)];
      idx := AppendSlot(event);
      assert held[idx := Admitted(idx, event)] == heldAfter;
      FinishAdmission(idx, event, next);
    }

    method RecycleFlow(event: PacketEvent, overwrite: bool) returns (idx: nat)
      requires Valid() && event.Key() !in index && |slab| >= capacity && lruTail.Some?
      modifies this, repr
      ensures Valid() && fresh(repr - old(repr))
      ensures capacity >= 1 && entries == Step(capacity, old(entries), event) && Link(order, 0) == Some(idx)
    {
      hide FlowState.Valid, ListOf, Ledger, Distinct, Step;
      ListIsDistinct(Prevs(slab), Nexts(slab), order);
      LedgerRecycle(capacity, index, held, order, entries, event);
      idx := lruTail.value;
      ghost var next, heldAfter := Step(capacity, entries, event), held[idx := Admitted(idx, event)];
      EvictAndReuse(idx, event, overwrite, |order| - 1);
      assert held[idx := Admitted(idx, event)] == heldAfter;
      FinishAdmission(idx, event, next);
    }

    /** compute_metrics on the flow at the front. */
    method Report(idx: nat) returns (m: FlowMetrics)
      requires Valid() && Link(order, 0) == Some(idx)
      ensures Valid() && entries != [] && m == Front(entries).Metrics()
      ensures unchanged(this)
    {
      hide FlowState.Valid, ListOf;
      ListIsDistinct(Prevs(slab), Nexts(slab), order);
      assert slab[idx].state.Valid();
      m := slab[idx].state.ComputeMetrics(slab[idx].key);
    }

    /** process_packet: overwrite selects the second implementation, which puts a node with a new state into the
        evicted slot instead of resetting the one there. None stands for the panic of expect, which only a table
        of capacity 0 reaches. */
    method ProcessPacket(event: PacketEvent, overwrite: bool) returns (r: Option<FlowMetrics>)
      requires Valid()
      modifies this, repr
      ensures Valid() && fresh(repr - old(repr))
      ensures r.None? <==> capacity == 0
      ensures capacity == 0 ==> entries == old(entries) == []
      ensures capacity > 0 ==> entries == Step(capacity, old(entries), event) && r == Some(Front(entries).Metrics())
    {
      hide FlowState.Valid, ListOf, Ledger, Step;
      LedgerSizes(capacity, index, held, order, entries);
      var slabIdx;
      if event.Key() in index {
        slabIdx := UpdateResident(event);
      } else if |slab| >= capacity {
        if lruTail.None? {
          return None;
        }
        slabIdx := RecycleFlow(event, overwrite);
      } else {
        slabIdx := InsertFlow(event);
      }
      var m := Report(slabIdx);
      return Some(m);
    }
  }
}
