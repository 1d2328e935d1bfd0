/** The lazily expiring blocklist shared by the inference thread and the /check handler
    (src/main.rs:525-544, src/mitigation/nginx.rs:73-128). */
module Blocklists {
  import opened Packets

  type Listing = map<IpAddr, nat>

  /** Every anomalous verdict (re)lists the address; a normal one removes it. */
  function AfterVerdict(list: Listing, ip: IpAddr, anomalous: bool, now: nat): Listing {
    if anomalous then list[ip := now] else list - {ip}
  }

  predicate Expired(list: Listing, ip: IpAddr, now: nat, ttl: nat) {
    ip in list && now - list[ip] >= ttl
  }

  predicate Blocked(list: Listing, ip: IpAddr, now: nat, ttl: nat) {
    ip in list && now - list[ip] < ttl
  }

  function AfterCheck(list: Listing, ip: IpAddr, now: nat, ttl: nat): Listing {
    if Expired(list, ip, now, ttl) then list - {ip} else list
  }

  class Mitigation {
    var blocklist: Listing

    constructor ()
      ensures blocklist == map[]
    {
      blocklist := map[];
    }

    /** The inference thread's part for one scored flow window. */
    method RecordVerdict(ip: IpAddr, anomalous: bool, now: nat)
      modifies this
      ensures blocklist == AfterVerdict(old(blocklist), ip, anomalous, now)
    {
      if anomalous {
        blocklist := blocklist[ip := now];
      } else if ip in blocklist {
        blocklist := blocklist - {ip};
      }
    }

    /** The /check handler: detected is the anomaly header, forbidden the 403 answer. */
    method Check(ip: IpAddr, now: nat, ttl: nat, mitigate: bool) returns (detected: bool, forbidden: bool)
      modifies this
      ensures detected == Blocked(old(blocklist), ip, now, ttl)
      ensures forbidden <==> detected && mitigate
      ensures blocklist == AfterCheck(old(blocklist), ip, now, ttl)
    {
      if ip in blocklist {
        if now - blocklist[ip] < ttl {
          detected := true;
        } else {
          blocklist := blocklist - {ip};
          detected := false;
        }
      } else {
        detected := false;
      }
      forbidden := detected && mitigate;
    }
  }

  // ---------- interleavings ----------

  /** Check is a /check whose lookup and lazy removal happen together. In Lookup and Remove they are two steps,
      between which the inference thread may run: the lookup's lock is released before the removal. */
  datatype Event =
    | Tick(elapsed: nat)
    | SetTtl(ttl: nat)
    | Verdict(ip: IpAddr, anomalous: bool)
    | Check(ip: IpAddr)
    | Lookup(ip: IpAddr)
    | Remove

  /** doomed is the address the handler found expired and is about to remove. */
  datatype State = State(list: Listing, now: nat, ttl: nat, doomed: Option<IpAddr>)

  function Next(s: State, e: Event): State {
    match e
    case Tick(d) => s.(now := s.now + d)
    case SetTtl(ttl) => s.(ttl := ttl)
    case Verdict(ip, anomalous) => s.(list := AfterVerdict(s.list, ip, anomalous, s.now))
    case Check(ip) => s.(list := AfterCheck(s.list, ip, s.now, s.ttl))
    case Lookup(ip) => s.(doomed := if Expired(s.list, ip, s.now, s.ttl) then Some(ip) else None)
    case Remove => if s.doomed.Some? then s.(list := s.list - {s.doomed.value}, doomed := None) else s
  }

  function Run(ttl: nat, trace: seq<Event>): State {
    if trace == [] then State(map[], 0, ttl, None)
    else Next(Run(ttl, trace[..|trace| - 1]), trace[|trace| - 1])
  }

  // ---------- what the log alone tells ----------

  /** Seconds passed in a log. */
  function Clock(log: seq<Event>): nat {
    if log == [] then 0
    else Clock(log[..|log| - 1]) + (if log[|log| - 1].Tick? then log[|log| - 1].elapsed else 0)
  }

  /** The configured TTL after a log. */
  function TtlAfter(ttl: nat, log: seq<Event>): nat {
    if log == [] then ttl
    else if log[|log| - 1].SetTtl? then log[|log| - 1].ttl
    else TtlAfter(ttl, log[..|log| - 1])
  }

  /** Index of the last verdict on an address, or -1. */
  function LastVerdict(trace: seq<Event>, ip: IpAddr): (v: int)
    ensures -1 <= v < |trace|
    ensures v >= 0 ==> trace[v].Verdict? && trace[v].ip == ip
    ensures forall i :: v < i < |trace| && trace[i].Verdict? ==> trace[i].ip != ip
  {
    if trace == [] then -1
    else
      var e := trace[|trace| - 1];
      if e.Verdict? && e.ip == ip then |trace| - 1 else LastVerdict(trace[..|trace| - 1], ip)
  }

  ghost predicate LastSaysAnomalous(trace: seq<Event>, ip: IpAddr) {
    LastVerdict(trace, ip) >= 0 && trace[LastVerdict(trace, ip)].anomalous
  }

  /** Index of the lookup whose removal is still to come, or -1. */
  function Pending(log: seq<Event>): (j: int)
    ensures -1 <= j < |log|
    ensures j >= 0 ==> log[j].Lookup? && forall i :: j < i < |log| ==> !log[i].Lookup? && !log[i].Remove?
  {
    if log == [] then -1
    else
      var e := log[|log| - 1];
      if e.Lookup? then |log| - 1 else if e.Remove? then -1 else Pending(log[..|log| - 1])
  }

  /** At the end of the log, the verdict at index v is at least a TTL old. */
  predicate Outdated(ttl: nat, log: seq<Event>, v: nat)
    requires v <= |log|
  {
    Clock(log) - Clock(log[..v]) >= TtlAfter(ttl, log)
  }

  /** After the past, a /check finds the verdict at v outdated. */
  predicate CheckedLate(ttl: nat, past: seq<Event>, e: Event, v: nat, ip: IpAddr)
    requires v <= |past|
  {
    e == Check(ip) && Outdated(ttl, past, v)
  }

  /** After the past, a removal completes whose lookup came after the verdict at v and found it outdated. */
  predicate RemovedLate(ttl: nat, past: seq<Event>, e: Event, v: nat, ip: IpAddr)
    requires v <= |past|
  {
    var j := Pending(past);
    e == Remove && j >= v && past[j] == Lookup(ip) && Outdated(ttl, past[..j], v)
  }

  /** After the past, a removal completes whose lookup came before the verdict at v and found an outdated
      listing: the new verdict overtook it. */
  ghost predicate Overtaken(ttl: nat, past: seq<Event>, e: Event, v: nat, ip: IpAddr)
    decreases |past|, 0
  {
    var j := Pending(past);
    && e == Remove && 0 <= j < v && past[j] == Lookup(ip)
    && LogLists(ttl, past[..j], ip) && Outdated(ttl, past[..j], LastVerdict(past[..j], ip))
  }

  ghost predicate Forgets(ttl: nat, past: seq<Event>, e: Event, v: nat, ip: IpAddr)
    requires v <= |past|
    decreases |past|, 1
  {
    CheckedLate(ttl, past, e, v, ip) || RemovedLate(ttl, past, e, v, ip) || Overtaken(ttl, past, e, v, ip)
  }

  /** Some event of the log after the verdict at v forgets the address. */
  ghost predicate Forgotten(ttl: nat, log: seq<Event>, v: nat, ip: IpAddr)
    decreases |log|, 0
  {
    exists i {:trigger log[i]} :: v < i < |log| && Forgets(ttl, log[..i], log[i], v, ip)
  }

  /** The log says that the address is listed. */
  ghost predicate LogLists(ttl: nat, log: seq<Event>, ip: IpAddr)
    decreases |log|, 1
  {
    LastSaysAnomalous(log, ip) && !Forgotten(ttl, log, LastVerdict(log, ip), ip)
  }

  lemma {:induction false} RunAppend(ttl: nat, log: seq<Event>, e: Event)
    ensures Run(ttl, log + [e]) == Next(Run(ttl, log), e)
  {
    assert (log + [e])[..|log|] == log;
  }

  lemma {:induction false} LastVerdictAppend(log: seq<Event>, e: Event, ip: IpAddr)
    ensures LastVerdict(log + [e], ip) == if e.Verdict? && e.ip == ip then |log| else LastVerdict(log, ip)
  {
    assert (log + [e])[..|log|] == log;
  }

  /** Clock and TTL of the state are those of the log. */
  lemma {:induction false} LogTellsTime(ttl: nat, log: seq<Event>)
    ensures Run(ttl, log).now == Clock(log) && Run(ttl, log).ttl == TtlAfter(ttl, log)
  {
    if log != [] {
      LogTellsTime(ttl, log[..|log| - 1]);
    }
  }

  /** The address about to be removed is the one that the pending lookup found expired. */
  lemma {:induction false} DoomedIff(ttl: nat, log: seq<Event>, ip: IpAddr)
    ensures var j := Pending(log);
            Run(ttl, log).doomed == Some(ip) <==>
            && j >= 0 && log[j] == Lookup(ip)
            && var s := Run(ttl, log[..j]); Expired(s.list, ip, s.now, s.ttl)
  {
    if log != [] {
      var prev, e := log[..|log| - 1], log[|log| - 1];
      DoomedIff(ttl, prev, ip);
      assert log[..|log| - 1] == prev;
      if !e.Lookup? && !e.Remove? && Pending(prev) >= 0 {
        assert log[..Pending(prev)] == prev[..Pending(prev)];
      }
    }
  }

  lemma {:induction false} LastVerdictOfPrefix(log: seq<Event>, i: nat, ip: IpAddr)
    requires LastVerdict(log, ip) < i <= |log|
    ensures LastVerdict(log[..i], ip) == LastVerdict(log, ip)
  {
    if i == |log| {
      assert log[..i] == log;
    } else {
      LastVerdictOfPrefix(log[..|log| - 1], i, ip);
      assert log[..|log| - 1][..i] == log[..i];
    }
  }

  lemma {:induction false} ForgottenAppend(ttl: nat, log: seq<Event>, e: Event, v: nat, ip: IpAddr)
    requires v < |log|
    ensures Forgotten(ttl, log + [e], v, ip) <==> Forgotten(ttl, log, v, ip) || Forgets(ttl, log, e, v, ip)
  {
    hide Forgets;
    var next := log + [e];
    assert next[..|log|] == log && next[|log|] == e;
    forall i | v < i < |log| ensures next[..i] == log[..i] && next[i] == log[i] {
    }
    if Forgotten(ttl, log, v, ip) {
      var i :| v < i < |log| && Forgets(ttl, log[..i], log[i], v, ip);
      assert Forgets(ttl, next[..i], next[i], v, ip);
    }
    if Forgotten(ttl, next, v, ip) {
      var i :| v < i < |next| && Forgets(ttl, next[..i], next[i], v, ip);
      assert i < |log| ==> Forgets(ttl, log[..i], log[i], v, ip);
    }
  }

  lemma {:induction false} ForgottenLater(ttl: nat, log: seq<Event>, j: nat, v: nat, ip: IpAddr)
    requires v < j <= |log| && Forgotten(ttl, log[..j], v, ip)
    ensures Forgotten(ttl, log, v, ip)
  {
    hide Forgets;
    var i :| v < i < j && Forgets(ttl, log[..j][..i], log[..j][i], v, ip);
    assert log[..j][..i] == log[..i] && log[..j][i] == log[i];
  }

  /** The list holds the address exactly when the log says so, with the time of its last verdict. */
  ghost predicate Agree(ttl: nat, log: seq<Event>, ip: IpAddr) {
    var list, v := Run(ttl, log).list, LastVerdict(log, ip);
    && (ip in list <==> LogLists(ttl, log, ip))
    && (ip in list ==> v >= 0 && list[ip] == Clock(log[..v]))
  }

  /** List and log agree after any interleaving. */
  lemma {:induction false} ListedIff(ttl: nat, log: seq<Event>, ip: IpAddr)
    ensures Agree(ttl, log, ip)
    decreases |log|
  {
    if log == [] {
    } else {
      var prev, e := log[..|log| - 1], log[|log| - 1];
      assert log == prev + [e];
      ListedIff(ttl, prev, ip);
      if e == Remove && Pending(prev) >= 0 {
        ListedIff(ttl, prev[..Pending(prev)], ip);
      }
      ListedStep(ttl, prev, e, ip);
    }
  }

  /** When the address is listed, the event that takes it off is the one the log recognises. */
  lemma {:induction false} ForgetsIff(ttl: nat, log: seq<Event>, e: Event, ip: IpAddr)
    requires Agree(ttl, log, ip) && LogLists(ttl, log, ip) && !(e.Verdict? && e.ip == ip)
    requires e == Remove && Pending(log) >= 0 ==> Agree(ttl, log[..Pending(log)], ip)
    ensures ip !in Next(Run(ttl, log), e).list <==> Forgets(ttl, log, e, LastVerdict(log, ip), ip)
  {
    hide Run, Clock, TtlAfter, LastVerdict, Forgotten, Pending;
    LogTellsTime(ttl, log);
    if e == Remove {
      DoomedIff(ttl, log, ip);
      var j, v := Pending(log), LastVerdict(log, ip);
      if j >= 0 {
        LogTellsTime(ttl, log[..j]);
        if v < j {
          LastVerdictOfPrefix(log, j, ip);
          assert log[..j][..v] == log[..v];
          if Forgotten(ttl, log[..j], v, ip) {
            ForgottenLater(ttl, log, j, v, ip);
          }
        }
      }
    }
  }

  lemma {:induction false} ListedStep(ttl: nat, prev: seq<Event>, e: Event, ip: IpAddr)
    requires Agree(ttl, prev, ip)
    requires e == Remove && Pending(prev) >= 0 ==> Agree(ttl, prev[..Pending(prev)], ip)
    ensures Agree(ttl, prev + [e], ip)
  {
    hide Run, Clock, TtlAfter, LastVerdict, Forgotten, Forgets, Pending;
    var log, v := prev + [e], LastVerdict(prev, ip);
    RunAppend(ttl, prev, e);
    LastVerdictAppend(prev, e, ip);
    LogTellsTime(ttl, prev);
    assert log[..|prev|] == prev && log[|prev|] == e;
    if e.Verdict? && e.ip == ip {
      NothingForgottenYet(ttl, log, |prev|, ip);
    } else if v >= 0 {
      assert log[..v] == prev[..v] && log[v] == prev[v];
      ForgottenAppend(ttl, prev, e, v, ip);
      if LogLists(ttl, prev, ip) {
        ForgetsIff(ttl, prev, e, ip);
      }
    }
  }

  lemma NothingForgottenYet(ttl: nat, log: seq<Event>, v: nat, ip: IpAddr)
    requires v + 1 == |log|
    ensures !Forgotten(ttl, log, v, ip)
  {
  }

  /** What /check answers after a log. */
  predicate Answer(ttl: nat, log: seq<Event>, ip: IpAddr) {
    var s := Run(ttl, log);
    Blocked(s.list, ip, s.now, s.ttl)
  }

  ghost predicate RecentlyAnomalous(ttl: nat, log: seq<Event>, ip: IpAddr) {
    LastSaysAnomalous(log, ip) && !Outdated(ttl, log, LastVerdict(log, ip))
  }

  /** The exact answer in every interleaving and under every TTL history, from the log alone: blocked iff the last
      verdict is anomalous, younger than the TTL, and not forgotten. */
  lemma {:induction false} BlockedIff(ttl: nat, log: seq<Event>, ip: IpAddr)
    ensures Answer(ttl, log, ip) <==>
            RecentlyAnomalous(ttl, log, ip) && !Forgotten(ttl, log, LastVerdict(log, ip), ip)
  {
    ListedIff(ttl, log, ip);
    LogTellsTime(ttl, log);
  }

  /** With atomic checks the only way to lose a recent anomalous verdict is a check that found it outdated under
      the TTL of its time, which a later, longer TTL does not undo. */
  lemma {:induction false} AtomicBlockedIff(ttl: nat, log: seq<Event>, ip: IpAddr)
    requires forall i :: 0 <= i < |log| ==> !log[i].Lookup? && !log[i].Remove?
    ensures Answer(ttl, log, ip) <==>
            && RecentlyAnomalous(ttl, log, ip)
            && var v := LastVerdict(log, ip);
               !exists i :: v < i < |log| && CheckedLate(ttl, log[..i], log[i], v, ip)
  {
    BlockedIff(ttl, log, ip);
    var v := LastVerdict(log, ip);
    if v >= 0 {
      forall i | v < i < |log|
        ensures Forgets(ttl, log[..i], log[i], v, ip) <==> CheckedLate(ttl, log[..i], log[i], v, ip)
      {
        assert log[i] != Remove;
      }
    }
  }

  lemma {:induction false} ClockRuns(log: seq<Event>, i: nat)
    requires i <= |log|
    ensures Clock(log[..i]) <= Clock(log)
  {
    if i == |log| {
      assert log[..i] == log;
    } else {
      ClockRuns(log[..|log| - 1], i);
      assert log[..|log| - 1][..i] == log[..i];
    }
  }

  /** The TTL at the end is at most the TTL at any time before. */
  ghost predicate TtlNeverGrew(ttl: nat, log: seq<Event>) {
    forall i {:trigger log[..i]} :: 0 <= i <= |log| ==> TtlAfter(ttl, log) <= TtlAfter(ttl, log[..i])
  }

  lemma {:induction false} OutdatedStays(ttl: nat, log: seq<Event>, i: nat, v: nat)
    requires v <= i <= |log| && TtlNeverGrew(ttl, log) && Outdated(ttl, log[..i], v)
    ensures Outdated(ttl, log, v)
  {
    ClockRuns(log, i);
    assert log[..i][..v] == log[..v];
  }

  /** When the TTL never grew, the only way to lose a recent anomalous verdict is to overtake a removal. */
  lemma {:induction false} SplitBlockedIff(ttl: nat, log: seq<Event>, ip: IpAddr)
    requires TtlNeverGrew(ttl, log)
    ensures Answer(ttl, log, ip) <==>
            && RecentlyAnomalous(ttl, log, ip)
            && var v := LastVerdict(log, ip);
               !exists i :: v < i < |log| && Overtaken(ttl, log[..i], log[i], v, ip)
  {
    hide Overtaken, LastVerdict, Outdated, Pending, TtlNeverGrew;
    BlockedIff(ttl, log, ip);
    var v := LastVerdict(log, ip);
    if RecentlyAnomalous(ttl, log, ip) {
      forall i | v < i < |log|
        ensures Forgets(ttl, log[..i], log[i], v, ip) <==> Overtaken(ttl, log[..i], log[i], v, ip)
      {
        if CheckedLate(ttl, log[..i], log[i], v, ip) {
          OutdatedStays(ttl, log, i, v);
        }
        if RemovedLate(ttl, log[..i], log[i], v, ip) {
          var j := Pending(log[..i]);
          assert log[..i][..j] == log[..j];
          OutdatedStays(ttl, log, j, v);
        }
      }
    }
  }

  /** With both, /check blocks exactly the recently anomalous addresses. */
  lemma {:induction false} AtomicChecksAreExact(ttl: nat, log: seq<Event>, ip: IpAddr)
    requires forall i :: 0 <= i < |log| ==> !log[i].Lookup? && !log[i].Remove?
    requires TtlNeverGrew(ttl, log)
    ensures Answer(ttl, log, ip) <==> RecentlyAnomalous(ttl, log, ip)
  {
    hide LastVerdict, Pending, TtlNeverGrew;
    SplitBlockedIff(ttl, log, ip);
  }

  lemma {:induction false} TimeAppend(ttl: nat, log: seq<Event>, e: Event)
    ensures Clock(log + [e]) == Clock(log) + (if e.Tick? then e.elapsed else 0)
    ensures TtlAfter(ttl, log + [e]) == if e.SetTtl? then e.ttl else TtlAfter(ttl, log)
  {
    assert (log + [e])[..|log|] == log;
  }

  /** Appending one event, for the bookkeeping of concrete logs. */
  lemma {:induction false} Append(ttl: nat, log: seq<Event>, e: Event, ip: IpAddr) returns (next: seq<Event>)
    ensures next == log + [e] && Run(ttl, next) == Next(Run(ttl, log), e)
    ensures LastVerdict(next, ip) == if e.Verdict? && e.ip == ip then |log| else LastVerdict(log, ip)
    ensures Clock(next) == Clock(log) + (if e.Tick? then e.elapsed else 0)
    ensures TtlAfter(ttl, next) == if e.SetTtl? then e.ttl else TtlAfter(ttl, log)
  {
    next := log + [e];
    RunAppend(ttl, log, e);
    LastVerdictAppend(log, e, ip);
    TimeAppend(ttl, log, e);
  }

  /** Both ways to lose a verdict happen, whatever the TTL: a removal that overtakes a new verdict unlists an
      address just found anomalous... */
  lemma {:induction false} SplitCheckLosesVerdict(ttl: nat, ip: IpAddr)
    requires ttl > 0
    ensures var log := [Verdict(ip, true), Tick(ttl), Lookup(ip), Verdict(ip, true), Remove];
            TtlNeverGrew(ttl, log) && RecentlyAnomalous(ttl, log, ip) && !Answer(ttl, log, ip)
  {
    var l1 := Append(ttl, [], Verdict(ip, true), ip);
    var l2 := Append(ttl, l1, Tick(ttl), ip);
    var l3 := Append(ttl, l2, Lookup(ip), ip);
    var l4 := Append(ttl, l3, Verdict(ip, true), ip);
    var l5 := Append(ttl, l4, Remove, ip);
    assert l5 == [Verdict(ip, true), Tick(ttl), Lookup(ip), Verdict(ip, true), Remove];
    assert l5[..3] == l3;
    SameTtl(ttl, l5);
  }

  lemma {:induction false} SameTtl(ttl: nat, log: seq<Event>)
    requires forall i :: 0 <= i < |log| ==> !log[i].SetTtl?
    ensures TtlAfter(ttl, log) == ttl && TtlNeverGrew(ttl, log)
  {
    forall i | 0 <= i <= |log| ensures TtlAfter(ttl, log[..i]) == ttl {
      TtlUnset(ttl, log[..i]);
    }
    assert log[..|log|] == log;
  }

  lemma {:induction false} TtlUnset(ttl: nat, log: seq<Event>)
    requires forall i :: 0 <= i < |log| ==> !log[i].SetTtl?
    ensures TtlAfter(ttl, log) == ttl
  {
    if log != [] {
      TtlUnset(ttl, log[..|log| - 1]);
    }
  }

  /** ... and an address forgotten under a short TTL stays forgotten when the TTL is raised. */
  lemma {:induction false} RaisedTtlForgets(ttl: nat, longer: nat, ip: IpAddr)
    requires ttl < longer
    ensures var log := [Verdict(ip, true), Tick(ttl), Check(ip), SetTtl(longer)];
            RecentlyAnomalous(ttl, log, ip) && !Answer(ttl, log, ip)
  {
    var l1 := Append(ttl, [], Verdict(ip, true), ip);
    var l2 := Append(ttl, l1, Tick(ttl), ip);
    var l3 := Append(ttl, l2, Check(ip), ip);
    var l4 := Append(ttl, l3, SetTtl(longer), ip);
    assert l4 == [Verdict(ip, true), Tick(ttl), Check(ip), SetTtl(longer)];
    assert l4[..0] == [];
  }
}
