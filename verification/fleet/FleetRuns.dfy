/** Whole runs: agents that tick, crash anywhere and come back, for as long as one likes. */
module FleetRuns {
  import opened Options
  import opened FleetTypes
  import opened FleetPlan
  import opened FleetState
  import opened FleetWorld
  import opened FleetHost
  import opened FleetSteps
  import opened FleetAgent
  import Sorting

  /**
   * A run of `steps` ticks from any file and any containers. A tick may crash at any awaited call, before
   * or after it took effect; the next one is then a fresh agent's. The run may end anywhere, so what it
   * ensures holds at every crash point of every run, for whichever worker `focus` is.
   */
  method Run(focus: string, stagger: Millis, hostId: string, file: Option<Json>, clock: Millis, present: set<string>, steps: nat)
    returns (host: Host)
    ensures host.focus == focus && host.stagger == stagger
    // any two starts are stamped a stagger apart, and as far from every start whose record was removed
    ensures Spaced(host.w.events, stagger)
    // no start without its stamp on disk
    ensures !host.w.unstamped
    // without a failed save, no removal has lost the newest start it showed
    ensures !host.w.saveFailed ==> host.w.lost == []
    // no window holds more restarts of a crashed worker than the limit
    ensures Limited(host.w.counted)
    // a leased worker is stopped only with the stop on disk; until it is answered the disk names it and
    // nothing is run for the worker
    ensures !host.w.unnamed
    ensures host.w.open.Some? ==> focus in host.Disk().pending && LeaseOf(host.Disk().pending[focus]) == host.w.open.value
    ensures !host.w.early
    // a hold found on disk with its container stopped stays there, and the container was not touched while it
    // showed as stopped
    ensures host.w.frozen.Some? ==> focus in host.Disk().held && host.Disk().held[focus].container == host.w.frozen.value
    ensures !host.w.trespassed
    // every container was run with the epoch its worker's stop on disk reserved then, if any, right after a
    // ticket granted for that epoch
    ensures HandedOver(host.calls)
  {
    host := new Host(focus, stagger, file, clock, present);
    var left := steps;
    while left > 0
      invariant host.Inv() && host.focus == focus && host.stagger == stagger
    {
      var agent := new Agent(host, hostId);
      var alive := true;
      ghost var started := left;
      while alive && left > 0
        invariant host.Inv() && (alive ==> agent.Valid())
        invariant left <= started && (!alive ==> left < started)
        invariant agent.host == host && host.focus == focus && host.stagger == stagger
        decreases left
      {
        host.Drift(agent.memory);
        var imageAllowed: bool := *;
        var r, _, _, _, _, _, _ := agent.Tick(imageAllowed);
        alive := r.Done?;
        left := left - 1;
      }
    }
  }

  // ---- where the code falls short of its comments, on inputs it meets ----

  const STAGGER: Millis := 180000.0

  /** What the plan of an agent with nothing in memory but a last start is made from. */
  function Planning(hostId: string, d: Desired, containers: seq<Container>, now: Millis, last: Option<Millis>): PlanInput {
    PlanInput(hostId, d, containers, true, now, last, map[], map[], map[], None, map[], map[], 0.0, true, STAGGER, [])
  }

  /** A container of the old image that exited with an error at once. */
  function Stopped(id: string, startedAt: Millis): Container {
    Container(ContainerName(id), id, "old", false, Some(1), Some(startedAt), Some(startedAt), Some(id), false, false)
  }

  function Running(id: string): Container {
    Container(ContainerName(id), id, "old", true, None, Some(0.0), None, Some(id), false, false)
  }

  lemma OneMatches(c: Container, id: string)
    ensures Matching([c], id) == if c.workerId == id then [c] else []
  {
    assert [c][..0] == [];
    assert Matching([c][..0], id) == [];
  }

  lemma TwoMatch(c: Container, e: Container, id: string)
    ensures Matching([c, e], id) == (if c.workerId == id then [c] else []) + (if e.workerId == id then [e] else [])
  {
    assert [c, e][..1] == [c];
    OneMatches(c, id);
  }

  /** One stopped container above a count of one: it alone is extra. */
  lemma OneExtra(i: PlanInput, c: Container)
    requires i.containers == [c] && i.desired.count == 1
    requires WorkerIndex(i.hostId, c.workerId).Some? && WorkerIndex(i.hostId, c.workerId).value > 1
    ensures Extras(i) == [c]
  {
    OneMatches(c, c.workerId);
    assert Lookup(i, c.workerId) == Some(c) && IsExtra(i, c);
    assert ExtrasUpTo(i, 0) == [];
    assert ExtrasUpTo(i, 1) == [c];
    Sorting.SortedIsKept([c], ByIndex(i.hostId));
  }

  lemma TwoExtras(i: PlanInput, c: Container, e: Container)
    requires i.containers == [c, e] && i.desired.count == 1 && c.workerId != e.workerId
    requires WorkerIndex(i.hostId, c.workerId) == Some(2) && WorkerIndex(i.hostId, e.workerId) == Some(3)
    ensures Extras(i) == [c, e]
  {
    TwoMatch(c, e, c.workerId);
    TwoMatch(c, e, e.workerId);
    assert Lookup(i, c.workerId) == Some(c) && Lookup(i, e.workerId) == Some(e);
    assert ExtrasUpTo(i, 0) == [] && ExtrasUpTo(i, 1) == [c] && ExtrasUpTo(i, 2) == [c, e];
    Sorting.SortedIsKept([c, e], ByIndex(i.hostId));
  }

  lemma OneRemoved(i: PlanInput, c: Container)
    ensures RemovesOf(i, [c]) == if Removable(i, c) then [Remove(c.workerId, c.name)] else []
  {
    assert [c][..0] == [];
    assert RemovesOf(i, [c][..0]) == [];
  }

  lemma TwoRemoved(i: PlanInput, c: Container, e: Container)
    requires Removable(i, c) && Removable(i, e)
    ensures RemovesOf(i, [c, e]) == [Remove(c.workerId, c.name), Remove(e.workerId, e.name)]
  {
    assert [c, e][..1] == [c];
    OneRemoved(i, c);
  }

  lemma IndexOfOwn(hostId: string, n: nat)
    requires n > 0
    ensures WorkerIndex(hostId, WorkerId(hostId, n)) == Some(n)
  {
    WorkerIdRoundTrip(hostId, WorkerId(hostId, n), n);
  }

  /** The newest start two containers show. */
  lemma TwoShown(c: Container, e: Container, now: Millis)
    requires c.startedAt.Some? && e.startedAt.Some? && c.startedAt.value <= e.startedAt.value <= now
    ensures LastStart(None, [c, e], now) == e.startedAt && LastStart(None, [c], now) == c.startedAt
  {
    assert [c, e][..1] == [c] && [c][..0] == [];
    assert Newest(None, [c][..0]) == None;
    assert Newest(None, [c]) == c.startedAt;
    assert Newest(None, [c, e]) == Later(c.startedAt, e.startedAt);
  }

  /** Two removals, and no start while the stagger has not passed. */
  lemma RemovesBoth(i: PlanInput, c: Container, e: Container)
    requires i.desired.authoritative && i.desired.count == 1 && i.containers == [c, e] && c.workerId != e.workerId
    requires WorkerIndex(i.hostId, c.workerId) == Some(2) && WorkerIndex(i.hostId, e.workerId) == Some(3)
    requires Removable(i, c) && Removable(i, e) && !StartAllowed(i, LastStart(i.lastStartAt, i.containers, i.now))
    ensures ActionsOf(i) == [Remove(c.workerId, c.name), Remove(e.workerId, e.name)]
  {
    TwoExtras(i, c, e);
    TwoRemoved(i, c, e);
  }

  /** The tick that removes two containers above the count, with nothing remembered. */
  lemma FirstTick(hostId: string, d: Desired)
    requires d == Desired(true, 1, "new", map[], Some(map[]), None)
    ensures var c, e := Stopped(WorkerId(hostId, 2), 60000.0), Stopped(WorkerId(hostId, 3), 240000.0);
            var i := Planning(hostId, d, [c, e], 300000.0, None);
            && LastStart(i.lastStartAt, i.containers, i.now) == Some(240000.0)
            && ActionsOf(i) == [Remove(c.workerId, c.name), Remove(e.workerId, e.name)]
  {
    var c, e := Stopped(WorkerId(hostId, 2), 60000.0), Stopped(WorkerId(hostId, 3), 240000.0);
    var i := Planning(hostId, d, [c, e], 300000.0, None);
    IndexOfOwn(hostId, 2);
    IndexOfOwn(hostId, 3);
    TwoShown(c, e, i.now);
    RemovesBoth(i, c, e);
  }

  /** One removal and the run of the missing first worker, when a start is allowed. */
  lemma RemovesAndRuns(i: PlanInput, c: Container)
    requires i.desired.authoritative && i.desired.count == 1 && i.desired.roll.None? && i.restarting == []
    requires i.containers == [c] && c.workerId != WorkerId(i.hostId, 1) && WorkerIndex(i.hostId, c.workerId) == Some(2)
    requires Removable(i, c) && StartAllowed(i, LastStart(i.lastStartAt, i.containers, i.now))
    ensures ActionsOf(i) == [Remove(c.workerId, c.name), RunAction(i, WorkerId(i.hostId, 1), 1)]
  {
    OneExtra(i, c);
    OneRemoved(i, c);
    OneMatches(c, WorkerId(i.hostId, 1));
    MissingIsFirst(i);
  }

  /** The tick of the next agent, which finds the first container alone. */
  lemma NextTick(hostId: string, d: Desired)
    requires d == Desired(true, 1, "new", map[], Some(map[]), None)
    ensures var c := Stopped(WorkerId(hostId, 2), 60000.0);
            var i := Planning(hostId, d, [c], 360000.0, None);
            ActionsOf(i) == [Remove(c.workerId, c.name), RunAction(i, WorkerId(hostId, 1), 1)]
  {
    var c := Stopped(WorkerId(hostId, 2), 60000.0);
    var i := Planning(hostId, d, [c], 360000.0, None);
    IndexOfOwn(hostId, 1);
    IndexOfOwn(hostId, 2);
    TwoShown(c, c, i.now);
    RemovesAndRuns(i, c);
  }

  lemma MissingIsFirst(i: PlanInput)
    requires CanCreate(i) && i.desired.count == 1 && i.desired.roll.None? && i.restarting == []
    requires Matching(i.containers, WorkerId(i.hostId, 1)) == []
    ensures Candidates(i) != [] && Candidates(i)[0] == RunAction(i, WorkerId(i.hostId, 1), 1)
  {
    assert MainCandidate(i, 1) == Some(RunAction(i, WorkerId(i.hostId, 1), 1));
    assert MainUpTo(i, 0) == [] && MainUpTo(i, 1) == [RunAction(i, WorkerId(i.hostId, 1), 1)];
    assert Listed(RollCandidate(i)) == [] && RestartingUpTo(i, |i.restarting|) == [];
    assert OtherCandidates(i) == [RunAction(i, WorkerId(i.hostId, 1), 1)];
    HeadStays(OtherCandidates(i), RecoveredUpTo(i, OutagesUpTo(i, 1)), Listed(ProbeCandidate(i, OutagesUpTo(i, 1))));
  }

  /**
   * Two containers above the count are removed in one tick. The first removal's save fails, and leaves
   * the start it was to record, the second container's at 240 s, in RAM alone. The second removal finds RAM
   * covering it and removes its only other record. After a crash the next agent knows neither, and at
   * 360 s runs a worker 120 s after that login, inside the stagger of 180 s.
   */
  lemma RemovalsCanLoseStart(hostId: string, d: Desired)
    requires d == Desired(true, 1, "new", map[], Some(map[]), None)
    ensures
      var c, e := Stopped(WorkerId(hostId, 2), 60000.0), Stopped(WorkerId(hostId, 3), 240000.0);
      var i, next := Planning(hostId, d, [c, e], 300000.0, None), Planning(hostId, d, [c], 360000.0, None);
      var passed := LastStart(i.lastStartAt, i.containers, i.now);
      var (ram, disk) := NewestRecorded(EMPTY_MEMORY, EMPTY_MEMORY, passed, false);
      && ActionsOf(i) == [Remove(c.workerId, c.name), Remove(e.workerId, e.name)]
      && !Exceeds(passed, ram.lastStartAt) && !Covered(disk, e.startedAt.value) && disk.lastStartAt == next.lastStartAt
      && ActionsOf(next) == [Remove(c.workerId, c.name), RunAction(next, WorkerId(hostId, 1), 1)]
      && next.now - e.startedAt.value < STAGGER
  {
    FirstTick(hostId, d);
    NextTick(hostId, d);
  }

  /** A release with one container, running the old image: it alone is acted on. */
  lemma OnlyReplaces(i: PlanInput, c: Container, stop: Action)
    requires i.desired.authoritative && i.desired.count == 1 && i.containers == [c]
    requires WorkerIndex(i.hostId, c.workerId) == Some(1) && i.desired.roll == Some(c.workerId) && RollCandidate(i) == Some(stop)
    requires StartAllowed(i, LastStart(i.lastStartAt, i.containers, i.now))
    ensures ActionsOf(i) == [stop]
  {
    NoExtra(i, c);
    RollIsFirst(i, stop);
    assert RemovesOf(i, []) == [];
  }

  lemma NoExtra(i: PlanInput, c: Container)
    requires i.containers == [c] && i.desired.count == 1 && WorkerIndex(i.hostId, c.workerId) == Some(1)
    ensures Extras(i) == []
  {
    OneMatches(c, c.workerId);
    assert Lookup(i, c.workerId) == Some(c) && !IsExtra(i, c);
    assert ExtrasUpTo(i, 0) == [];
    assert ExtrasUpTo(i, 1) == [];
  }

  lemma HeadStays<T>(a: seq<T>, b: seq<T>, c: seq<T>)
    requires a != []
    ensures (a + b + c)[0] == a[0]
  {
  }

  lemma RollIsFirst(i: PlanInput, stop: Action)
    requires RollCandidate(i) == Some(stop)
    ensures Candidates(i) != [] && Candidates(i)[0] == stop
  {
    var outages := OutagesUpTo(i, i.desired.count);
    HeadStays(Listed(RollCandidate(i)), RestartingUpTo(i, |i.restarting|), MainUpTo(i, i.desired.count));
    HeadStays(OtherCandidates(i), RecoveredUpTo(i, outages), Listed(ProbeCandidate(i, outages)));
  }

  lemma OneShown(c: Container, now: Millis)
    requires c.startedAt.Some? && c.startedAt.value <= now
    ensures LastStart(None, [c], now) == c.startedAt
  {
    assert [c][..0] == [] && Newest(None, [c][..0]) == None;
  }

  /** A release replaces its one running worker, whatever leases the ERP shows. */
  lemma ReleaseReplaces(hostId: string, now: Millis, leases: map<string, Lease>)
    requires now >= STAGGER
    ensures var id := WorkerId(hostId, 1);
            var i := Planning(hostId, Desired(true, 1, "new", map[], Some(leases), Some(id)), [Running(id)], now, None);
            ActionsOf(i) == [Replace(id, ContainerName(id), "new", 5901, false, false, false)]
  {
    var id := WorkerId(hostId, 1);
    var c := Running(id);
    var i := Planning(hostId, Desired(true, 1, "new", map[], Some(leases), Some(id)), [c], now, None);
    IndexOfOwn(hostId, 1);
    OneMatches(c, id);
    OneShown(c, now);
    assert RollCandidate(i) == Some(Replace(id, c.name, "new", 5901, false, false, false));
    OnlyReplaces(i, c, RollCandidate(i).value);
  }

  /**
   * A release stops a worker under its lease; Docker fails, the worker is given a new lease, and the release
   * stops it again. The record still names the old one, and that is what the ERP will be told.
   */
  lemma OldLeaseIsConfirmed(hostId: string, now: Millis, later: Millis, first: Lease, second: Lease)
    requires STAGGER <= now <= later && first != second
    ensures
      var id := WorkerId(hostId, 1);
      var stop := Replace(id, ContainerName(id), "new", 5901, false, false, false);
      var d, e := Desired(true, 1, "new", map[], Some(map[id := first]), Some(id)),
                  Desired(true, 1, "new", map[], Some(map[id := second]), Some(id));
      var once := StopRecorded(map[], id, d.leases);
      var twice := StopRecorded(once, id, e.leases);
      && ActionsOf(Planning(hostId, d, [Running(id)], now, None)) == [stop]
      && ActionsOf(Planning(hostId, e, [Running(id)], later, None)) == [stop]
      && LeaseHeld(e, id) == Some(second)
      && id in twice && LeaseOf(twice[id]) == first && !twice[id].confirmed
  {
    var id := WorkerId(hostId, 1);
    ReleaseReplaces(hostId, now, map[id := first]);
    ReleaseReplaces(hostId, later, map[id := second]);
    OlderStopKeepsItsLease(id, first, second);
  }
}
