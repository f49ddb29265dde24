/**
 * What happened so far, seen from outside the agent: the starts it made, the starts whose record it
 * removed, and, for one arbitrary worker (the focus), the crash restarts counted, the stop the ERP has
 * not answered and the hold that was recorded. An agent crash changes none of it.
 */
module FleetWorld {
  import opened Options
  import opened FleetTypes
  import opened FleetPlan

  /** `Started` carries the stamp on disk when Docker was called; `Removed` the newest start shown. */
  datatype Event = Started(at: Millis) | Removed(at: Millis)

  datatype World = World(
    clock: Millis,
    events: seq<Event>,
    lost: seq<Millis>,           // newest starts shown at a removal that no record on disk covered
    shown: Option<Millis>,       // the newest start the containers showed when last observed
    counted: seq<Millis>,        // stamps of the focus's restarts after a crash
    crashed: bool,               // the focus's container, as last observed, had crashed
    present: set<string>,        // names of the containers carrying the focus's worker id
    open: Option<Lease>,         // the focus's stop, asked of Docker and not answered by the ERP
    frozen: Option<string>,      // the container of the focus's hold on disk, while observed to be stopped
    saveFailed: bool,            // some save of the memory has failed
    unstamped: bool,             // a start was made with no stamp on disk
    unnamed: bool,               // the focus was stopped while it had a lease, with no stop on disk
    early: bool,                 // the focus was run while its stop was unanswered
    trespassed: bool             // the focus was acted on while frozen
  )

  ghost predicate Spaced(events: seq<Event>, stagger: Millis) {
    forall i, j :: 0 <= i < j < |events| && events[j].Started? ==> events[j].at - events[i].at >= stagger
  }

  /** No window of CRASH_WINDOW_MS holds more than CRASH_LIMIT of them. */
  ghost predicate Limited(counted: seq<Millis>) {
    forall i :: 0 <= i < |counted| - CRASH_LIMIT ==> counted[i + CRASH_LIMIT] - counted[i] >= CRASH_WINDOW_MS
  }

  ghost predicate Ascending(times: seq<Millis>) {
    forall i, j :: 0 <= i < j < |times| ==> times[i] <= times[j]
  }

  ghost predicate Past(w: World) {
    && (forall e :: e in w.events ==> e.at <= w.clock)
    && (forall t :: t in w.counted ==> t <= w.clock)
    && (w.shown.Some? ==> w.shown.value <= w.clock)
    && Ascending(w.counted)
  }

  /** What every run keeps, at every crash point. */
  ghost predicate Sound(w: World, stagger: Millis) {
    && Spaced(w.events, stagger) && Limited(w.counted) && Past(w)
    && (!w.saveFailed ==> w.lost == [])
    && !w.unstamped && !w.unnamed && !w.early && !w.trespassed
  }

  ghost predicate KeepsStarts(w: World, m: Memory) {
    w.events != [] ==> m.lastStartAt.Some? && forall e :: e in w.events ==> e.at <= m.lastStartAt.value
  }

  ghost predicate KeepsCounted(w: World, focus: string, m: Memory) {
    forall t: Millis :: w.clock - t < CRASH_WINDOW_MS ==>
      multiset(w.counted)[t] <= multiset(TimesOf(m.restarts, focus))[t]
  }

  function LeaseOf(p: StopIdentity): Lease { Lease(p.account, p.epoch) }

  ghost predicate KeepsStop(w: World, focus: string, m: Memory) {
    w.open.Some? ==>
      focus in m.pending && LeaseOf(m.pending[focus]) == w.open.value && (m.pending[focus].confirmed ==> w.present == {})
  }

  ghost predicate KeepsHold(w: World, focus: string, m: Memory) {
    w.frozen.Some? ==> focus in m.held && m.held[focus].container == w.frozen.value
  }

  /** A memory an agent may have in RAM, or leave on disk: it forgets nothing the guarantees rest on. */
  ghost predicate Keeps(w: World, focus: string, m: Memory) {
    KeepsStarts(w, m) && KeepsCounted(w, focus, m) && KeepsStop(w, focus, m) && KeepsHold(w, focus, m)
  }

  // ---- what the outside does by itself, and what each call to it records ----

  /** Time passes, and people may remove the focus's containers; nobody else creates one. */
  ghost predicate Drifted(before: World, after: World) {
    && before.clock <= after.clock && after.present <= before.present
    && after == before.(clock := after.clock, present := after.present)
  }

  function TouchedBy(w: World, focus: string, id: string): World {
    w.(trespassed := w.trespassed || (id == focus && w.frozen.Some?))
  }

  /** Docker is asked to start or run a worker; `counted` says that it had crashed. */
  function StartCalled(w: World, focus: string, id: string, disk: Memory, counted: bool): World {
    var t := TouchedBy(w, focus, id);
    if disk.lastStartAt.None? then t.(unstamped := true)
    else
      t.(events := t.events + [Started(disk.lastStartAt.value)],
         counted := if counted && id == focus then t.counted + [disk.lastStartAt.value] else t.counted)
  }

  function RunCalled(w: World, focus: string, id: string, disk: Memory, counted: bool): World {
    StartCalled(w.(early := w.early || (id == focus && w.open.Some?)), focus, id, disk, counted)
  }

  lemma StartLeaves(w: World, focus: string, id: string, disk: Memory, counted: bool)
    ensures StartCalled(w, focus, id, disk, counted).open == w.open && StartCalled(w, focus, id, disk, counted).present == w.present
  {
  }

  lemma RunLeaves(w: World, focus: string, id: string, disk: Memory, counted: bool)
    ensures RunCalled(w, focus, id, disk, counted).open == w.open && RunCalled(w, focus, id, disk, counted).present == w.present
  {
    hide StartCalled;
    StartLeaves(w.(early := w.early || (id == focus && w.open.Some?)), focus, id, disk, counted);
  }

  /** Docker is asked to stop a worker that holds `lease`, if any; the stop on disk is open from here. */
  function StopCalled(w: World, focus: string, id: string, disk: Memory, lease: Option<Lease>): World {
    var t := TouchedBy(w, focus, id);
    if id != focus then t
    else if focus in disk.pending then t.(open := Some(LeaseOf(disk.pending[focus])))
    else t.(unnamed := t.unnamed || lease.Some?)
  }

  /** A record of a start no later than this one's is there. */
  predicate Covered(m: Memory, shown: Millis) { m.lastStartAt.Some? && shown <= m.lastStartAt.value }

  /** Docker is asked to remove a stopped container: the newest start shown may have its only record there. */
  function RemoveCalled(w: World, focus: string, id: string, disk: Memory): World {
    var t := TouchedBy(w, focus, id);
    if w.shown.None? then t
    else if Covered(disk, w.shown.value) then t.(events := t.events + [Removed(w.shown.value)])
    else t.(lost := t.lost + [w.shown.value])
  }

  /** The ERP answered a stop confirmation, accepting it or calling it stale. */
  function Answered(w: World, focus: string, id: string, p: StopIdentity): World {
    if id == focus && w.open == Some(LeaseOf(p)) then w.(open := None) else w
  }

  lemma DriftKeeps(before: World, after: World, focus: string, stagger: Millis, m: Memory)
    requires Drifted(before, after)
    ensures Sound(before, stagger) ==> Sound(after, stagger)
    ensures Keeps(before, focus, m) ==> Keeps(after, focus, m)
  {
  }

  /** A failed save forgets nothing that a memory has to keep. */
  lemma FailedSaveKeeps(w: World, focus: string, stagger: Millis, m: Memory)
    ensures Sound(w, stagger) ==> Sound(w.(saveFailed := true), stagger)
    ensures Keeps(w, focus, m) ==> Keeps(w.(saveFailed := true), focus, m)
  {
  }

  /** Nor does what an observation told. */
  lemma LearningKeeps(w: World, focus: string, stagger: Millis, shown: Option<Millis>, crashed: bool, m: Memory)
    requires shown.Some? ==> shown.value <= w.clock
    ensures Sound(w, stagger) ==> Sound(w.(shown := shown, crashed := crashed), stagger)
    ensures Keeps(w, focus, m) ==> Keeps(w.(shown := shown, crashed := crashed), focus, m)
  {
  }

  /** A container may appear while no stop is open. */
  lemma AppearingKeeps(w: World, focus: string, stagger: Millis, name: string, m: Memory)
    requires w.open.None?
    ensures Sound(w, stagger) ==> Sound(w.(present := w.present + {name}), stagger)
    ensures Keeps(w, focus, m) ==> Keeps(w.(present := w.present + {name}), focus, m)
  {
  }

  /** A container may be frozen that the memory holds, and any may thaw. */
  lemma FreezingKeeps(w: World, focus: string, stagger: Millis, frozen: Option<string>, m: Memory)
    requires frozen.None? || frozen == w.frozen || (focus in m.held && Some(m.held[focus].container) == frozen)
    ensures Sound(w, stagger) ==> Sound(w.(frozen := frozen), stagger)
    ensures Keeps(w, focus, m) ==> Keeps(w.(frozen := frozen), focus, m)
  {
  }

  /** Fewer containers, a thawed hold and an answered stop only weaken what a memory must keep. */
  ghost predicate Eased(before: World, after: World) {
    && after.present <= before.present
    && (after.frozen == before.frozen || after.frozen.None?)
    && (after.open == before.open || after.open.None?)
    && after == before.(present := after.present, frozen := after.frozen, open := after.open)
  }

  lemma AnswerEases(before: World, after: World, focus: string, id: string, p: StopIdentity)
    requires Drifted(before, after)
    ensures Eased(after, Answered(after, focus, id, p))
    ensures Drifted(Answered(before, focus, id, p), Answered(after, focus, id, p))
  {
  }

  lemma EasedKeeps(before: World, after: World, focus: string, stagger: Millis, m: Memory)
    requires Eased(before, after)
    ensures Sound(before, stagger) ==> Sound(after, stagger)
    ensures Keeps(before, focus, m) ==> Keeps(after, focus, m)
  {
  }

  // ---- restart counts ----

  lemma {:induction false} RecentMembers(times: seq<Millis>, now: Millis)
    ensures forall t :: multiset(Recent(times, now))[t] == if now - t < CRASH_WINDOW_MS then multiset(times)[t] else 0
  {
    if times != [] {
      RecentMembers(times[1..], now);
      assert times == [times[0]] + times[1..];
    }
  }

  lemma FewerWhenIncluded(a: seq<Millis>, b: seq<Millis>)
    requires forall t :: multiset(a)[t] <= multiset(b)[t]
    ensures |a| <= |b|
  {
    var x, y := multiset(a), multiset(b);
    forall t ensures x[t] <= y[t] {}
    assert x <= y;
    assert y == x + (y - x);
    assert |y| == |x| + |y - x|;
  }

  lemma RecentIncluded(a: seq<Millis>, b: seq<Millis>, now: Millis)
    requires forall t: Millis :: now - t < CRASH_WINDOW_MS ==> multiset(a)[t] <= multiset(b)[t]
    ensures |Recent(a, now)| <= |Recent(b, now)|
  {
    RecentMembers(a, now);
    RecentMembers(b, now);
    FewerWhenIncluded(Recent(a, now), Recent(b, now));
  }

  lemma RecentShrinks(times: seq<Millis>, now: Millis, later: Millis)
    requires now <= later
    ensures |Recent(times, later)| <= |Recent(times, now)|
  {
    RecentMembers(times, now);
    RecentMembers(times, later);
    FewerWhenIncluded(Recent(times, later), Recent(times, now));
  }

  lemma {:induction false} RecentJoins(a: seq<Millis>, b: seq<Millis>, now: Millis)
    ensures Recent(a + b, now) == Recent(a, now) + Recent(b, now)
  {
    if a == [] {
      assert a + b == b;
    } else {
      RecentJoins(a[1..], b, now);
      assert (a + b)[1..] == a[1..] + b && (a + b)[0] == a[0];
      var head := if now - a[0] < CRASH_WINDOW_MS then [a[0]] else [];
      assert (head + Recent(a[1..], now)) + Recent(b, now) == head + (Recent(a[1..], now) + Recent(b, now));
    }
  }

  lemma {:induction false} RecentAll(times: seq<Millis>, now: Millis)
    requires forall t :: t in times ==> now - t < CRASH_WINDOW_MS
    ensures Recent(times, now) == times
  {
    if times != [] {
      assert times[0] in times;
      forall t | t in times[1..] ensures now - t < CRASH_WINDOW_MS { assert t in times; }
      RecentAll(times[1..], now);
      assert times == [times[0]] + times[1..];
    }
  }

  /** When the window already holds the limit, so does the memory. */
  lemma WindowFull(counted: seq<Millis>, times: seq<Millis>, now: Millis, from: nat)
    requires from <= |counted| && Ascending(counted)
    requires forall t: Millis :: now - t < CRASH_WINDOW_MS ==> multiset(counted)[t] <= multiset(times)[t]
    requires from < |counted| ==> now - counted[from] < CRASH_WINDOW_MS
    ensures |counted| - from <= |Recent(times, now)|
  {
    LastAreRecent(counted, now, from);
    RecentIncluded(counted, times, now);
  }

  lemma LastAreRecent(counted: seq<Millis>, now: Millis, from: nat)
    requires from <= |counted| && Ascending(counted)
    requires from < |counted| ==> now - counted[from] < CRASH_WINDOW_MS
    ensures |counted| - from <= |Recent(counted, now)|
  {
    var last := counted[from..];
    forall t | t in last ensures now - t < CRASH_WINDOW_MS {
      var k :| 0 <= k < |last| && last[k] == t;
      assert k > 0 ==> counted[from] <= counted[from + k];
    }
    RecentAll(last, now);
    RecentJoins(counted[..from], last, now);
    assert counted == counted[..from] + last;
  }

  /** Fewer than the limit recent in memory: one more stamp still respects every window. */
  lemma CountStaysLimited(w: World, focus: string, m: Memory, planned: Millis)
    requires KeepsCounted(w, focus, m) && Ascending(w.counted) && Limited(w.counted)
    requires planned <= w.clock && |Recent(TimesOf(m.restarts, focus), planned)| < CRASH_LIMIT
    ensures Limited(w.counted + [w.clock])
  {
    var n := |w.counted| - CRASH_LIMIT;
    RecentShrinks(TimesOf(m.restarts, focus), planned, w.clock);
    if n >= 0 && w.clock - w.counted[n] < CRASH_WINDOW_MS {
      WindowFull(w.counted, TimesOf(m.restarts, focus), w.clock, n);
    }
  }

  // ---- each call, recorded, keeps the world sound and the memories good ----

  ghost predicate Clear(w: World, stagger: Millis, at: Millis) {
    forall e :: e in w.events ==> at - e.at >= stagger
  }

  /** A stamp the count may take: it respects every window, and the memory already holds it. */
  ghost predicate CountReady(w: World, focus: string, id: string, counted: bool, at: Millis, m: Memory) {
    counted && id == focus ==>
      Limited(w.counted + [at]) && (forall t :: t in w.counted ==> t <= at)
      && KeepsCounted(w.(counted := w.counted + [at]), focus, m)
  }

  lemma StartIsSound(w: World, focus: string, stagger: Millis, id: string, disk: Memory, counted: bool)
    requires Sound(w, stagger) && disk.lastStartAt.Some? && disk.lastStartAt.value <= w.clock
    requires Clear(w, stagger, disk.lastStartAt.value)
    requires CountReady(w, focus, id, counted, disk.lastStartAt.value, disk)
    requires id == focus ==> w.frozen.None?
    ensures Sound(StartCalled(w, focus, id, disk, counted), stagger)
  {
    var after := StartCalled(w, focus, id, disk, counted);
    assert forall e :: e in after.events ==> e in w.events || e == Started(disk.lastStartAt.value);
    assert forall t :: t in after.counted ==> t in w.counted || t == disk.lastStartAt.value;
    assert forall i :: 0 <= i < |w.counted| ==> w.counted[i] in w.counted;
  }

  lemma StartIsKept(w: World, focus: string, id: string, disk: Memory, counted: bool, m: Memory)
    requires Keeps(w, focus, m) && disk.lastStartAt.Some? && m.lastStartAt.Some?
    requires disk.lastStartAt.value <= m.lastStartAt.value
    requires CountReady(w, focus, id, counted, disk.lastStartAt.value, m)
    ensures Keeps(StartCalled(w, focus, id, disk, counted), focus, m)
  {
    var after := StartCalled(w, focus, id, disk, counted);
    assert forall e :: e in after.events ==> e in w.events || e == Started(disk.lastStartAt.value);
  }

  /** A stop recorded and not confirmed may be asked of Docker. */
  lemma StopIsKept(w: World, focus: string, stagger: Millis, id: string, disk: Memory, lease: Option<Lease>)
    requires Keeps(w, focus, disk) && (id == focus ==> w.frozen.None?)
    requires id == focus && lease.Some? ==> focus in disk.pending
    requires id == focus && focus in disk.pending ==> !disk.pending[focus].confirmed
    ensures Keeps(StopCalled(w, focus, id, disk, lease), focus, disk)
    ensures Sound(w, stagger) ==> Sound(StopCalled(w, focus, id, disk, lease), stagger)
    ensures id == focus && lease.Some? ==> StopCalled(w, focus, id, disk, lease).open == Some(LeaseOf(disk.pending[focus]))
  {
  }

  lemma RemoveIsSound(w: World, focus: string, stagger: Millis, id: string, disk: Memory)
    requires Sound(w, stagger) && (id == focus ==> w.frozen.None?)
    requires !w.saveFailed && w.shown.Some? ==> Covered(disk, w.shown.value)
    ensures Sound(RemoveCalled(w, focus, id, disk), stagger)
  {
    var after := RemoveCalled(w, focus, id, disk);
    assert forall e :: e in after.events ==> e in w.events || Some(e.at) == w.shown;
  }

  lemma RemoveIsKept(w: World, focus: string, id: string, disk: Memory, m: Memory)
    requires Keeps(w, focus, m)
    requires w.shown.Some? && Covered(disk, w.shown.value) ==> Covered(m, w.shown.value)
    ensures Keeps(RemoveCalled(w, focus, id, disk), focus, m)
  {
    var after := RemoveCalled(w, focus, id, disk);
    assert forall e :: e in after.events ==> e in w.events || Some(e.at) == w.shown;
  }

  /** The stamp the restart limit allows may be counted, by every memory that recorded it. */
  lemma CountBecomesReady(w: World, focus: string, before: Memory, after: Memory, planned: Millis)
    requires KeepsCounted(w, focus, before) && Past(w) && Limited(w.counted)
    requires planned <= w.clock && |Recent(TimesOf(before.restarts, focus), planned)| < CRASH_LIMIT
    requires TimesOf(after.restarts, focus) == Recent(TimesOf(before.restarts, focus), w.clock) + [w.clock]
    ensures CountReady(w, focus, focus, true, w.clock, after)
  {
    CountStaysLimited(w, focus, before, planned);
    RecentMembers(TimesOf(before.restarts, focus), w.clock);
  }

  /** Dropping the times that left the window loses no counted restart that is still in it. */
  lemma PruningKeepsCounted(w: World, focus: string, before: Memory, after: Memory)
    requires KeepsCounted(w, focus, before)
    requires forall t :: w.clock - t < CRASH_WINDOW_MS ==>
               multiset(TimesOf(before.restarts, focus))[t] <= multiset(TimesOf(after.restarts, focus))[t]
    ensures KeepsCounted(w, focus, after)
  {
  }
}
