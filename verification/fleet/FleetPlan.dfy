/**
 * Every start, replace, remove and hold decision of one tick.
 *
 * `Plan` is the loop the agent runs, with its `started` flag; `ActionsOf` says what it decides without
 * one: the removals, then the first candidate of one queue if the stagger has passed. What the release
 * of a worker may rely on is proved about `ActionsOf`.
 */
module FleetPlan {
  import opened Options
  import opened Arithmetic
  import opened FleetTypes
  import Sorting

  const CRASH_WINDOW_MS: Millis := 1800000.0
  const CRASH_LIMIT := 5
  const SOFT_LIMIT := 5
  const SOFT_BACKOFF_MS: Millis := 600000.0

  const EXIT_NORMAL := 0
  const EXIT_SIGTERM := 143
  const EXIT_STALE_OR_NO_SLOT := 75
  const EXIT_CLAIM_FAILED := 70
  const EXIT_OPERATOR_NEEDED := 78
  const EXIT_LICENSE_OUTAGE := 74
  const OUTAGE_BACKOFF_BASE_MS: Millis := 300000.0
  const OUTAGE_BACKOFF_CAP_MS: Millis := 3600000.0
  const OUTAGE_RECOVERED_MS: Millis := 900000.0
  const OUTAGE_JITTER := 0.25
  const SELF_STOP_SLACK_MS: Millis := 5000.0

  datatype PlanInput = PlanInput(
    hostId: string,
    desired: Desired,
    containers: seq<Container>,
    online: bool,
    now: Millis,
    lastStartAt: Option<Millis>,
    restarts: map<string, seq<Millis>>,
    softRestarts: map<string, seq<Millis>>,
    outage: map<string, Retry>,
    recoveredAt: Option<Millis>,
    held: map<string, HoldEntry>,
    selfStopped: map<string, Millis>,
    bootAt: Millis,
    imageAllowed: bool,
    stagger: Millis,
    restarting: seq<string>
  )

  datatype PlanResult = PlanResult(actions: seq<Action>, holds: map<string, HoldEntry>, lastStartAt: Option<Millis>)

  // ---- single decisions ----

  function RestartDelay(exitCode: Option<int>): Millis {
    if exitCode == Some(EXIT_CLAIM_FAILED) then 600000.0 else 60000.0
  }

  /** An exit the contract did not define: it counts toward the crash limit. */
  predicate IsCrash(exitCode: Option<int>) {
    exitCode.None? ||
    exitCode.value !in {EXIT_STALE_OR_NO_SLOT, EXIT_CLAIM_FAILED, EXIT_OPERATOR_NEEDED,
                        EXIT_LICENSE_OUTAGE, EXIT_NORMAL, EXIT_SIGTERM}
  }

  /** Stopped, by such an exit. */
  predicate CrashExit(c: Container) { !c.running && IsCrash(c.exitCode) }

  function OutageWait(attempts: nat): Millis {
    var w := OUTAGE_BACKOFF_BASE_MS * Pow2(attempts) as real;
    if OUTAGE_BACKOFF_CAP_MS < w then OUTAGE_BACKOFF_CAP_MS else w
  }

  function OutageDelay(retry: Retry): Millis {
    OutageWait(retry.attempts) * (1.0 + OUTAGE_JITTER * retry.jitter)
  }

  /** Its last or current run stayed up long enough that the outage it counted toward is over. */
  predicate RanHealthily(c: Container, now: Millis) {
    c.startedAt.Some? && (c.running || c.finishedAt.Some?) &&
    (if c.running then now else c.finishedAt.value) - c.startedAt.value > OUTAGE_RECOVERED_MS
  }

  function Recent(times: seq<Millis>, now: Millis): seq<Millis> {
    if times == [] then []
    else
      (if now - times[0] < CRASH_WINDOW_MS then [times[0]] else []) + Recent(times[1..], now)
  }

  function TimesOf(m: map<string, seq<Millis>>, id: string): seq<Millis> {
    if id in m then m[id] else []
  }

  /** Why an exited container is left stopped, if it is. */
  function HoldOf(c: Container, held: map<string, HoldEntry>, selfStopped: map<string, Millis>, bootAt: Millis): Option<Hold>
  {
    if c.running then None
    else if c.exitCode == Some(EXIT_OPERATOR_NEEDED) then Some(OperatorNeeded)
    else if c.workerId in held && c.id == Some(held[c.workerId].container) then Some(held[c.workerId].reason)
    else if c.exitCode == Some(EXIT_NORMAL) || c.exitCode == Some(EXIT_SIGTERM) then
      if c.finishedAt.None? || c.finishedAt.value < bootAt then None
      else if c.workerId in selfStopped && c.finishedAt.value >= selfStopped[c.workerId] - SELF_STOP_SLACK_MS then None
      else Some(OperatorStopped)
    else None
  }

  function InputHold(i: PlanInput, c: Container): Option<Hold> {
    HoldOf(c, i.held, i.selfStopped, i.bootAt)
  }

  // ---- the start the stagger counts from ----

  function Later(a: Option<Millis>, b: Option<Millis>): Option<Millis> {
    if b.Some? && (a.None? || b.value > a.value) then b else a
  }

  ghost function Newest(remembered: Option<Millis>, cs: seq<Container>): Option<Millis> {
    if cs == [] then remembered
    else Later(Newest(remembered, cs[..|cs| - 1]), cs[|cs| - 1].startedAt)
  }

  ghost function LastStart(remembered: Option<Millis>, cs: seq<Container>, now: Millis): Option<Millis> {
    var last := Newest(remembered, cs);
    if last.Some? && last.value > now then Some(now) else last
  }

  method EffectiveLastStart(remembered: Option<Millis>, cs: seq<Container>, now: Millis) returns (last: Option<Millis>)
    ensures last == LastStart(remembered, cs, now)
  {
    last := remembered;
    for k := 0 to |cs|
      invariant last == Newest(remembered, cs[..k])
    {
      var t := cs[k].startedAt;
      assert cs[..k + 1][..k] == cs[..k];
      if t.Some? && (last.None? || t.value > last.value) {
        last := t;
      }
    }
    assert cs[..|cs|] == cs;
    if last.Some? && last.value > now {
      last := Some(now);
    }
  }

  ghost predicate Covers(last: Option<Millis>, t: Option<Millis>, now: Millis) {
    t.Some? ==> last.Some? && (t.value <= last.value || last.value == now)
  }

  lemma {:induction false} NewestCovers(remembered: Option<Millis>, cs: seq<Container>)
    ensures remembered.Some? ==> Newest(remembered, cs).Some? && Newest(remembered, cs).value >= remembered.value
    ensures forall c :: c in cs && c.startedAt.Some? ==>
              Newest(remembered, cs).Some? && Newest(remembered, cs).value >= c.startedAt.value
    ensures Newest(remembered, cs) == remembered || exists c :: c in cs && c.startedAt == Newest(remembered, cs)
  {
    if cs != [] {
      var k := |cs| - 1;
      NewestCovers(remembered, cs[..k]);
      assert cs == cs[..k] + [cs[k]];
    }
  }

  /**
   * The stagger counts from the newest start there is any record of: no remembered or shown start is
   * later (one dated in the future counts as now), and it is itself one of them or now.
   */
  lemma LastStartIsNewest(remembered: Option<Millis>, cs: seq<Container>, now: Millis)
    ensures Covers(LastStart(remembered, cs, now), remembered, now)
    ensures forall c :: c in cs ==> Covers(LastStart(remembered, cs, now), c.startedAt, now)
    ensures var last := LastStart(remembered, cs, now);
            last.Some? ==> last.value <= now && (last.value == now || last == remembered || exists c :: c in cs && c.startedAt == last)
  {
    NewestCovers(remembered, cs);
  }

  // ---- the containers by worker id ----

  ghost function Matching(cs: seq<Container>, id: string): (r: seq<Container>)
  {
    if cs == [] then []
    else
      Matching(cs[..|cs| - 1], id) + (if cs[|cs| - 1].workerId == id then [cs[|cs| - 1]] else [])
  }

  lemma {:induction false} MatchingMembers(cs: seq<Container>, id: string)
    ensures forall c :: c in Matching(cs, id) <==> c in cs && c.workerId == id
  {
    if cs != [] {
      var k := |cs| - 1;
      MatchingMembers(cs[..k], id);
      assert cs == cs[..k] + [cs[k]];
    }
  }

  ghost predicate Assigned(i: PlanInput, id: string) { WorkerIndex(i.hostId, id).Some? }

  /** The one container of a worker id this host assigns; None when there is none, or more than one. */
  ghost function Lookup(i: PlanInput, id: string): (r: Option<Container>)
    ensures r.Some? ==> r.value in i.containers && r.value.workerId == id
  {
    var m := Matching(i.containers, id);
    MatchingMembers(i.containers, id);
    if Assigned(i, id) && |m| == 1 then Some(m[0]) else None
  }

  ghost predicate Duplicated(i: PlanInput, id: string) { |Matching(i.containers, id)| > 1 }

  // ---- holds and removals ----

  predicate CanCreate(i: PlanInput) { i.online && i.imageAllowed }

  predicate NewlyHeld(i: PlanInput, c: Container) {
    c.id.Some? && !(c.workerId in i.held && i.held[c.workerId].container == c.id.value)
  }

  function SinceExit(i: PlanInput, c: Container): Option<Millis> {
    if c.finishedAt.Some? then Some(i.now - c.finishedAt.value) else None
  }

  predicate ExitedFor(i: PlanInput, c: Container, delay: Millis) {
    SinceExit(i, c).None? || SinceExit(i, c).value >= delay
  }

  function DelayOf(i: PlanInput, c: Container): Millis {
    if c.exitCode == Some(EXIT_STALE_OR_NO_SLOT) && |Recent(TimesOf(i.softRestarts, c.workerId), i.now)| >= SOFT_LIMIT
    then SOFT_BACKOFF_MS
    else RestartDelay(c.exitCode)
  }

  predicate CrashLimited(i: PlanInput, c: Container) {
    IsCrash(c.exitCode) && |Recent(TimesOf(i.restarts, c.workerId), i.now)| >= CRASH_LIMIT
  }

  /** Waiting for nothing but its delay: stopped, not held, and not stopped by a licence outage. */
  predicate Restartable(i: PlanInput, c: Container) {
    !c.running && InputHold(i, c).None? && c.exitCode != Some(EXIT_LICENSE_OUTAGE)
  }

  /** The hold this tick decides for a worker, to be remembered. */
  ghost function NewHold(i: PlanInput, id: string): Option<HoldEntry> {
    var found := Lookup(i, id);
    if found.None? then None
    else
      var c := found.value;
      var hold := InputHold(i, c);
      if hold.Some? then
        if hold.value != OperatorNeeded && NewlyHeld(i, c) then Some(HoldEntry(c.id.value, hold.value)) else None
      else if WorkerIndex(i.hostId, id).value <= i.desired.count && Restartable(i, c)
              && ExitedFor(i, c, DelayOf(i, c)) && CrashLimited(i, c) && c.id.Some? then
        Some(HoldEntry(c.id.value, CrashLimit))
      else None
  }

  ghost function HoldsOf(i: PlanInput): map<string, HoldEntry> {
    map id | id in (set c | c in i.containers :: c.workerId) && NewHold(i, id).Some? :: NewHold(i, id).value
  }

  ghost predicate IsExtra(i: PlanInput, c: Container) {
    Lookup(i, c.workerId) == Some(c) && WorkerIndex(i.hostId, c.workerId).value > i.desired.count
  }

  ghost function ExtrasUpTo(i: PlanInput, k: nat): seq<Container>
    requires k <= |i.containers|
  {
    if k == 0 then []
    else ExtrasUpTo(i, k - 1) + (if IsExtra(i, i.containers[k - 1]) then [i.containers[k - 1]] else [])
  }

  function IndexOr0(hostId: string, c: Container): int {
    var n := WorkerIndex(hostId, c.workerId);
    if n.Some? then n.value else 0
  }

  function ByIndex(hostId: string): Container -> int { c => IndexOr0(hostId, c) }

  ghost function Extras(i: PlanInput): seq<Container> {
    Sorting.SortBy(ExtrasUpTo(i, |i.containers|), ByIndex(i.hostId))
  }

  predicate Removable(i: PlanInput, c: Container) {
    CanCreate(i) && !c.running && c.image != i.desired.image && InputHold(i, c).None? && c.workerId !in i.restarting
  }

  ghost function RemovesOf(i: PlanInput, extras: seq<Container>): seq<Action> {
    if extras == [] then []
    else
      var c := extras[|extras| - 1];
      RemovesOf(i, extras[..|extras| - 1]) + (if Removable(i, c) then [Remove(c.workerId, c.name)] else [])
  }

  // ---- the queue for the tick's one start ----

  function Listed(a: Option<Action>): seq<Action> { if a.Some? then [a.value] else [] }

  function VncPort(d: Desired, id: string, n: nat): int {
    if id in d.ports then d.ports[id] else 5900 + n
  }

  function RunAction(i: PlanInput, id: string, n: nat): Action {
    Run(id, ContainerName(id), i.desired.image, VncPort(i.desired, id, n))
  }

  ghost function RollCandidate(i: PlanInput): Option<Action> {
    if i.desired.roll.None? then None
    else
      var target := Lookup(i, i.desired.roll.value);
      if target.None? || !CanCreate(i) || !target.value.running || target.value.image == i.desired.image then None
      else
        var c := target.value;
        Some(Replace(c.workerId, c.name, i.desired.image,
                     VncPort(i.desired, c.workerId, WorkerIndex(i.hostId, c.workerId).value), false, false, false))
  }

  ghost function RestartingCandidate(i: PlanInput, id: string): Option<Action> {
    var n := WorkerIndex(i.hostId, id);
    if n.None? || n.value <= i.desired.count || Lookup(i, id).Some? || !CanCreate(i) then None
    else Some(RunAction(i, id, n.value))
  }

  ghost function RestartingUpTo(i: PlanInput, k: nat): seq<Action>
    requires k <= |i.restarting|
  {
    if k == 0 then [] else RestartingUpTo(i, k - 1) + Listed(RestartingCandidate(i, i.restarting[k - 1]))
  }

  /** How an exited container is brought back: recreated, or started unless its claim is spent. */
  function RestartCandidate(i: PlanInput, n: nat, c: Container, counted: bool, soft: bool, outage: bool): Option<Action> {
    if CanCreate(i) && i.desired.leases.Some? then
      Some(Replace(c.workerId, c.name, i.desired.image, VncPort(i.desired, c.workerId, n), counted, soft, outage))
    else if c.handoff || c.ticket then None
    else Some(Start(c.workerId, c.name, counted, soft, outage))
  }

  ghost function MainCandidate(i: PlanInput, n: nat): Option<Action> {
    var id := WorkerId(i.hostId, n);
    var m := Matching(i.containers, id);
    if |m| > 1 then None
    else if m == [] then (if CanCreate(i) then Some(RunAction(i, id, n)) else None)
    else
      var c := m[0];
      if !Restartable(i, c) || !ExitedFor(i, c, DelayOf(i, c)) || CrashLimited(i, c) then None
      else RestartCandidate(i, n, c, IsCrash(c.exitCode), !IsCrash(c.exitCode), false)
  }

  ghost function MainUpTo(i: PlanInput, n: nat): seq<Action> {
    if n == 0 then [] else MainUpTo(i, n - 1) + Listed(MainCandidate(i, n))
  }

  datatype Outage = Outage(n: nat, current: Container, recovered: bool)

  /** It exited before the last outage was seen to be over. */
  predicate Recovered(i: PlanInput, c: Container) {
    i.recoveredAt.Some? && i.recoveredAt.value != 0.0 && c.finishedAt.Some? && c.finishedAt.value < i.recoveredAt.value
  }

  function OutageFor(i: PlanInput, n: nat, c: Container): Outage {
    Outage(n, c, Recovered(i, c))
  }

  ghost predicate InOutage(i: PlanInput, c: Container) {
    !c.running && InputHold(i, c).None? && c.exitCode == Some(EXIT_LICENSE_OUTAGE)
  }

  ghost function OutagesUpTo(i: PlanInput, n: nat): seq<Outage> {
    if n == 0 then []
    else
      var m := Matching(i.containers, WorkerId(i.hostId, n));
      OutagesUpTo(i, n - 1) + (if |m| == 1 && InOutage(i, m[0]) then [OutageFor(i, n, m[0])] else [])
  }

  function OutageCandidate(i: PlanInput, o: Outage): Option<Action> {
    RestartCandidate(i, o.n, o.current, false, false, true)
  }

  ghost function RecoveredUpTo(i: PlanInput, outages: seq<Outage>): seq<Action> {
    if outages == [] then []
    else
      var o := outages[|outages| - 1];
      RecoveredUpTo(i, outages[..|outages| - 1]) + (if o.recovered then Listed(OutageCandidate(i, o)) else [])
  }

  function FirstWaiting(outages: seq<Outage>): Option<Outage> {
    if outages == [] then None
    else if !outages[0].recovered then Some(outages[0])
    else FirstWaiting(outages[1..])
  }

  ghost predicate ProbeInFlight(i: PlanInput) {
    exists id :: Lookup(i, id).Some? && Lookup(i, id).value.running && id in i.outage
  }

  function RetryOf(i: PlanInput, id: string): Retry {
    if id in i.outage then i.outage[id] else Retry(0, 0.0)
  }

  ghost function ProbeCandidate(i: PlanInput, outages: seq<Outage>): Option<Action> {
    var probe := FirstWaiting(outages);
    if probe.None? || ProbeInFlight(i) then None
    else if !ExitedFor(i, probe.value.current, OutageDelay(RetryOf(i, probe.value.current.workerId))) then None
    else OutageCandidate(i, probe.value)
  }

  /** Everyone who wants the tick's start, in the order they are served. */
  ghost function Candidates(i: PlanInput): seq<Action> {
    var outages := OutagesUpTo(i, i.desired.count);
    OtherCandidates(i) + RecoveredUpTo(i, outages) + Listed(ProbeCandidate(i, outages))
  }

  /** The candidates that no licence outage brought. */
  ghost function OtherCandidates(i: PlanInput): seq<Action> {
    Listed(RollCandidate(i)) + RestartingUpTo(i, |i.restarting|) + MainUpTo(i, i.desired.count)
  }

  predicate StartAllowed(i: PlanInput, last: Option<Millis>) {
    last.None? || i.now - last.value >= i.stagger
  }

  function Granted(allowed: bool, queue: seq<Action>): seq<Action> {
    if allowed && queue != [] then [queue[0]] else []
  }

  ghost function ActionsOf(i: PlanInput): seq<Action> {
    if !i.desired.authoritative then []
    else
      RemovesOf(i, Extras(i)) + Granted(StartAllowed(i, LastStart(i.lastStartAt, i.containers, i.now)), Candidates(i))
  }

  ghost function Decided(i: PlanInput): PlanResult {
    PlanResult(ActionsOf(i), if i.desired.authoritative then HoldsOf(i) else map[],
               LastStart(i.lastStartAt, i.containers, i.now))
  }

  // ---- the loop the agent runs ----

  /** Gives the tick's start to a candidate, unless it is taken or the stagger has not passed. */
  function TakeStart(actions: seq<Action>, started: bool, allowed: bool, candidate: Option<Action>): (r: (seq<Action>, bool)) {
    if candidate.Some? && !started && allowed then (actions + [candidate.value], true) else (actions, started)
  }

  lemma TakeStartIsGranted(removes: seq<Action>, queue: seq<Action>, allowed: bool, candidate: Option<Action>)
    ensures TakeStart(removes + Granted(allowed, queue), allowed && queue != [], allowed, candidate)
         == (removes + Granted(allowed, queue + Listed(candidate)), allowed && queue + Listed(candidate) != [])
  {
    if candidate.Some? {
      if queue == [] {
        assert removes + [] + [candidate.value] == removes + [candidate.value];
        assert queue + Listed(candidate) == [candidate.value];
      } else {
        assert (queue + Listed(candidate))[0] == queue[0];
      }
    } else {
      assert queue + Listed(candidate) == queue;
    }
  }

  ghost predicate Indexed(i: PlanInput, byId: map<string, Container>) {
    forall id :: (id in byId <==> Lookup(i, id).Some?) && (id in byId ==> byId[id] == Lookup(i, id).value)
  }

  /** What the index says of one id, given its containers so far; a second one marks it as duplicated. */
  predicate IndexedAs(ours: bool, m: seq<Container>, id: string, byId: map<string, Container>, duplicates: set<string>) {
    && (id in byId <==> ours && m != [])
    && (id in byId ==> byId[id] == m[0])
    && (id in duplicates <==> ours && |m| > 1)
  }

  ghost predicate IndexedUpTo(i: PlanInput, k: nat, byId: map<string, Container>, duplicates: set<string>)
    requires k <= |i.containers|
  {
    forall id {:trigger Matching(i.containers[..k], id)} ::
      IndexedAs(Assigned(i, id), Matching(i.containers[..k], id), id, byId, duplicates)
  }

  lemma MatchingNext(cs: seq<Container>, k: nat, id: string)
    requires k < |cs|
    ensures Matching(cs[..k + 1], id) == if cs[k].workerId == id then Matching(cs[..k], id) + [cs[k]] else Matching(cs[..k], id)
  {
    assert cs[..k + 1][..k] == cs[..k];
  }

  lemma IndexNext(i: PlanInput, k: nat, byId: map<string, Container>, duplicates: set<string>,
                  byId': map<string, Container>, duplicates': set<string>)
    requires k < |i.containers| && IndexedUpTo(i, k, byId, duplicates)
    requires var id := i.containers[k].workerId;
             if !Assigned(i, id) then byId' == byId && duplicates' == duplicates
             else if id in byId then byId' == byId && duplicates' == duplicates + {id}
             else byId' == byId[id := i.containers[k]] && duplicates' == duplicates
    ensures IndexedUpTo(i, k + 1, byId', duplicates')
  {
    forall x ensures IndexedAs(Assigned(i, x), Matching(i.containers[..k + 1], x), x, byId', duplicates') {
      assert IndexedAs(Assigned(i, x), Matching(i.containers[..k], x), x, byId, duplicates);
      MatchingNext(i.containers, k, x);
    }
  }

  /** The containers by worker id, and the ids a hand gave to more than one. */
  method Index(i: PlanInput) returns (byId: map<string, Container>, duplicates: set<string>)
    ensures forall id :: id in duplicates <==> Assigned(i, id) && Duplicated(i, id)
    ensures Indexed(i, byId)
  {
    var cs := i.containers;
    byId, duplicates := map[], {};
    for k := 0 to |cs|
      invariant IndexedUpTo(i, k, byId, duplicates)
    {
      var c := cs[k];
      ghost var before, twice := byId, duplicates;
      if WorkerIndex(i.hostId, c.workerId).Some? {
        if c.workerId in byId {
          duplicates := duplicates + {c.workerId};
        } else {
          byId := byId[c.workerId := c];
        }
      }
      IndexNext(i, k, before, twice, byId, duplicates);
    }
    assert cs[..|cs|] == cs;
    forall id ensures IndexedAs(Assigned(i, id), Matching(cs, id), id, byId, duplicates) {
      assert Matching(cs[..|cs|], id) == Matching(cs, id);
    }
    byId := byId - duplicates;
  }

  lemma {:induction false} ExtrasMembers(i: PlanInput, k: nat)
    requires k <= |i.containers|
    ensures forall c :: c in ExtrasUpTo(i, k) <==> c in i.containers[..k] && IsExtra(i, c)
  {
    if k > 0 {
      ExtrasMembers(i, k - 1);
      assert i.containers[..k] == i.containers[..k - 1] + [i.containers[k - 1]];
    }
  }

  lemma ExtrasAreSorted(i: PlanInput)
    ensures multiset(Extras(i)) == multiset(ExtrasUpTo(i, |i.containers|))
    ensures forall c :: c in Extras(i) <==> c in i.containers && IsExtra(i, c)
    ensures Sorting.Ascending(Extras(i), ByIndex(i.hostId))
  {
    var all := ExtrasUpTo(i, |i.containers|);
    Sorting.Sorts(all, ByIndex(i.hostId));
    ExtrasMembers(i, |i.containers|);
    assert i.containers[..|i.containers|] == i.containers;
    forall c ensures c in Extras(i) <==> c in all {
      assert c in Extras(i) <==> c in multiset(Extras(i));
      assert c in all <==> c in multiset(all);
    }
  }

  /** The containers numbered above the count, by number. */
  method SortedExtras(i: PlanInput, byId: map<string, Container>) returns (extras: seq<Container>)
    requires Indexed(i, byId)
    ensures extras == Extras(i)
  {
    extras := [];
    for k := 0 to |i.containers|
      invariant extras == ExtrasUpTo(i, k)
    {
      var c := i.containers[k];
      if c.workerId in byId && byId[c.workerId] == c && WorkerIndex(i.hostId, c.workerId).value > i.desired.count {
        extras := extras + [c];
      }
    }
    extras := Sorting.SortBy(extras, ByIndex(i.hostId));
  }

  function ExtraHold(i: PlanInput, c: Container): Option<HoldEntry> {
    var hold := InputHold(i, c);
    if hold.Some? && hold.value != OperatorNeeded && NewlyHeld(i, c) then Some(HoldEntry(c.id.value, hold.value)) else None
  }

  lemma ExtraHoldIsNew(i: PlanInput, c: Container)
    requires IsExtra(i, c)
    ensures NewHold(i, c.workerId) == ExtraHold(i, c)
  {
  }

  /** A hold decided above the count, or for one of the first `n` workers. */
  ghost predicate HoldDue(i: PlanInput, id: string, n: nat) {
    var m := WorkerIndex(i.hostId, id);
    NewHold(i, id).Some? && m.Some? && (m.value > i.desired.count || m.value <= n)
  }

  ghost function ExtraHoldsOf(i: PlanInput, extras: seq<Container>): map<string, HoldEntry> {
    if extras == [] then map[]
    else
      var c := extras[|extras| - 1];
      var holds := ExtraHoldsOf(i, extras[..|extras| - 1]);
      if ExtraHold(i, c).Some? then holds[c.workerId := ExtraHold(i, c).value] else holds
  }

  /** Removals above the count, and the holds to remember there. */
  method PlanExtras(i: PlanInput, extras: seq<Container>) returns (actions: seq<Action>, holds: map<string, HoldEntry>)
    ensures actions == RemovesOf(i, extras)
    ensures holds == ExtraHoldsOf(i, extras)
  {
    actions, holds := [], map[];
    for k := 0 to |extras|
      invariant actions == RemovesOf(i, extras[..k])
      invariant holds == ExtraHoldsOf(i, extras[..k])
    {
      var c := extras[k];
      assert extras[..k + 1][..k] == extras[..k];
      var hold := ExtraHold(i, c);
      if hold.Some? {
        holds := holds[c.workerId := hold.value];
      }
      if Removable(i, c) {
        actions := actions + [Remove(c.workerId, c.name)];
      }
    }
    assert extras[..|extras|] == extras;
  }

  lemma {:induction false} ExtraHoldsMembers(i: PlanInput, extras: seq<Container>)
    requires forall c :: c in extras ==> IsExtra(i, c)
    ensures forall id :: id in ExtraHoldsOf(i, extras) ==> NewHold(i, id) == Some(ExtraHoldsOf(i, extras)[id])
    ensures forall id :: id in ExtraHoldsOf(i, extras) ==> HoldDue(i, id, 0)
    ensures forall c :: c in extras && NewHold(i, c.workerId).Some? ==> c.workerId in ExtraHoldsOf(i, extras)
  {
    if extras != [] {
      var k := |extras| - 1;
      assert extras == extras[..k] + [extras[k]];
      ExtraHoldsMembers(i, extras[..k]);
      ExtraHoldIsNew(i, extras[k]);
    }
  }

  lemma ExtraHoldsAreNew(i: PlanInput)
    ensures var holds := ExtraHoldsOf(i, Extras(i));
            forall id :: (id in holds <==> HoldDue(i, id, 0)) && (id in holds ==> NewHold(i, id) == Some(holds[id]))
  {
    ExtrasAreSorted(i);
    ExtraHoldsMembers(i, Extras(i));
    forall id | HoldDue(i, id, 0) ensures id in ExtraHoldsOf(i, Extras(i)) {
      assert IsExtra(i, Lookup(i, id).value);
    }
  }

  ghost function WorkerHoldsUpTo(i: PlanInput, n: nat, extra: map<string, HoldEntry>): map<string, HoldEntry> {
    if n == 0 then extra
    else
      var holds := WorkerHoldsUpTo(i, n - 1, extra);
      var id := WorkerId(i.hostId, n);
      if NewHold(i, id).Some? then holds[id := NewHold(i, id).value] else holds
  }

  lemma HoldDueNext(i: PlanInput, id: string, n: nat)
    requires 0 < n <= i.desired.count
    ensures HoldDue(i, id, n) <==> HoldDue(i, id, n - 1) || (id == WorkerId(i.hostId, n) && NewHold(i, id).Some?)
  {
    WorkerIdRoundTrip(i.hostId, id, n);
  }

  lemma {:induction false} WorkerHoldsMembers(i: PlanInput, n: nat)
    requires n <= i.desired.count
    ensures var holds := WorkerHoldsUpTo(i, n, ExtraHoldsOf(i, Extras(i)));
            forall id :: (id in holds <==> HoldDue(i, id, n)) && (id in holds ==> NewHold(i, id) == Some(holds[id]))
  {
    if n == 0 {
      ExtraHoldsAreNew(i);
    } else {
      WorkerHoldsMembers(i, n - 1);
      forall id { HoldDueNext(i, id, n); }
    }
  }

  lemma WorkerHoldsAreAll(i: PlanInput)
    ensures WorkerHoldsUpTo(i, i.desired.count, ExtraHoldsOf(i, Extras(i))) == HoldsOf(i)
  {
    WorkerHoldsMembers(i, i.desired.count);
  }

  ghost predicate Served(i: PlanInput, removes: seq<Action>, queue: seq<Action>, actions: seq<Action>, started: bool, allowed: bool) {
    actions == removes + Granted(allowed, queue) && started == (allowed && queue != [])
  }

  lemma ServedNext(i: PlanInput, removes: seq<Action>, queue: seq<Action>, actions: seq<Action>, started: bool,
                   allowed: bool, candidate: Option<Action>, more: seq<Action>)
    requires Served(i, removes, queue, actions, started, allowed)
    requires more == queue + Listed(candidate)
    ensures Served(i, removes, more, TakeStart(actions, started, allowed, candidate).0,
                   TakeStart(actions, started, allowed, candidate).1, allowed)
  {
    TakeStartIsGranted(removes, queue, allowed, candidate);
  }

  method PlanRoll(i: PlanInput, byId: map<string, Container>) returns (roll: Option<Action>)
    requires Indexed(i, byId)
    ensures roll == RollCandidate(i)
  {
    roll := None;
    if i.desired.roll.Some? && i.desired.roll.value in byId {
      var target := byId[i.desired.roll.value];
      if CanCreate(i) && target.running && target.image != i.desired.image {
        var n := WorkerIndex(i.hostId, target.workerId).value;
        roll := Some(Replace(target.workerId, target.name, i.desired.image, VncPort(i.desired, target.workerId, n), false, false, false));
      }
    }
  }

  method PlanReplacement(i: PlanInput, id: string, byId: map<string, Container>) returns (candidate: Option<Action>)
    requires Indexed(i, byId)
    ensures candidate == RestartingCandidate(i, id)
  {
    var n := WorkerIndex(i.hostId, id);
    candidate := None;
    if n.Some? && n.value > i.desired.count && id !in byId && CanCreate(i) {
      candidate := Some(RunAction(i, id, n.value));
    }
  }

  /** The release's replacement, then the workers already stopped for one. */
  method PlanRelease(i: PlanInput, byId: map<string, Container>, removes: seq<Action>, allowed: bool)
    returns (actions: seq<Action>, started: bool)
    requires Indexed(i, byId)
    ensures Served(i, removes, Listed(RollCandidate(i)) + RestartingUpTo(i, |i.restarting|), actions, started, allowed)
  {
    actions, started := removes, false;
    assert removes == removes + Granted(allowed, []);
    var roll := PlanRoll(i, byId);
    ghost var first := Listed(roll);
    ServedNext(i, removes, [], actions, started, allowed, roll, first);
    var taken := TakeStart(actions, started, allowed, roll);
    actions, started := taken.0, taken.1;
    assert first == first + RestartingUpTo(i, 0);
    for k := 0 to |i.restarting|
      invariant Served(i, removes, first + RestartingUpTo(i, k), actions, started, allowed)
    {
      var candidate := PlanReplacement(i, i.restarting[k], byId);
      ghost var queue, more := first + RestartingUpTo(i, k), first + RestartingUpTo(i, k + 1);
      assert more == queue + Listed(candidate);
      ServedNext(i, removes, queue, actions, started, allowed, candidate, more);
      taken := TakeStart(actions, started, allowed, candidate);
      actions, started := taken.0, taken.1;
    }
  }

  /** Worker `n`: what this tick does with it, short of a licence outage. */
  method PlanWorker(i: PlanInput, n: nat, byId: map<string, Container>, duplicates: set<string>)
    returns (candidate: Option<Action>, hold: Option<HoldEntry>, outage: seq<Outage>)
    requires 0 < n <= i.desired.count
    requires forall id :: id in duplicates <==> Assigned(i, id) && Duplicated(i, id)
    requires Indexed(i, byId)
    ensures candidate == MainCandidate(i, n)
    ensures hold == NewHold(i, WorkerId(i.hostId, n))
    ensures OutagesUpTo(i, n) == OutagesUpTo(i, n - 1) + outage
  {
    var id := WorkerId(i.hostId, n);
    WorkerIdRoundTrip(i.hostId, id, n);
    MatchingMembers(i.containers, id);
    candidate, hold, outage := None, None, [];
    if id in duplicates { return; }
    if id !in byId {
      if CanCreate(i) { candidate := Some(RunAction(i, id, n)); }
      return;
    }
    var current := byId[id];
    if current.running { return; }
    var held := InputHold(i, current);
    if held == Some(OperatorNeeded) { return; }
    if held.Some? {
      if NewlyHeld(i, current) { hold := Some(HoldEntry(current.id.value, held.value)); }
      return;
    }
    if current.exitCode == Some(EXIT_LICENSE_OUTAGE) {
      outage := [OutageFor(i, n, current)];
      return;
    }
    if !ExitedFor(i, current, DelayOf(i, current)) { return; }
    if CrashLimited(i, current) {
      if current.id.Some? { hold := Some(HoldEntry(current.id.value, CrashLimit)); }
      return;
    }
    candidate := RestartCandidate(i, n, current, IsCrash(current.exitCode), !IsCrash(current.exitCode), false);
  }

  /** Workers 1 to the count, in order; those in a licence outage are put off. */
  method PlanWorkers(i: PlanInput, byId: map<string, Container>, duplicates: set<string>,
                     removes: seq<Action>, ghost before: seq<Action>, allowed: bool,
                     actions0: seq<Action>, started0: bool, holds0: map<string, HoldEntry>)
    returns (actions: seq<Action>, started: bool, holds: map<string, HoldEntry>, outages: seq<Outage>)
    requires forall id :: id in duplicates <==> Assigned(i, id) && Duplicated(i, id)
    requires Indexed(i, byId)
    requires Served(i, removes, before, actions0, started0, allowed)
    ensures Served(i, removes, before + MainUpTo(i, i.desired.count), actions, started, allowed)
    ensures holds == WorkerHoldsUpTo(i, i.desired.count, holds0)
    ensures outages == OutagesUpTo(i, i.desired.count)
  {
    hide Served, Indexed, Assigned, Duplicated, TakeStart, MainCandidate, NewHold, InOutage, OutageFor, Matching;
    actions, started, holds, outages := actions0, started0, holds0, [];
    assert before + MainUpTo(i, 0) == before;
    for n := 0 to i.desired.count
      invariant Served(i, removes, before + MainUpTo(i, n), actions, started, allowed)
      invariant outages == OutagesUpTo(i, n)
      invariant holds == WorkerHoldsUpTo(i, n, holds0)
    {
      var candidate, hold, outage := PlanWorker(i, n + 1, byId, duplicates);
      ghost var queue, more := before + MainUpTo(i, n), before + MainUpTo(i, n + 1);
      assert more == queue + Listed(candidate);
      ServedNext(i, removes, queue, actions, started, allowed, candidate, more);
      var taken := TakeStart(actions, started, allowed, candidate);
      actions, started := taken.0, taken.1;
      outages := outages + outage;
      if hold.Some? { holds := holds[WorkerId(i.hostId, n + 1) := hold.value]; }
    }
  }

  /** The one worker of the host that probes a licence outage, when its wait is over. */
  method PlanProbe(i: PlanInput, byId: map<string, Container>, outages: seq<Outage>) returns (candidate: Option<Action>)
    requires Indexed(i, byId)
    ensures candidate == ProbeCandidate(i, outages)
  {
    candidate := None;
    var probe := FirstWaiting(outages);
    if probe.Some? {
      var delay := OutageDelay(RetryOf(i, probe.value.current.workerId));
      var inFlight := exists id :: id in byId && byId[id].running && id in i.outage;
      if !inFlight && ExitedFor(i, probe.value.current, delay) {
        candidate := OutageCandidate(i, probe.value);
      }
    }
  }

  /** Licence outages, after every other start: the recovered ones, then one probe for the host. */
  method PlanOutages(i: PlanInput, byId: map<string, Container>, outages: seq<Outage>,
                     removes: seq<Action>, ghost before: seq<Action>, allowed: bool,
                     actions0: seq<Action>, started0: bool)
    returns (actions: seq<Action>, started: bool)
    requires Indexed(i, byId)
    requires Served(i, removes, before, actions0, started0, allowed)
    ensures Served(i, removes, before + RecoveredUpTo(i, outages) + Listed(ProbeCandidate(i, outages)), actions, started, allowed)
  {
    actions, started := actions0, started0;
    ghost var queue := before;
    assert before + RecoveredUpTo(i, []) == before;
    for k := 0 to |outages|
      invariant queue == before + RecoveredUpTo(i, outages[..k])
      invariant Served(i, removes, queue, actions, started, allowed)
    {
      assert outages[..k + 1][..k] == outages[..k];
      var candidate := if outages[k].recovered then OutageCandidate(i, outages[k]) else None;
      ghost var more := before + RecoveredUpTo(i, outages[..k + 1]);
      assert more == queue + Listed(candidate);
      ServedNext(i, removes, queue, actions, started, allowed, candidate, more);
      var taken := TakeStart(actions, started, allowed, candidate);
      actions, started, queue := taken.0, taken.1, more;
    }
    assert outages[..|outages|] == outages;
    var candidate := PlanProbe(i, byId, outages);
    ServedNext(i, removes, queue, actions, started, allowed, candidate, queue + Listed(candidate));
    var taken := TakeStart(actions, started, allowed, candidate);
    actions, started := taken.0, taken.1;
  }

  method Plan(i: PlanInput) returns (p: PlanResult)
    ensures p == Decided(i)
  {
    var last := EffectiveLastStart(i.lastStartAt, i.containers, i.now);
    if !i.desired.authoritative {
      return PlanResult([], map[], last);
    }
    var byId, duplicates := Index(i);
    var extras := SortedExtras(i, byId);
    var removes, holds := PlanExtras(i, extras);
    var allowed := StartAllowed(i, last);
    var actions, started := PlanRelease(i, byId, removes, allowed);
    var outages;
    actions, started, holds, outages := PlanWorkers(
      i, byId, duplicates, removes, Listed(RollCandidate(i)) + RestartingUpTo(i, |i.restarting|), allowed, actions, started, holds);
    actions, started := PlanOutages(i, byId, outages, removes, OtherCandidates(i), allowed, actions, started);
    WorkerHoldsAreAll(i);
    p := PlanResult(actions, holds, last);
  }
}
