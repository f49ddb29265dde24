/**
 * What one tick's plan is for, said over the containers and the memory alone: who waits for a person, who wants
 * the tick's one start and in which order, what is removed, and what is to be remembered as held. The plan
 * does exactly that.
 */
module PlanMeaning {
  import opened Options
  import opened FleetTypes
  import opened FleetPlan
  import opened PlanGuarantees
  import Decimal
  import Sorting

  // ---- the containers of a worker ----

  /** The worker this host numbers `n`. */
  predicate Numbered(i: PlanInput, id: string, n: nat) { n > 0 && id == i.hostId + "-" + Decimal.Print(n) }

  /** The worker has this container and no other. */
  ghost predicate Only(cs: seq<Container>, id: string, c: Container) {
    c.workerId == id
    && exists k :: 0 <= k < |cs| && cs[k] == c && forall j :: 0 <= j < |cs| && cs[j].workerId == id ==> j == k
  }

  ghost predicate Absent(cs: seq<Container>, id: string) { forall c :: c in cs ==> c.workerId != id }

  lemma {:induction false} NoneMatch(cs: seq<Container>, id: string)
    ensures Matching(cs, id) == [] <==> Absent(cs, id)
  {
    MatchingMembers(cs, id);
    if Matching(cs, id) != [] { assert Matching(cs, id)[0] in Matching(cs, id); }
    if !Absent(cs, id) {
      var c :| c in cs && c.workerId == id;
      assert c in Matching(cs, id);
    }
  }

  lemma {:induction false} OneMatches(cs: seq<Container>, id: string, c: Container)
    ensures Matching(cs, id) == [c] <==> Only(cs, id, c)
  {
    if cs != [] {
      var k := |cs| - 1;
      var front, last := cs[..k], cs[k];
      OneMatches(front, id, c);
      NoneMatch(front, id);
      if last.workerId == id {
        assert Matching(cs, id) == Matching(front, id) + [last];
        if Matching(front, id) == [] {
          assert Matching(cs, id) == [last];
          LastIsOnly(cs, id, c);
        } else {
          var x :| x in front && x.workerId == id;
          assert |Matching(cs, id)| >= 2;
          TwoAreNotOne(cs, id, c, x);
        }
      } else {
        OtherLast(cs, id, c);
      }
    }
  }

  lemma LastIsOnly(cs: seq<Container>, id: string, c: Container)
    requires cs != [] && cs[|cs| - 1].workerId == id && Absent(cs[..|cs| - 1], id)
    ensures Only(cs, id, c) <==> c == cs[|cs| - 1]
  {
    var k := |cs| - 1;
    forall j | 0 <= j < k ensures cs[j].workerId != id { assert cs[..k][j] == cs[j]; }
  }

  lemma TwoAreNotOne(cs: seq<Container>, id: string, c: Container, x: Container)
    requires cs != [] && cs[|cs| - 1].workerId == id && x in cs[..|cs| - 1] && x.workerId == id
    ensures !Only(cs, id, c)
  {
    var j :| 0 <= j < |cs| - 1 && cs[j] == x;
  }

  lemma OtherLast(cs: seq<Container>, id: string, c: Container)
    requires cs != [] && cs[|cs| - 1].workerId != id
    ensures Only(cs, id, c) <==> Only(cs[..|cs| - 1], id, c)
  {
    var front := cs[..|cs| - 1];
    if Only(front, id, c) {
      var k :| 0 <= k < |front| && front[k] == c && forall j :: 0 <= j < |front| && front[j].workerId == id ==> j == k;
      assert cs[k] == c;
      forall j | 0 <= j < |cs| && cs[j].workerId == id ensures j == k { assert front[j] == cs[j]; }
    }
    if Only(cs, id, c) {
      var k :| 0 <= k < |cs| && cs[k] == c && forall j :: 0 <= j < |cs| && cs[j].workerId == id ==> j == k;
      assert front[k] == c;
    }
  }

  lemma NumberIsIndex(i: PlanInput, id: string, n: nat)
    ensures Numbered(i, id, n) <==> WorkerIndex(i.hostId, id) == Some(n)
    ensures n > 0 ==> Numbered(i, WorkerId(i.hostId, n), n)
  {
    WorkerIdRoundTrip(i.hostId, id, n);
  }

  lemma LookupIsOnly(i: PlanInput, id: string, n: nat, c: Container)
    requires Numbered(i, id, n)
    ensures Lookup(i, id) == Some(c) <==> Only(i.containers, id, c)
  {
    NumberIsIndex(i, id, n);
    OneMatches(i.containers, id, c);
    var m := Matching(i.containers, id);
    if |m| == 1 { assert m == [m[0]]; }
  }

  // ---- who waits for a person ----

  /** It went down in order while this agent was up, and not because this agent stopped it. */
  predicate StoppedByPerson(i: PlanInput, c: Container) {
    && !c.running && (c.exitCode == Some(0) || c.exitCode == Some(143))
    && c.finishedAt.Some? && c.finishedAt.value >= i.bootAt
    && (c.workerId in i.selfStopped ==> c.finishedAt.value < i.selfStopped[c.workerId] - 5000.0)
  }

  predicate Remembered(i: PlanInput, c: Container) { c.workerId in i.held && c.id == Some(i.held[c.workerId].container) }

  predicate WaitsForPerson(i: PlanInput, c: Container) {
    !c.running && (c.exitCode == Some(78) || Remembered(i, c) || StoppedByPerson(i, c))
  }

  lemma WaitsIsHeld(i: PlanInput, c: Container)
    ensures InputHold(i, c).Some? <==> WaitsForPerson(i, c)
    ensures !Remembered(i, c) && c.exitCode != Some(78) && WaitsForPerson(i, c) ==> InputHold(i, c) == Some(OperatorStopped)
    ensures InputHold(i, c) == Some(OperatorNeeded) <==> !c.running && c.exitCode == Some(78)
  {
  }

  // ---- crashes, delays and limits ----

  predicate Crashed(c: Container) { c.exitCode.None? || c.exitCode.value !in {0, 70, 74, 75, 78, 143} }

  /** How many of the times lie in the last half hour. */
  function Lately(times: seq<Millis>, now: Millis): nat {
    if times == [] then 0
    else Lately(times[..|times| - 1], now) + (if times[|times| - 1] > now - 1800000.0 then 1 else 0)
  }

  lemma {:induction false} LatelyJoins(t: Millis, rest: seq<Millis>, now: Millis)
    ensures Lately([t] + rest, now) == (if t > now - 1800000.0 then 1 else 0) + Lately(rest, now)
  {
    if rest == [] {
      assert [t] + rest == [t] && [t][..0] == [];
    } else {
      var k := |rest| - 1;
      LatelyJoins(t, rest[..k], now);
      assert ([t] + rest)[..k + 1] == [t] + rest[..k];
    }
  }

  lemma {:induction false} LatelyIsRecent(times: seq<Millis>, now: Millis)
    ensures |Recent(times, now)| == Lately(times, now)
  {
    if times != [] {
      LatelyIsRecent(times[1..], now);
      LatelyJoins(times[0], times[1..], now);
      assert times == [times[0]] + times[1..];
    }
  }

  function Listing(lists: map<string, seq<Millis>>, id: string): seq<Millis> { if id in lists then lists[id] else [] }

  predicate AtCrashLimit(i: PlanInput, c: Container) { Crashed(c) && Lately(Listing(i.restarts, c.workerId), i.now) >= 5 }

  /** A minute; ten after a failed claim, and after a no-slot exit that was retried five times lately. */
  function Pause(i: PlanInput, c: Container): Millis {
    if c.exitCode == Some(70) || (c.exitCode == Some(75) && Lately(Listing(i.softRestarts, c.workerId), i.now) >= 5)
    then 600000.0 else 60000.0
  }

  predicate Down(i: PlanInput, c: Container, pause: Millis) { c.finishedAt.Some? ==> c.finishedAt.value <= i.now - pause }

  lemma SameNumbers(i: PlanInput, c: Container)
    ensures CrashLimited(i, c) <==> AtCrashLimit(i, c)
    ensures ExitedFor(i, c, DelayOf(i, c)) <==> Down(i, c, Pause(i, c))
    ensures IsCrash(c.exitCode) <==> Crashed(c)
  {
    LatelyIsRecent(TimesOf(i.restarts, c.workerId), i.now);
    LatelyIsRecent(TimesOf(i.softRestarts, c.workerId), i.now);
  }

  // ---- who wants the tick's start ----

  predicate MayCreate(i: PlanInput) { i.online && i.imageAllowed }

  function Port(i: PlanInput, id: string, n: nat): int { if id in i.desired.ports then i.desired.ports[id] else 5900 + n }

  predicate RunsNew(i: PlanInput, id: string, n: nat, a: Action) {
    MayCreate(i) && a == Run(id, "rs-fleet-" + id, i.desired.image, Port(i, id, n))
  }

  /** An exited container comes back: recreated where that can be, and else started, unless its claim is spent. */
  predicate BringsBack(i: PlanInput, n: nat, c: Container, counted: bool, soft: bool, outage: bool, a: Action) {
    if MayCreate(i) && i.desired.leases.Some?
    then a == Replace(c.workerId, c.name, i.desired.image, Port(i, c.workerId, n), counted, soft, outage)
    else !c.handoff && !c.ticket && a == Start(c.workerId, c.name, counted, soft, outage)
  }

  /** The release replaces its running worker that has another image. */
  ghost predicate ReleaseWants(i: PlanInput, n: nat, c: Container, a: Action) {
    && i.desired.roll == Some(c.workerId) && Numbered(i, c.workerId, n) && Only(i.containers, c.workerId, c)
    && MayCreate(i) && c.running && c.image != i.desired.image
    && a == Replace(c.workerId, c.name, i.desired.image, Port(i, c.workerId, n), false, false, false)
  }

  /** A worker above the count, stopped for its replacement, is run again unless one container of it is there. */
  ghost predicate StoppedWants(i: PlanInput, k: nat, n: nat, a: Action) {
    k < |i.restarting| && Numbered(i, i.restarting[k], n) && n > i.desired.count
    && (forall c :: !Only(i.containers, i.restarting[k], c)) && RunsNew(i, i.restarting[k], n, a)
  }

  /** One of the counted workers is missing, or exited, waits for nobody, and its pause is over. */
  ghost predicate WorkerWants(i: PlanInput, n: nat, id: string, a: Action) {
    && Numbered(i, id, n) && n <= i.desired.count
    && ((Absent(i.containers, id) && RunsNew(i, id, n, a))
        || exists c :: Only(i.containers, id, c) && ExitedWants(i, n, c, a))
  }

  ghost predicate ExitedWants(i: PlanInput, n: nat, c: Container, a: Action) {
    && !c.running && !WaitsForPerson(i, c) && c.exitCode != Some(74)
    && Down(i, c, Pause(i, c)) && !AtCrashLimit(i, c)
    && BringsBack(i, n, c, Crashed(c), !Crashed(c), false, a)
  }

  /** One of the counted workers exited on a licence outage. */
  ghost predicate OutageAt(i: PlanInput, n: nat, c: Container) {
    && Numbered(i, c.workerId, n) && n <= i.desired.count && Only(i.containers, c.workerId, c)
    && !c.running && !WaitsForPerson(i, c) && c.exitCode == Some(74)
  }

  /** The outage was seen to be over after it exited. */
  predicate IsOver(i: PlanInput, c: Container) {
    i.recoveredAt.Some? && i.recoveredAt.value != 0.0 && c.finishedAt.Some? && c.finishedAt.value < i.recoveredAt.value
  }

  ghost predicate OverWants(i: PlanInput, n: nat, c: Container, a: Action) {
    OutageAt(i, n, c) && IsOver(i, c) && BringsBack(i, n, c, false, false, true, a)
  }

  /** Five minutes, doubled per attempt up to an hour, and up to a quarter more. */
  function Wait(i: PlanInput, id: string): Millis {
    var r := if id in i.outage then i.outage[id] else Retry(0, 0.0);
    var w := if r.attempts == 0 then 300000.0 else if r.attempts == 1 then 600000.0
             else if r.attempts == 2 then 1200000.0 else if r.attempts == 3 then 2400000.0 else 3600000.0;
    w + w * r.jitter / 4.0
  }

  /** The host's one probe: the first whose outage is not over, when none is running and its wait is. */
  ghost predicate ProbeWants(i: PlanInput, n: nat, c: Container, a: Action) {
    && OutageAt(i, n, c) && !IsOver(i, c)
    && (forall m: nat, d: Container :: m < n && OutageAt(i, m, d) ==> IsOver(i, d))
    && !(exists m: nat, d: Container :: Numbered(i, d.workerId, m) && Only(i.containers, d.workerId, d) && d.running && d.workerId in i.outage)
    && Down(i, c, Wait(i, c.workerId))
    && BringsBack(i, n, c, false, false, true, a)
  }

  // ---- each wish is a candidate of the plan ----

  lemma BringsBackIs(i: PlanInput, n: nat, c: Container, counted: bool, soft: bool, outage: bool, a: Action)
    ensures RestartCandidate(i, n, c, counted, soft, outage) == Some(a) <==> BringsBack(i, n, c, counted, soft, outage, a)
  {
  }

  lemma RunsNewIs(i: PlanInput, id: string, n: nat, a: Action)
    ensures RunsNew(i, id, n, a) <==> CanCreate(i) && RunAction(i, id, n) == a
  {
  }

  lemma ReleaseIs(i: PlanInput, a: Action)
    ensures RollCandidate(i) == Some(a) <==> exists n, c :: ReleaseWants(i, n, c, a)
  {
    if RollCandidate(i) == Some(a) {
      var id := i.desired.roll.value;
      assert Assigned(i, id);
      var c, n := Lookup(i, id).value, WorkerIndex(i.hostId, id).value;
      NumberIsIndex(i, id, n);
      LookupIsOnly(i, id, n, c);
      assert ReleaseWants(i, n, c, a);
    }
    if n, c :| ReleaseWants(i, n, c, a) {
      NumberIsIndex(i, c.workerId, n);
      LookupIsOnly(i, c.workerId, n, c);
    }
  }

  lemma StoppedIs(i: PlanInput, k: nat, a: Action)
    requires k < |i.restarting|
    ensures RestartingCandidate(i, i.restarting[k]) == Some(a) <==> exists n :: StoppedWants(i, k, n, a)
  {
    var id := i.restarting[k];
    if WorkerIndex(i.hostId, id).Some? {
      var n := WorkerIndex(i.hostId, id).value;
      NumberIsIndex(i, id, n);
      forall c ensures Lookup(i, id) == Some(c) <==> Only(i.containers, id, c) { LookupIsOnly(i, id, n, c); }
      if Lookup(i, id).Some? { assert Only(i.containers, id, Lookup(i, id).value); }
      RunsNewIs(i, id, n, a);
      assert RestartingCandidate(i, id) == Some(a) ==> StoppedWants(i, k, n, a);
    }
    forall n: nat | Numbered(i, id, n) ensures WorkerIndex(i.hostId, id) == Some(n) { NumberIsIndex(i, id, n); }
  }

  lemma ExitedIs(i: PlanInput, n: nat, c: Container, a: Action)
    requires Matching(i.containers, WorkerId(i.hostId, n)) == [c]
    ensures MainCandidate(i, n) == Some(a) <==> ExitedWants(i, n, c, a)
  {
    WaitsIsHeld(i, c);
    SameNumbers(i, c);
    BringsBackIs(i, n, c, IsCrash(c.exitCode), !IsCrash(c.exitCode), false, a);
  }

  lemma WorkerIs(i: PlanInput, n: nat, a: Action)
    requires 0 < n <= i.desired.count
    ensures MainCandidate(i, n) == Some(a) <==> WorkerWants(i, n, WorkerId(i.hostId, n), a)
  {
    var id := WorkerId(i.hostId, n);
    var m := Matching(i.containers, id);
    NumberIsIndex(i, id, n);
    NoneMatch(i.containers, id);
    forall c ensures m == [c] <==> Only(i.containers, id, c) { OneMatches(i.containers, id, c); }
    if m == [] {
      RunsNewIs(i, id, n, a);
    } else if |m| == 1 {
      assert m == [m[0]];
      ExitedIs(i, n, m[0], a);
    }
  }

  lemma OutageIs(i: PlanInput, n: nat, c: Container)
    requires 0 < n <= i.desired.count
    ensures OutageAt(i, n, c) <==> Matching(i.containers, WorkerId(i.hostId, n)) == [c] && InOutage(i, c)
  {
    NumberIsIndex(i, c.workerId, n);
    WorkerIdRoundTrip(i.hostId, c.workerId, n);
    OneMatches(i.containers, WorkerId(i.hostId, n), c);
    MatchingMembers(i.containers, WorkerId(i.hostId, n));
    WaitsIsHeld(i, c);
  }

  lemma OverIs(i: PlanInput, c: Container)
    ensures Recovered(i, c) <==> IsOver(i, c)
  {
  }

  lemma WaitIs(i: PlanInput, c: Container)
    ensures ExitedFor(i, c, OutageDelay(RetryOf(i, c.workerId))) <==> Down(i, c, Wait(i, c.workerId))
  {
    WaitCases(RetryOf(i, c.workerId).attempts);
  }

  lemma InFlightIs(i: PlanInput)
    ensures ProbeInFlight(i)
            <==> exists m: nat, d: Container :: Numbered(i, d.workerId, m) && Only(i.containers, d.workerId, d) && d.running && d.workerId in i.outage
  {
    if ProbeInFlight(i) {
      var id :| Lookup(i, id).Some? && Lookup(i, id).value.running && id in i.outage;
      var d, m := Lookup(i, id).value, WorkerIndex(i.hostId, id).value;
      NumberIsIndex(i, id, m);
      LookupIsOnly(i, id, m, d);
      assert Numbered(i, d.workerId, m) && Only(i.containers, d.workerId, d);
    }
    if m: nat, d: Container :| Numbered(i, d.workerId, m) && Only(i.containers, d.workerId, d) && d.running && d.workerId in i.outage {
      LookupIsOnly(i, d.workerId, m, d);
    }
  }

  // ---- the queue is the wishes in their order ----

  /** Who asks: the release, the stopped ones in their order, the workers by number, outages that are over, a probe. */
  datatype Place = Place(group: nat, index: nat)

  predicate Sooner(p: Place, q: Place) { p.group < q.group || (p.group == q.group && p.index < q.index) }

  /** From this place, `a` is wanted. */
  ghost predicate Wants(i: PlanInput, p: Place, a: Action) {
    match p.group
    case 0 => p.index == 0 && exists n: nat, c: Container :: ReleaseWants(i, n, c, a)
    case 1 => exists n: nat :: StoppedWants(i, p.index, n, a)
    case 2 => exists id: string :: WorkerWants(i, p.index, id, a)
    case 3 => exists c: Container :: OverWants(i, p.index, c, a)
    case 4 => p.index == 0 && exists n: nat, c: Container :: ProbeWants(i, n, c, a)
    case _ => false
  }

  /** What the plan's queue holds at a place. */
  ghost function Queued(i: PlanInput, p: Place): Option<Action> {
    match p.group
    case 0 => if p.index == 0 then RollCandidate(i) else None
    case 1 => if p.index < |i.restarting| then RestartingCandidate(i, i.restarting[p.index]) else None
    case 2 => if 0 < p.index <= i.desired.count then MainCandidate(i, p.index) else None
    case 3 => if 0 < p.index <= i.desired.count then OverAt(i, p.index) else None
    case 4 => if p.index == 0 then ProbeCandidate(i, OutagesUpTo(i, i.desired.count)) else None
    case _ => None
  }

  ghost function OverAt(i: PlanInput, n: nat): Option<Action> {
    var m := Matching(i.containers, WorkerId(i.hostId, n));
    if |m| == 1 && InOutage(i, m[0]) && Recovered(i, m[0]) then OutageCandidate(i, OutageFor(i, n, m[0])) else None
  }

  lemma OverAtIs(i: PlanInput, n: nat, a: Action)
    requires 0 < n <= i.desired.count
    ensures OverAt(i, n) == Some(a) <==> exists c: Container :: OverWants(i, n, c, a)
  {
    var m := Matching(i.containers, WorkerId(i.hostId, n));
    forall c ensures OutageAt(i, n, c) <==> m == [c] && InOutage(i, c) { OutageIs(i, n, c); }
    if |m| == 1 {
      assert m == [m[0]];
      OverIs(i, m[0]);
      BringsBackIs(i, n, m[0], false, false, true, a);
      if OverAt(i, n) == Some(a) { assert OverWants(i, n, m[0], a); }
    }
  }

  /** The first outage not over, by number. */
  ghost predicate FirstOutage(i: PlanInput, n: nat, top: nat, c: Container) {
    0 < n <= top && OutageAt(i, n, c) && !IsOver(i, c) && forall m: nat, d: Container :: m < n && OutageAt(i, m, d) ==> IsOver(i, d)
  }

  lemma {:induction false} WaitingJoins(a: seq<Outage>, o: Outage)
    ensures FirstWaiting(a + [o])
            == if FirstWaiting(a).Some? then FirstWaiting(a) else if o.recovered then None else Some(o)
    ensures FirstWaiting(a).None? <==> forall x :: x in a ==> x.recovered
  {
    if a == [] {
      assert a + [o] == [o] && [o][1..] == [];
    } else {
      assert (a + [o])[1..] == a[1..] + [o] && a == [a[0]] + a[1..];
      WaitingJoins(a[1..], o);
    }
  }

  /** Until `n` all outages are over, or the first that is not is the one waiting. */
  ghost predicate WaitingIs(i: PlanInput, n: nat, probe: Option<Outage>) {
    if probe.None? then forall m: nat, d: Container :: m <= n && OutageAt(i, m, d) ==> IsOver(i, d)
    else FirstOutage(i, probe.value.n, n, probe.value.current)
  }

  lemma WaitingStep(i: PlanInput, n: nat, before: Option<Outage>, outages: seq<Outage>)
    requires 0 < n <= i.desired.count && WaitingIs(i, n - 1, before) && before == FirstWaiting(outages)
    ensures var m := Matching(i.containers, WorkerId(i.hostId, n));
            WaitingIs(i, n, FirstWaiting(outages + (if |m| == 1 && InOutage(i, m[0]) then [OutageFor(i, n, m[0])] else [])))
  {
    var m := Matching(i.containers, WorkerId(i.hostId, n));
    forall c ensures OutageAt(i, n, c) <==> m == [c] && InOutage(i, c) { OutageIs(i, n, c); }
    if |m| == 1 && InOutage(i, m[0]) {
      assert m == [m[0]];
      OverIs(i, m[0]);
      WaitingJoins(outages, OutageFor(i, n, m[0]));
    } else {
      assert outages + [] == outages;
    }
  }

  lemma {:induction false} WaitingIsFirst(i: PlanInput, n: nat)
    requires n <= i.desired.count
    ensures WaitingIs(i, n, FirstWaiting(OutagesUpTo(i, n)))
  {
    if n > 0 {
      WaitingIsFirst(i, n - 1);
      WaitingStep(i, n, FirstWaiting(OutagesUpTo(i, n - 1)), OutagesUpTo(i, n - 1));
    }
  }

  lemma ProbeIs(i: PlanInput, a: Action)
    ensures ProbeCandidate(i, OutagesUpTo(i, i.desired.count)) == Some(a) <==> exists n: nat, c: Container :: ProbeWants(i, n, c, a)
  {
    var probe := FirstWaiting(OutagesUpTo(i, i.desired.count));
    WaitingIsFirst(i, i.desired.count);
    InFlightIs(i);
    if probe.Some? {
      var n, c := probe.value.n, probe.value.current;
      WaitIs(i, c);
      BringsBackIs(i, n, c, false, false, true, a);
      forall m: nat, d: Container | ProbeWants(i, m, d, a) ensures m == n && d == c { SameFirst(i, n, c, m, d); }
      if ProbeCandidate(i, OutagesUpTo(i, i.desired.count)) == Some(a) { assert ProbeWants(i, n, c, a); }
    }
  }

  lemma SameFirst(i: PlanInput, n: nat, c: Container, m: nat, d: Container)
    requires FirstOutage(i, n, i.desired.count, c)
    requires OutageAt(i, m, d) && !IsOver(i, d) && forall k: nat, e: Container :: k < m && OutageAt(i, k, e) ==> IsOver(i, e)
    ensures m == n && d == c
  {
    assert !(m < n);
    assert !(n < m);
    OutageIs(i, n, c);
    OutageIs(i, m, d);
  }

  /** What the queue holds at a place is what is wanted there. */
  lemma QueuedIs(i: PlanInput, p: Place, a: Action)
    ensures Queued(i, p) == Some(a) <==> Wants(i, p, a)
  {
    match p.group {
      case 0 => ReleaseIs(i, a);
      case 1 => if p.index < |i.restarting| { StoppedIs(i, p.index, a); }
      case 2 =>
        if 0 < p.index <= i.desired.count {
          WorkerIs(i, p.index, a);
          forall id | Numbered(i, id, p.index) ensures id == WorkerId(i.hostId, p.index) { WorkerIdRoundTrip(i.hostId, id, p.index); }
        }
      case 3 => if 0 < p.index <= i.desired.count { OverAtIs(i, p.index, a); }
      case 4 => ProbeIs(i, a);
      case _ =>
    }
  }

  lemma HeadOfTwo(a: seq<Action>, b: Option<Action>)
    ensures if a != [] then a + Listed(b) != [] && (a + Listed(b))[0] == a[0]
            else if b.Some? then a + Listed(b) != [] && (a + Listed(b))[0] == b.value else a + Listed(b) == []
  {
  }

  lemma {:induction false} MainHead(i: PlanInput, n: nat) returns (k: nat)
    ensures if MainUpTo(i, n) == [] then forall m :: 0 < m <= n ==> MainCandidate(i, m).None?
            else 0 < k <= n && MainCandidate(i, k) == Some(MainUpTo(i, n)[0]) && forall m :: 0 < m < k ==> MainCandidate(i, m).None?
  {
    hide MainCandidate, Listed;
    k := 0;
    if n > 0 {
      k := MainHead(i, n - 1);
      HeadOfTwo(MainUpTo(i, n - 1), MainCandidate(i, n));
      if MainUpTo(i, n - 1) == [] { k := n; }
    }
  }

  lemma {:induction false} StoppedHead(i: PlanInput, n: nat) returns (k: nat)
    requires n <= |i.restarting|
    ensures if RestartingUpTo(i, n) == [] then forall m :: 0 <= m < n ==> RestartingCandidate(i, i.restarting[m]).None?
            else k < n && RestartingCandidate(i, i.restarting[k]) == Some(RestartingUpTo(i, n)[0])
                 && forall m :: 0 <= m < k ==> RestartingCandidate(i, i.restarting[m]).None?
  {
    hide RestartingCandidate, Listed;
    k := 0;
    if n > 0 {
      k := StoppedHead(i, n - 1);
      HeadOfTwo(RestartingUpTo(i, n - 1), RestartingCandidate(i, i.restarting[n - 1]));
      if RestartingUpTo(i, n - 1) == [] { k := n - 1; }
    }
  }

  lemma OverStep(i: PlanInput, n: nat)
    requires n > 0
    ensures RecoveredUpTo(i, OutagesUpTo(i, n)) == RecoveredUpTo(i, OutagesUpTo(i, n - 1)) + Listed(OverAt(i, n))
  {
    var before := OutagesUpTo(i, n - 1);
    var m := Matching(i.containers, WorkerId(i.hostId, n));
    if |m| == 1 && InOutage(i, m[0]) {
      var o := OutageFor(i, n, m[0]);
      assert (before + [o])[..|before|] == before;
    } else {
      assert before + [] == before;
      assert RecoveredUpTo(i, before) + [] == RecoveredUpTo(i, before);
    }
  }

  lemma {:induction false} OverHead(i: PlanInput, n: nat) returns (k: nat)
    ensures var over := RecoveredUpTo(i, OutagesUpTo(i, n));
            if over == [] then forall m :: 0 < m <= n ==> OverAt(i, m).None?
            else 0 < k <= n && OverAt(i, k) == Some(over[0]) && forall m :: 0 < m < k ==> OverAt(i, m).None?
  {
    hide OverAt, Listed;
    k := 0;
    if n > 0 {
      k := OverHead(i, n - 1);
      var before := RecoveredUpTo(i, OutagesUpTo(i, n - 1));
      OverStep(i, n);
      HeadOfTwo(before, OverAt(i, n));
      if before == [] { k := n; }
    }
  }

  ghost predicate NothingBefore(i: PlanInput, p: Place) { forall q :: Sooner(q, p) ==> Queued(i, q).None? }

  lemma HeadOfFive(a: seq<Action>, b: seq<Action>, c: seq<Action>, d: seq<Action>, e: seq<Action>)
    ensures var all := ((a + b) + c) + d + e;
            if a != [] then all != [] && all[0] == a[0]
            else if b != [] then all != [] && all[0] == b[0]
            else if c != [] then all != [] && all[0] == c[0]
            else if d != [] then all != [] && all[0] == d[0]
            else all == e
  {
  }

  /** The head of the queue stands at the first place that holds anything. */
  lemma HeadPlace(i: PlanInput) returns (p: Place)
    ensures if Candidates(i) == [] then forall q :: Queued(i, q).None?
            else Queued(i, p) == Some(Candidates(i)[0]) && NothingBefore(i, p)
  {
    hide RollCandidate, RestartingCandidate, MainCandidate, OverAt, ProbeCandidate, RestartingUpTo, MainUpTo, RecoveredUpTo, OutagesUpTo;
    var outages := OutagesUpTo(i, i.desired.count);
    var stopped, main, over := RestartingUpTo(i, |i.restarting|), MainUpTo(i, i.desired.count), RecoveredUpTo(i, outages);
    var k1 := StoppedHead(i, |i.restarting|);
    var k2 := MainHead(i, i.desired.count);
    var k3 := OverHead(i, i.desired.count);
    HeadOfFive(Listed(RollCandidate(i)), stopped, main, over, Listed(ProbeCandidate(i, outages)));
    p := if RollCandidate(i).Some? then Place(0, 0) else if stopped != [] then Place(1, k1)
         else if main != [] then Place(2, k2) else if over != [] then Place(3, k3) else Place(4, 0);
  }

  /** Every login known of is a stagger ago; one dated in the future counts as now. */
  ghost predicate StaggerOver(i: PlanInput) {
    && (i.lastStartAt.Some? ==> LongAgo(i, i.lastStartAt.value))
    && forall c :: c in i.containers && c.startedAt.Some? ==> LongAgo(i, c.startedAt.value)
  }

  predicate LongAgo(i: PlanInput, t: Millis) { i.now - (if t > i.now then i.now else t) >= i.stagger }

  lemma StaggerIs(i: PlanInput)
    ensures StartAllowed(i, LastStart(i.lastStartAt, i.containers, i.now)) <==> StaggerOver(i)
  {
    NewestCovers(i.lastStartAt, i.containers);
    var newest := Newest(i.lastStartAt, i.containers);
    if StaggerOver(i) && newest.Some? && newest != i.lastStartAt {
      var c :| c in i.containers && c.startedAt == newest;
      assert LongAgo(i, c.startedAt.value);
    }
  }

  ghost predicate IsFirstWish(i: PlanInput, p: Place, a: Action) {
    Wants(i, p, a) && forall q, b :: Sooner(q, p) ==> !Wants(i, q, b)
  }

  lemma FirstIsFirst(i: PlanInput, p: Place, a: Action)
    ensures Queued(i, p) == Some(a) && NothingBefore(i, p) <==> IsFirstWish(i, p, a)
  {
    hide Queued, Wants;
    QueuedIs(i, p, a);
    forall q, b ensures Queued(i, q) == Some(b) <==> Wants(i, q, b) { QueuedIs(i, q, b); }
    if IsFirstWish(i, p, a) {
      forall q | Sooner(q, p) ensures Queued(i, q).None? {
        match Queued(i, q) { case None => case Some(b) => QueuedIs(i, q, b); }
      }
    }
  }

  /**
   * The plan starts exactly what the first place wants, when the ERP's word is fresh enough to act on and
   * every known login is a stagger ago; and nothing else.
   */
  lemma StartIsTheFirstWish(i: PlanInput, a: Action)
    requires StartLike(a)
    ensures a in ActionsOf(i) <==> i.desired.authoritative && StaggerOver(i) && exists p :: IsFirstWish(i, p, a)
  {
    hide Queued, Wants, NothingBefore, IsFirstWish, StaggerOver, StartAllowed, LastStart, Candidates, Extras, RemovesOf;
    StaggerIs(i);
    OnlyStart(i, a);
    if i.desired.authoritative {
      var p := HeadPlace(i);
      if Candidates(i) != [] && Candidates(i)[0] == a { FirstIsFirst(i, p, a); }
      forall q | IsFirstWish(i, q, a) ensures Candidates(i) != [] && Candidates(i)[0] == a {
        FirstIsFirst(i, q, a);
        OneFirst(i, p, q, a);
      }
    }
  }

  lemma OneFirst(i: PlanInput, p: Place, q: Place, a: Action)
    requires if Candidates(i) == [] then forall r :: Queued(i, r).None?
             else Queued(i, p) == Some(Candidates(i)[0]) && NothingBefore(i, p)
    requires Queued(i, q) == Some(a) && NothingBefore(i, q)
    ensures Candidates(i) != [] && Candidates(i)[0] == a
  {
    hide Queued, Candidates;
    assert !Sooner(p, q) || Candidates(i) == [];
    assert !Sooner(q, p) || Candidates(i) == [];
  }

  lemma OnlyStart(i: PlanInput, a: Action)
    requires StartLike(a)
    ensures a in ActionsOf(i)
            <==> i.desired.authoritative && StartAllowed(i, LastStart(i.lastStartAt, i.containers, i.now))
                 && Candidates(i) != [] && Candidates(i)[0] == a
  {
    hide Candidates, Extras, StartAllowed, LastStart;
    RemovesMembers(i, Extras(i));
  }

  // ---- what is removed, and what is held ----

  /** A stopped container above the count, on another image, that waits for nobody and for no replacement. */
  ghost predicate Leaves(i: PlanInput, n: nat, c: Container) {
    && Numbered(i, c.workerId, n) && n > i.desired.count && Only(i.containers, c.workerId, c)
    && MayCreate(i) && !c.running && c.image != i.desired.image && !WaitsForPerson(i, c) && c.workerId !in i.restarting
  }

  lemma LeavesIs(i: PlanInput, c: Container)
    ensures c in Extras(i) && Removable(i, c) <==> exists n: nat :: Leaves(i, n, c)
  {
    ExtrasAreSorted(i);
    WaitsIsHeld(i, c);
    if IsExtra(i, c) {
      var n := WorkerIndex(i.hostId, c.workerId).value;
      NumberIsIndex(i, c.workerId, n);
      LookupIsOnly(i, c.workerId, n, c);
      if Removable(i, c) { assert Leaves(i, n, c); }
    }
    forall n: nat | Leaves(i, n, c) ensures IsExtra(i, c) && c in i.containers {
      NumberIsIndex(i, c.workerId, n);
      LookupIsOnly(i, c.workerId, n, c);
    }
  }

  lemma {:induction false} RemovesAll(i: PlanInput, extras: seq<Container>, c: Container)
    requires c in extras && Removable(i, c)
    ensures Remove(c.workerId, c.name) in RemovesOf(i, extras)
  {
    var k := |extras| - 1;
    if c != extras[k] { RemovesAll(i, extras[..k], c); }
  }

  /** The plan removes exactly the containers that are to leave. */
  lemma RemovesExactly(i: PlanInput, a: Action)
    requires a.Remove?
    ensures a in ActionsOf(i)
            <==> i.desired.authoritative && exists n: nat, c: Container :: Leaves(i, n, c) && a == Remove(c.workerId, c.name)
  {
    hide Removable, Leaves, Extras;
    forall c ensures c in Extras(i) && Removable(i, c) <==> exists n: nat :: Leaves(i, n, c) { LeavesIs(i, c); }
    RemovesMembers(i, Extras(i));
    CandidatesAreJustified(i);
    forall c | c in Extras(i) && Removable(i, c) ensures Remove(c.workerId, c.name) in RemovesOf(i, Extras(i)) {
      RemovesAll(i, Extras(i), c);
    }
    if Candidates(i) != [] { assert Candidates(i)[0] in Candidates(i); }
  }

  ghost predicate IndexesClimb(i: PlanInput, s: seq<Action>) {
    forall j, k :: 0 <= j < k < |s| ==>
      var m, n := WorkerIndex(i.hostId, s[j].workerId), WorkerIndex(i.hostId, s[k].workerId);
      m.Some? && n.Some? && m.value <= n.value
  }

  lemma ClimbAppends(i: PlanInput, s: seq<Action>, a: Action, n: nat)
    requires IndexesClimb(i, s) && WorkerIndex(i.hostId, a.workerId) == Some(n)
    requires forall x :: x in s ==> WorkerIndex(i.hostId, x.workerId).Some? && WorkerIndex(i.hostId, x.workerId).value <= n
    ensures IndexesClimb(i, s + [a])
  {
    hide WorkerIndex;
    forall j | 0 <= j < |s| ensures WorkerIndex(i.hostId, s[j].workerId).Some? && WorkerIndex(i.hostId, s[j].workerId).value <= n {
      assert s[j] in s;
    }
  }

  lemma RemovesBelow(i: PlanInput, extras: seq<Container>, n: nat)
    requires forall c :: c in extras ==> WorkerIndex(i.hostId, c.workerId).Some? && WorkerIndex(i.hostId, c.workerId).value <= n
    ensures forall x :: x in RemovesOf(i, extras) ==> WorkerIndex(i.hostId, x.workerId).Some? && WorkerIndex(i.hostId, x.workerId).value <= n
  {
    hide WorkerIndex, Removable;
    RemovesMembers(i, extras);
  }

  lemma RemovesStep(i: PlanInput, extras: seq<Container>)
    requires extras != []
    ensures var before, last := RemovesOf(i, extras[..|extras| - 1]), extras[|extras| - 1];
            RemovesOf(i, extras) == if Removable(i, last) then before + [Remove(last.workerId, last.name)] else before
  {
    var before := RemovesOf(i, extras[..|extras| - 1]);
    assert before + [] == before;
  }

  lemma NoRemoves(i: PlanInput)
    ensures IndexesClimb(i, RemovesOf(i, []))
  {
  }

  lemma {:induction false} RemovesClimb(i: PlanInput, extras: seq<Container>)
    requires forall c :: c in extras ==> WorkerIndex(i.hostId, c.workerId).Some?
    requires forall j, k :: 0 <= j < k < |extras| ==> IndexOr0(i.hostId, extras[j]) <= IndexOr0(i.hostId, extras[k])
    ensures IndexesClimb(i, RemovesOf(i, extras))
  {
    hide WorkerIndex, Removable, RemovesOf, IndexesClimb;
    if extras == [] {
      NoRemoves(i);
    } else {
      var k := |extras| - 1;
      var before, last := RemovesOf(i, extras[..k]), extras[k];
      assert last in extras && forall c :: c in extras[..k] ==> c in extras;
      RemovesClimb(i, extras[..k]);
      var n := WorkerIndex(i.hostId, last.workerId).value;
      forall c | c in extras[..k] ensures WorkerIndex(i.hostId, c.workerId).value <= n {
        var m :| 0 <= m < k && extras[m] == c;
        assert IndexOr0(i.hostId, extras[m]) <= IndexOr0(i.hostId, extras[k]);
      }
      RemovesBelow(i, extras[..k], n);
      RemovesStep(i, extras);
      if Removable(i, last) { ClimbAppends(i, before, Remove(last.workerId, last.name), n); }
    }
  }

  /** In the order of their numbers. */
  lemma RemovesAreInOrder(i: PlanInput)
    ensures IndexesClimb(i, RemovesOf(i, Extras(i)))
  {
    var extras := Extras(i);
    ExtrasAreSorted(i);
    Sorting.Sorts(ExtrasUpTo(i, |i.containers|), ByIndex(i.hostId));
    forall j, k | 0 <= j < k < |extras| ensures IndexOr0(i.hostId, extras[j]) <= IndexOr0(i.hostId, extras[k]) {
      assert ByIndex(i.hostId)(extras[j]) <= ByIndex(i.hostId)(extras[k]);
    }
    RemovesClimb(i, extras);
  }

  /** A hold to be remembered: not remembered yet, and a person stopped it, or it crashed too often. */
  ghost predicate ToHold(i: PlanInput, n: nat, c: Container, h: HoldEntry) {
    && Numbered(i, c.workerId, n) && Only(i.containers, c.workerId, c) && !c.running
    && c.id == Some(h.container) && !Remembered(i, c) && c.exitCode != Some(78)
    && if StoppedByPerson(i, c) then h.reason == OperatorStopped
       else n <= i.desired.count && AtCrashLimit(i, c) && Down(i, c, Pause(i, c)) && h.reason == CrashLimit
  }

  lemma NewHoldIs(i: PlanInput, id: string, c: Container, h: HoldEntry)
    requires Lookup(i, id) == Some(c)
    ensures NewHold(i, id) == Some(h) <==> exists n: nat :: ToHold(i, n, c, h)
  {
    var n := WorkerIndex(i.hostId, id).value;
    NumberIsIndex(i, id, n);
    LookupIsOnly(i, id, n, c);
    WaitsIsHeld(i, c);
    SameNumbers(i, c);
    if NewHold(i, id) == Some(h) { assert ToHold(i, n, c, h); }
    forall m: nat | Numbered(i, id, m) ensures m == n { NumberIsIndex(i, id, m); }
  }

  /** The plan decides exactly those holds. */
  lemma HoldsExactly(i: PlanInput, id: string, h: HoldEntry)
    ensures id in HoldsOf(i) && HoldsOf(i)[id] == h <==> exists n: nat, c: Container :: c.workerId == id && ToHold(i, n, c, h)
  {
    hide NewHold;
    if Lookup(i, id).Some? {
      var c := Lookup(i, id).value;
      NewHoldIs(i, id, c, h);
    } else {
      NoLookupNoHold(i, id);
    }
    forall n: nat, c: Container | c.workerId == id && ToHold(i, n, c, h) ensures Lookup(i, id) == Some(c) {
      LookupIsOnly(i, id, n, c);
    }
  }

  lemma NoLookupNoHold(i: PlanInput, id: string)
    requires Lookup(i, id).None?
    ensures NewHold(i, id).None?
  {
  }

  /** Whoever waits for a person is left alone by every plan. */
  lemma WaitingIsLeftAlone(i: PlanInput, c: Container)
    requires forall id :: id in i.restarting && CanCreate(i) ==> Matching(i.containers, id) == []
    requires c in i.containers && WaitsForPerson(i, c)
    ensures forall a :: a in ActionsOf(i) ==> a.workerId != c.workerId
  {
    WaitsIsHeld(i, c);
    HeldUntouched(i, c);
  }
}
