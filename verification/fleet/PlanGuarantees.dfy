/** What one tick's plan may do, whatever the containers, the memory and the desired state. */
module PlanGuarantees {
  import opened Options
  import opened Arithmetic
  import opened FleetTypes
  import opened FleetPlan
  import Sequences

  /** A licence outage is over for it, or its own wait is, and nobody else probes. */
  ghost predicate OutageWaitOver(i: PlanInput, c: Container) {
    || Recovered(i, c)
    || (!ProbeInFlight(i) && (c.finishedAt.Some? ==> i.now - c.finishedAt.value >= OutageDelay(RetryOf(i, c.workerId))))
  }

  /**
   * Why and how an exited container comes back: it has no hold, its exit decides how the restart is
   * flagged, a crash leaves the window below the limit, and the delay its exit asks for has passed.
   */
  ghost predicate BroughtBack(i: PlanInput, c: Container, counted: bool, soft: bool, outage: bool) {
    && !c.running && InputHold(i, c).None?
    && (outage <==> c.exitCode == Some(EXIT_LICENSE_OUTAGE))
    && (counted <==> IsCrash(c.exitCode))
    && (soft <==> !counted && !outage)
    && (counted ==> |Recent(TimesOf(i.restarts, c.workerId), i.now)| < CRASH_LIMIT)
    && (outage ==> OutageWaitOver(i, c))
    && (!outage && c.finishedAt.Some? ==> i.now - c.finishedAt.value >= DelayOf(i, c))
  }

  /**
   * What every planned action stands on: the one container of a worker id this host assigns, never a
   * held one; a running one only as the release's own replacement.
   */
  ghost predicate Justified(i: PlanInput, a: Action) {
    var found := Lookup(i, a.workerId);
    match a
    case Run(id, container, image, port) =>
      && CanCreate(i) && Assigned(i, id) && found.None?
      && (Matching(i.containers, id) == [] || id in i.restarting)
      && container == ContainerName(id) && image == i.desired.image
    case Start(id, container, counted, soft, outage) =>
      && found.Some? && container == found.value.name
      && !found.value.handoff && !found.value.ticket
      && BroughtBack(i, found.value, counted, soft, outage)
    case Replace(id, container, image, port, counted, soft, outage) =>
      && CanCreate(i) && found.Some? && container == found.value.name && image == i.desired.image
      && (if found.value.running
          then i.desired.roll == Some(id) && found.value.image != image && !counted && !soft && !outage
          else i.desired.leases.Some? && BroughtBack(i, found.value, counted, soft, outage))
    case Remove(id, container) =>
      && found.Some? && container == found.value.name
      && WorkerIndex(i.hostId, id).value > i.desired.count && Removable(i, found.value)
  }

  lemma MainIsJustified(i: PlanInput, n: nat)
    requires 0 < n <= i.desired.count && MainCandidate(i, n).Some?
    ensures Justified(i, MainCandidate(i, n).value) && StartLike(MainCandidate(i, n).value)
  {
    var id := WorkerId(i.hostId, n);
    WorkerIdRoundTrip(i.hostId, id, n);
    MatchingMembers(i.containers, id);
  }

  lemma {:induction false} MainsAreJustified(i: PlanInput, n: nat)
    requires n <= i.desired.count
    ensures forall a :: a in MainUpTo(i, n) ==> Justified(i, a) && StartLike(a)
  {
    if n > 0 {
      MainsAreJustified(i, n - 1);
      if MainCandidate(i, n).Some? { MainIsJustified(i, n); }
    }
  }

  lemma {:induction false} ReplacementsAreJustified(i: PlanInput, k: nat)
    requires k <= |i.restarting|
    ensures forall a :: a in RestartingUpTo(i, k) ==> Justified(i, a) && StartLike(a)
  {
    if k > 0 { ReplacementsAreJustified(i, k - 1); }
  }

  ghost predicate OutageKnown(i: PlanInput, o: Outage) {
    Lookup(i, o.current.workerId) == Some(o.current) && InOutage(i, o.current) && o.recovered == Recovered(i, o.current)
  }

  lemma {:induction false} OutagesAreKnown(i: PlanInput, n: nat)
    requires n <= i.desired.count
    ensures forall o :: o in OutagesUpTo(i, n) ==> OutageKnown(i, o)
  {
    if n > 0 {
      OutagesAreKnown(i, n - 1);
      WorkerIdRoundTrip(i.hostId, WorkerId(i.hostId, n), n);
      MatchingMembers(i.containers, WorkerId(i.hostId, n));
    }
  }

  lemma {:induction false} RecoveredAreJustified(i: PlanInput, outages: seq<Outage>)
    requires forall o :: o in outages ==> OutageKnown(i, o)
    ensures forall a :: a in RecoveredUpTo(i, outages) ==> Justified(i, a) && StartLike(a)
  {
    if outages != [] {
      var k := |outages| - 1;
      assert outages == outages[..k] + [outages[k]];
      assert OutageKnown(i, outages[k]);
      RecoveredAreJustified(i, outages[..k]);
    }
  }

  lemma {:induction false} FirstWaitingMember(outages: seq<Outage>)
    ensures FirstWaiting(outages).Some? ==> FirstWaiting(outages).value in outages && !FirstWaiting(outages).value.recovered
  {
    if outages != [] && outages[0].recovered { FirstWaitingMember(outages[1..]); }
  }

  lemma RollIsJustified(i: PlanInput)
    ensures forall a :: a in Listed(RollCandidate(i)) ==> Justified(i, a) && StartLike(a)
  {
  }

  lemma ProbeIsJustified(i: PlanInput, outages: seq<Outage>)
    requires forall o :: o in outages ==> OutageKnown(i, o)
    ensures forall a :: a in Listed(ProbeCandidate(i, outages)) ==> Justified(i, a) && StartLike(a)
  {
    FirstWaitingMember(outages);
  }

  lemma CandidatesSplit(i: PlanInput, a: Action)
    ensures var outages := OutagesUpTo(i, i.desired.count);
            a in Candidates(i) <==> a in Listed(RollCandidate(i)) || a in RestartingUpTo(i, |i.restarting|)
                                    || a in MainUpTo(i, i.desired.count) || a in RecoveredUpTo(i, outages)
                                    || a in Listed(ProbeCandidate(i, outages))
  {
  }

  lemma CandidatesAreJustified(i: PlanInput)
    ensures forall a :: a in Candidates(i) ==> Justified(i, a) && StartLike(a)
  {
    var outages := OutagesUpTo(i, i.desired.count);
    OutagesAreKnown(i, i.desired.count);
    RollIsJustified(i);
    ReplacementsAreJustified(i, |i.restarting|);
    MainsAreJustified(i, i.desired.count);
    RecoveredAreJustified(i, outages);
    ProbeIsJustified(i, outages);
    forall a { CandidatesSplit(i, a); }
  }

  lemma {:induction false} RemovesMembers(i: PlanInput, extras: seq<Container>)
    ensures forall a :: a in RemovesOf(i, extras) ==>
              a.Remove? && exists c :: c in extras && Removable(i, c) && a == Remove(c.workerId, c.name)
  {
    if extras != [] {
      var k := |extras| - 1;
      assert extras == extras[..k] + [extras[k]];
      RemovesMembers(i, extras[..k]);
    }
  }

  /** Every action of every plan is justified: the plan's whole reach, in one statement. */
  lemma ActionsAreJustified(i: PlanInput)
    ensures forall a :: a in ActionsOf(i) ==> Justified(i, a)
  {
    CandidatesAreJustified(i);
    RemovesMembers(i, Extras(i));
    ExtrasAreSorted(i);
  }

  // ---- one start, and no two actions for one worker ----

  /** Each worker id at most once among the extras: their containers are the only ones of their ids. */
  lemma {:induction false} ExtrasOnce(i: PlanInput, k: nat)
    requires k <= |i.containers|
    ensures forall c :: multiset(ExtrasUpTo(i, k))[c] <= |Matching(i.containers[..k], c.workerId)|
  {
    if k > 0 {
      ExtrasOnce(i, k - 1);
      assert i.containers[..k][..k - 1] == i.containers[..k - 1];
    }
  }

  lemma ExtrasDistinct(i: PlanInput)
    ensures var e := Extras(i); forall j, k :: 0 <= j < k < |e| ==> e[j].workerId != e[k].workerId
  {
    var e := Extras(i);
    ExtrasAreSorted(i);
    ExtrasOnce(i, |i.containers|);
    assert i.containers[..|i.containers|] == i.containers;
    forall j, k | 0 <= j < k < |e| ensures e[j].workerId != e[k].workerId {
      assert IsExtra(i, e[j]) && IsExtra(i, e[k]);
      assert e[j].workerId == e[k].workerId ==> e[j] == e[k];
      assert multiset(e)[e[j]] <= 1;
      Sequences.Twice(e, j, k);
    }
  }

  ghost predicate DistinctWorkers(s: seq<Action>) {
    forall j, k :: 0 <= j < k < |s| ==> s[j].workerId != s[k].workerId
  }

  lemma {:induction false} RemovesDistinct(i: PlanInput, extras: seq<Container>)
    requires forall j, k :: 0 <= j < k < |extras| ==> extras[j].workerId != extras[k].workerId
    ensures DistinctWorkers(RemovesOf(i, extras))
  {
    if extras != [] {
      var k := |extras| - 1;
      assert extras == extras[..k] + [extras[k]];
      RemovesDistinct(i, extras[..k]);
      RemovesMembers(i, extras[..k]);
      var before := RemovesOf(i, extras[..k]);
      forall j | 0 <= j < |before| ensures before[j].workerId != extras[k].workerId {
        assert before[j] in before;
        var c :| c in extras[..k] && Removable(i, c) && before[j] == Remove(c.workerId, c.name);
        var m :| 0 <= m < k && extras[m] == c;
      }
    }
  }

  /** At most one action of a plan can end in a login; it comes last, when the stagger has passed. */
  lemma OneStart(i: PlanInput)
    ensures var acts := ActionsOf(i); forall j :: 0 <= j < |acts| && StartLike(acts[j]) ==> j == |acts| - 1
    ensures var acts := ActionsOf(i); forall a :: a in acts && StartLike(a) ==>
              StartAllowed(i, LastStart(i.lastStartAt, i.containers, i.now)) && Candidates(i) != [] && a == Candidates(i)[0]
  {
    var removes := RemovesOf(i, Extras(i));
    RemovesMembers(i, Extras(i));
    forall j | 0 <= j < |removes| ensures removes[j].Remove? {
      assert removes[j] in removes;
    }
  }

  lemma DistinctAppend(s: seq<Action>, a: Action)
    requires DistinctWorkers(s) && forall x :: x in s ==> x.workerId != a.workerId
    ensures DistinctWorkers(s + [a])
  {
    forall j | 0 <= j < |s| ensures s[j].workerId != a.workerId { assert s[j] in s; }
  }

  /** No plan acts twice on one worker id. */
  lemma OneActionPerWorker(i: PlanInput)
    ensures DistinctWorkers(ActionsOf(i))
  {
    ExtrasDistinct(i);
    RemovesDistinct(i, Extras(i));
    var removes := RemovesOf(i, Extras(i));
    if Candidates(i) != [] {
      var first := Candidates(i)[0];
      assert first in Candidates(i);
      forall r | r in removes ensures r.workerId != first.workerId { NotRemovedAndStarted(i, r, first); }
      DistinctAppend(removes, first);
    }
    assert removes + [] == removes;
  }

  lemma {:induction false} MainIds(i: PlanInput, n: nat)
    requires n <= i.desired.count
    ensures forall a :: a in MainUpTo(i, n) ==> WorkerIndex(i.hostId, a.workerId).Some? && WorkerIndex(i.hostId, a.workerId).value <= n
  {
    if n > 0 {
      MainIds(i, n - 1);
      WorkerIdRoundTrip(i.hostId, WorkerId(i.hostId, n), n);
      MatchingMembers(i.containers, WorkerId(i.hostId, n));
    }
  }

  lemma {:induction false} OutageIds(i: PlanInput, n: nat)
    requires n <= i.desired.count
    ensures forall o :: o in OutagesUpTo(i, n) ==>
              WorkerIndex(i.hostId, o.current.workerId).Some? && WorkerIndex(i.hostId, o.current.workerId).value <= n
  {
    if n > 0 {
      OutageIds(i, n - 1);
      WorkerIdRoundTrip(i.hostId, WorkerId(i.hostId, n), n);
      MatchingMembers(i.containers, WorkerId(i.hostId, n));
    }
  }

  lemma {:induction false} RecoveredIds(i: PlanInput, outages: seq<Outage>)
    ensures forall a :: a in RecoveredUpTo(i, outages) ==> a.Start? || a.Replace?
    ensures forall a :: a in RecoveredUpTo(i, outages) ==> exists o :: o in outages && o.current.workerId == a.workerId
  {
    if outages != [] {
      var k := |outages| - 1;
      assert outages == outages[..k] + [outages[k]];
      RecoveredIds(i, outages[..k]);
      forall a | a in RecoveredUpTo(i, outages) ensures exists o :: o in outages && o.current.workerId == a.workerId {
        if a !in RecoveredUpTo(i, outages[..k]) { assert outages[k].current.workerId == a.workerId; }
      }
    }
  }

  /** A candidate is one of the counted workers, or has no container, or a running one. */
  ghost predicate OutOfReach(i: PlanInput, id: string) {
    var n := WorkerIndex(i.hostId, id);
    (n.Some? && n.value <= i.desired.count) || Lookup(i, id).None? || Lookup(i, id).value.running
  }

  lemma CandidatesOutOfReach(i: PlanInput, a: Action)
    requires a in Candidates(i)
    ensures OutOfReach(i, a.workerId)
  {
    var outages := OutagesUpTo(i, i.desired.count);
    CandidatesSplit(i, a);
    if a in Listed(RollCandidate(i)) {
    } else if a in RestartingUpTo(i, |i.restarting|) {
      ReplacementsRun(i, |i.restarting|);
    } else if a in MainUpTo(i, i.desired.count) {
      MainIds(i, i.desired.count);
    } else {
      OutageIds(i, i.desired.count);
      RecoveredIds(i, outages);
      FirstWaitingMember(outages);
    }
  }

  /** A candidate is never one of the removed: those are stopped and above the count. */
  lemma NotRemovedAndStarted(i: PlanInput, r: Action, a: Action)
    requires r in RemovesOf(i, Extras(i)) && a in Candidates(i)
    ensures r.workerId != a.workerId
  {
    RemovesMembers(i, Extras(i));
    ExtrasAreSorted(i);
    var c :| c in Extras(i) && Removable(i, c) && r == Remove(c.workerId, c.name);
    assert IsExtra(i, c);
    CandidatesOutOfReach(i, a);
  }

  lemma {:induction false} ReplacementsRun(i: PlanInput, k: nat)
    requires k <= |i.restarting|
    ensures forall a :: a in RestartingUpTo(i, k) ==> a.Run? && Lookup(i, a.workerId).None?
  {
    if k > 0 { ReplacementsRun(i, k - 1); }
  }

  // ---- corollaries a reader of the fleet's rules asks for ----

  /** Offline, or on an image this host does not run, only containers with no spent claim are started. */
  lemma BlindOnlyStarts(i: PlanInput, a: Action)
    requires a in ActionsOf(i) && !CanCreate(i)
    ensures a.Start? && Lookup(i, a.workerId).Some?
    ensures var c := Lookup(i, a.workerId).value; c.name == a.container && !c.running && !c.handoff && !c.ticket
  {
    ActionsAreJustified(i);
  }

  /**
   * With no container observed for a worker stopped for its replacement (what settling the pending stops
   * on the same observation leaves), no action names a worker with two containers.
   */
  lemma DuplicatesUntouched(i: PlanInput, a: Action)
    requires forall id :: id in i.restarting && CanCreate(i) ==> Matching(i.containers, id) == []
    requires a in ActionsOf(i)
    ensures !Duplicated(i, a.workerId)
    ensures a.Run? ==> Matching(i.containers, a.workerId) == []
  {
    ActionsAreJustified(i);
  }

  /** A stopped container with a hold is not acted on, whoever else wants a start. */
  lemma HeldUntouched(i: PlanInput, c: Container)
    requires forall id :: id in i.restarting && CanCreate(i) ==> Matching(i.containers, id) == []
    requires c in i.containers && InputHold(i, c).Some?
    ensures forall a :: a in ActionsOf(i) ==> a.workerId != c.workerId
  {
    ActionsAreJustified(i);
    MatchingMembers(i.containers, c.workerId);
    assert c in Matching(i.containers, c.workerId);
    assert Lookup(i, c.workerId).Some? ==> Lookup(i, c.workerId).value == c;
    forall a | a in ActionsOf(i) ensures a.workerId != c.workerId {
      assert Justified(i, a);
    }
  }

  lemma LimitIsNewHold(i: PlanInput, c: Container)
    requires Lookup(i, c.workerId) == Some(c) && c.id.Some?
    requires WorkerIndex(i.hostId, c.workerId).value <= i.desired.count
    requires Restartable(i, c) && ExitedFor(i, c, DelayOf(i, c)) && CrashLimited(i, c)
    ensures c.workerId in HoldsOf(i) && HoldsOf(i)[c.workerId] == HoldEntry(c.id.value, CrashLimit)
  {
    assert NewHold(i, c.workerId) == Some(HoldEntry(c.id.value, CrashLimit));
  }

  /** At the crash limit the worker is left alone, and the hold is there to be remembered. */
  lemma CrashLimitHolds(i: PlanInput, c: Container)
    requires i.desired.authoritative && Lookup(i, c.workerId) == Some(c) && c.id.Some?
    requires WorkerIndex(i.hostId, c.workerId).value <= i.desired.count
    requires Restartable(i, c) && ExitedFor(i, c, DelayOf(i, c)) && CrashLimited(i, c)
    ensures c.workerId in HoldsOf(i) && HoldsOf(i)[c.workerId] == HoldEntry(c.id.value, CrashLimit)
    ensures forall a :: a in ActionsOf(i) ==> a.workerId != c.workerId
  {
    LimitIsNewHold(i, c);
    OneStart(i);
    forall a | a in RemovesOf(i, Extras(i)) ensures a.workerId != c.workerId { CountedNotRemoved(i, c, a); }
    if Candidates(i) != [] { LimitedIsNoCandidate(i, c, Candidates(i)[0]); }
  }

  /** A worker within the count is never among the removed. */
  lemma CountedNotRemoved(i: PlanInput, c: Container, a: Action)
    requires Lookup(i, c.workerId) == Some(c) && WorkerIndex(i.hostId, c.workerId).value <= i.desired.count
    requires a in RemovesOf(i, Extras(i))
    ensures a.workerId != c.workerId
  {
    RemovesMembers(i, Extras(i));
    ExtrasAreSorted(i);
    var x :| x in Extras(i) && Removable(i, x) && a == Remove(x.workerId, x.name);
    assert IsExtra(i, x);
  }

  lemma LimitedIsNoCandidate(i: PlanInput, c: Container, a: Action)
    requires Lookup(i, c.workerId) == Some(c) && Restartable(i, c) && CrashLimited(i, c)
    requires a in Candidates(i)
    ensures a.workerId != c.workerId
  {
    var outages := OutagesUpTo(i, i.desired.count);
    CandidatesSplit(i, a);
    if a in Listed(RollCandidate(i)) {
    } else if a in RestartingUpTo(i, |i.restarting|) {
      ReplacementsRun(i, |i.restarting|);
    } else if a in MainUpTo(i, i.desired.count) {
      NoMain(i, c, i.desired.count);
    } else {
      OutagesAreKnown(i, i.desired.count);
      RecoveredIds(i, outages);
      FirstWaitingMember(outages);
    }
  }

  lemma {:induction false} NoMain(i: PlanInput, c: Container, n: nat)
    requires n <= i.desired.count && Lookup(i, c.workerId) == Some(c) && CrashLimited(i, c)
    ensures forall a :: a in MainUpTo(i, n) ==> a.workerId != c.workerId
  {
    if n > 0 {
      NoMain(i, c, n - 1);
      MatchingMembers(i.containers, WorkerId(i.hostId, n));
    }
  }

  // ---- licence outages ----

  predicate IsOutage(a: Action) { (a.Start? || a.Replace?) && a.outage }

  lemma {:induction false} MainNotOutage(i: PlanInput, n: nat)
    ensures forall a :: a in MainUpTo(i, n) ==> !IsOutage(a)
  {
    if n > 0 { MainNotOutage(i, n - 1); }
  }

  /** A licence outage's retry is planned only when no other worker wanted the tick's start. */
  lemma OutageIsLast(i: PlanInput, a: Action)
    requires a in ActionsOf(i) && IsOutage(a)
    ensures OtherCandidates(i) == []
    ensures Lookup(i, a.workerId).Some? && Lookup(i, a.workerId).value.exitCode == Some(EXIT_LICENSE_OUTAGE)
  {
    ActionsAreJustified(i);
    OneStart(i);
    if OtherCandidates(i) != [] { FirstIsNoOutage(i); }
  }

  lemma FirstIsNoOutage(i: PlanInput)
    requires OtherCandidates(i) != []
    ensures Candidates(i) != [] && !IsOutage(Candidates(i)[0])
  {
    MainNotOutage(i, i.desired.count);
    ReplacementsRun(i, |i.restarting|);
    var others := OtherCandidates(i);
    assert others[0] in others;
    assert Candidates(i)[0] == others[0];
  }

  lemma WaitCases(attempts: nat)
    ensures OutageWait(attempts) == (if attempts == 0 then 300000.0 else if attempts == 1 then 600000.0
                                     else if attempts == 2 then 1200000.0 else if attempts == 3 then 2400000.0
                                     else 3600000.0)
  {
    if attempts >= 4 {
      Pow2Grows(4, attempts);
      assert Pow2(4) == 16 by { assert Pow2(2) == 4; }
      assert OUTAGE_BACKOFF_BASE_MS * Pow2(attempts) as real >= OUTAGE_BACKOFF_BASE_MS * 16.0;
    } else {
      assert Pow2(1) == 2 && Pow2(2) == 4 && Pow2(3) == 8;
    }
  }

  /** Every wait of an outage lies between 5 and 75 minutes. */
  lemma OutageDelayBounds(r: Retry)
    ensures 300000.0 <= OutageDelay(r) < 4500000.0
  {
    WaitCases(r.attempts);
  }

  /** Below the cap, one more attempt always waits longer than the one before, whatever was drawn. */
  lemma OutageDelayGrows(before: Retry, after: Retry)
    requires after.attempts == before.attempts + 1
    requires OutageWait(before.attempts) < OUTAGE_BACKOFF_CAP_MS
    ensures OutageDelay(before) < OutageDelay(after)
  {
    WaitCases(before.attempts);
    WaitCases(after.attempts);
  }
}
