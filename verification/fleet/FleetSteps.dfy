/** The changes the agent makes to its memory, as values, and what a planned action may rely on. */
module FleetSteps {
  import opened Options
  import opened FleetTypes
  import opened FleetPlan
  import opened FleetWorld
  import opened FleetHost
  import FleetOutage
  import opened PlanGuarantees

  predicate Counted(a: Action) { (a.Start? || a.Replace?) && a.counted }

  predicate Soft(a: Action) { (a.Start? || a.Replace?) && a.soft }

  predicate Exists(cs: seq<Container>, id: string) { exists c :: c in cs && c.workerId == id }

  // ---- the memory's changes, as values ----

  function TidiedHeld(held: map<string, HoldEntry>, observed: seq<Container>): map<string, HoldEntry> {
    map id | id in held && ShownStopped(observed, id, held[id].container) :: held[id]
  }

  predicate AnyStopped(cs: seq<Container>, id: string) { exists c :: c in cs && c.workerId == id && !c.running }

  function TidiedStops(stops: map<string, Millis>, observed: seq<Container>): map<string, Millis> {
    map id | id in stops && AnyStopped(observed, id) :: stops[id]
  }

  function Pruned(lists: map<string, seq<Millis>>, now: Millis): map<string, seq<Millis>> {
    map id | id in lists && Recent(lists[id], now) != [] :: Recent(lists[id], now)
  }

  function Appended(lists: map<string, seq<Millis>>, id: string, now: Millis): map<string, seq<Millis>> {
    lists[id := Recent(TimesOf(lists, id), now) + [now]]
  }

  /** The memory once a start is stamped. */
  function Stamped(m: Memory, a: Action, now: Millis): Memory {
    m.(lastStartAt := Some(now),
       restarts := Pruned(if Counted(a) then Appended(m.restarts, a.workerId, now) else m.restarts, now),
       softRestarts := Pruned(if Soft(a) then Appended(m.softRestarts, a.workerId, now) else m.softRestarts, now))
  }

  lemma StampLeaves(m: Memory, a: Action, now: Millis)
    ensures var after := Stamped(m, a, now);
            && after.lastStartAt == Some(now) && after.pending == m.pending && after.held == m.held && after.outage == m.outage
  {
  }

  lemma {:induction false} RecentTwice(times: seq<Millis>, now: Millis)
    ensures Recent(Recent(times, now), now) == Recent(times, now)
  {
    if times != [] {
      RecentTwice(times[1..], now);
      var rest := Recent(times[1..], now);
      if now - times[0] < CRASH_WINDOW_MS {
        assert ([times[0]] + rest)[1..] == rest;
      } else {
        assert [] + rest == rest;
      }
    }
  }

  lemma {:induction false} RecentIsTheWindow(times: seq<Millis>, now: Millis, t: Millis)
    ensures multiset(Recent(times, now))[t] == if now - t < 1800000.0 then multiset(times)[t] else 0
  {
    if times != [] {
      RecentIsTheWindow(times[1..], now, t);
      assert times == [times[0]] + times[1..];
    }
  }

  /** How often `t` is in a worker's list. */
  function CountOf(lists: map<string, seq<Millis>>, id: string, t: Millis): nat {
    if id in lists then multiset(lists[id])[t] else 0
  }

  /**
   * A stamped start leaves, in every worker's list, the times of the last half hour as often as they were there,
   * and `now` once more in the lists that count this start: the restarts for a crash, the soft ones for an exit
   * that asked for it. Nothing else in the memory changes but the last start.
   */
  lemma StampedLists(m: Memory, a: Action, now: Millis, id: string, t: Millis)
    ensures var after := Stamped(m, a, now);
            var own := id == a.workerId && t == now && (a.Start? || a.Replace?);
            && after == m.(lastStartAt := Some(now), restarts := after.restarts, softRestarts := after.softRestarts)
            && CountOf(after.restarts, id, t) ==
               (if now - t < 1800000.0 then CountOf(m.restarts, id, t) else 0) + (if own && a.counted then 1 else 0)
            && CountOf(after.softRestarts, id, t) ==
               (if now - t < 1800000.0 then CountOf(m.softRestarts, id, t) else 0) + (if own && a.soft then 1 else 0)
  {
    PrunedCounts(m.restarts, Counted(a), a.workerId, now, id, t);
    PrunedCounts(m.softRestarts, Soft(a), a.workerId, now, id, t);
  }

  lemma PrunedCounts(lists: map<string, seq<Millis>>, append: bool, worker: string, now: Millis, id: string, t: Millis)
    ensures CountOf(Pruned(if append then Appended(lists, worker, now) else lists, now), id, t) ==
            (if now - t < 1800000.0 then CountOf(lists, id, t) else 0) + (if append && id == worker && t == now then 1 else 0)
  {
    var longer := if append then Appended(lists, worker, now) else lists;
    RecentIsTheWindow(TimesOf(longer, id), now, t);
    RecentIsTheWindow(TimesOf(lists, id), now, t);
    assert id in longer && Recent(longer[id], now) == [] ==> multiset(Recent(longer[id], now))[t] == 0;
  }

  lemma StampedCounts(m: Memory, a: Action, now: Millis)
    requires Counted(a)
    ensures TimesOf(Stamped(m, a, now).restarts, a.workerId) == Recent(TimesOf(m.restarts, a.workerId), now) + [now]
  {
    var recent := Recent(TimesOf(m.restarts, a.workerId), now);
    RecentJoins(recent, [now], now);
    RecentTwice(TimesOf(m.restarts, a.workerId), now);
    assert Recent([now], now) == [now];
  }

  lemma StampedKeepsCounted(w: World, focus: string, m: Memory, a: Action)
    requires KeepsCounted(w, focus, m)
    ensures KeepsCounted(w, focus, Stamped(m, a, w.clock))
  {
    var after := Stamped(m, a, w.clock);
    RecentMembers(TimesOf(m.restarts, focus), w.clock);
    if Counted(a) && a.workerId == focus {
      StampedCounts(m, a, w.clock);
    } else {
      assert TimesOf(after.restarts, focus) == Recent(TimesOf(m.restarts, focus), w.clock);
    }
    PruningKeepsCounted(w, focus, m, after);
  }

  /** What `stop` writes down before Docker is asked: a spent stop gives way, an unanswered one stays. */
  function StopRecorded(pending: map<string, StopIdentity>, id: string, leases: Option<map<string, Lease>>): map<string, StopIdentity> {
    var unspent := if id in pending && pending[id].confirmed then pending - {id} else pending;
    if id in unspent then unspent[id := unspent[id].(restart := true)]
    else if leases.Some? && id in leases.value
    then unspent[id := StopIdentity(leases.value[id].account, leases.value[id].epoch, true, false)]
    else unspent
  }

  /**
   * The recorded stop carries the lease the ERP shows now if and only if no unconfirmed stop of the
   * worker was remembered, or that one names the same lease: an older, unanswered identity is kept.
   */
  lemma StopNamesLease(pending: map<string, StopIdentity>, id: string, leases: map<string, Lease>)
    requires id in leases
    ensures id in StopRecorded(pending, id, Some(leases)) && StopRecorded(pending, id, Some(leases))[id].restart
    ensures !StopRecorded(pending, id, Some(leases))[id].confirmed
    ensures LeaseOf(StopRecorded(pending, id, Some(leases))[id]) == leases[id] <==>
            (id in pending && !pending[id].confirmed ==> LeaseOf(pending[id]) == leases[id])
  {
  }

  /**
   * The stops on record once one more is: a stop not yet confirmed stays, told to restart; otherwise there is
   * one for the lease the worker holds, and none without a lease. The other workers' stops stay.
   */
  lemma StopIsRecorded(pending: map<string, StopIdentity>, id: string, leases: Option<map<string, Lease>>)
    ensures var after := StopRecorded(pending, id, leases);
            var unanswered := id in pending && !pending[id].confirmed;
            && (id in after <==> unanswered || (leases.Some? && id in leases.value))
            && (unanswered ==> after[id] == StopIdentity(pending[id].account, pending[id].epoch, true, false))
            && (!unanswered && id in after ==>
                  after[id] == StopIdentity(leases.value[id].account, leases.value[id].epoch, true, false))
            && (forall x :: x != id ==> (x in after <==> x in pending))
            && (forall x :: x != id && x in pending ==> after[x] == pending[x])
  {
  }

  /**
   * The run that follows a stop carries the stopped lease's epoch, unless the ERP called the stop stale;
   * a run with no stop to restart carries none.
   */
  lemma RunTakesTheReservation(pending: map<string, StopIdentity>, id: string, leases: map<string, Lease>, confirmed: bool)
    ensures var after := StopRecorded(pending, id, Some(leases));
            && (id in leases && (id in pending ==> pending[id].confirmed) ==>
                  Reserved(after, id) == Some(leases[id].epoch)
                  && Reserved(after[id := after[id].(confirmed := confirmed)], id) == Some(leases[id].epoch))
            && (id in pending && !pending[id].confirmed ==> Reserved(after, id) == Some(pending[id].epoch))
            && Reserved(after - {id}, id) == None
    ensures id in pending && !pending[id].restart ==> Reserved(pending, id) == None
  {
  }

  /** An older stop the ERP never answered keeps its lease, whatever the worker holds when it is stopped again. */
  lemma OlderStopKeepsItsLease(id: string, first: Lease, second: Lease)
    requires first != second
    ensures var once := StopRecorded(map[], id, Some(map[id := first]));
            var twice := StopRecorded(once, id, Some(map[id := second]));
            && id in once && LeaseOf(once[id]) == first && !once[id].confirmed
            && id in twice && LeaseOf(twice[id]) == first != second
  {
  }

  // ---- a removal, and the newest start it showed ----

  predicate Exceeds(a: Option<Millis>, b: Option<Millis>) { a.Some? && (b.None? || a.value > b.value) }

  predicate NoLater(a: Option<Millis>, b: Option<Millis>) { a.Some? ==> b.Some? && a.value <= b.value }

  /** RAM and disk once the start passed to a removal was, or was not, written down. */
  function NewestRecorded(ram: Memory, disk: Memory, passed: Option<Millis>, saved: bool): (Memory, Memory) {
    if Exceeds(passed, ram.lastStartAt) then
      var m := ram.(lastStartAt := passed);
      (m, if saved then m else disk)
    else (ram, disk)
  }

  lemma {:induction false} NewestOfAll(remembered: Option<Millis>, cs: seq<Container>)
    ensures Newest(remembered, cs) == Later(remembered, Newest(None, cs))
  {
    if cs != [] { NewestOfAll(remembered, cs[..|cs| - 1]); }
  }

  /** The start passed is the remembered one or the newest shown: RAM lacks the one exactly when it lacks the other. */
  lemma PassedIsNewest(remembered: Option<Millis>, cs: seq<Container>, now: Millis, ram: Option<Millis>)
    requires NoLater(remembered, ram)
    ensures var passed, newest := LastStart(remembered, cs, now), LastStart(None, cs, now);
            && (Exceeds(passed, ram) <==> Exceeds(newest, ram))
            && (Exceeds(newest, ram) ==> passed == newest)
            && NoLater(newest, passed)
  {
    NewestOfAll(remembered, cs);
  }

  /**
   * Exactly when a removal leaves a start its containers showed on record: the disk covered it, or RAM
   * did not cover the newest start shown, and so that one was saved first. RAM may be ahead of the disk,
   * since a save may fail; then the removal skips its own.
   */
  lemma RemovalKeepsStart(ram: Memory, disk: Memory, remembered: Option<Millis>, cs: seq<Container>, now: Millis, c: Container)
    requires NoLater(remembered, ram.lastStartAt)
    requires c in cs && c.startedAt.Some? && c.startedAt.value <= now
    ensures LastStart(None, cs, now).Some?
    ensures Covered(NewestRecorded(ram, disk, LastStart(remembered, cs, now), true).1, c.startedAt.value) <==>
            Covered(disk, c.startedAt.value) || !Covered(ram, LastStart(None, cs, now).value)
  {
    PassedIsNewest(remembered, cs, now, ram.lastStartAt);
    LastStartIsNewest(None, cs, now);
  }

  // ---- what a planned action may rely on when its turn comes ----

  ghost predicate Consistent(w: World, focus: string, m: Memory, observed: seq<Container>) {
    && (w.frozen.Some? ==> ShownStopped(observed, focus, w.frozen.value))
    && w.present <= NamesOf(observed, focus)
    && (w.open.Some? && focus in m.pending && m.pending[focus].confirmed ==> !Exists(observed, focus))
    && (w.crashed <==> ShowsCrash(observed, focus))
    && NoLater(w.shown, Newest(None, observed))
  }

  ghost predicate Settled(pending: map<string, StopIdentity>, observed: seq<Container>) {
    forall id :: id in pending && pending[id].confirmed ==> !Exists(observed, id)
  }

  ghost predicate ReadyFor(w: World, focus: string, stagger: Millis, m: Memory, i: PlanInput, a: Action) {
    && i.now <= w.clock && i.stagger == stagger
    && (a.workerId == focus ==> w.frozen.None?)
    && (StartLike(a) && a.workerId == focus ==> (Counted(a) <==> w.crashed))
    && NoLater(i.lastStartAt, m.lastStartAt)
    && NoLater(w.shown, LastStart(None, i.containers, i.now))
    && NoLater(w.shown, LastStart(i.lastStartAt, i.containers, i.now))
    && (StartLike(a) ==> Clear(w, stagger, i.now) && StartAllowed(i, LastStart(i.lastStartAt, i.containers, i.now)))
    && (Counted(a) && a.workerId == focus ==> |Recent(TimesOf(m.restarts, focus), i.now)| < CRASH_LIMIT)
    && (a.Run? && a.workerId == focus ==> w.present == {})
    && (a.Replace? && a.workerId == focus ==>
          w.present <= {a.container} && (w.open.Some? ==> focus in m.pending && !m.pending[focus].confirmed))
    && (IsOutage(a) ==> a.workerId in m.outage)
  }

  /** Nothing recorded: time passed, containers went, a stop was answered, a save failed. */
  ghost predicate Quiet(before: World, after: World) {
    && before.clock <= after.clock && after.present <= before.present
    && (after.open == before.open || after.open.None?) && (before.saveFailed ==> after.saveFailed)
    && after == before.(clock := after.clock, present := after.present, open := after.open, saveFailed := after.saveFailed)
  }

  lemma QuietTwice(a: World, b: World, c: World)
    requires Quiet(a, b) && Quiet(b, c)
    ensures Quiet(a, c)
  {
  }

  /** A hold decided this tick keeps the plan off its worker as well. */
  lemma NewHoldUntouched(i: PlanInput, id: string)
    requires i.desired.authoritative && NewHold(i, id).Some?
    requires forall x :: x in i.restarting && CanCreate(i) ==> Matching(i.containers, x) == []
    ensures forall a :: a in ActionsOf(i) ==> a.workerId != id
  {
    var c := Lookup(i, id).value;
    if InputHold(i, c).Some? {
      HeldUntouched(i, c);
    } else {
      CrashLimitHolds(i, c);
    }
  }

  /** The hold on a frozen container is not decided again. */
  lemma FrozenNotHeldAgain(i: PlanInput, id: string, container: string)
    requires id in i.held && i.held[id].container == container && ShownStopped(i.containers, id, container)
    ensures NewHold(i, id).None?
  {
    var c :| c in i.containers && c.workerId == id && c.id == Some(container) && !c.running;
    MatchingMembers(i.containers, id);
    assert c in Matching(i.containers, id);
  }

  lemma FrozenUntouched(i: PlanInput, id: string, container: string)
    requires id in i.held && i.held[id].container == container && ShownStopped(i.containers, id, container)
    requires forall x :: x in i.restarting && CanCreate(i) ==> Matching(i.containers, x) == []
    ensures forall a :: a in ActionsOf(i) ==> a.workerId != id
  {
    var c :| c in i.containers && c.workerId == id && c.id == Some(container) && !c.running;
    assert InputHold(i, c).Some?;
    HeldUntouched(i, c);
  }

  /** The stagger was measured from every start and every removed record there has been. */
  lemma AllowedIsClear(w: World, stagger: Millis, m: Memory, i: PlanInput)
    requires Past(w) && KeepsStarts(w, m) && i.lastStartAt == m.lastStartAt && i.now == w.clock && i.stagger == stagger
    requires StartAllowed(i, LastStart(i.lastStartAt, i.containers, i.now))
    ensures Clear(w, stagger, i.now)
  {
    LastStartIsNewest(i.lastStartAt, i.containers, i.now);
  }

  lemma RunMeansAbsent(i: PlanInput, a: Action)
    requires a in ActionsOf(i) && a.Run?
    requires forall x :: x in i.restarting && CanCreate(i) ==> Matching(i.containers, x) == []
    ensures NamesOf(i.containers, a.workerId) == {}
  {
    DuplicatesUntouched(i, a);
    MatchingMembers(i.containers, a.workerId);
  }

  lemma ReplaceMeansOne(i: PlanInput, a: Action)
    requires a in ActionsOf(i) && a.Replace?
    ensures NamesOf(i.containers, a.workerId) == {a.container} && Exists(i.containers, a.workerId)
  {
    ActionsAreJustified(i);
    LookupIsOnly(i, a.workerId);
  }

  lemma LookupIsOnly(i: PlanInput, id: string)
    requires Lookup(i, id).Some?
    ensures NamesOf(i.containers, id) == {Lookup(i, id).value.name} && Exists(i.containers, id)
  {
    MatchingMembers(i.containers, id);
    var c := Lookup(i, id).value;
    assert Matching(i.containers, id) == [c];
    assert forall x :: x in i.containers && x.workerId == id ==> x in Matching(i.containers, id);
    assert c in i.containers;
  }

  lemma CountedMeansBelowLimit(i: PlanInput, a: Action)
    requires a in ActionsOf(i) && Counted(a)
    ensures |Recent(TimesOf(i.restarts, a.workerId), i.now)| < CRASH_LIMIT
  {
    ActionsAreJustified(i);
  }

  lemma OutageMeansOne(i: PlanInput, a: Action)
    requires a in ActionsOf(i) && IsOutage(a)
    ensures exists c :: FleetOutage.OutageExit(c) && c.workerId == a.workerId && Matching(i.containers, a.workerId) == [c]
  {
    ActionsAreJustified(i);
    var c := Lookup(i, a.workerId).value;
    assert FleetOutage.OutageExit(c) && Matching(i.containers, a.workerId) == [c];
  }

  ghost predicate OutagesRecorded(m: Memory, cs: seq<Container>) {
    forall c :: FleetOutage.OutageExit(c) && Matching(cs, c.workerId) == [c] ==> c.workerId in m.outage
  }

  lemma {:induction false} AbsentMeansNoMatch(cs: seq<Container>, id: string)
    requires !Exists(cs, id)
    ensures Matching(cs, id) == []
  {
    if cs != [] {
      var k := |cs| - 1;
      assert cs[k] in cs;
      AbsentMeansNoMatch(cs[..k], id);
    }
  }

  /** What was just observed fits the world: a confirmed, unanswered stop shows no container. */
  lemma ObservedIsConsistent(before: World, after: World, focus: string, disk: Memory, lags: bool, m: Memory,
                             cs: seq<Container>, now: Millis)
    requires Drifted(Seen(before, focus, disk.held, lags, cs, now), after) && NamesOf(cs, focus) == after.present && KeepsStop(after, focus, m)
    ensures Consistent(after, focus, m, cs)
  {
    if Exists(cs, focus) {
      var c :| c in cs && c.workerId == focus;
      assert c.name in NamesOf(cs, focus);
    }
  }

  lemma DriftIsConsistent(before: World, after: World, focus: string, m: Memory, cs: seq<Container>)
    requires Consistent(before, focus, m, cs) && Drifted(before, after)
    ensures Consistent(after, focus, m, cs)
  {
  }

  /** The plan was made from this memory and this world, on an observation they are consistent with. */
  ghost predicate PlannedFrom(w: World, focus: string, stagger: Millis, m: Memory, i: PlanInput) {
    && Sound(w, stagger) && Keeps(w, focus, m) && Consistent(w, focus, m, i.containers)
    && i.now == w.clock && i.stagger == stagger && i.lastStartAt == m.lastStartAt
    && i.restarts == m.restarts && i.held == m.held && OutagesRecorded(m, i.containers)
    && (i.desired.authoritative ==> forall x :: x in i.restarting && CanCreate(i) ==> Matching(i.containers, x) == [])
  }

  /** A planned restart is counted exactly when the worker, as observed, had crashed. */
  lemma CountedIsCrash(i: PlanInput, a: Action)
    requires a in ActionsOf(i) && StartLike(a)
    requires forall x :: x in i.restarting && CanCreate(i) ==> Matching(i.containers, x) == []
    ensures Counted(a) <==> ShowsCrash(i.containers, a.workerId)
  {
    ActionsAreJustified(i);
    MatchingMembers(i.containers, a.workerId);
    if a.Run? {
      RunMeansAbsent(i, a);
      assert forall c :: c in i.containers && c.workerId == a.workerId ==> c.name in NamesOf(i.containers, a.workerId);
    } else {
      OnlyCrash(i, a.workerId);
    }
  }

  lemma OnlyCrash(i: PlanInput, id: string)
    requires Lookup(i, id).Some?
    ensures ShowsCrash(i.containers, id) <==> CrashExit(Lookup(i, id).value)
  {
    MatchingMembers(i.containers, id);
    var c := Lookup(i, id).value;
    assert Matching(i.containers, id) == [c];
    assert forall x :: x in i.containers && x.workerId == id ==> x in Matching(i.containers, id);
  }

  /** Every planned action finds what it relies on, as of the plan. */
  lemma PlanIsReady(w: World, focus: string, stagger: Millis, m: Memory, i: PlanInput, a: Action)
    requires PlannedFrom(w, focus, stagger, m, i) && a in ActionsOf(i)
    ensures ReadyFor(w, focus, stagger, m, i, a)
  {
    if w.frozen.Some? { FrozenUntouched(i, focus, w.frozen.value); }
    PassedIsNewest(i.lastStartAt, i.containers, i.now, i.lastStartAt);
    if StartLike(a) {
      OneStart(i);
      AllowedIsClear(w, stagger, m, i);
      CountedIsCrash(i, a);
    }
    if Counted(a) { CountedMeansBelowLimit(i, a); }
    if a.Run? { RunMeansAbsent(i, a); }
    if a.Replace? { ReplaceMeansOne(i, a); }
    if IsOutage(a) { OutageMeansOne(i, a); }
  }

  /** The focus is held anew only when it is not frozen, and then the plan leaves it alone. */
  lemma HoldsAreApart(w: World, focus: string, stagger: Millis, m: Memory, i: PlanInput)
    requires PlannedFrom(w, focus, stagger, m, i) && focus in Decided(i).holds
    ensures w.frozen.None?
    ensures forall a :: a in ActionsOf(i) ==> a.workerId != focus
  {
    NewHoldUntouched(i, focus);
    if w.frozen.Some? { FrozenNotHeldAgain(i, focus, w.frozen.value); }
  }
}
