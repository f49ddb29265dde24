/**
 * The agent: one tick after another over a memory in RAM, written to disk before every step that cannot
 * be taken back, and read back after a crash. Every method that awaits may crash there; what then holds
 * of the world and the disk is `host.Inv()`.
 */
module FleetAgent {
  import opened Options
  import opened FleetTypes
  import opened FleetPlan
  import opened FleetState
  import opened FleetWorld
  import opened FleetHost
  import opened FleetSteps
  import FleetOutage
  import opened PlanGuarantees

  /** What telling the ERP of a pending stop, if there is one, came to, and the epoch it leaves for the run. */
  ghost predicate Told(calls: seq<Call>, pending: map<string, StopIdentity>, id: string, handoff: Option<int>) {
    if id !in pending then calls == [] && handoff == None
    else
      exists answer: Confirmation :: answer != NotTaken
        && calls == [TellOf(id, pending[id].(confirmed := true), answer)]
        && handoff == if answer == Stale then None else Reserved(pending, id)
  }

  /** One stop told to the ERP: a stale answer drops it, and silence is no answer. */
  ghost predicate Answers(id: string, before: Memory, after: Memory, calls: seq<Call>, more: seq<Call>, answered: bool)
    requires id in before.pending
  {
    exists answer: Confirmation ::
      && more == calls + [TellOf(id, before.pending[id], answer)] && (answered <==> answer != NotTaken)
      && after == if answer == Stale then before.(pending := before.pending - {id}) else before
  }

  ghost predicate Said(id: string, stop: StopIdentity, calls: seq<Call>, more: seq<Call>, answered: bool) {
    exists answer: Confirmation :: more == calls + [TellOf(id, stop, answer)] && (answered <==> answer != NotTaken)
  }

  /** Nothing will follow the stop on this host, and no container of the worker is left: the ERP is to hear of it. */
  predicate ToTell(hostId: string, authoritative: bool, id: string, stop: StopIdentity, observed: seq<Container>) {
    !(stop.restart && WorkerIndex(hostId, id).Some? && authoritative) && !Exists(observed, id)
  }

  /** What settling one stop asked of the ERP, and whether the stop stayed. */
  ghost predicate Handled(hostId: string, authoritative: bool, id: string, stop: StopIdentity, stays: bool,
                          observed: seq<Container>, calls: seq<Call>, more: seq<Call>) {
    if ToTell(hostId, authoritative, id, stop, observed) then Said(id, stop.(restart := false), calls, more, !stays)
    else more == calls && (stays <==> !(stop.confirmed && Exists(observed, id)))
  }

  lemma NotedIsHandled(hostId: string, authoritative: bool, id: string, stop: StopIdentity, restart: bool, stays: bool,
                       observed: seq<Container>, calls: seq<Call>, more: seq<Call>)
    requires restart <==> stop.restart && WorkerIndex(hostId, id).Some? && authoritative
    requires if stop.confirmed && Exists(observed, id) then !stays && more == calls
             else if !restart && !Exists(observed, id) then Said(id, stop.(restart := restart), calls, more, !stays)
             else stays && more == calls
    ensures Handled(hostId, authoritative, id, stop, stays, observed, calls, more)
  {
    hide Said;
  }

  ghost predicate ToldSince(calls: seq<Call>, n: nat, id: string) {
    exists k :: n <= k < |calls| && calls[k].TellOf? && calls[k].id == id
  }

  /** The calls since the first `n`: the ERP has heard of each of those stops, and of no other. */
  ghost predicate AllTold(hostId: string, authoritative: bool, pending: map<string, StopIdentity>, todo: set<string>,
                          observed: seq<Container>, calls: seq<Call>, more: seq<Call>) {
    && calls <= more
    && (forall id :: id in pending && id !in todo && ToTell(hostId, authoritative, id, pending[id], observed)
          ==> ToldSince(more, |calls|, id))
    && (forall k :: |calls| <= k < |more| ==>
          more[k].TellOf? && more[k].id in pending && ToTell(hostId, authoritative, more[k].id, pending[more[k].id], observed))
  }

  lemma NoneTold(hostId: string, authoritative: bool, pending: map<string, StopIdentity>, observed: seq<Container>, calls: seq<Call>)
    ensures AllTold(hostId, authoritative, pending, pending.Keys, observed, calls, calls)
  {
  }

  lemma ToldNext(hostId: string, authoritative: bool, pending: map<string, StopIdentity>, todo: set<string>, id: string,
                 observed: seq<Container>, calls: seq<Call>, mid: seq<Call>, more: seq<Call>, stays: bool)
    requires AllTold(hostId, authoritative, pending, todo, observed, calls, mid) && id in pending
    requires Handled(hostId, authoritative, id, pending[id], stays, observed, mid, more)
    ensures AllTold(hostId, authoritative, pending, todo - {id}, observed, calls, more)
  {
    hide ToTell;
    if ToTell(hostId, authoritative, id, pending[id], observed) {
      var answer: Confirmation :| more == mid + [TellOf(id, pending[id].(restart := false), answer)];
      assert more[|mid|].TellOf? && more[|mid|].id == id;
    }
    forall x | x in pending && x !in todo - {id} && ToTell(hostId, authoritative, x, pending[x], observed)
      ensures ToldSince(more, |calls|, x)
    {
      if x != id { ToldStays(calls, mid, more, x); }
    }
  }

  lemma ToldStays(calls: seq<Call>, mid: seq<Call>, more: seq<Call>, id: string)
    requires mid <= more && ToldSince(mid, |calls|, id)
    ensures ToldSince(more, |calls|, id)
  {
    var k :| |calls| <= k < |mid| && mid[k].TellOf? && mid[k].id == id;
    assert more[k] == mid[k];
  }

  ghost predicate ToldMore(calls: seq<Call>, more: seq<Call>, pending: map<string, StopIdentity>, id: string, handoff: Option<int>) {
    exists told :: more == calls + told && Told(told, pending, id, handoff)
  }

  lemma NothingToTell(calls: seq<Call>, pending: map<string, StopIdentity>, id: string)
    requires id !in pending
    ensures ToldMore(calls, calls, pending, id, None)
  {
    assert calls == calls + [] && Told([], pending, id, None);
  }

  /** A ticket, then the run it is for. */
  function RunCalls(a: Action, handoff: Option<int>): seq<Call>
    requires a.Run? || a.Replace?
  {
    [TicketFor(a.workerId, handoff, true),
     RunOf(a.workerId, ContainerName(a.workerId), a.image, a.port, handoff, handoff)]
  }

  lemma RunCallsAre(calls: seq<Call>, more: seq<Call>, a: Action, handoff: Option<int>)
    requires a.Run? || a.Replace?
    requires more == calls + [TicketFor(a.workerId, handoff, true)]
                     + [RunOf(a.workerId, ContainerName(a.workerId), a.image, a.port, handoff, handoff)]
    ensures more == calls + RunCalls(a, handoff)
  {
  }

  /** The calls of an action that went through, in their order. */
  ghost predicate Made(calls: seq<Call>, a: Action, pending: map<string, StopIdentity>, leases: Option<map<string, Lease>>) {
    match a
    case Start(id, container, _, _, _) => calls == [StartOf(id, container)]
    case Run(id, _, image, _) =>
      exists told, handoff :: Told(told, pending, id, handoff) && calls == told + [ImageFor(image, true)] + RunCalls(a, handoff)
    case Replace(id, container, image, _, _, _, _) =>
      exists told, handoff :: Told(told, StopRecorded(pending, id, leases), id, handoff)
        && calls == [ImageFor(image, true), HaltOf(id, container, true)] + told + RunCalls(a, handoff)
    case Remove(id, container) => calls == [RemoveOf(id, container)]
  }

  /** The action's calls came after the others. */
  ghost predicate MadeMore(calls: seq<Call>, more: seq<Call>, a: Action, pending: map<string, StopIdentity>,
                           leases: Option<map<string, Lease>>) {
    exists made :: more == calls + made && Made(made, a, pending, leases)
  }

  lemma RunIsMade(calls: seq<Call>, confirmed: seq<Call>, there: seq<Call>, more: seq<Call>, a: Action,
                  pending: map<string, StopIdentity>, leases: Option<map<string, Lease>>, handoff: Option<int>)
    requires a.Run? && ToldMore(calls, confirmed, pending, a.workerId, handoff)
    requires there == confirmed + [ImageFor(a.image, true)] && more == there + RunCalls(a, handoff)
    ensures MadeMore(calls, more, a, pending, leases)
  {
    var told :| confirmed == calls + told && Told(told, pending, a.workerId, handoff);
    var made := told + [ImageFor(a.image, true)] + RunCalls(a, handoff);
    assert more == calls + made;
    assert Made(made, a, pending, leases);
  }

  /** The first call of an action. */
  predicate Begins(a: Action, c: Call) {
    match a
    case Start(id, container, _, _, _) => c == StartOf(id, container)
    case Run(id, _, image, _) => (c.TellOf? && c.id == id) || (c.ImageFor? && c.image == image)
    case Replace(_, _, image, _, _, _, _) => c.ImageFor? && c.image == image
    case Remove(id, container) => c == RemoveOf(id, container)
  }

  predicate Begun(calls: seq<Call>, more: seq<Call>, a: Action) { calls < more && Begins(a, more[|calls|]) }

  /** From `marks[k]` on the calls were those of action `k`. */
  ghost predicate MarkedAt(more: seq<Call>, actions: seq<Action>, marks: seq<nat>, k: nat)
    requires k < |actions| && k + 1 < |marks|
  {
    marks[k] < marks[k + 1] <= |more| && Begins(actions[k], more[marks[k]])
  }

  ghost predicate Marks(calls: seq<Call>, more: seq<Call>, actions: seq<Action>, marks: seq<nat>) {
    && calls <= more && |marks| == |actions| + 1 && marks[0] == |calls| && marks[|actions|] == |more|
    && forall k :: 0 <= k < |actions| ==> MarkedAt(more, actions, marks, k)
  }

  /** Each of the actions was asked for, in turn. */
  ghost predicate AskedInTurn(calls: seq<Call>, more: seq<Call>, actions: seq<Action>) {
    exists marks: seq<nat> :: Marks(calls, more, actions, marks)
  }

  lemma NothingAsked(calls: seq<Call>)
    ensures AskedInTurn(calls, calls, [])
  {
    assert Marks(calls, calls, [], [|calls|]);
  }

  lemma AskedNext(calls: seq<Call>, mid: seq<Call>, more: seq<Call>, actions: seq<Action>, a: Action)
    requires AskedInTurn(calls, mid, actions) && Begun(mid, more, a)
    ensures AskedInTurn(calls, more, actions + [a])
  {
    var marks: seq<nat> :| Marks(calls, mid, actions, marks);
    var longer := marks + [|more|];
    forall k | 0 <= k < |actions + [a]| ensures MarkedAt(more, actions + [a], longer, k) {
      if k < |actions| {
        assert MarkedAt(mid, actions, marks, k);
        assert more[longer[k]] == mid[marks[k]];
      }
    }
    assert Marks(calls, more, actions + [a], longer);
  }

  /** A stop told, or nothing to tell and then the image. */
  ghost predicate ToldOrNone(calls: seq<Call>, more: seq<Call>, pending: map<string, StopIdentity>, id: string) {
    if id in pending then exists c: Call :: c.TellOf? && c.id == id && more == calls + [c] else more == calls
  }

  lemma NoneToTell(calls: seq<Call>, pending: map<string, StopIdentity>, id: string)
    requires id !in pending
    ensures ToldOrNone(calls, calls, pending, id)
  {
  }

  lemma AnswerIsTold(id: string, pending: map<string, StopIdentity>, before: Memory, after: Memory, calls: seq<Call>, more: seq<Call>,
                     answered: bool)
    requires id in pending && id in before.pending && before.pending == pending[id := pending[id].(confirmed := true)]
    requires Answers(id, before, after, calls, more, answered)
    ensures ToldOrNone(calls, more, pending, id) && after == before.(pending := after.pending)
    ensures answered ==> ToldMore(calls, more, pending, id, Reserved(after.pending, id))
  {
    var answer: Confirmation :|
      && more == calls + [TellOf(id, before.pending[id], answer)] && (answered <==> answer != NotTaken)
      && after == if answer == Stale then before.(pending := before.pending - {id}) else before;
    var told := [TellOf(id, pending[id].(confirmed := true), answer)];
    assert more == calls + told;
    assert answered ==> Told(told, pending, id, Reserved(after.pending, id));
  }

  lemma RunBegins(calls: seq<Call>, confirmed: seq<Call>, more: seq<Call>, a: Action, pending: map<string, StopIdentity>)
    requires a.Run? && ToldOrNone(calls, confirmed, pending, a.workerId)
    requires confirmed <= more && (confirmed == more ==> a.workerId in pending)
    requires confirmed < more ==> exists there :: more[|confirmed|] == ImageFor(a.image, there)
    ensures Begun(calls, more, a)
  {
    if a.workerId in pending {
      var c: Call :| c.TellOf? && c.id == a.workerId && confirmed == calls + [c];
      assert more[|calls|] == c;
    }
  }

  lemma ReplaceBegins(calls: seq<Call>, more: seq<Call>, a: Action, there: bool)
    requires a.Replace? && calls + [ImageFor(a.image, there)] <= more
    ensures Begun(calls, more, a)
  {
    assert more[|calls|] == ImageFor(a.image, there);
  }

  /** Docker stopped the container, and then the ERP was told. */
  ghost predicate HaltedMore(calls: seq<Call>, more: seq<Call>, a: Action, pending: map<string, StopIdentity>, handoff: Option<int>)
    requires a.Replace?
  {
    exists told :: more == calls + [HaltOf(a.workerId, a.container, true)] + told && Told(told, pending, a.workerId, handoff)
  }

  lemma StopIsTold(calls: seq<Call>, gone: seq<Call>, more: seq<Call>, a: Action, pending: map<string, StopIdentity>, handoff: Option<int>)
    requires a.Replace? && gone == calls + [HaltOf(a.workerId, a.container, true)]
    requires ToldMore(gone, more, pending, a.workerId, handoff)
    ensures HaltedMore(calls, more, a, pending, handoff)
  {
    var told :| more == gone + told && Told(told, pending, a.workerId, handoff);
    assert more == calls + [HaltOf(a.workerId, a.container, true)] + told;
  }

  lemma ReplaceIsMade(calls: seq<Call>, there: seq<Call>, halted: seq<Call>, more: seq<Call>, a: Action,
                      pending: map<string, StopIdentity>, leases: Option<map<string, Lease>>, handoff: Option<int>)
    requires a.Replace? && there == calls + [ImageFor(a.image, true)]
    requires HaltedMore(there, halted, a, StopRecorded(pending, a.workerId, leases), handoff)
    requires more == halted + RunCalls(a, handoff)
    ensures MadeMore(calls, more, a, pending, leases)
  {
    var told :| halted == there + [HaltOf(a.workerId, a.container, true)] + told
                && Told(told, StopRecorded(pending, a.workerId, leases), a.workerId, handoff);
    var made := [ImageFor(a.image, true), HaltOf(a.workerId, a.container, true)] + told + RunCalls(a, handoff);
    assert more == calls + made;
    assert Made(made, a, pending, leases);
  }

  /** What a start still relies on while the image, the ticket and the stamp are fetched. */
  ghost predicate Startable(w: World, focus: string, stagger: Millis, m: Memory, a: Action, now: Millis) {
    && now <= w.clock && Clear(w, stagger, now)
    && (a.workerId == focus ==> w.frozen.None? && (Counted(a) <==> w.crashed))
    && (Counted(a) && a.workerId == focus ==> |Recent(TimesOf(m.restarts, focus), now)| < CRASH_LIMIT)
  }

  lemma StartableDrifts(w: World, after: World, focus: string, stagger: Millis, m: Memory, a: Action, now: Millis)
    requires Startable(w, focus, stagger, m, a, now) && Drifted(w, after)
    ensures Startable(after, focus, stagger, m, a, now)
  {
  }

  ghost predicate StampIsGood(w: World, focus: string, stagger: Millis, m: Memory, a: Action) {
    && m.lastStartAt.Some? && m.lastStartAt.value <= w.clock && Clear(w, stagger, m.lastStartAt.value)
    && CountReady(w, focus, a.workerId, Counted(a), m.lastStartAt.value, m)
  }

  /** One more try of an outage is counted, when the action is one. */
  ghost predicate AttemptCounted(before: Memory, after: Memory, a: Action) {
    IsOutage(a) ==> a.workerId in before.outage && a.workerId in after.outage
                    && after.outage[a.workerId].attempts == before.outage[a.workerId].attempts + 1
  }

  /** One login more, under the stamp in memory, which was made after `before`. */
  ghost predicate OneMoreStart(before: World, after: World, m: Memory) {
    && m.lastStartAt.Some? && before.clock <= m.lastStartAt.value <= after.clock
    && after.events == before.events + [Started(m.lastStartAt.value)]
  }

  lemma OneMoreStartAround(a: World, b: World, c: World, d: World, m: Memory, changed: Memory)
    requires Drifted(a, b) && OneMoreStart(b, c, m) && Quiet(c, d) && changed.lastStartAt == m.lastStartAt
    ensures OneMoreStart(a, d, changed)
  {
  }

  lemma RunIsStart(w: World, focus: string, id: string, disk: Memory, counted: bool)
    requires id == focus ==> w.open.None?
    ensures RunCalled(w, focus, id, disk, counted) == StartCalled(w, focus, id, disk, counted)
  {
    assert w.(early := w.early) == w;
  }

  lemma CountReadyDrifts(before: World, after: World, focus: string, id: string, counted: bool, at: Millis, m: Memory)
    requires CountReady(before, focus, id, counted, at, m) && Quiet(before, after)
    ensures CountReady(after, focus, id, counted, at, m)
  {
  }

  /** The starts and counts untouched, only the stop and the hold have to be looked at again. */
  lemma SameStarts(w: World, focus: string, m: Memory, changed: Memory)
    requires Keeps(w, focus, m)
    requires changed.lastStartAt == m.lastStartAt && changed.restarts == m.restarts
    requires KeepsStop(w, focus, changed) && KeepsHold(w, focus, changed)
    ensures Keeps(w, focus, changed)
  {
  }

  /** The records are those of one pass over the containers, at some time and with some draws. */
  ghost predicate TrackedFrom(before: FleetOutage.Outages, observed: seq<Container>, after: FleetOutage.Outages) {
    exists at: Millis, draws: seq<Jitter> :: |draws| == |observed| && after == FleetOutage.Track(before, observed, at, draws)
  }

  /** A stamp made now, on a start that was allowed when planned, is good for the world and the memory. */
  lemma StampedIsKept(w: World, focus: string, stagger: Millis, m: Memory, a: Action, planned: Millis)
    requires Sound(w, stagger) && Keeps(w, focus, m) && Startable(w, focus, stagger, m, a, planned)
    ensures Keeps(w, focus, Stamped(m, a, w.clock)) && Clear(w, stagger, w.clock)
    ensures CountReady(w, focus, a.workerId, Counted(a), w.clock, Stamped(m, a, w.clock))
  {
    StampedKeepsCounted(w, focus, m, a);
    if Counted(a) && a.workerId == focus {
      StampedCounts(m, a, w.clock);
      CountBecomesReady(w, focus, m, Stamped(m, a, w.clock), planned);
    }
  }

  /** What a removal may record, and nothing else. */
  ghost predicate Recorded(before: World, after: World) {
    && Quiet(before, after.(events := before.events, lost := before.lost))
    && (forall e :: e in after.events ==> e in before.events || Some(e.at) == before.shown)
  }

  /** What became of the newest start shown: on record, or lost with its container. */
  ghost predicate StartKept(before: World, after: World, kept: bool) {
    before.shown.Some? ==> after.lost == if kept then before.lost else before.lost + [before.shown.value]
  }

  lemma RemovalIsRecorded(w: World, after: World, focus: string, id: string, disk: Memory)
    requires Drifted(RemoveCalled(w, focus, id, disk), after) && (id == focus ==> w.frozen.None?)
    ensures Recorded(w, after) && (w.shown.Some? ==> StartKept(w, after, Covered(disk, w.shown.value)))
  {
    var called := RemoveCalled(w, focus, id, disk);
    RemovalEvents(w, focus, id, disk);
    DriftedBack(w, called, after);
  }

  lemma DriftedBack(w: World, called: World, after: World)
    requires called.(events := w.events, lost := w.lost) == w && Drifted(called, after)
    ensures Quiet(w, after.(events := w.events, lost := w.lost))
    ensures after.events == called.events && after.lost == called.lost
  {
  }

  lemma RemovalEvents(w: World, focus: string, id: string, disk: Memory)
    requires id == focus ==> w.frozen.None?
    ensures var called := RemoveCalled(w, focus, id, disk);
            && called.(events := w.events, lost := w.lost) == w
            && forall e :: e in called.events ==> e in w.events || Some(e.at) == w.shown
  {
    TouchedNot(w, focus, id);
    if w.shown.Some? {
      PutBack(w, w.events + [Removed(w.shown.value)], w.lost + [w.shown.value]);
    }
  }

  lemma TouchedNot(w: World, focus: string, id: string)
    requires id == focus ==> w.frozen.None?
    ensures TouchedBy(w, focus, id) == w
  {
  }

  lemma PutBack(w: World, events: seq<Event>, lost: seq<Millis>)
    ensures w.(events := events).(events := w.events, lost := w.lost) == w
    ensures w.(lost := lost).(events := w.events, lost := w.lost) == w
  {
  }

  lemma QuietIsRecorded(w: World, after: World)
    requires Quiet(w, after)
    ensures Recorded(w, after)
  {
  }

  lemma QuietShows(w: World, after: World)
    requires Quiet(w, after)
    ensures after.shown == w.shown && after.frozen == w.frozen
  {
  }

  /** What a removal did, seen from before a quiet stretch. */
  lemma KeptAcross(w: World, mid: World, after: World)
    requires Quiet(w, mid)
    ensures Recorded(mid, after) ==> Recorded(w, after)
    ensures forall kept :: StartKept(mid, after, kept) ==> StartKept(w, after, kept)
  {
  }

  /** Once the start passed to a removal is recorded, RAM covers the newest shown; the disk does exactly when it may. */
  lemma PassedCovers(w: World, ram: Memory, disk: Memory, i: PlanInput)
    requires NoLater(i.lastStartAt, ram.lastStartAt) && NoLater(w.shown, LastStart(None, i.containers, i.now))
    ensures var passed := LastStart(i.lastStartAt, i.containers, i.now);
            var (after, written) := NewestRecorded(ram, disk, passed, true);
            && after == ram.(lastStartAt := after.lastStartAt) && NoLater(ram.lastStartAt, after.lastStartAt)
            && NewestRecorded(ram, disk, passed, false).0 == after
            && (w.shown.Some? ==>
                  && Covered(after, w.shown.value) && LastStart(None, i.containers, i.now).Some?
                  && (Covered(written, w.shown.value) <==>
                        Covered(disk, w.shown.value) || !Covered(ram, LastStart(None, i.containers, i.now).value)))
  {
    PassedIsNewest(i.lastStartAt, i.containers, i.now, ram.lastStartAt);
  }

  lemma DriftIsRecorded(w: World, after: World)
    requires Drifted(w, after)
    ensures Recorded(w, after)
  {
  }

  /** A removal of another worker leaves a planned action ready. */
  lemma StaysReady(w: World, after: World, focus: string, stagger: Millis, m: Memory, changed: Memory, i: PlanInput, a: Action)
    requires ReadyFor(w, focus, stagger, m, i, a) && Recorded(w, after)
    requires changed == m.(lastStartAt := changed.lastStartAt) && NoLater(m.lastStartAt, changed.lastStartAt)
    ensures ReadyFor(after, focus, stagger, changed, i, a)
  {
  }

  /** So do the holds just remembered. */
  lemma StaysReadyHeld(w: World, after: World, focus: string, stagger: Millis, m: Memory, changed: Memory, i: PlanInput, a: Action)
    requires ReadyFor(w, focus, stagger, m, i, a) && Quiet(w, after) && after.open == w.open
    requires changed == m.(held := changed.held)
    ensures ReadyFor(after, focus, stagger, changed, i, a)
  {
  }

  lemma AbsentHasNoNames(observed: seq<Container>, id: string)
    requires !Exists(observed, id)
    ensures NamesOf(observed, id) == {}
  {
  }

  ghost predicate SameOthers(a: map<string, StopIdentity>, b: map<string, StopIdentity>, id: string) {
    forall x :: x != id ==> (x in a <==> x in b) && (x in a ==> a[x] == b[x])
  }

  ghost predicate SameMarks(a: map<string, Millis>, b: map<string, Millis>, id: string) {
    forall x :: x != id ==> (x in a <==> x in b) && (x in a ==> a[x] == b[x])
  }

  lemma DropTwice(m0: Memory, m1: Memory, m2: Memory, id: string)
    requires m1 == m0 || m1 == m0.(pending := m0.pending - {id})
    requires m2 == m1.(pending := m1.pending - {id})
    ensures m2 == m0.(pending := m0.pending - {id})
  {
    assert m0.pending - {id} - {id} == m0.pending - {id};
  }

  ghost predicate StillConfirmed(before: map<string, StopIdentity>, after: map<string, StopIdentity>, id: string) {
    id in after && after[id].confirmed ==> id in before && before[id].confirmed
  }

  /** Settled, but for the stops still to be looked at. */
  ghost predicate SettledBut(pending: map<string, StopIdentity>, todo: set<string>, observed: seq<Container>) {
    forall id :: id in pending && id !in todo && pending[id].confirmed ==> !Exists(observed, id)
  }

  lemma SettledMore(start: map<string, StopIdentity>, before: map<string, StopIdentity>, after: map<string, StopIdentity>,
                    todo: set<string>, id: string, focus: string, observed: seq<Container>)
    requires SettledBut(before, todo, observed) && todo <= before.Keys && id in todo && SameOthers(after, before, id)
    requires id in after ==> after[id].confirmed == before[id].confirmed
    requires id in after && after[id].confirmed ==> !Exists(observed, id)
    requires StillConfirmed(start, before, focus)
    ensures SettledBut(after, todo - {id}, observed) && todo - {id} <= after.Keys && StillConfirmed(start, after, focus)
  {
  }

  /** Consistency survives a change of the pending stops that confirms nothing. */
  lemma StaysConsistent(w: World, after: World, focus: string, m: Memory, changed: Memory, observed: seq<Container>)
    requires Consistent(w, focus, m, observed) && Quiet(w, after)
    requires StillConfirmed(m.pending, changed.pending, focus)
    ensures Consistent(after, focus, changed, observed)
  {
  }

  lemma OneSettled(before: map<string, StopIdentity>, noted: map<string, StopIdentity>, after: map<string, StopIdentity>, id: string)
    requires SameOthers(noted, before, id) && (after == noted || after == noted - {id})
    ensures SameOthers(after, before, id)
  {
  }

  /** Tidied and tracked; of the pending stops see `AllTold`. */
  ghost predicate Prepared(before: Memory, after: Memory, containers: seq<Container>) {
    && after == before.(held := TidiedHeld(before.held, containers), selfStopped := TidiedStops(before.selfStopped, containers),
                        outage := after.outage, recoveredAt := after.recoveredAt, pending := after.pending)
    && TrackedFrom(FleetOutage.Outages(before.outage, before.recoveredAt), containers,
                   FleetOutage.Outages(after.outage, after.recoveredAt))
  }

  /** The workers with a stop confirmed and to be followed by a run. */
  ghost predicate Restarts(m: Memory, ids: seq<string>) {
    forall id :: id in ids <==> id in m.pending && m.pending[id].restart && m.pending[id].confirmed
  }

  /** What a tick on an observation came to: the memory put in line, the stops settled, and the plan `i` acted on. */
  ghost predicate Ticked(hostId: string, answer: Answer, containers: seq<Container>, others: seq<string>, before: Memory, tidy: Memory,
                         after: Memory, calls: seq<Call>, settled: seq<Call>, more: seq<Call>, i: PlanInput, saveFailed: bool) {
    && Prepared(before, tidy, containers) && Restarts(tidy, i.restarting)
    && after.held == tidy.held + Decided(i).holds
    && (if answer.Fresh? && others == []
        then AllTold(hostId, DesiredOf(answer).authoritative, before.pending, {}, containers, calls, settled)
        else settled == calls && tidy.pending == before.pending)
    && (if i.desired.authoritative then !saveFailed ==> AskedInTurn(settled, more, ActionsOf(i)) else more == settled)
  }

  /** Refused by the ERP, or out of its reach without a cached answer, the agent asks nothing of anybody. */
  lemma RefusedAsksNothing(hostId: string, answer: Answer, containers: seq<Container>, others: seq<string>, before: Memory, tidy: Memory,
                           after: Memory, calls: seq<Call>, settled: seq<Call>, more: seq<Call>, i: PlanInput, saveFailed: bool)
    requires Ticked(hostId, answer, containers, others, before, tidy, after, calls, settled, more, i, saveFailed)
    requires i.desired == if others == [] then DesiredOf(answer) else DesiredOf(answer).(authoritative := false)
    ensures answer == Refused || answer == Offline(None) ==> more == calls && !i.desired.authoritative
  {
  }

  lemma SameOutages(m: Memory, changed: Memory, containers: seq<Container>)
    requires OutagesRecorded(m, containers) && changed.outage == m.outage
    ensures OutagesRecorded(changed, containers)
  {
  }

  method TidyHeld(held: map<string, HoldEntry>, observed: seq<Container>) returns (out: map<string, HoldEntry>)
    ensures out == TidiedHeld(held, observed)
    ensures forall id :: id in out <==>
              id in held && exists c :: c in observed && c.workerId == id && !c.running && c.id == Some(held[id].container)
    ensures forall id :: id in out ==> out[id] == held[id]
  {
    out := held;
    var todo := held.Keys;
    while todo != {}
      invariant todo <= held.Keys
      invariant out == map id | id in held && (id in todo || ShownStopped(observed, id, held[id].container)) :: held[id]
    {
      var id :| id in todo;
      todo := todo - {id};
      if !ShownStopped(observed, id, out[id].container) { out := out - {id}; }
    }
  }

  method TidyStops(stops: map<string, Millis>, observed: seq<Container>) returns (out: map<string, Millis>)
    ensures out == TidiedStops(stops, observed)
    ensures forall id :: id in out <==> id in stops && exists c :: c in observed && c.workerId == id && !c.running
    ensures forall id :: id in out ==> out[id] == stops[id]
  {
    out := stops;
    var todo := stops.Keys;
    while todo != {}
      invariant todo <= stops.Keys
      invariant out == map id | id in stops && (id in todo || AnyStopped(observed, id)) :: stops[id]
    {
      var id :| id in todo;
      todo := todo - {id};
      if !AnyStopped(observed, id) { out := out - {id}; }
    }
  }

  /** The loop that drops, from every worker's list, the times that left the window. */
  method Prune(lists: map<string, seq<Millis>>, now: Millis) returns (out: map<string, seq<Millis>>)
    ensures out == Pruned(lists, now)
  {
    out := map[];
    var todo := lists.Keys;
    while todo != {}
      invariant todo <= lists.Keys
      invariant out == map id | id in lists && id !in todo && Recent(lists[id], now) != [] :: Recent(lists[id], now)
    {
      var id :| id in todo;
      todo := todo - {id};
      var kept := Recent(lists[id], now);
      if kept != [] { out := out[id := kept]; }
    }
  }

  class Agent {
    const host: Host
    const hostId: string
    const bootAt: Millis
    var memory: Memory

    ghost predicate Valid()
      reads this, host
    {
      host.Ok(host.w, memory)
    }

    /** A fresh process: all it knows is on disk. */
    constructor (host: Host, hostId: string)
      requires host.Inv()
      modifies host`w, host`lags
      ensures this.host == host && this.hostId == hostId && memory == host.Disk() && Valid()
      ensures host.file == old(host.file)
    {
      this.host := host;
      this.hostId := hostId;
      var m := LoadMemory(host.file);
      host.Boot();
      var now := host.Now(m);
      bootAt := now;
      memory := m;
    }

    /** Changes the memory and writes it down. */
    method Save(m: Memory) returns (r: Step<bool>)
      requires host.Inv() && Keeps(host.w, host.focus, m)
      modifies this, host`w, host`file, host`lags
      ensures memory == m && host.Inv() && Quiet(old(host.w), host.w)
      ensures old(host.w).open == host.w.open
      ensures r.Done? ==> Valid()
      ensures r == Done(true) ==> host.Disk() == m
      ensures r == Done(false) ==> host.file == old(host.file) && host.w.saveFailed
    {
      memory := m;
      r := host.Save(m);
    }

    // ---- before the plan ----

    /** Forgets holds and stop marks whose container is gone or running again. */
    method Tidy(observed: seq<Container>) returns (r: Step<()>)
      requires Valid() && Consistent(host.w, host.focus, memory, observed)
      modifies this, host`w, host`file, host`lags
      ensures host.Inv() && Quiet(old(host.w), host.w)
      ensures r.Done? ==> Valid() && Consistent(host.w, host.focus, memory, observed)
      ensures r.Done? ==> memory == old(memory).(held := TidiedHeld(old(memory.held), observed),
                                                 selfStopped := TidiedStops(old(memory.selfStopped), observed))
    {
      var held := TidyHeld(memory.held, observed);
      var stops := TidyStops(memory.selfStopped, observed);
      var tidied := memory.(held := held, selfStopped := stops);
      SameStarts(host.w, host.focus, memory, tidied);
      if tidied != memory {
        var _ :- Save(tidied);
      }
      r := Done(());
    }

    method TrackAll(observed: seq<Container>, start: FleetOutage.Outages, now: Millis)
      returns (o: FleetOutage.Outages, ghost draws: seq<Jitter>)
      ensures |draws| == |observed| && o == FleetOutage.Track(start, observed, now, draws)
    {
      draws := [];
      o := start;
      for k := 0 to |observed|
        invariant |draws| == k
        invariant o == FleetOutage.Track(start, observed[..k], now, draws)
      {
        var draw := host.Random();
        o := FleetOutage.TrackOne(o, observed[k], now, draw);
        ghost var before := draws;
        draws := draws + [draw];
        assert observed[..k + 1][..k] == observed[..k] && draws[..k] == before;
      }
      assert observed[..|observed|] == observed;
    }

    /** Opens a worker's outage record at its first 74; a long enough run closes it. */
    method TrackOutages(observed: seq<Container>) returns (r: Step<()>)
      requires Valid() && Consistent(host.w, host.focus, memory, observed)
      modifies this, host`w, host`file, host`lags
      ensures host.Inv() && Quiet(old(host.w), host.w)
      ensures r.Done? ==> Valid() && Consistent(host.w, host.focus, memory, observed)
      ensures r.Done? ==> memory == old(memory).(outage := memory.outage, recoveredAt := memory.recoveredAt)
      ensures r.Done? ==> TrackedFrom(FleetOutage.Outages(old(memory.outage), old(memory.recoveredAt)), observed,
                                      FleetOutage.Outages(memory.outage, memory.recoveredAt))
      ensures r.Done? ==> OutagesRecorded(memory, observed)
    {
      var now := host.Now(memory);
      var start := FleetOutage.Outages(memory.outage, memory.recoveredAt);
      ghost var draws;
      var o;
      o, draws := TrackAll(observed, start, now);
      var tracked := memory.(outage := o.retries, recoveredAt := o.recoveredAt);
      SameStarts(host.w, host.focus, memory, tracked);
      forall c | FleetOutage.OutageExit(c) && Matching(observed, c.workerId) == [c] ensures c.workerId in tracked.outage {
        FleetOutage.OutageIsRecorded(start, observed, now, draws, c);
      }
      if tracked != memory {
        var _ :- Save(tracked);
      }
      r := Done(());
    }

    method DropPending(id: string) returns (r: Step<bool>)
      requires Valid() && (id == host.focus ==> host.w.open.None?)
      modifies this, host`w, host`file, host`lags
      ensures host.Inv() && Quiet(old(host.w), host.w)
      ensures memory == old(memory).(pending := old(memory).pending - {id})
      ensures r.Done? ==> Valid()
    {
      var m := memory.(pending := memory.pending - {id});
      SameStarts(host.w, host.focus, memory, m);
      r := Save(m);
    }

    /** Whatever the ERP answers but silence, the stop is no longer open. */
    method TellStopped(id: string) returns (r: Step<Confirmation>)
      requires Valid() && id in memory.pending && (id == host.focus ==> host.w.present == {})
      modifies host`w, host`calls
      ensures host.Inv() && (r.Done? ==> Valid() && Quiet(old(host.w), host.w))
      ensures r.Done? && r.value != NotTaken && id == host.focus ==> host.w.open.None?
      ensures r.Done? ==> host.calls == old(host.calls) + [TellOf(id, memory.pending[id], r.value)]
    {
      r := host.Stopped(id, memory.pending[id], memory);
    }

    /** Tells the ERP the worker is stopped; a stale answer drops the stop. */
    method Acknowledge(id: string) returns (r: Step<bool>)
      requires Valid() && id in memory.pending && (id == host.focus ==> host.w.present == {})
      modifies this, host`w, host`file, host`lags, host`calls
      ensures host.Inv() && (r.Done? ==> Valid() && Quiet(old(host.w), host.w))
      ensures r.Done? ==> Answers(id, old(memory), memory, old(host.calls), host.calls, r.value)
      ensures r == Done(true) && id == host.focus ==> host.w.open.None?
    {
      ghost var w0 := host.w;
      var answer :- TellStopped(id);
      if answer == Stale {
        ghost var w1 := host.w;
        var _ :- DropPending(id);
        QuietTwice(w0, w1, host.w);
      }
      r := Done(answer != NotTaken);
    }

    /** Observe-only, or an id this host did not assign: nothing will run it again. */
    method NoteRestart(id: string, desired: Desired) returns (restart: bool)
      requires Valid() && id in memory.pending
      modifies this
      ensures Valid() && memory == old(memory).(pending := memory.pending)
      ensures id in memory.pending && memory.pending[id] == old(memory).pending[id].(restart := restart)
      ensures SameOthers(memory.pending, old(memory).pending, id)
      ensures restart <==> old(memory).pending[id].restart && WorkerIndex(hostId, id).Some? && desired.authoritative
    {
      var stop := memory.pending[id];
      restart := stop.restart && WorkerIndex(hostId, id).Some? && desired.authoritative;
      var m := memory.(pending := memory.pending[id := stop.(restart := restart)]);
      SameStarts(host.w, host.focus, memory, m);
      memory := m;
    }

    /** A confirmation the ERP takes leaves nothing to remember. */
    method Confirm(id: string) returns (r: Step<bool>)
      requires Valid() && id in memory.pending && (id == host.focus ==> host.w.present == {})
      modifies this, host`w, host`file, host`lags, host`calls
      ensures host.Inv() && (r.Done? ==> Valid() && Quiet(old(host.w), host.w))
      ensures r == Done(true) ==> memory == old(memory).(pending := old(memory).pending - {id})
      ensures r == Done(false) ==> memory == old(memory)
      ensures r.Done? ==> Said(id, old(memory).pending[id], old(host.calls), host.calls, r.value)
    {
      ghost var m0 := memory;
      var taken :- Acknowledge(id);
      if taken {
        ghost var w1, m1 := host.w, memory;
        var _ :- DropPending(id);
        QuietTwice(old(host.w), w1, host.w);
        DropTwice(m0, m1, memory, id);
      }
      r := Done(taken);
    }

    /** With its restart flag settled, one stop is dropped, confirmed or left for the plan. */
    method SettleNoted(id: string, restart: bool, observed: seq<Container>) returns (r: Step<()>)
      requires Valid() && Consistent(host.w, host.focus, memory, observed) && id in memory.pending
      modifies this, host`w, host`file, host`lags, host`calls
      ensures host.Inv() && (r.Done? ==> Valid() && Quiet(old(host.w), host.w))
      ensures r.Done? ==> memory == old(memory) || memory == old(memory).(pending := old(memory).pending - {id})
      ensures r.Done? && id in memory.pending && memory.pending[id].confirmed ==> !Exists(observed, id)
      ensures r.Done? && !old(memory).pending[id].confirmed && Exists(observed, id) ==> memory == old(memory)
      ensures r.Done? ==>
                if old(memory).pending[id].confirmed && Exists(observed, id) then id !in memory.pending && host.calls == old(host.calls)
                else if !restart && !Exists(observed, id)
                then Said(id, old(memory).pending[id], old(host.calls), host.calls, id !in memory.pending)
                else memory == old(memory) && host.calls == old(host.calls)
    {
      hide Sound, Keeps, HandedOver, Loaded, Lags, Said, ShownStopped, ShowsCrash, Newest;
      if memory.pending[id].confirmed && Exists(observed, id) {
        var _ :- DropPending(id);
      } else if !restart && !Exists(observed, id) {
        AbsentHasNoNames(observed, id);
        var _ :- Confirm(id);
      }
      r := Done(());
    }

    method SettleOne(id: string, desired: Desired, observed: seq<Container>) returns (r: Step<()>)
      requires Valid() && Consistent(host.w, host.focus, memory, observed) && id in memory.pending
      modifies this, host`w, host`file, host`lags, host`calls
      ensures host.Inv() && (r.Done? ==> Valid() && Quiet(old(host.w), host.w))
      ensures r.Done? ==> memory == old(memory).(pending := memory.pending) && SameOthers(memory.pending, old(memory).pending, id)
      ensures r.Done? && id in memory.pending ==> memory.pending[id].confirmed == old(memory).pending[id].confirmed
      ensures r.Done? && id in memory.pending && memory.pending[id].confirmed ==> !Exists(observed, id)
      ensures r.Done? ==> Handled(hostId, desired.authoritative, id, old(memory).pending[id], id in memory.pending, observed,
                                  old(host.calls), host.calls)
    {
      hide Valid, Host.Ok, Host.Inv, Consistent, Said, Handled, ToTell, SameOthers, Exists, Quiet;
      ghost var m0 := memory;
      var restart := NoteRestart(id, desired);
      ghost var m1 := memory;
      StaysConsistent(host.w, host.w, host.focus, m0, m1, observed);
      r := SettleNoted(id, restart, observed);
      if r.Done? {
        OneSettled(m0.pending, m1.pending, memory.pending, id);
        NotedIsHandled(hostId, desired.authoritative, id, m0.pending[id], restart, id in memory.pending, observed,
                       old(host.calls), host.calls);
      }
    }

    /** Confirms the stops nothing will follow, and drops those whose replacement has been run. */
    method SettlePending(desired: Desired, observed: seq<Container>) returns (r: Step<()>)
      requires Valid() && Consistent(host.w, host.focus, memory, observed)
      modifies this, host`w, host`file, host`lags, host`calls
      ensures host.Inv() && (r.Done? ==> Valid() && Consistent(host.w, host.focus, memory, observed))
      ensures r.Done? ==> Quiet(old(host.w), host.w) && memory == old(memory).(pending := memory.pending)
      ensures r.Done? ==> Settled(memory.pending, observed)
      ensures r.Done? ==> AllTold(hostId, desired.authoritative, old(memory.pending), {}, observed, old(host.calls), host.calls)
    {
      hide AllTold, Handled, Consistent;
      var todo := memory.pending.Keys;
      NoneTold(hostId, desired.authoritative, memory.pending, observed, host.calls);
      while todo != {}
        invariant Valid() && Quiet(old(host.w), host.w)
        invariant memory == old(memory).(pending := memory.pending)
        invariant StillConfirmed(old(memory).pending, memory.pending, host.focus)
        invariant todo <= memory.pending.Keys && SettledBut(memory.pending, todo, observed)
        invariant todo <= old(memory).pending.Keys && forall id :: id in todo ==> memory.pending[id] == old(memory).pending[id]
        invariant AllTold(hostId, desired.authoritative, old(memory.pending), todo, observed, old(host.calls), host.calls)
      {
        ghost var w0, m0, left, c0 := host.w, memory, todo, host.calls;
        StaysConsistent(old(host.w), w0, host.focus, old(memory), m0, observed);
        var id :| id in todo;
        todo := todo - {id};
        var _ :- SettleOne(id, desired, observed);
        ToldNext(hostId, desired.authoritative, old(memory.pending), left, id, observed,
                 old(host.calls), c0, host.calls, id in memory.pending);
        QuietTwice(old(host.w), w0, host.w);
        SettledMore(old(memory).pending, m0.pending, memory.pending, left, id, host.focus, observed);
      }
      StaysConsistent(old(host.w), host.w, host.focus, old(memory), memory, observed);
      r := Done(());
    }

    // ---- applying the plan ----

    method CountOutageAttempt(id: string)
      requires Valid() && id in memory.outage
      modifies this
      ensures Valid() && memory == old(memory).(outage := memory.outage)
      ensures id in memory.outage && memory.outage[id].attempts == old(memory).outage[id].attempts + 1
    {
      var jitter := host.Random();
      var m := memory.(outage := memory.outage[id := Retry(memory.outage[id].attempts + 1, jitter)]);
      SameStarts(host.w, host.focus, memory, m);
      memory := m;
    }

    /** The memory with a start stamped `now`, and the lists pruned to the window. */
    method StampOf(a: Action, now: Millis) returns (m: Memory)
      ensures m == Stamped(memory, a, now)
    {
      var restarts := memory.restarts;
      if Counted(a) { restarts := Appended(restarts, a.workerId, now); }
      var softRestarts := memory.softRestarts;
      if Soft(a) { softRestarts := Appended(softRestarts, a.workerId, now); }
      restarts := Prune(restarts, now);
      softRestarts := Prune(softRestarts, now);
      m := memory.(lastStartAt := Some(now), restarts := restarts, softRestarts := softRestarts);
    }

    /**
     * Written down before the start, not after. When it says so, the stamp is on disk, it stands clear of
     * every earlier start, and a counted restart is in the list on disk and within the limit.
     */
    method StampStart(a: Action, ghost planned: Millis) returns (r: Step<bool>)
      requires Valid() && StartLike(a) && Startable(host.w, host.focus, host.stagger, memory, a, planned)
      modifies this, host`w, host`file, host`lags
      ensures host.Inv() && Quiet(old(host.w), host.w) && host.w.open == old(host.w).open
      ensures r.Done? ==> Valid() && memory.lastStartAt.Some? && old(host.w).clock <= memory.lastStartAt.value
      ensures r.Done? ==> memory == Stamped(old(memory), a, memory.lastStartAt.value)
      ensures r == Done(true) ==> host.Disk() == memory && StampIsGood(host.w, host.focus, host.stagger, memory, a)
      ensures r == Done(false) ==> host.w.saveFailed
    {
      var now := host.Now(memory);
      var m := StampOf(a, now);
      ghost var w1 := host.w;
      StampedIsKept(w1, host.focus, host.stagger, memory, a, planned);
      var saved :- Save(m);
      CountReadyDrifts(w1, host.w, host.focus, a.workerId, Counted(a), now, m);
      r := Done(saved);
    }

    /** `docker start` with the stamp on disk. */
    method CallStart(a: Action) returns (r: Step<bool>)
      requires Valid() && a.Start? && host.Disk() == memory && StampIsGood(host.w, host.focus, host.stagger, memory, a)
      requires a.workerId == host.focus ==> host.w.frozen.None? && (Counted(a) <==> host.w.crashed)
      modifies host`w, host`calls
      ensures host.Inv() && (r.Done? ==> Valid())
      ensures r.Done? ==> host.w.events == old(host.w).events + [Started(memory.lastStartAt.value)]
                          && memory.lastStartAt.value <= host.w.clock
      ensures r.Done? ==> host.calls == old(host.calls) + [StartOf(a.workerId, a.container)]
      ensures r.Done? && old(host.w).saveFailed ==> host.w.saveFailed
    {
      StartIsSound(host.w, host.focus, host.stagger, a.workerId, host.Disk(), host.w.crashed);
      StartIsKept(host.w, host.focus, a.workerId, host.Disk(), host.w.crashed, memory);
      r := host.Start(a.workerId, a.container, memory);
    }

    /** `docker start` of an exited worker. */
    method ApplyStart(a: Action, ghost planned: Millis) returns (r: Step<bool>)
      requires Valid() && a.Start? && Startable(host.w, host.focus, host.stagger, memory, a, planned)
      requires a.outage ==> a.workerId in memory.outage
      modifies this, host`w, host`file, host`lags, host`calls
      ensures host.Inv() && (r.Done? ==> Valid())
      ensures r == Done(true) ==> OneMoreStart(old(host.w), host.w, memory)
      ensures r.Done? ==> memory.held == old(memory).held && AttemptCounted(old(memory), memory, a)
      ensures r == Done(true) ==> host.calls == old(host.calls) + [StartOf(a.workerId, a.container)]
      ensures r.Done? && old(host.w).saveFailed ==> host.w.saveFailed
      ensures r.Done? && !host.w.saveFailed ==> Begun(old(host.calls), host.calls, a)
    {
      if a.outage { CountOutageAttempt(a.workerId); }
      var stamped :- StampStart(a, planned);
      if !stamped { return Done(false); }
      r := CallStart(a);
    }

    /** `docker run` with the stamp on disk. */
    method CallRun(a: Action, handoff: Option<int>) returns (r: Step<bool>)
      requires Valid() && host.Disk() == memory && StampIsGood(host.w, host.focus, host.stagger, memory, a)
      requires a.workerId == host.focus ==> host.w.frozen.None? && host.w.open.None? && (Counted(a) <==> host.w.crashed)
      requires a.Run? || a.Replace?
      requires handoff == Reserved(memory.pending, a.workerId)
      requires host.calls != [] && host.calls[|host.calls| - 1] == TicketFor(a.workerId, handoff, true)
      modifies host`w, host`calls
      ensures host.Inv() && (r.Done? ==> Valid())
      ensures r.Done? ==> host.w.events == old(host.w).events + [Started(memory.lastStartAt.value)]
                          && memory.lastStartAt.value <= host.w.clock && host.w.open == old(host.w).open
      ensures r.Done? ==>
                host.calls == old(host.calls) + [RunOf(a.workerId, ContainerName(a.workerId), a.image, a.port, handoff, handoff)]
      ensures r.Done? && old(host.w).saveFailed ==> host.w.saveFailed
    {
      hide Sound, Keeps, HandedOver, Loaded, Lags;
      var id := a.workerId;
      StartIsSound(host.w, host.focus, host.stagger, id, host.Disk(), host.w.crashed);
      StartIsKept(host.w, host.focus, id, host.Disk(), host.w.crashed, memory);
      RunIsStart(host.w, host.focus, id, host.Disk(), host.w.crashed);
      r := host.Run(id, ContainerName(id), a.image, a.port, handoff, memory);
    }

    method Launch(a: Action, handoff: Option<int>, ghost planned: Millis) returns (r: Step<bool>)
      requires Valid() && StartLike(a) && Startable(host.w, host.focus, host.stagger, memory, a, planned)
      requires a.workerId == host.focus ==> host.w.open.None?
      requires a.Run? || a.Replace?
      requires handoff == Reserved(memory.pending, a.workerId)
      requires host.calls != [] && host.calls[|host.calls| - 1] == TicketFor(a.workerId, handoff, true)
      modifies this, host`w, host`file, host`lags, host`calls
      ensures host.Inv() && (r.Done? ==> Valid() && (a.workerId == host.focus ==> host.w.open.None?))
      ensures r == Done(true) ==> OneMoreStart(old(host.w), host.w, memory)
      ensures r.Done? ==> memory.held == old(memory).held && memory.outage == old(memory).outage
      ensures r == Done(true) ==>
                host.calls == old(host.calls) + [RunOf(a.workerId, ContainerName(a.workerId), a.image, a.port, handoff, handoff)]
      ensures r.Done? && old(host.w).saveFailed ==> host.w.saveFailed
      ensures r.Done? ==> old(host.calls) <= host.calls
    {
      hide Sound, Keeps, HandedOver, Loaded, Lags, StampIsGood, Clear, Recent, TimesOf, Stamped;
      ghost var m0 := memory;
      var stamped :- StampStart(a, planned);
      if memory.lastStartAt.Some? { StampLeaves(m0, a, memory.lastStartAt.value); }
      if !stamped { return Done(false); }
      r := CallRun(a, handoff);
    }

    /** A ticket, the stamp, `docker run`: in that order, since nothing that did not run was a login. */
    method RunWorker(a: Action, ghost planned: Millis) returns (r: Step<bool>)
      requires Valid() && (a.Run? || a.Replace?) && Startable(host.w, host.focus, host.stagger, memory, a, planned)
      requires a.workerId == host.focus ==> host.w.open.None?
      modifies this, host`w, host`file, host`lags, host`calls
      ensures host.Inv() && (r.Done? ==> Valid())
      ensures r == Done(true) ==> OneMoreStart(old(host.w), host.w, memory) && a.workerId !in memory.pending
      ensures r.Done? ==> memory.held == old(memory).held && memory.outage == old(memory).outage
      ensures r == Done(true) ==> host.calls == old(host.calls) + RunCalls(a, Reserved(old(memory).pending, a.workerId))
      ensures r.Done? && old(host.w).saveFailed ==> host.w.saveFailed
      ensures r.Done? ==> old(host.calls) <= host.calls
    {
      hide Host.Ok, Host.Inv, Loaded, StampIsGood, RunCalls, OneMoreStart, Startable, Drifted;
      var id := a.workerId;
      var handoff := if id in memory.pending && memory.pending[id].restart then Some(memory.pending[id].epoch) else None;
      var ticket :- host.Ticket(id, handoff, memory);
      ghost var w1 := host.w;
      StartableDrifts(old(host.w), w1, host.focus, host.stagger, memory, a, planned);
      if !ticket { return Done(false); }
      var ran :- Launch(a, handoff, planned);
      if ran {
        ghost var w2, m2 := host.w, memory;
        var _ :- DropPending(id);
        OneMoreStartAround(old(host.w), w1, w2, host.w, m2, memory);
        RunCallsAre(old(host.calls), host.calls, a, handoff);
      }
      r := Done(ran);
    }

    /** Marks the stop done; the focus's only when none of its containers is left. */
    method NoteConfirmed(id: string) returns (r: Step<bool>)
      requires Valid() && id in memory.pending && (id == host.focus ==> host.w.present == {})
      modifies this, host`w, host`file, host`lags
      ensures host.Inv() && Quiet(old(host.w), host.w) && (r.Done? ==> Valid())
      ensures memory == old(memory).(pending := old(memory).pending[id := old(memory).pending[id].(confirmed := true)])
    {
      var m := memory.(pending := memory.pending[id := memory.pending[id].(confirmed := true)]);
      SameStarts(host.w, host.focus, memory, m);
      r := Save(m);
    }

    method ApplyRun(a: Action, ghost planned: Millis, ghost leases: Option<map<string, Lease>>) returns (r: Step<bool>)
      requires Valid() && a.Run? && Startable(host.w, host.focus, host.stagger, memory, a, planned)
      requires a.workerId == host.focus ==> host.w.present == {}
      modifies this, host`w, host`file, host`lags, host`calls
      ensures host.Inv() && (r.Done? ==> Valid())
      ensures r == Done(true) ==> OneMoreStart(old(host.w), host.w, memory) && a.workerId !in memory.pending
      ensures r.Done? ==> memory.held == old(memory).held
      ensures r == Done(true) ==> MadeMore(old(host.calls), host.calls, a, old(memory).pending, leases)
      ensures r.Done? && old(host.w).saveFailed ==> host.w.saveFailed
      ensures r.Done? && !host.w.saveFailed ==> Begun(old(host.calls), host.calls, a)
    {
      hide Begun, ToldOrNone, ToldMore, MadeMore, RunCalls, HandedOver, Loaded, Lags;
      ghost var c0, pending := host.calls, memory.pending;
      var confirmed :- ConfirmStopped(a.workerId);
      ghost var c1 := host.calls;
      if !confirmed {
        RunBegins(c0, c1, c1, a, pending);
        return Done(false);
      }
      var available :- host.EnsureImage(a.image, memory);
      RunBegins(c0, c1, host.calls, a, pending);
      if !available { return Done(false); }
      ghost var c2, handoff := host.calls, Reserved(memory.pending, a.workerId);
      r := RunWorker(a, planned);
      if r.Done? { RunBegins(c0, c1, host.calls, a, pending); }
      if r == Done(true) { RunIsMade(c0, c1, c2, host.calls, a, pending, leases, handoff); }
    }

    /** The stop, on disk before Docker is asked: with it the identity the ERP has to confirm. */
    method RecordStop(id: string, desired: Desired) returns (r: Step<bool>)
      requires Valid()
      requires id == host.focus && host.w.open.Some? ==> host.focus in memory.pending && !memory.pending[host.focus].confirmed
      modifies this, host`w, host`file, host`lags
      ensures host.Inv() && Quiet(old(host.w), host.w) && host.w.open == old(host.w).open && (r.Done? ==> Valid())
      ensures r.Done? ==> memory == old(memory).(pending := StopRecorded(old(memory).pending, id, desired.leases),
                                                 selfStopped := memory.selfStopped)
      ensures r.Done? && id in memory.pending ==> !memory.pending[id].confirmed
      ensures r.Done? && LeaseHeld(desired, id).Some? ==>
                && id in memory.pending
                && (LeaseOf(memory.pending[id]) == LeaseHeld(desired, id).value <==>
                    (id in old(memory).pending && !old(memory).pending[id].confirmed ==>
                       LeaseOf(old(memory).pending[id]) == LeaseHeld(desired, id).value))
      ensures r.Done? ==> id in memory.selfStopped && SameMarks(memory.selfStopped, old(memory).selfStopped, id)
      ensures r.Done? ==> old(host.w).clock <= memory.selfStopped[id] <= host.w.clock
      ensures r == Done(true) ==> host.Disk() == memory
    {
      var now := host.Now(memory);
      var m := memory.(pending := StopRecorded(memory.pending, id, desired.leases),
                       selfStopped := memory.selfStopped[id := now]);
      SameStarts(host.w, host.focus, memory, m);
      r := Save(m);
    }

    /** The container is gone: the stop is marked done, and the ERP is told when there is a lease to give up. */
    method ConfirmStopped(id: string) returns (r: Step<bool>)
      requires Valid() && (id == host.focus ==> host.w.present == {})
      modifies this, host`w, host`file, host`lags, host`calls
      ensures host.Inv() && (r.Done? ==> Valid() && Quiet(old(host.w), host.w))
      ensures r.Done? ==> memory == old(memory).(pending := memory.pending)
      ensures r == Done(true) && id == host.focus ==> host.w.open.None?
      ensures r == Done(true) ==> ToldMore(old(host.calls), host.calls, old(memory).pending, id, Reserved(memory.pending, id))
      ensures r.Done? ==> ToldOrNone(old(host.calls), host.calls, old(memory).pending, id)
      ensures r == Done(false) ==> id in old(memory).pending
    {
      hide Sound, HandedOver, Loaded, Lags, ToldOrNone, ToldMore, Told, Answers;
      ghost var c0, pending := host.calls, memory.pending;
      if id !in memory.pending {
        NothingToTell(host.calls, memory.pending, id);
        NoneToTell(host.calls, memory.pending, id);
        return Done(true);
      }
      var _ :- NoteConfirmed(id);
      ghost var w1, m1 := host.w, memory;
      r := Acknowledge(id);
      if r.Done? {
        QuietTwice(old(host.w), w1, host.w);
        AnswerIsTold(id, pending, m1, memory, c0, host.calls, r.value);
      }
    }

    /** `docker stop` and `docker rm`, with the stop on disk. */
    method Halt(a: Action) returns (r: Step<bool>)
      requires Valid() && a.Replace? && host.Disk() == memory
      requires a.workerId == host.focus && host.lease.Some? ==> a.workerId in memory.pending
      requires a.workerId in memory.pending ==> !memory.pending[a.workerId].confirmed
      requires a.workerId == host.focus ==> host.w.frozen.None? && host.w.present <= {a.container}
      modifies host`w, host`calls
      ensures host.Inv() && (r.Done? ==> Valid())
      ensures r.Done? ==> host.w.events == old(host.w).events && host.w.clock >= old(host.w).clock
                          && host.w.frozen == old(host.w).frozen && host.w.crashed == old(host.w).crashed
      ensures r == Done(true) && a.workerId == host.focus ==> host.w.present == {}
      ensures r.Done? ==> host.calls == old(host.calls) + [HaltOf(a.workerId, a.container, r.value)]
      ensures r.Done? && old(host.w).saveFailed ==> host.w.saveFailed
    {
      StopIsKept(host.w, host.focus, host.stagger, a.workerId, memory, host.lease);
      r := host.StopAndRemove(a.workerId, a.container, memory);
    }

    /** With the stop on disk, stops and removes the container and has the ERP confirm it. */
    method HaltAndTell(a: Action) returns (r: Step<bool>)
      requires Valid() && a.Replace? && host.Disk() == memory
      requires a.workerId == host.focus && host.lease.Some? ==> a.workerId in memory.pending
      requires a.workerId in memory.pending ==> !memory.pending[a.workerId].confirmed
      requires a.workerId == host.focus ==> host.w.frozen.None? && host.w.present <= {a.container}
      modifies this, host`w, host`file, host`lags, host`calls
      ensures host.Inv() && (r.Done? ==> Valid())
      ensures r.Done? ==> memory == old(memory).(pending := memory.pending)
      ensures r == Done(true) ==> host.w.events == old(host.w).events && host.w.clock >= old(host.w).clock
                                  && host.w.frozen == old(host.w).frozen && host.w.crashed == old(host.w).crashed
      ensures r == Done(true) && a.workerId == host.focus ==> host.w.open.None? && host.w.present == {}
      ensures r == Done(true) ==> HaltedMore(old(host.calls), host.calls, a, old(memory).pending, Reserved(memory.pending, a.workerId))
      ensures r.Done? && old(host.w).saveFailed ==> host.w.saveFailed
      ensures r.Done? ==> old(host.calls) <= host.calls
    {
      hide Sound, Keeps, HandedOver, Loaded, Lags, HaltedMore, ToldMore, Reserved;
      var gone :- Halt(a);
      if !gone { return Done(false); }
      ghost var c1 := host.calls;
      r := ConfirmStopped(a.workerId);
      if r == Done(true) { StopIsTold(old(host.calls), c1, host.calls, a, old(memory).pending, Reserved(memory.pending, a.workerId)); }
    }

    /** Records the stop, stops and removes the container, and has the ERP confirm it. */
    method Stop(a: Action, desired: Desired) returns (r: Step<bool>)
      requires Valid() && a.Replace? && host.lease == LeaseHeld(desired, host.focus)
      requires a.workerId == host.focus ==> host.w.frozen.None? && host.w.present <= {a.container}
      requires a.workerId == host.focus && host.w.open.Some? ==>
                 host.focus in memory.pending && !memory.pending[host.focus].confirmed
      modifies this, host`w, host`file, host`lags, host`calls
      ensures host.Inv() && (r.Done? ==> Valid())
      ensures r.Done? ==> memory.held == old(memory).held
      ensures r == Done(true) ==> memory.restarts == old(memory).restarts && memory.outage == old(memory).outage
      ensures r == Done(true) ==> host.w.events == old(host.w).events && host.w.clock >= old(host.w).clock
                                  && host.w.frozen == old(host.w).frozen && host.w.crashed == old(host.w).crashed
      ensures r == Done(true) && a.workerId == host.focus ==> host.w.open.None? && host.w.present == {}
      ensures r == Done(true) ==> HaltedMore(old(host.calls), host.calls, a, StopRecorded(old(memory).pending, a.workerId, desired.leases),
                                             Reserved(memory.pending, a.workerId))
      ensures r.Done? && old(host.w).saveFailed ==> host.w.saveFailed
      ensures r.Done? ==> old(host.calls) <= host.calls
    {
      hide Sound, Keeps, HandedOver, Loaded, Lags, StopRecorded, HaltedMore, Reserved, LeaseHeld, SameMarks;
      var saved :- RecordStop(a.workerId, desired);
      if !saved { return Done(false); }
      r := HaltAndTell(a);
    }

    method ApplyReplace(a: Action, desired: Desired, ghost planned: Millis) returns (r: Step<bool>)
      requires Valid() && a.Replace? && Startable(host.w, host.focus, host.stagger, memory, a, planned)
      requires host.lease == LeaseHeld(desired, host.focus)
      requires a.outage ==> a.workerId in memory.outage
      requires a.workerId == host.focus ==> host.w.present <= {a.container}
      requires a.workerId == host.focus && host.w.open.Some? ==>
                 host.focus in memory.pending && !memory.pending[host.focus].confirmed
      modifies this, host`w, host`file, host`lags, host`calls
      ensures host.Inv() && (r.Done? ==> Valid())
      ensures r == Done(true) ==> OneMoreStart(old(host.w), host.w, memory) && a.workerId !in memory.pending
      ensures r == Done(true) ==> AttemptCounted(old(memory), memory, a)
      ensures r.Done? ==> memory.held == old(memory).held
      ensures r == Done(true) ==> MadeMore(old(host.calls), host.calls, a, old(memory).pending, desired.leases)
      ensures r.Done? && old(host.w).saveFailed ==> host.w.saveFailed
      ensures r.Done? && !host.w.saveFailed ==> Begun(old(host.calls), host.calls, a)
    {
      hide Host.Inv, Sound, Keeps, HandedOver, Loaded, Lags, Recent, TimesOf;
      hide Begun, HaltedMore, MadeMore, RunCalls, StopRecorded, Reserved;
      ghost var c0, pending := host.calls, memory.pending;
      var available :- host.EnsureImage(a.image, memory);
      ghost var c1 := host.calls;
      ReplaceBegins(c0, c1, a, available);
      if !available { return Done(false); }
      var stopped :- Stop(a, desired);
      ReplaceBegins(c0, host.calls, a, true);
      if !stopped { return Done(false); }
      ghost var c2, handoff := host.calls, Reserved(memory.pending, a.workerId);
      if a.outage {
        CountOutageAttempt(a.workerId);
        var _ :- Save(memory);
      }
      r := RunWorker(a, planned);
      if r.Done? { ReplaceBegins(c0, host.calls, a, true); }
      if r == Done(true) { ReplaceIsMade(c0, c1, c2, host.calls, a, pending, desired.leases, handoff); }
    }

    /** The start passed is on disk, or RAM already covers it. */
    method RecordNewest(lastStartAt: Option<Millis>) returns (r: Step<bool>)
      requires Valid()
      modifies this, host`w, host`file, host`lags
      ensures host.Inv() && Quiet(old(host.w), host.w) && (r.Done? ==> Valid())
      ensures r.Done? ==> (memory, host.Disk()) == NewestRecorded(old(memory), old(host.Disk()), lastStartAt, r.value)
      ensures r == Done(false) ==> Exceeds(lastStartAt, old(memory).lastStartAt)
      ensures r == Done(false) ==> host.w.saveFailed
    {
      if lastStartAt.Some? && (memory.lastStartAt.None? || lastStartAt.value > memory.lastStartAt.value) {
        r := Save(memory.(lastStartAt := lastStartAt));
      } else {
        r := Done(true);
      }
    }

    /** `docker rm`, when RAM covers the newest start shown. */
    method CallRemove(a: Action) returns (r: Step<bool>)
      requires Valid() && a.Remove? && (a.workerId == host.focus ==> host.w.frozen.None?)
      requires host.w.shown.Some? ==> Covered(memory, host.w.shown.value)
      modifies host`w, host`calls
      ensures host.Inv() && (r.Done? ==> Valid() && Recorded(old(host.w), host.w))
      ensures r.Done? && old(host.w).shown.Some? ==>
                StartKept(old(host.w), host.w, Covered(old(host.Disk()), old(host.w).shown.value))
      ensures r.Done? ==> host.calls == old(host.calls) + [RemoveOf(a.workerId, a.container)]
      ensures r.Done? && old(host.w).saveFailed ==> host.w.saveFailed
    {
      hide Sound, Keeps, HandedOver, Loaded, Lags;
      ghost var w0, disk := host.w, host.Disk();
      RemoveIsSound(w0, host.focus, host.stagger, a.workerId, disk);
      RemoveIsKept(w0, host.focus, a.workerId, disk, memory);
      RemoveIsKept(w0, host.focus, a.workerId, disk, disk);
      r := host.RemoveStopped(a.workerId, a.container, memory);
      if Drifted(RemoveCalled(w0, host.focus, a.workerId, disk), host.w) {
        RemovalIsRecorded(w0, host.w, host.focus, a.workerId, disk);
      } else {
        DriftIsRecorded(w0, host.w);
      }
    }

    /**
     * `docker rm` above the count; the start passed is saved first unless RAM covers it. When it goes
     * through, the newest start shown is on record exactly when the disk covered it before, or RAM did not
     * cover the newest start the plan saw.
     */
    method ApplyRemove(a: Action, lastStartAt: Option<Millis>, ghost i: PlanInput) returns (r: Step<bool>)
      requires Valid() && a.Remove? && ReadyFor(host.w, host.focus, host.stagger, memory, i, a)
      requires lastStartAt == LastStart(i.lastStartAt, i.containers, i.now)
      modifies this, host`w, host`file, host`lags, host`calls
      ensures host.Inv() && (r.Done? ==> Valid() && memory == old(memory).(lastStartAt := memory.lastStartAt))
      ensures r.Done? ==> NoLater(old(memory).lastStartAt, memory.lastStartAt) && Recorded(old(host.w), host.w)
      ensures r == Done(true) && old(host.w).shown.Some? ==>
                && LastStart(None, i.containers, i.now).Some?
                && StartKept(old(host.w), host.w, Covered(old(host.Disk()), old(host.w).shown.value)
                                                  || !Covered(old(memory), LastStart(None, i.containers, i.now).value))
      ensures r == Done(true) ==> host.calls == old(host.calls) + [RemoveOf(a.workerId, a.container)]
      ensures r.Done? && old(host.w).saveFailed ==> host.w.saveFailed
      ensures r.Done? && !host.w.saveFailed ==> Begun(old(host.calls), host.calls, a)
    {
      hide Sound, Keeps, HandedOver, Loaded, Lags, Quiet, Recorded, StartKept, Covered, NewestRecorded, LastStart;
      ghost var w0, m0, disk := host.w, memory, host.Disk();
      PassedCovers(w0, memory, disk, i);
      var saved :- RecordNewest(lastStartAt);
      if !saved {
        QuietIsRecorded(w0, host.w);
        return Done(false);
      }
      ghost var w1 := host.w;
      QuietShows(w0, w1);
      r := CallRemove(a);
      KeptAcross(w0, w1, host.w);
    }

    // ---- one tick ----

    method Apply(a: Action, desired: Desired, lastStartAt: Option<Millis>, ghost i: PlanInput) returns (r: Step<bool>)
      requires Valid() && ReadyFor(host.w, host.focus, host.stagger, memory, i, a)
      requires lastStartAt == LastStart(i.lastStartAt, i.containers, i.now) && host.lease == LeaseHeld(desired, host.focus)
      modifies this, host`w, host`file, host`lags, host`calls
      ensures host.Inv() && (r.Done? ==> Valid())
      ensures r.Done? && a.Remove? ==> memory == old(memory).(lastStartAt := memory.lastStartAt)
                                       && NoLater(old(memory).lastStartAt, memory.lastStartAt)
                                       && Recorded(old(host.w), host.w)
      ensures r == Done(true) && StartLike(a) ==> OneMoreStart(old(host.w), host.w, memory) && AttemptCounted(old(memory), memory, a)
      ensures r.Done? ==> memory.held == old(memory).held
      ensures r == Done(true) && (a.Run? || a.Replace?) ==> a.workerId !in memory.pending
      ensures r == Done(true) ==> MadeMore(old(host.calls), host.calls, a, old(memory).pending, desired.leases)
      ensures r.Done? && old(host.w).saveFailed ==> host.w.saveFailed
      ensures r.Done? && !host.w.saveFailed ==> Begun(old(host.calls), host.calls, a)
    {
      hide Sound, Keeps, HandedOver, Loaded, Lags;
      match a {
        case Start(_, _, _, _, _) => r := ApplyStart(a, i.now);
        case Run(_, _, _, _) => r := ApplyRun(a, i.now, desired.leases);
        case Replace(_, _, _, _, _, _, _) => r := ApplyReplace(a, desired, i.now);
        case Remove(_, _) => r := ApplyRemove(a, lastStartAt, i);
      }
    }

    /**
     * The actions in order; the one start comes last, so a removal before it never gets in its way. Unless a save
     * has failed, each of them is asked for, whatever became of the ones before.
     */
    method ApplyAll(actions: seq<Action>, desired: Desired, lastStartAt: Option<Millis>, ghost i: PlanInput) returns (r: Step<()>)
      requires Valid() && lastStartAt == LastStart(i.lastStartAt, i.containers, i.now)
      requires host.lease == LeaseHeld(desired, host.focus)
      requires forall a :: a in actions ==> ReadyFor(host.w, host.focus, host.stagger, memory, i, a)
      requires forall j :: 0 <= j < |actions| && StartLike(actions[j]) ==> j == |actions| - 1
      modifies this, host`w, host`file, host`lags, host`calls
      ensures host.Inv() && (r.Done? ==> Valid() && memory.held == old(memory).held)
      ensures r.Done? && !host.w.saveFailed ==> AskedInTurn(old(host.calls), host.calls, actions)
      ensures r.Done? && actions == [] ==> host.w == old(host.w) && host.calls == old(host.calls)
    {
      hide AskedInTurn, Begun, MadeMore, OneMoreStart, AttemptCounted;
      NothingAsked(host.calls);
      for k := 0 to |actions|
        invariant Valid() && memory.held == old(memory).held
        invariant forall j :: k <= j < |actions| ==> ReadyFor(host.w, host.focus, host.stagger, memory, i, actions[j])
        invariant !host.w.saveFailed ==> AskedInTurn(old(host.calls), host.calls, actions[..k])
        invariant k == 0 ==> host.w == old(host.w) && host.calls == old(host.calls)
      {
        ghost var w0, m0, c0 := host.w, memory, host.calls;
        var _ :- Apply(actions[k], desired, lastStartAt, i);
        if !host.w.saveFailed { AskedNext(old(host.calls), c0, host.calls, actions[..k], actions[k]); }
        assert actions[..k + 1] == actions[..k] + [actions[k]];
        forall j | k < j < |actions| ensures ReadyFor(host.w, host.focus, host.stagger, memory, i, actions[j]) {
          StaysReady(w0, host.w, host.focus, host.stagger, m0, memory, i, actions[j]);
        }
      }
      assert actions[..|actions|] == actions;
      r := Done(());
    }

    /** The workers stopped for a replacement, in whatever order the record lists them. */
    method Restarting() returns (ids: seq<string>)
      ensures Restarts(memory, ids)
    {
      ids := [];
      var todo := memory.pending.Keys;
      while todo != {}
        invariant todo <= memory.pending.Keys
        invariant forall id :: id in ids <==> id in memory.pending && id !in todo && memory.pending[id].restart && memory.pending[id].confirmed
      {
        var id :| id in todo;
        todo := todo - {id};
        if memory.pending[id].restart && memory.pending[id].confirmed { ids := ids + [id]; }
      }
    }

    /** Remembers the holds just decided: they are on disk afterwards, unless a save has failed. */
    method RememberHolds(holds: map<string, HoldEntry>) returns (r: Step<()>)
      requires Valid()
      requires host.w.frozen.Some? ==> host.focus !in holds
      modifies this, host`w, host`file, host`lags
      ensures host.Inv() && Quiet(old(host.w), host.w) && host.w.open == old(host.w).open
      ensures r.Done? ==> Valid() && memory == old(memory).(held := old(memory).held + holds)
      ensures r.Done? && holds != map[] ==> host.Disk() == memory || host.w.saveFailed
    {
      if holds == map[] {
        assert memory.held + holds == memory.held;
        return Done(());
      }
      var m := memory.(held := memory.held + holds);
      SameStarts(host.w, host.focus, memory, m);
      var _ :- Save(m);
      r := Done(());
    }

    /**
     * Puts the memory in line with what was observed, before anything is planned on it: holds and stop marks, then
     * the outage records, then, with the ERP at hand and no other agent about, the pending stops.
     */
    method Prepare(desired: Desired, online: bool, containers: seq<Container>, others: seq<string>) returns (r: Step<()>)
      requires Valid() && Consistent(host.w, host.focus, memory, containers)
      modifies this, host`w, host`file, host`lags, host`calls
      ensures host.Inv()
      ensures r.Done? ==> Valid() && Consistent(host.w, host.focus, memory, containers) && OutagesRecorded(memory, containers)
      ensures r.Done? && online && others == [] ==> Settled(memory.pending, containers)
      ensures r.Done? ==> Quiet(old(host.w), host.w) && Prepared(old(memory), memory, containers)
      ensures r.Done? ==> if online && others == []
                          then AllTold(hostId, desired.authoritative, old(memory.pending), {}, containers, old(host.calls), host.calls)
                          else host.calls == old(host.calls) && memory.pending == old(memory).pending
    {
      hide Sound, Keeps, HandedOver, Loaded, Lags, AllTold, Consistent, Settled, OutagesRecorded, TrackedFrom, TidiedHeld, TidiedStops;
      ghost var w0, m0 := host.w, memory;
      var _ :- Tidy(containers);
      ghost var w1 := host.w;
      var _ :- TrackOutages(containers);
      ghost var w2, m2 := host.w, memory;
      QuietTwice(w0, w1, w2);
      if online && others == [] {
        var _ :- SettlePending(desired, containers);
        QuietTwice(w0, w2, host.w);
        SameOutages(m2, memory, containers);
      }
      r := Done(());
    }

    /**
     * One tick: the desired state and the containers in, Docker commands out. Without an observation nothing is done.
     * Otherwise the memory is put in line first and the plan is made from it. Refused, or without even a cached
     * answer, the agent asks nothing of anybody; with the authority and alone, it asks for every planned action in
     * turn, unless a save has failed.
     */
    method Tick(imageAllowed: bool)
      returns (r: Step<()>, ghost answer: Option<Answer>, ghost seen: Option<seq<Container>>, ghost others: seq<string>,
               ghost tidy: Memory, ghost settled: seq<Call>, ghost i: Option<PlanInput>)
      requires Valid()
      modifies this, host
      ensures host.Inv() && (r.Done? ==> Valid())
      ensures r.Done? ==> answer.Some?
      ensures r.Done? && seen.None? ==> memory == old(memory) && host.calls == old(host.calls) && host.w.events == old(host.w).events
      ensures r.Done? && seen.Some? ==>
                && i.Some?
                && i.value == PlanFrom(tidy, answer.value, seen.value, others, imageAllowed, i.value.now, i.value.restarting)
                && Ticked(hostId, answer.value, seen.value, others, old(memory), tidy, memory, old(host.calls), settled, host.calls,
                          i.value, host.w.saveFailed)
                && (!i.value.desired.authoritative ==> host.w.events == old(host.w).events)
      ensures r.Done? && (answer == Some(Refused) || answer == Some(Offline(None))) ==>
                host.calls == old(host.calls) && host.w.events == old(host.w).events
    {
      hide Sound, Keeps, HandedOver, Loaded, Lags, Consistent, Ticked, Seen;
      answer, seen, others, tidy, settled, i := None, None, [], memory, host.calls, None;
      var told :- host.AskDesired(memory);
      answer := Some(told);
      var observed :- Look();
      if observed.None? { return Done(()), answer, seen, others, tidy, settled, i; }
      seen := observed;
      ghost var m0, c0 := memory, host.calls;
      ghost var planned;
      r, others, tidy, settled, planned := TickOn(told, observed.value, imageAllowed);
      i := Some(planned);
      if r.Done? {
        RefusedAsksNothing(hostId, told, observed.value, others, m0, tidy, memory, c0, settled, host.calls, planned, host.w.saveFailed);
      }
    }

    /** The containers, if Docker shows them. */
    method Look() returns (r: Step<Option<seq<Container>>>)
      requires Valid()
      modifies host`w
      ensures host.Inv() && host.w.events == old(host.w).events
      ensures r.Done? ==> Valid() && (r.value.Some? ==> Consistent(host.w, host.focus, memory, r.value.value))
    {
      hide Sound, HandedOver, Loaded, Lags, FrozenBy, ShowsCrash, LastStart;
      ghost var w0 := host.w;
      r := host.Observe(memory);
      if r.Done? && r.value.Some? {
        ObservedIsConsistent(w0, host.w, host.focus, host.Disk(), host.lags, memory, r.value.value, host.w.clock);
      }
    }

    /** With the containers at hand. */
    method TickOn(answer: Answer, containers: seq<Container>, imageAllowed: bool)
      returns (r: Step<()>, ghost others: seq<string>, ghost tidy: Memory, ghost settled: seq<Call>, ghost i: PlanInput)
      requires Valid() && Consistent(host.w, host.focus, memory, containers)
      requires host.lease == LeaseHeld(DesiredOf(answer), host.focus)
      modifies this, host`w, host`file, host`lags, host`calls
      ensures host.Inv() && (r.Done? ==> Valid())
      ensures r.Done? ==>
                && i == PlanFrom(tidy, answer, containers, others, imageAllowed, i.now, i.restarting)
                && Ticked(hostId, answer, containers, others, old(memory), tidy, memory, old(host.calls), settled, host.calls,
                          i, host.w.saveFailed)
                && (!i.desired.authoritative ==> host.w.events == old(host.w).events)
    {
      hide Sound, Keeps, HandedOver, Loaded, Lags, AllTold, Consistent, Settled, OutagesRecorded, Prepared;
      hide AskedInTurn, Decided, ActionsOf;
      others, tidy, settled := [], memory, host.calls;
      i := PlanFrom(memory, answer, containers, [], imageAllowed, 0.0, []);
      ghost var w1 := host.w;
      var beside :- host.OtherAgents(memory);
      others := beside;
      DriftIsConsistent(w1, host.w, host.focus, memory, containers);
      var _ :- Prepare(DesiredOf(answer), answer.Fresh?, containers, beside);
      tidy, settled := memory, host.calls;
      r, i := PlanAndAct(answer, containers, beside, imageAllowed);
    }

    /** What the plan is made from. */
    ghost function PlanFrom(m: Memory, answer: Answer, containers: seq<Container>, others: seq<string>, imageAllowed: bool,
                            now: Millis, restarting: seq<string>): PlanInput
      reads this
    {
      PlanInput(hostId, if others == [] then DesiredOf(answer) else DesiredOf(answer).(authoritative := false), containers,
                answer.Fresh?, now, m.lastStartAt, m.restarts, m.softRestarts, m.outage, m.recoveredAt, m.held, m.selfStopped, bootAt, imageAllowed,
                host.stagger, restarting)
    }

    method PlanAndAct(answer: Answer, containers: seq<Container>, others: seq<string>, imageAllowed: bool)
      returns (r: Step<()>, ghost planned: PlanInput)
      requires Valid() && Consistent(host.w, host.focus, memory, containers) && OutagesRecorded(memory, containers)
      requires answer.Fresh? && others == [] ==> Settled(memory.pending, containers)
      requires host.lease == LeaseHeld(DesiredOf(answer), host.focus)
      modifies this, host`w, host`file, host`lags, host`calls
      ensures host.Inv() && (r.Done? ==> Valid())
      ensures planned == PlanFrom(old(memory), answer, containers, others, imageAllowed, planned.now, planned.restarting)
      ensures Restarts(old(memory), planned.restarting)
      ensures r.Done? ==> memory.held == old(memory).held + Decided(planned).holds
      // an agent that only observes asks nothing of Docker and makes no login
      ensures r.Done? && !planned.desired.authoritative ==> host.w.events == old(host.w).events && host.calls == old(host.calls)
      ensures r.Done? && planned.desired.authoritative && !host.w.saveFailed ==>
                AskedInTurn(old(host.calls), host.calls, ActionsOf(planned))
    {
      hide Sound, Keeps, HandedOver, Loaded, Lags, AskedInTurn;
      var desired := DesiredOf(answer);
      var now := host.Now(memory);
      var restarting := Restarting();
      var i := PlanInput(hostId, if others == [] then desired else desired.(authoritative := false), containers, answer.Fresh?, now,
                         memory.lastStartAt, memory.restarts, memory.softRestarts, memory.outage, memory.recoveredAt,
                         memory.held, memory.selfStopped, bootAt, imageAllowed, host.stagger, restarting);
      planned := i;
      if i.desired.authoritative {
        forall x | x in i.restarting && CanCreate(i) ensures Matching(containers, x) == [] {
          AbsentMeansNoMatch(containers, x);
        }
      }
      var result := Plan(i);
      r := Act(i, result, desired);
    }

    /** What follows the plan: the holds, then the actions unless the agent only observes. */
    method Act(i: PlanInput, planned: PlanResult, desired: Desired) returns (r: Step<()>)
      requires Valid() && PlannedFrom(host.w, host.focus, host.stagger, memory, i) && planned == Decided(i)
      requires host.lease == LeaseHeld(desired, host.focus)
      modifies this, host`w, host`file, host`lags, host`calls
      ensures host.Inv() && (r.Done? ==> Valid() && memory.held == old(memory).held + Decided(i).holds)
      ensures r.Done? && !i.desired.authoritative ==> host.w.events == old(host.w).events && host.calls == old(host.calls)
      ensures r.Done? && i.desired.authoritative && !host.w.saveFailed ==> AskedInTurn(old(host.calls), host.calls, ActionsOf(i))
    {
      hide Sound, Keeps, HandedOver, Loaded, Lags, AskedInTurn;
      ghost var w0, m0 := host.w, memory;
      if host.focus in planned.holds { HoldsAreApart(w0, host.focus, host.stagger, m0, i); }
      var _ :- RememberHolds(planned.holds);
      if !i.desired.authoritative { return Done(()); }
      forall a | a in planned.actions ensures ReadyFor(host.w, host.focus, host.stagger, memory, i, a) {
        PlanIsReady(w0, host.focus, host.stagger, m0, i, a);
        StaysReadyHeld(w0, host.w, host.focus, host.stagger, m0, memory, i, a);
      }
      OneStart(i);
      var _ :- ApplyAll(planned.actions, desired, planned.lastStartAt, i);
      var _ :- host.Observe(memory);
      r := Done(());
    }
  }
}
