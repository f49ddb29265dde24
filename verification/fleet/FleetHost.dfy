/**
 * Everything outside the agent: the clock, Docker, the ERP and the file under /state. Each call answers
 * whatever it likes, and the agent may crash at any of them, before or after the call took effect. Between
 * steps people may start, stop and remove containers; only the focus's containers are not created by others.
 */
module FleetHost {
  import opened Options
  import opened FleetTypes
  import opened FleetPlan
  import opened FleetState
  import opened FleetWorld

  /** What an awaited call comes back with, unless the agent died on it. */
  datatype Step<+T> = Crashed | Done(value: T) {
    predicate IsFailure() { Crashed? }
    function PropagateFailure<U>(): Step<U> requires Crashed? { Crashed }
    function Extract(): T requires Done? { value }
  }

  datatype Answer = Fresh(desired: Desired) | Refused | Offline(cached: Option<Desired>)

  datatype Confirmation = NotTaken | Accepted | Stale

  /** What Docker and the ERP were asked, with the answer where one decides what follows. */
  datatype Call =
    | ImageFor(image: string, there: bool)
    | TicketFor(id: string, handoff: Option<int>, granted: bool)
    | RunOf(id: string, container: string, image: string, port: int, handoff: Option<int>, reserved: Option<int>)
    | StartOf(id: string, container: string)
    | HaltOf(id: string, container: string, gone: bool)
    | RemoveOf(id: string, container: string)
    | TellOf(id: string, stop: StopIdentity, answer: Confirmation)

  /** The epoch a pending stop reserves for the worker's next run. */
  function Reserved(pending: map<string, StopIdentity>, id: string): Option<int> {
    if id in pending && pending[id].restart then Some(pending[id].epoch) else None
  }

  /** Every run carries the epoch that the disk reserved then, and follows a ticket granted for that epoch. */
  ghost predicate HandedOver(calls: seq<Call>) {
    forall k :: 0 <= k < |calls| && calls[k].RunOf? ==>
      && calls[k].handoff == calls[k].reserved
      && k > 0 && calls[k - 1] == TicketFor(calls[k].id, calls[k].handoff, true)
  }

  lemma HandedOverNext(calls: seq<Call>, c: Call)
    requires HandedOver(calls)
    requires c.RunOf? ==> c.handoff == c.reserved && calls != [] && calls[|calls| - 1] == TicketFor(c.id, c.handoff, true)
    ensures HandedOver(calls + [c])
  {
  }

  ghost function NamesOf(cs: seq<Container>, id: string): set<string> {
    set c | c in cs && c.workerId == id :: c.name
  }

  predicate ShownStopped(cs: seq<Container>, id: string, container: string) {
    exists c :: c in cs && c.workerId == id && c.id == Some(container) && !c.running
  }

  predicate ShowsCrash(cs: seq<Container>, id: string) {
    exists c :: c in cs && c.workerId == id && CrashExit(c)
  }

  /**
   * The container that must not be touched, after an observation: the one held on disk, from the first
   * observation that shows it stopped to the first that does not. A hold that only the disk still knows,
   * since the save that was to drop it failed, freezes nothing anew.
   */
  function FrozenBy(frozen: Option<string>, held: map<string, HoldEntry>, lags: bool, focus: string, cs: seq<Container>): Option<string> {
    if !lags && focus in held && ShownStopped(cs, focus, held[focus].container) then Some(held[focus].container)
    else if frozen.Some? && !ShownStopped(cs, focus, frozen.value) then None
    else frozen
  }

  /** What an observation at `now` tells: the newest start shown, whether the focus crashed, and what is frozen. */
  ghost function Seen(w: World, focus: string, held: map<string, HoldEntry>, lags: bool, cs: seq<Container>, now: Millis): World {
    w.(frozen := FrozenBy(w.frozen, held, lags, focus, cs), shown := LastStart(None, cs, now), crashed := ShowsCrash(cs, focus))
  }

  /** The disk has a hold on the worker that RAM has dropped or replaced. */
  predicate Lags(disk: map<string, HoldEntry>, ram: map<string, HoldEntry>, id: string) {
    id in disk && !(id in ram && ram[id].container == disk[id].container)
  }

  /** The desired state an answer leaves the agent with. */
  function DesiredOf(a: Answer): Desired {
    match a
    case Fresh(d) => d
    case Refused => EMPTY_DESIRED
    case Offline(cached) => (if cached.Some? then cached.value else EMPTY_DESIRED)
  }

  /** The lease the ERP shows for a worker, if any. */
  function LeaseHeld(d: Desired, id: string): Option<Lease> {
    if d.leases.Some? && id in d.leases.value then Some(d.leases.value[id]) else None
  }

  class Host {
    /** The worker the guarantees are stated for; it is arbitrary. */
    const focus: string
    const stagger: Millis
    var w: World
    var file: Option<Json>
    /** Everything Docker and the ERP were asked, for every worker. */
    var calls: seq<Call>
    /** The lease the focus held by the last answer of the ERP, or by the cached one. */
    var lease: Option<Lease>
    /** The disk lags behind the running agent's hold on the focus. */
    var lags: bool

    /** Any file, any clock, any containers; nothing has happened yet. */
    constructor (focus: string, stagger: Millis, file: Option<Json>, clock: Millis, present: set<string>)
      ensures this.focus == focus && this.stagger == stagger && this.file == file && Inv()
    {
      this.focus := focus;
      this.stagger := stagger;
      this.file := file;
      this.calls := [];
      this.lease := None;
      this.lags := false;
      this.w := World(clock, [], [], None, [], false, present, None, None, false, false, false, false, false);
    }

    ghost function Disk(): Memory
      reads this
    {
      Loaded(file)
    }

    /** What holds at every crash point. */
    ghost predicate Inv()
      reads this
    {
      Sound(w, stagger) && Keeps(w, focus, Disk()) && HandedOver(calls)
    }

    /** `v` is a sound world for an agent with memory `m` in RAM. */
    ghost predicate Ok(v: World, m: Memory)
      reads this
    {
      && Sound(v, stagger) && Keeps(v, focus, Disk()) && Keeps(v, focus, m) && HandedOver(calls)
      && (!v.saveFailed ==> m.lastStartAt == Disk().lastStartAt)
      && (!lags ==> !Lags(Disk().held, m.held, focus))
    }

    /** A fresh process has read the file. */
    method Boot()
      requires Inv()
      modifies this`lags
      ensures Inv() && Ok(w, Disk())
    {
      lags := false;
    }

    /** Time passes; people may remove containers of the focus. */
    method Drift(ghost m: Memory)
      modifies this`w
      ensures Drifted(old(w), w)
      ensures old(Inv()) ==> Inv()
      ensures old(Keeps(w, focus, m)) ==> Keeps(w, focus, m)
      ensures old(Ok(w, m)) ==> Ok(w, m)
    {
      var later: Millis := *;
      var gone: set<string> := *;
      if later < w.clock { later := w.clock; }
      w := w.(clock := later, present := w.present - gone);
      DriftKeeps(old(w), w, focus, stagger, m);
      DriftKeeps(old(w), w, focus, stagger, Disk());
    }

    /** The present world gives way to one that asks less of a memory. */
    method Ease(v: World, ghost m: Memory)
      requires Ok(w, m) && Eased(w, v)
      modifies this`w
      ensures w == v && Ok(w, m)
    {
      EasedKeeps(w, v, focus, stagger, m);
      EasedKeeps(w, v, focus, stagger, Disk());
      w := v;
    }

    /** What an observation told changes nothing a memory has to keep. */
    method Learn(shown: Option<Millis>, crashed: bool, ghost m: Memory)
      requires Ok(w, m) && (shown.Some? ==> shown.value <= w.clock)
      modifies this`w
      ensures w == old(w).(shown := shown, crashed := crashed) && Ok(w, m)
    {
      hide Sound, Keeps, Loaded;
      LearningKeeps(w, focus, stagger, shown, crashed, m);
      LearningKeeps(w, focus, stagger, shown, crashed, Disk());
      w := w.(shown := shown, crashed := crashed);
    }

    method Now(ghost m: Memory) returns (t: Millis)
      modifies this`w
      ensures w == old(w).(clock := t) && old(w.clock) <= t
      ensures old(Inv()) ==> Inv()
      ensures old(Ok(w, m)) ==> Ok(w, m)
    {
      t := *;
      if t < w.clock { t := w.clock; }
      w := w.(clock := t);
      DriftKeeps(old(w), w, focus, stagger, m);
      DriftKeeps(old(w), w, focus, stagger, Disk());
    }

    method Random() returns (j: Jitter)
    {
      j := *;
    }

    /** Writes the file beside and renames it over: the old memory is on disk, or all of the new one. */
    method Save(m: Memory) returns (r: Step<bool>)
      requires Inv() && Keeps(w, focus, m)
      modifies this`w, this`file, this`lags
      ensures Inv()
      ensures r.Done? ==> Ok(w, m)
      ensures Drifted(old(w).(saveFailed := w.saveFailed), w) && (old(w.saveFailed) ==> w.saveFailed)
      ensures r == Done(true) ==> Disk() == m && w.saveFailed == old(w.saveFailed)
      ensures r == Done(false) ==> file == old(file) && w.saveFailed
      ensures r.Crashed? ==> file == old(file) || file == Some(Written(m))
    {
      hide Sound, Keeps, Loaded, Written;
      Drift(m);
      var renamed: bool := *;
      var crash: bool := *;
      if renamed {
        file := Some(Written(m));
        SavedIsLoaded(m);
        lags := false;
        return if crash then Crashed else Done(true);
      }
      if crash { return Crashed; }
      FailedSaveKeeps(w, focus, stagger, m);
      FailedSaveKeeps(w, focus, stagger, Disk());
      w := w.(saveFailed := true);
      lags := Lags(Loaded(file).held, m.held, focus);
      r := Done(false);
    }

    method AskDesired(ghost m: Memory) returns (r: Step<Answer>)
      requires Ok(w, m)
      modifies this`w, this`lease
      ensures Drifted(old(w), w) && Ok(w, m)
      ensures r.Done? ==> lease == LeaseHeld(DesiredOf(r.value), focus)
    {
      Drift(m);
      r := *;
      if r.Done? { lease := LeaseHeld(DesiredOf(r.value), focus); }
    }

    method OtherAgents(ghost m: Memory) returns (r: Step<seq<string>>)
      requires Ok(w, m)
      modifies this`w
      ensures Drifted(old(w), w) && Ok(w, m)
    {
      Drift(m);
      r := *;
    }

    /** Any containers at all, but the focus's are those that are there; what it tells is in `Seen`. */
    method Observe(ghost m: Memory) returns (r: Step<Option<seq<Container>>>)
      requires Ok(w, m)
      modifies this`w
      ensures Ok(w, m)
      ensures r.Done? && r.value.Some? ==>
                Drifted(Seen(old(w), focus, Disk().held, lags, r.value.value, w.clock), w) && NamesOf(r.value.value, focus) == w.present
      ensures r.Crashed? || r.value.None? ==> Drifted(old(w), w)
    {
      hide Sound, Keeps, Loaded, FrozenBy, ShowsCrash, Lags;
      Drift(m);
      var cs: seq<Container> := *;
      var shown: bool := *;
      var crash: bool := *;
      if crash { return Crashed; }
      if !shown || (set c | c in cs && c.workerId == focus :: c.name) != w.present { return Done(None); }
      Freeze(cs, m);
      var newest := EffectiveLastStart(None, cs, w.clock);
      LastStartIsNewest(None, cs, w.clock);
      Learn(newest, ShowsCrash(cs, focus), m);
      r := Done(Some(cs));
    }

    /** One more call. */
    method Note(c: Call, ghost m: Memory)
      requires Ok(w, m)
      requires c.RunOf? ==> c.handoff == c.reserved && calls != [] && calls[|calls| - 1] == TicketFor(c.id, c.handoff, true)
      modifies this`calls
      ensures calls == old(calls) + [c] && Ok(w, m)
    {
      hide Sound, Keeps, Loaded, Lags, HandedOver;
      HandedOverNext(calls, c);
      calls := calls + [c];
    }

    method EnsureImage(image: string, ghost m: Memory) returns (r: Step<bool>)
      requires Ok(w, m)
      modifies this`w, this`calls
      ensures Drifted(old(w), w) && Inv() && Ok(w, m)
      ensures r.Done? ==> calls == old(calls) + [ImageFor(image, r.value)]
    {
      Drift(m);
      r := *;
      if r.Done? { Note(ImageFor(image, r.value), m); }
    }

    method Ticket(id: string, handoff: Option<int>, ghost m: Memory) returns (r: Step<bool>)
      requires Ok(w, m)
      modifies this`w, this`calls
      ensures Drifted(old(w), w) && Inv() && Ok(w, m)
      ensures r.Done? ==> calls == old(calls) + [TicketFor(id, handoff, r.value)]
    {
      Drift(m);
      r := *;
      if r.Done? { Note(TicketFor(id, handoff, r.value), m); }
    }

    /** `docker start`. */
    method Start(id: string, name: string, ghost m: Memory) returns (r: Step<bool>)
      requires Ok(w, m) && Ok(StartCalled(w, focus, id, Disk(), w.crashed), m)
      modifies this`w, this`calls
      ensures Ok(w, m)
      ensures r.Done? ==> calls == old(calls) + [StartOf(id, name)]
      ensures (r.Crashed? && Drifted(old(w), w)) || Drifted(StartCalled(old(w), focus, id, Disk(), old(w.crashed)), w)
    {
      var crash: bool := *;
      if crash { return Crashed; }
      w := StartCalled(w, focus, id, Loaded(file), w.crashed);
      Note(StartOf(id, name), m);
      Drift(m);
      r := *;
    }

    /** `docker run`: whatever it answers, the container may be there afterwards. */
    method Run(id: string, name: string, image: string, port: int, handoff: Option<int>, ghost m: Memory)
      returns (r: Step<bool>)
      requires Ok(w, m) && Ok(RunCalled(w, focus, id, Disk(), w.crashed), m)
      requires id == focus ==> w.open.None?
      requires handoff == Reserved(Disk().pending, id) && calls != [] && calls[|calls| - 1] == TicketFor(id, handoff, true)
      modifies this`w, this`calls
      ensures Ok(w, m)
      ensures r.Done? ==> calls == old(calls) + [RunOf(id, name, image, port, handoff, handoff)]
      ensures (r.Crashed? && Drifted(old(w), w)) ||
              Drifted(RunCalled(old(w), focus, id, Disk(), old(w.crashed)).(
                        present := if id == focus then old(w).present + {name} else old(w).present), w)
    {
      hide Sound, Keeps, Loaded, Lags, HandedOver, RunCalled;
      var crash: bool := *;
      if crash { return Crashed; }
      RunLeaves(w, focus, id, Disk(), w.crashed);
      w := RunCalled(w, focus, id, Loaded(file), w.crashed);
      if id == focus {
        AppearingKeeps(w, focus, stagger, name, m);
        AppearingKeeps(w, focus, stagger, name, Disk());
        w := w.(present := w.present + {name});
      }
      Note(RunOf(id, name, image, port, handoff, Reserved(Loaded(file).pending, id)), m);
      Drift(m);
      r := *;
    }

    /** `docker stop`, then `docker rm`; true when no container of that name is left. */
    method StopAndRemove(id: string, name: string, ghost m: Memory) returns (r: Step<bool>)
      requires Ok(w, m) && Ok(StopCalled(w, focus, id, Disk(), lease), m)
      modifies this`w, this`calls
      ensures Ok(w, m)
      ensures r.Done? ==> calls == old(calls) + [HaltOf(id, name, r.value)]
      ensures (r.Crashed? && Drifted(old(w), w)) || Drifted(StopCalled(old(w), focus, id, Disk(), lease), w)
      ensures r == Done(true) ==> name !in w.present
    {
      var crash: bool := *;
      if crash { return Crashed; }
      w := StopCalled(w, focus, id, Loaded(file), lease);
      Drift(m);
      r := *;
      if r == Done(true) { Ease(w.(present := w.present - {name}), m); }
      if r.Done? { Note(HaltOf(id, name, r.value), m); }
    }

    /** `docker rm`, which refuses a running container. */
    method RemoveStopped(id: string, name: string, ghost m: Memory) returns (r: Step<bool>)
      requires Ok(w, m) && Ok(RemoveCalled(w, focus, id, Disk()), m)
      modifies this`w, this`calls
      ensures Ok(w, m)
      ensures r.Done? ==> calls == old(calls) + [RemoveOf(id, name)]
      ensures (r.Crashed? && Drifted(old(w), w)) || Drifted(RemoveCalled(old(w), focus, id, Disk()), w)
    {
      var crash: bool := *;
      if crash { return Crashed; }
      w := RemoveCalled(w, focus, id, Loaded(file));
      Note(RemoveOf(id, name), m);
      Drift(m);
      r := *;
    }

    /**
     * The stop confirmation, which is for a worker with no container left. When the agent dies on it, the ERP
     * may have taken it or not.
     */
    method Stopped(id: string, p: StopIdentity, ghost m: Memory) returns (r: Step<Confirmation>)
      requires Ok(w, m) && (id == focus ==> w.present == {})
      modifies this`w, this`calls
      ensures Ok(w, m)
      ensures r.Done? ==> calls == old(calls) + [TellOf(id, p, r.value)]
      ensures r == Done(NotTaken) ==> Drifted(old(w), w)
      ensures r.Done? && r.value != NotTaken ==> Drifted(Answered(old(w), focus, id, p), w)
    {
      hide Sound, Keeps, Loaded, Lags, Drifted, Eased, Answered, Ok;
      Drift(m);
      r := *;
      var taken: bool := *;
      if r.Done? { taken := r.value != NotTaken; }
      if taken {
        AnswerEases(old(w), w, focus, id, p);
        Ease(Answered(w, focus, id, p), m);
      }
      if r.Done? { Note(TellOf(id, p, r.value), m); }
    }

    /** From here a held container that shows as stopped is not to be touched. */
    method Freeze(cs: seq<Container>, ghost m: Memory)
      requires Ok(w, m)
      modifies this`w
      ensures w == old(w).(frozen := FrozenBy(old(w).frozen, Disk().held, lags, focus, cs)) && Ok(w, m)
    {
      hide Sound, Keeps, Loaded;
      var frozen := FrozenBy(w.frozen, Loaded(file).held, lags, focus, cs);
      FreezingKeeps(w, focus, stagger, frozen, m);
      FreezingKeeps(w, focus, stagger, frozen, Disk());
      w := w.(frozen := frozen);
    }
  }
}
