/** Named leases: one worker runs a loop for the fleet, and loses it by letting it lapse. */
module Leases {
  datatype Lease = Lease(worker: string, until: real)

  type Table = map<string, Lease>

  /** The row is free for `worker`: absent, its own, or lapsed. */
  predicate Free(t: Table, name: string, worker: string, now: real) {
    name in t ==> t[name].worker == worker || t[name].until < now
  }

  function Held(t: Table, name: string, worker: string, ttl: real, now: real): Table {
    if Free(t, name, worker, now) then t[name := Lease(worker, now + ttl)] else t
  }

  function GivenUp(t: Table, name: string, worker: string): Table {
    if name in t && t[name].worker == worker then t - {name} else t
  }

  /** Everything the worker holds, given up at once. */
  function Cleared(t: Table, worker: string): Table { map name | name in t && t[name].worker != worker :: t[name] }

  // ---- a fleet of workers, step by step ----

  datatype Step =
    | Hold(name: string, worker: string, ttl: real)
    | Release(name: string, worker: string)
    | ReleaseAll(worker: string)
    | Wait(until: real)

  /** `told` is what each worker last heard about each lease: until when it may run the loop. */
  datatype Fleet = Fleet(rows: Table, told: map<(string, string), real>, now: real)

  function Next(f: Fleet, s: Step): Fleet {
    match s
    case Hold(name, worker, ttl) =>
      Fleet(Held(f.rows, name, worker, ttl, f.now),
            if Free(f.rows, name, worker, f.now) then f.told[(name, worker) := f.now + ttl] else f.told - {(name, worker)},
            f.now)
    case Release(name, worker) => Fleet(GivenUp(f.rows, name, worker), f.told - {(name, worker)}, f.now)
    case ReleaseAll(worker) =>
      Fleet(Cleared(f.rows, worker), map key | key in f.told && key.1 != worker :: f.told[key], f.now)
    case Wait(until) => f.(now := until)
  }

  class LeaseTable {
    var rows: Table

    constructor ()
      ensures rows == map[]
    {
      rows := map[];
    }

    method HoldLease(name: string, worker: string, ttl: real, now: real) returns (ok: bool)
      modifies this
      ensures rows == Held(old(rows), name, worker, ttl, now)
      ensures ok == Free(old(rows), name, worker, now)
    {
      if name !in rows {
        rows := rows[name := Lease(worker, now + ttl)];
        return true;
      }
      ok := rows[name].worker == worker || rows[name].until < now;
      if ok { rows := rows[name := Lease(worker, now + ttl)]; }
    }

    method ReleaseLease(name: string, worker: string)
      modifies this
      ensures rows == GivenUp(old(rows), name, worker)
    {
      if name in rows && rows[name].worker == worker { rows := rows - {name}; }
    }

    /** DELETE FROM loop_leases WHERE worker_id = worker. */
    method ReleaseAllLeases(worker: string)
      modifies this
      ensures rows == Cleared(old(rows), worker)
    {
      var todo := rows.Keys;
      while todo != {}
        invariant todo <= old(rows).Keys && Cleared(old(rows), worker).Keys <= rows.Keys <= old(rows).Keys
        invariant forall name :: name in rows ==> rows[name] == old(rows)[name]
        invariant forall name :: name in rows ==> name in todo || rows[name].worker != worker
      {
        var name :| name in todo;
        todo := todo - {name};
        if name in rows && rows[name].worker == worker { rows := rows - {name}; }
      }
    }

    /** Any statement is a step of the runs below; what it answers is what its worker then believes. */
    method Perform(s: Step, ghost told: map<(string, string), real>, now: real) returns (ok: bool)
      requires !s.Wait?
      modifies this
      ensures var after := Next(Fleet(old(rows), told, now), s);
              rows == after.rows && (s.Hold? ==> (ok <==> (s.name, s.worker) in after.told))
    {
      ok := true;
      match s
      case Hold(name, worker, ttl) => ok := HoldLease(name, worker, ttl, now);
      case Release(name, worker) => ReleaseLease(name, worker);
      case ReleaseAll(worker) => ReleaseAllLeases(worker);
    }
  }

  // ---- runs ----

  ghost function After(f: Fleet, run: seq<Step>): Fleet {
    if run == [] then f else Next(After(f, run[..|run| - 1]), run[|run| - 1])
  }

  ghost predicate ClockRuns(f: Fleet, run: seq<Step>) {
    run == [] || (
      && ClockRuns(f, run[..|run| - 1])
      && (run[|run| - 1].Wait? ==> After(f, run[..|run| - 1]).now <= run[|run| - 1].until))
  }

  ghost predicate Believes(f: Fleet, name: string, worker: string) {
    (name, worker) in f.told && f.now <= f.told[(name, worker)]
  }

  /** A worker that believes it holds a lease is the one the row names, until the very same moment. */
  ghost predicate Backed(f: Fleet) {
    forall name, worker :: Believes(f, name, worker) ==>
      name in f.rows && f.rows[name] == Lease(worker, f.told[(name, worker)])
  }

  lemma StepKeepsBacked(f: Fleet, s: Step)
    requires Backed(f) && (s.Wait? ==> f.now <= s.until)
    ensures Backed(Next(f, s))
  {
    var after := Next(f, s);
    forall name, worker | Believes(after, name, worker)
      ensures name in after.rows && after.rows[name] == Lease(worker, after.told[(name, worker)])
    {
      assert Believes(f, name, worker) || (s.Hold? && s.name == name && s.worker == worker);
    }
  }

  /** In every run at most one worker at a time believes it holds a lease, whatever lifetimes it asks for. */
  lemma {:induction false} OneHolder(start: real, run: seq<Step>, name: string, a: string, b: string)
    requires ClockRuns(Fleet(map[], map[], start), run)
    ensures var end := After(Fleet(map[], map[], start), run);
            Backed(end) && (Believes(end, name, a) && Believes(end, name, b) ==> a == b)
  {
    var f := Fleet(map[], map[], start);
    if run != [] {
      OneHolder(start, run[..|run| - 1], name, a, b);
      StepKeepsBacked(After(f, run[..|run| - 1]), run[|run| - 1]);
    }
  }

  /** The holder renews the lease or gives it up. */
  ghost predicate ByHolder(s: Step, name: string, worker: string) {
    match s
    case Hold(n, w, _) => n == name && w == worker
    case Release(n, w) => n == name && w == worker
    case ReleaseAll(w) => w == worker
    case Wait(_) => false
  }

  /**
   * Until the moment a lease was taken for, and at that moment, no run of anybody else's calls takes it away:
   * the row stays, and it is free for the holder alone. The moment after, it is free for everyone.
   */
  lemma {:induction false} KeptUntilItLapses(f: Fleet, run: seq<Step>, name: string, other: string)
    requires ClockRuns(f, run) && name in f.rows && After(f, run).now <= f.rows[name].until
    requires forall s :: s in run ==> !ByHolder(s, name, f.rows[name].worker)
    ensures var end := After(f, run);
            && name in end.rows && end.rows[name] == f.rows[name]
            && (Free(end.rows, name, other, end.now) <==> other == f.rows[name].worker)
            && forall later :: later > f.rows[name].until ==> Free(end.rows, name, other, later)
  {
    if run != [] {
      var front, last := run[..|run| - 1], run[|run| - 1];
      assert last in run && forall s :: s in front ==> s in run;
      KeptUntilItLapses(f, front, name, other);
      if last.Hold? { KeptUntilItLapses(f, front, name, last.worker); }
    }
  }

  /**
   * A lease is taken exactly when nobody else's runs on: then its row names the worker until `ttl` from now, and
   * the worker was told that very moment; otherwise the row stays and the worker was told no. From there, as long
   * as it neither renews nor gives up, nobody else takes it up to that moment, and anybody may after it.
   */
  lemma TakenForItsTime(f: Fleet, name: string, worker: string, ttl: real, run: seq<Step>, other: string)
    requires var taken := Next(f, Hold(name, worker, ttl)); ClockRuns(taken, run) && After(taken, run).now <= f.now + ttl
    requires forall s :: s in run ==> !ByHolder(s, name, worker)
    ensures var taken := Next(f, Hold(name, worker, ttl));
            var end := After(taken, run);
            if name in f.rows && f.rows[name].worker != worker && f.rows[name].until >= f.now
            then taken.rows == f.rows && (name, worker) !in taken.told
            else
              && (name, worker) in taken.told && taken.told[(name, worker)] == f.now + ttl
              && name in end.rows && end.rows[name].worker == worker && end.rows[name].until == f.now + ttl
              && ((name, other) in Next(end, Hold(name, other, ttl)).told <==> other == worker)
              && (forall later :: later > f.now + ttl ==> Free(end.rows, name, other, later))
              && (forall n :: n != name ==> (n in taken.rows <==> n in f.rows) && (n in f.rows ==> taken.rows[n] == f.rows[n]))
  {
    if !(name in f.rows && f.rows[name].worker != worker && f.rows[name].until >= f.now) {
      KeptUntilItLapses(Next(f, Hold(name, worker, ttl)), run, name, other);
    }
  }

  /** Giving up makes a lease free exactly where it already was, or where the one that gives up held it. */
  lemma GivingUpFrees(t: Table, name: string, worker: string, other: string, now: real)
    ensures Free(GivenUp(t, name, worker), name, other, now) <==> Free(t, name, other, now) || t[name].worker == worker
    ensures forall n :: n != name ==> (n in GivenUp(t, name, worker) <==> n in t) && (n in t ==> GivenUp(t, name, worker)[n] == t[n])
    ensures Free(Cleared(t, worker), name, other, now) <==> Free(t, name, other, now) || t[name].worker == worker
    ensures forall n :: n in Cleared(t, worker) <==> n in t && t[n].worker != worker
    ensures forall n :: n in Cleared(t, worker) ==> Cleared(t, worker)[n] == t[n]
  {
  }
}
