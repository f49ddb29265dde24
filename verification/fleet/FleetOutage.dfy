/** The licence outage records: opened at a worker's first exit 74, closed by a long enough run. */
module FleetOutage {
  import opened Options
  import opened FleetTypes
  import opened FleetPlan

  datatype Outages = Outages(retries: map<string, Retry>, recoveredAt: Option<Millis>)

  predicate OutageExit(c: Container) { !c.running && c.exitCode == Some(EXIT_LICENSE_OUTAGE) }

  predicate Closes(o: Outages, c: Container, now: Millis) {
    c.workerId in o.retries && RanHealthily(c, now) && !(OutageExit(c) && o.retries[c.workerId].attempts == 0)
  }

  function TrackOne(o: Outages, c: Container, now: Millis, draw: Jitter): Outages {
    var closed :=
      if Closes(o, c, now) then Outages(o.retries - {c.workerId}, if c.running then Some(now) else o.recoveredAt) else o;
    if OutageExit(c) && c.workerId !in closed.retries
    then closed.(retries := closed.retries[c.workerId := Retry(0, draw)])
    else closed
  }

  /** One pass over the containers, `draws` being the random numbers at hand, one per container. */
  ghost function Track(o: Outages, cs: seq<Container>, now: Millis, draws: seq<Jitter>): Outages
    requires |draws| == |cs|
  {
    if cs == [] then o
    else
      var k := |cs| - 1;
      TrackOne(Track(o, cs[..k], now, draws[..k]), cs[k], now, draws[k])
  }

  /**
   * What one container does to its worker's record. It is there after an exit 74, or if it was there and the
   * last run was no longer than 15 minutes; it starts anew when there was none, or when a retry was made and
   * then ran longer. A running worker that ran so long ends the outage now.
   */
  lemma OneContainer(o: Outages, c: Container, now: Millis, draw: Jitter)
    ensures var after, id := TrackOne(o, c, now, draw), c.workerId;
            var exited := !c.running && c.exitCode == Some(74);
            var ranLong := c.startedAt.Some?
                           && (if c.running then now - c.startedAt.value > 900000.0
                               else c.finishedAt.Some? && c.finishedAt.value - c.startedAt.value > 900000.0);
            && (id in after.retries <==> exited || (id in o.retries && !ranLong))
            && (id in after.retries ==>
                  after.retries[id] == if id in o.retries && (ranLong ==> o.retries[id].attempts == 0) then o.retries[id]
                                       else Retry(0, draw))
            && after.recoveredAt == (if id in o.retries && c.running && ranLong then Some(now) else o.recoveredAt)
            && (forall x :: x != id ==> (x in after.retries <==> x in o.retries))
            && (forall x :: x != id && x in o.retries ==> after.retries[x] == o.retries[x])
  {
    assert RanHealthily(c, now) <==>
           c.startedAt.Some? && (c.running || c.finishedAt.Some?)
           && (if c.running then now else c.finishedAt.value) - c.startedAt.value > 900000.0;
  }

  ghost predicate DistinctIds(cs: seq<Container>) {
    forall j, k :: 0 <= j < k < |cs| ==> cs[j].workerId != cs[k].workerId
  }

  /** Nothing left to do for a stopped container, at whatever time and draw. */
  ghost predicate Quiet(o: Outages, c: Container) {
    && (OutageExit(c) ==> c.workerId in o.retries)
    && (c.workerId in o.retries && RanHealthily(c, 0.0) ==> OutageExit(c) && o.retries[c.workerId].attempts == 0)
  }

  lemma QuietIsKept(o: Outages, c: Container, now: Millis, draw: Jitter)
    requires !c.running && Quiet(o, c)
    ensures TrackOne(o, c, now, draw) == o
  {
  }

  lemma TrackOneQuiets(o: Outages, c: Container, now: Millis, draw: Jitter)
    requires !c.running
    ensures Quiet(TrackOne(o, c, now, draw), c)
  {
  }

  lemma {:induction false} TrackQuiets(o: Outages, cs: seq<Container>, now: Millis, draws: seq<Jitter>)
    requires |draws| == |cs| && DistinctIds(cs) && forall c :: c in cs ==> !c.running
    ensures forall c :: c in cs ==> Quiet(Track(o, cs, now, draws), c)
  {
    if cs != [] {
      var k := |cs| - 1;
      TrackQuiets(o, cs[..k], now, draws[..k]);
      TrackOneQuiets(Track(o, cs[..k], now, draws[..k]), cs[k], now, draws[k]);
      assert cs == cs[..k] + [cs[k]];
    }
  }

  lemma {:induction false} QuietTrack(o: Outages, cs: seq<Container>, now: Millis, draws: seq<Jitter>)
    requires |draws| == |cs| && forall c :: c in cs ==> !c.running && Quiet(o, c)
    ensures Track(o, cs, now, draws) == o
  {
    if cs != [] {
      var k := |cs| - 1;
      assert cs == cs[..k] + [cs[k]];
      QuietTrack(o, cs[..k], now, draws[..k]);
      QuietIsKept(o, cs[k], now, draws[k]);
    }
  }

  /**
   * While the containers stay as they are, stopped and one per worker, a wait's jitter is drawn once:
   * a later pass changes no record, whatever the time and whatever it would draw.
   */
  lemma TrackIsStable(o: Outages, cs: seq<Container>, now: Millis, draws: seq<Jitter>, later: Millis, redraws: seq<Jitter>)
    requires |draws| == |cs| == |redraws| && DistinctIds(cs) && forall c :: c in cs ==> !c.running
    ensures var once := Track(o, cs, now, draws); Track(once, cs, later, redraws) == once
  {
    TrackQuiets(o, cs, now, draws);
    QuietTrack(Track(o, cs, now, draws), cs, later, redraws);
  }

  /** After a pass, a worker whose one container exited 74 has a record to count its retry on. */
  lemma {:induction false} OutageIsRecorded(o: Outages, cs: seq<Container>, now: Millis, draws: seq<Jitter>, c: Container)
    requires |draws| == |cs| && OutageExit(c) && Matching(cs, c.workerId) == [c]
    ensures c.workerId in Track(o, cs, now, draws).retries
  {
    var k := |cs| - 1;
    assert cs != [];
    if cs[k].workerId != c.workerId {
      OutageIsRecorded(o, cs[..k], now, draws[..k], c);
    } else {
      var m := Matching(cs, c.workerId);
      assert m[|m| - 1] == cs[k];
    }
  }
}
