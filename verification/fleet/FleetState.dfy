/** What the agent keeps in memory.json: how it is written, and what is read back from any file. */
module FleetState {
  import opened Options
  import opened FleetTypes

  datatype Json =
    | Null
    | Bool(b: bool)
    | Num(n: real)
    | Str(s: string)
    | Arr(items: seq<Json>)
    | Obj(fields: map<string, Json>)

  function Field(o: map<string, Json>, key: string): Json {
    if key in o then o[key] else Null
  }

  predicate IsInteger(j: Json) { j.Num? && j.n.Floor as real == j.n }

  // ---- one entry of each record, as the loader accepts it ----

  function ReadStop(j: Json): Option<StopIdentity> {
    if !j.Obj? then None
    else
      var account, epoch, restart := Field(j.fields, "account_no"), Field(j.fields, "epoch"), Field(j.fields, "restart");
      if !IsInteger(account) || !IsInteger(epoch) || !restart.Bool? then None
      else Some(StopIdentity(account.n.Floor, epoch.n.Floor, restart.b, Field(j.fields, "confirmed") == Bool(true)))
  }

  function ReadHeld(j: Json): Option<HoldEntry> {
    if !j.Obj? then None
    else
      var container, reason := Field(j.fields, "container"), Field(j.fields, "reason");
      if !container.Str? then None
      else if reason == Str("crash_limit") then Some(HoldEntry(container.s, CrashLimit))
      else if reason == Str("operator_stopped") then Some(HoldEntry(container.s, OperatorStopped))
      else None
  }

  function ReadRetry(j: Json): Option<Retry> {
    if !j.Obj? then None
    else
      var attempts, jitter := Field(j.fields, "attempts"), Field(j.fields, "jitter");
      if IsInteger(attempts) && attempts.n >= 0.0 && jitter.Num? && 0.0 <= jitter.n < 1.0
      then Some(Retry(attempts.n.Floor, jitter.n))
      else None
  }

  function ReadTime(j: Json): Option<Millis> { if j.Num? then Some(j.n) else None }

  function Numbers(items: seq<Json>): seq<Millis> {
    if items == [] then []
    else (if items[0].Num? then [items[0].n] else []) + Numbers(items[1..])
  }

  function ReadTimes(j: Json): Option<seq<Millis>> { if j.Arr? then Some(Numbers(j.items)) else None }

  /** A record with the entries that read as a value; everything else is dropped. */
  function Kept<T>(j: Json, read: Json -> Option<T>): map<string, T> {
    if j.Obj? then map id | id in j.fields && read(j.fields[id]).Some? :: read(j.fields[id]).value else map[]
  }

  /** The loader's loop over the entries of one record. */
  method KeepEntries<T>(j: Json, read: Json -> Option<T>) returns (out: map<string, T>)
    ensures out == Kept(j, read)
  {
    out := map[];
    if !j.Obj? { return; }
    var todo := j.fields.Keys;
    while todo != {}
      invariant todo <= j.fields.Keys
      invariant out == map id | id in j.fields && id !in todo && read(j.fields[id]).Some? :: read(j.fields[id]).value
    {
      var id :| id in todo;
      todo := todo - {id};
      var entry := read(j.fields[id]);
      if entry.Some? { out := out[id := entry.value]; }
    }
  }

  /** The memory a file holds; a missing or unreadable one, or one that is not an object, is empty. */
  function Loaded(file: Option<Json>): Memory {
    if file.None? || !file.value.Obj? then EMPTY_MEMORY
    else
      var raw := file.value.fields;
      Memory(
        Kept(Field(raw, "pending"), ReadStop),
        ReadTime(Field(raw, "last_start_at")),
        Kept(Field(raw, "restarts"), ReadTimes),
        Kept(Field(raw, "soft_restarts"), ReadTimes),
        Kept(Field(raw, "license_outage"), ReadRetry),
        ReadTime(Field(raw, "outage_recovered_at")),
        Kept(Field(raw, "held"), ReadHeld),
        Kept(Field(raw, "self_stopped"), ReadTime))
  }

  method LoadMemory(file: Option<Json>) returns (m: Memory)
    ensures m == Loaded(file)
  {
    if file.None? || !file.value.Obj? { return EMPTY_MEMORY; }
    var raw := file.value.fields;
    var pending := KeepEntries(Field(raw, "pending"), ReadStop);
    var held := KeepEntries(Field(raw, "held"), ReadHeld);
    var outage := KeepEntries(Field(raw, "license_outage"), ReadRetry);
    var selfStopped := KeepEntries(Field(raw, "self_stopped"), ReadTime);
    var restarts := KeepEntries(Field(raw, "restarts"), ReadTimes);
    var softRestarts := KeepEntries(Field(raw, "soft_restarts"), ReadTimes);
    m := Memory(pending, ReadTime(Field(raw, "last_start_at")), restarts, softRestarts, outage,
                ReadTime(Field(raw, "outage_recovered_at")), held, selfStopped);
  }

  // ---- writing ----

  function StopJson(p: StopIdentity): Json {
    var fields := map["account_no" := Num(p.account as real), "epoch" := Num(p.epoch as real), "restart" := Bool(p.restart)];
    Obj(if p.confirmed then fields["confirmed" := Bool(true)] else fields)
  }

  function HeldJson(h: HoldEntry): Json {
    Obj(map["container" := Str(h.container), "reason" := Str(if h.reason == CrashLimit then "crash_limit" else "operator_stopped")])
  }

  function RetryJson(r: Retry): Json {
    Obj(map["attempts" := Num(r.attempts as real), "jitter" := Num(r.jitter)])
  }

  function TimesJson(ts: seq<Millis>): Json { Arr(seq(|ts|, k requires 0 <= k < |ts| => Num(ts[k]))) }

  function TimeJson(t: Millis): Json { Num(t) }

  function MaybeTimeJson(t: Option<Millis>): Json { if t.Some? then Num(t.value) else Null }

  function EntriesJson<T>(m: map<string, T>, write: T -> Json): Json {
    Obj(map id | id in m :: write(m[id]))
  }

  function Written(m: Memory): Json {
    Obj(map[
      "pending" := EntriesJson(m.pending, StopJson),
      "last_start_at" := MaybeTimeJson(m.lastStartAt),
      "restarts" := EntriesJson(m.restarts, TimesJson),
      "soft_restarts" := EntriesJson(m.softRestarts, TimesJson),
      "license_outage" := EntriesJson(m.outage, RetryJson),
      "outage_recovered_at" := MaybeTimeJson(m.recoveredAt),
      "held" := EntriesJson(m.held, HeldJson),
      "self_stopped" := EntriesJson(m.selfStopped, TimeJson)
    ])
  }

  lemma EntriesKept<T>(m: map<string, T>, write: T -> Json, read: Json -> Option<T>)
    requires forall id :: id in m ==> read(write(m[id])) == Some(m[id])
    ensures Kept(EntriesJson(m, write), read) == m
  {
  }

  lemma StopKept(p: StopIdentity)
    ensures ReadStop(StopJson(p)) == Some(p)
  {
    var account, epoch := p.account as real, p.epoch as real;
    assert account.Floor == p.account && epoch.Floor == p.epoch;
  }

  lemma {:induction false} NumbersKept(ts: seq<Millis>)
    ensures ReadTimes(TimesJson(ts)) == Some(ts)
  {
    if ts != [] {
      NumbersKept(ts[1..]);
      assert TimesJson(ts).items[1..] == TimesJson(ts[1..]).items;
      assert ts == [ts[0]] + ts[1..];
    }
  }

  lemma WrittenStarts(m: Memory)
    ensures var raw := Written(m).fields;
            && Field(raw, "pending") == EntriesJson(m.pending, StopJson)
            && Field(raw, "last_start_at") == MaybeTimeJson(m.lastStartAt)
            && Field(raw, "restarts") == EntriesJson(m.restarts, TimesJson)
            && Field(raw, "soft_restarts") == EntriesJson(m.softRestarts, TimesJson)
  {
    hide EntriesJson, MaybeTimeJson;
  }

  lemma WrittenHolds(m: Memory)
    ensures var raw := Written(m).fields;
            && Field(raw, "license_outage") == EntriesJson(m.outage, RetryJson)
            && Field(raw, "outage_recovered_at") == MaybeTimeJson(m.recoveredAt)
            && Field(raw, "held") == EntriesJson(m.held, HeldJson)
            && Field(raw, "self_stopped") == EntriesJson(m.selfStopped, TimeJson)
  {
    hide EntriesJson, MaybeTimeJson;
  }

  lemma StopsKept(m: map<string, StopIdentity>)
    ensures Kept(EntriesJson(m, StopJson), ReadStop) == m
  {
    forall id | id in m { StopKept(m[id]); }
    EntriesKept(m, StopJson, ReadStop);
  }

  lemma TimesKept(m: map<string, seq<Millis>>)
    ensures Kept(EntriesJson(m, TimesJson), ReadTimes) == m
  {
    forall id | id in m { NumbersKept(m[id]); }
    EntriesKept(m, TimesJson, ReadTimes);
  }

  lemma OthersKept(retries: map<string, Retry>, held: map<string, HoldEntry>, times: map<string, Millis>)
    ensures Kept(EntriesJson(retries, RetryJson), ReadRetry) == retries
    ensures Kept(EntriesJson(held, HeldJson), ReadHeld) == held
    ensures Kept(EntriesJson(times, TimeJson), ReadTime) == times
  {
    EntriesKept(retries, RetryJson, ReadRetry);
    EntriesKept(held, HeldJson, ReadHeld);
    EntriesKept(times, TimeJson, ReadTime);
  }

  /** An agent that restarts finds exactly the memory it last saved. */
  lemma SavedIsLoaded(m: Memory)
    ensures Loaded(Some(Written(m))) == m
  {
    WrittenStarts(m);
    WrittenHolds(m);
    StopsKept(m.pending);
    TimesKept(m.restarts);
    TimesKept(m.softRestarts);
    OthersKept(m.outage, m.held, m.selfStopped);
  }

  // ---- the file by the names in it ----

  /** The field is there and holds that. */
  predicate Has(o: map<string, Json>, key: string, value: Json) { key in o && o[key] == value }

  /** The record of that name, with an entry for the worker. */
  predicate Lists(o: map<string, Json>, record: string, id: string) {
    record in o && o[record].Obj? && id in o[record].fields
  }

  predicate ListsObject(o: map<string, Json>, record: string, id: string) {
    Lists(o, record, id) && o[record].fields[id].Obj?
  }

  lemma WholeNumber(j: Json, n: int)
    ensures IsInteger(j) && j.n.Floor == n <==> j == Num(n as real)
  {
    var r := n as real;
    assert r.Floor == n;
  }

  /** A stop is read where a worker's entry has two whole numbers and a flag; only the text true confirms it. */
  lemma StopIsRead(o: map<string, Json>, id: string, p: StopIdentity)
    ensures var m := Loaded(Some(Obj(o)));
            id in m.pending && m.pending[id] == p <==>
            && ListsObject(o, "pending", id)
            && var e := o["pending"].fields[id].fields;
            && Has(e, "account_no", Num(p.account as real)) && Has(e, "epoch", Num(p.epoch as real))
            && Has(e, "restart", Bool(p.restart)) && (p.confirmed <==> Has(e, "confirmed", Bool(true)))
  {
    if ListsObject(o, "pending", id) {
      var e := o["pending"].fields[id].fields;
      WholeNumber(Field(e, "account_no"), p.account);
      WholeNumber(Field(e, "epoch"), p.epoch);
    }
  }

  lemma HoldIsRead(o: map<string, Json>, id: string, h: HoldEntry)
    ensures var m := Loaded(Some(Obj(o)));
            id in m.held && m.held[id] == h <==>
            && ListsObject(o, "held", id)
            && var e := o["held"].fields[id].fields;
            && Has(e, "container", Str(h.container))
            && Has(e, "reason", Str(if h.reason == CrashLimit then "crash_limit" else "operator_stopped"))
  {
  }

  lemma RetryIsRead(o: map<string, Json>, id: string, r: Retry)
    ensures var m := Loaded(Some(Obj(o)));
            id in m.outage && m.outage[id] == r <==>
            && ListsObject(o, "license_outage", id)
            && var e := o["license_outage"].fields[id].fields;
            Has(e, "attempts", Num(r.attempts as real)) && Has(e, "jitter", Num(r.jitter))
  {
    if ListsObject(o, "license_outage", id) {
      WholeNumber(Field(o["license_outage"].fields[id].fields, "attempts"), r.attempts);
    }
  }

  lemma TimesAreRead(o: map<string, Json>, id: string, t: Millis)
    ensures var m := Loaded(Some(Obj(o)));
            && (m.lastStartAt == Some(t) <==> Has(o, "last_start_at", Num(t)))
            && (m.recoveredAt == Some(t) <==> Has(o, "outage_recovered_at", Num(t)))
            && (id in m.selfStopped && m.selfStopped[id] == t <==> Lists(o, "self_stopped", id) && o["self_stopped"].fields[id] == Num(t))
            && (id in m.restarts <==> Lists(o, "restarts", id) && o["restarts"].fields[id].Arr?)
            && (id in m.softRestarts <==> Lists(o, "soft_restarts", id) && o["soft_restarts"].fields[id].Arr?)
            && (id in m.restarts ==> multiset(m.restarts[id])[t] == multiset(o["restarts"].fields[id].items)[Num(t)])
            && (id in m.softRestarts ==> multiset(m.softRestarts[id])[t] == multiset(o["soft_restarts"].fields[id].items)[Num(t)])
  {
    if Lists(o, "restarts", id) && o["restarts"].fields[id].Arr? { NumbersCount(o["restarts"].fields[id].items, t); }
    if Lists(o, "soft_restarts", id) && o["soft_restarts"].fields[id].Arr? { NumbersCount(o["soft_restarts"].fields[id].items, t); }
  }

  lemma {:induction false} NumbersCount(items: seq<Json>, t: Millis)
    ensures multiset(Numbers(items))[t] == multiset(items)[Num(t)]
  {
    if items != [] {
      NumbersCount(items[1..], t);
      assert items == [items[0]] + items[1..];
    }
  }
}
