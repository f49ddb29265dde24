/** The fleet agent's data: what the ERP asks for, what Docker shows, what the agent remembers. */
module FleetTypes {
  import opened Options
  import Decimal

  /** Milliseconds since the epoch; a JavaScript number. */
  type Millis = real

  datatype Hold = OperatorNeeded | CrashLimit | OperatorStopped

  /** The holds that are remembered; `OperatorNeeded` is read off the exit code each time. */
  type KeptReason = h: Hold | h != OperatorNeeded witness CrashLimit

  datatype HoldEntry = HoldEntry(container: string, reason: KeptReason)

  type Jitter = j: real | 0.0 <= j < 1.0 witness 0.0

  datatype Retry = Retry(attempts: nat, jitter: Jitter)

  datatype Lease = Lease(account: int, epoch: int)

  /** A stop the ERP has to hear of, kept until it answered and the replacement ran. */
  datatype StopIdentity = StopIdentity(account: int, epoch: int, restart: bool, confirmed: bool)

  datatype Memory = Memory(
    pending: map<string, StopIdentity>,
    lastStartAt: Option<Millis>,
    restarts: map<string, seq<Millis>>,
    softRestarts: map<string, seq<Millis>>,
    outage: map<string, Retry>,
    recoveredAt: Option<Millis>,
    held: map<string, HoldEntry>,
    selfStopped: map<string, Millis>
  )

  const EMPTY_MEMORY := Memory(map[], None, map[], map[], map[], None, map[], map[])

  /** `roll` names the worker a release replaces. */
  datatype Desired = Desired(
    authoritative: bool,
    count: nat,
    image: string,
    ports: map<string, int>,
    leases: Option<map<string, Lease>>,
    roll: Option<string>
  )

  const EMPTY_DESIRED := Desired(false, 0, "", map[], None, None)

  /** A container as observed. The times are parsed; `None` is absent or not a date. */
  datatype Container = Container(
    name: string,
    workerId: string,
    image: string,
    running: bool,
    exitCode: Option<int>,
    startedAt: Option<Millis>,
    finishedAt: Option<Millis>,
    id: Option<string>,
    handoff: bool,
    ticket: bool
  )

  datatype Action =
    | Run(workerId: string, container: string, image: string, port: int)
    | Start(workerId: string, container: string, counted: bool, soft: bool, outage: bool)
    | Replace(workerId: string, container: string, image: string, port: int, counted: bool, soft: bool, outage: bool)
    | Remove(workerId: string, container: string)

  /** The actions that end in a login. */
  predicate StartLike(a: Action) { !a.Remove? }

  function ContainerName(workerId: string): string { "rs-fleet-" + workerId }

  function WorkerId(hostId: string, n: nat): string { hostId + "-" + Decimal.Print(n) }

  /** The `n` of `{host}-{n}`, or None for an id this host did not assign. */
  function WorkerIndex(hostId: string, id: string): (r: Option<nat>)
    ensures r.Some? ==> r.value > 0
  {
    var prefix := hostId + "-";
    if !(prefix <= id) then None
    else
      var rest := id[|prefix|..];
      if rest == [] || rest[0] == '0' || !Decimal.Digits(rest) then None
      else
        Decimal.PositiveRead(rest);
        Some(Decimal.Read(rest))
  }

  /** The names as Docker and the ERP know them; an index is written without leading zeros. */
  lemma Names(host: string, id: string)
    ensures ContainerName(id) == "rs-fleet-" + id
    ensures WorkerId(host, 12) == host + "-12" && WorkerIndex(host, host + "-12") == Some(12)
    ensures WorkerIndex(host, host + "-012") == None && WorkerIndex(host, host + "-0") == None
    ensures WorkerIndex(host, host + "_1") == None
  {
    TwelveIs();
    assert (host + "-") + "12" == host + "-12";
    WorkerIdRoundTrip(host, host + "-12", 12);
    assert (host + "-012")[|host| + 1..] == "012" && (host + "-0")[|host| + 1..] == "0";
    assert (host + "_1")[|host|] == '_' && (host + "-")[|host|] == '-';
  }

  lemma TwelveIs()
    ensures Decimal.Print(12) == "12"
  {
    assert Decimal.Print(1) == "1";
  }

  /** Worker ids and positive indices name each other: the two loops of the plan see the same workers. */
  lemma WorkerIdRoundTrip(hostId: string, id: string, n: nat)
    ensures WorkerIndex(hostId, id) == Some(n) <==> n > 0 && id == WorkerId(hostId, n)
  {
    var prefix := hostId + "-";
    if n > 0 && id == WorkerId(hostId, n) {
      assert id[|prefix|..] == Decimal.Print(n);
      Decimal.ReadPrint(n);
    }
    if WorkerIndex(hostId, id) == Some(n) {
      var rest := id[|prefix|..];
      assert id == prefix + rest;
      Decimal.PrintRead(rest);
      Decimal.PositiveRead(rest);
    }
  }
}
