/**
 * Which memory and SSD spec values fit on one line: the patch a pick implies for the rest of the line,
 * and the check a save is judged by.
 */
module SpecCascade {
  import opened Options
  import opened Ascii
  import opened Decimal

  datatype Field = Generation | Classification | Type | Rank | Interface | FormFactor

  /** A spec value may be missing or null; either way it reads as the empty text. */
  type Value = Option<string>

  /** A line's fields, or a patch to them. */
  type Spec = map<Field, Value>

  // ---- texts ----

  function TrimLeft(s: string): string {
    if s != [] && Blank(s[0]) then TrimLeft(s[1..]) else s
  }

  function TrimRight(s: string): string {
    if s != [] && Blank(s[|s| - 1]) then TrimRight(s[..|s| - 1]) else s
  }

  function Text(v: Value): string {
    if v.None? then "" else TrimRight(TrimLeft(v.value))
  }

  function Upper(s: string): string {
    if s == [] then [] else [UpperChar(s[0])] + Upper(s[1..])
  }

  function KeyOf(v: Value): string { Upper(Text(v)) }

  // ---- what the tables name, read by upper-case key ----

  datatype Form = UDIMM | RDIMM | LRDIMM | SODIMM | CAMM
  datatype Device = Desktop | Server | Laptop
  datatype Gen = DDR2 | DDR3 | DDR4 | DDR5
  datatype Bus = SATA | SAS | NVME | U2
  datatype Bay = Inch25 | Inch35 | M2230 | M2280 | M22110 | U2Bay | AIC

  const FORM_KEYS: seq<string> := ["UDIMM", "RDIMM", "LRDIMM", "SODIMM", "CAMM"]
  const FORMS: seq<Form> := [UDIMM, RDIMM, LRDIMM, SODIMM, CAMM]
  const DEVICE_KEYS: seq<string> := ["DESKTOP", "SERVER", "LAPTOP"]
  const DEVICES: seq<Device> := [Desktop, Server, Laptop]
  const GENERATION_KEYS: seq<string> := ["DDR2", "DDR3", "DDR4", "DDR5"]
  const GENERATIONS: seq<Gen> := [DDR2, DDR3, DDR4, DDR5]
  const BUS_KEYS: seq<string> := ["SATA", "SAS", "NVME", "U.2"]
  const BUSES: seq<Bus> := [SATA, SAS, NVME, U2]
  const BAY_KEYS: seq<string> := ["2.5\"", "3.5\"", "M.2 2230", "M.2 2280", "M.2 22110", "U.2", "AIC"]
  const BAYS: seq<Bay> := [Inch25, Inch35, M2230, M2280, M22110, U2Bay, AIC]

  /** The entry of `values` that stands where `key` does in `keys`. */
  function Named<T>(keys: seq<string>, values: seq<T>, key: string, k: nat := 0): Option<T>
    decreases |keys| - k
  {
    if k >= |keys| || k >= |values| then None
    else if keys[k] == key then Some(values[k])
    else Named(keys, values, key, k + 1)
  }

  function FormOf(v: Value): Option<Form> { Named(FORM_KEYS, FORMS, KeyOf(v)) }

  function DeviceOf(v: Value): Option<Device> { Named(DEVICE_KEYS, DEVICES, KeyOf(v)) }

  function GenOf(v: Value): Option<Gen> { Named(GENERATION_KEYS, GENERATIONS, KeyOf(v)) }

  function BusOf(v: Value): Option<Bus> { Named(BUS_KEYS, BUSES, KeyOf(v)) }

  function BayOf(v: Value): Option<Bay> { Named(BAY_KEYS, BAYS, KeyOf(v)) }

  function FormName(f: Form): string {
    match f
    case UDIMM => "UDIMM"
    case RDIMM => "RDIMM"
    case LRDIMM => "LRDIMM"
    case SODIMM => "SODIMM"
    case CAMM => "CAMM"
  }

  function DeviceName(d: Device): string {
    match d
    case Desktop => "Desktop"
    case Server => "Server"
    case Laptop => "Laptop"
  }

  /** The devices a form goes into; the first is the one it fills in. */
  function FormDevices(f: Form): (ds: seq<Device>)
    ensures ds != []
  {
    match f
    case UDIMM => [Desktop, Server]
    case RDIMM => [Server]
    case LRDIMM => [Server]
    case SODIMM => [Laptop]
    case CAMM => [Laptop]
  }

  function BusBays(b: Bus): seq<Bay> {
    match b
    case SATA => [Inch25, Inch35, M2230, M2280, M22110]
    case SAS => [Inch25, Inch35]
    case NVME => [Inch25, M2230, M2280, M22110, U2Bay, AIC]
    case U2 => [U2Bay, Inch25]
  }

  /** The form factor picking a bus fills into a blank one. */
  function DefaultBay(b: Bus): Option<string> {
    if b == SAS then Some("2.5\"") else None
  }

  // ---- ranks ----

  datatype RankNeed = Any | Dimm | Buffered

  function Order(n: RankNeed): nat {
    match n
    case Any => 0
    case Dimm => 1
    case Buffered => 2
  }

  datatype RankMark = RankMark(ranks: nat, stacked: bool, width: nat)

  /** After the count of ranks: an optional S and digits. */
  function SkipStack(s: string): string {
    if s != [] && s[0] == 'S' && DigitRun(s[1..]) > 0 then s[1 + DigitRun(s[1..])..] else s
  }

  function SkipDual(s: string): string {
    if s != [] && s[0] == 'D' then s[1..] else s
  }

  /** Digits, (S digits)?, D?, RX, digits, and nothing else. */
  function ReadRank(key: string): Option<RankMark> {
    var n := DigitRun(key);
    var afterStack := SkipStack(key[n..]);
    var afterDual := SkipDual(afterStack);
    if n == 0 || |afterDual| < 3 || afterDual[..2] != "RX" || !Digits(afterDual[2..]) then None
    else Some(RankMark(Read(key[..n]), |afterDual| < |key| - n, Read(afterDual[2..])))
  }

  predicate IsStack(s: string) { s == "" || (s[0] == 'S' && s != "S" && Digits(s[1..])) }

  predicate IsDual(s: string) { s == "" || s == "D" }

  /** A rank as labels spell it: a count, perhaps a 3DS stack, perhaps dual, then the chip width. */
  predicate Spelling(key: string, count: string, stack: string, dual: string, width: string) {
    && key == count + (stack + (dual + ("RX" + width)))
    && Digits(count) && count != "" && Digits(width) && width != ""
    && IsStack(stack) && IsDual(dual)
  }

  ghost predicate Spelled(key: string, m: RankMark) {
    exists count: string, stack: string, dual: string, width: string ::
      Spelling(key, count, stack, dual, width) && m == RankMark(Read(count), stack + dual != "", Read(width))
  }

  lemma StackSkips(stack: string, rest: string)
    requires IsStack(stack) && rest != "" && rest[0] != 'S' && !IsDigit(rest[0])
    ensures SkipStack(stack + rest) == rest
  {
    if stack == "" {
      assert stack + rest == rest;
    } else {
      DigitRunStops(stack[1..], rest);
      assert (stack + rest)[1..] == stack[1..] + rest;
    }
  }

  lemma StackSplits(s: string) returns (stack: string)
    ensures IsStack(stack) && s == stack + SkipStack(s)
  {
    stack := s[..|s| - |SkipStack(s)|];
    if stack != "" { assert stack[1..] == s[1..][..DigitRun(s[1..])]; }
  }

  lemma DualSplits(s: string) returns (dual: string)
    ensures IsDual(dual) && s == dual + SkipDual(s)
  {
    dual := s[..|s| - |SkipDual(s)|];
  }

  lemma Split(a: string, b: string)
    ensures (a + b)[..|a|] == a && (a + b)[|a|..] == b
  {
  }

  lemma SpellingReads(key: string, count: string, stack: string, dual: string, width: string)
    requires Spelling(key, count, stack, dual, width)
    ensures ReadRank(key) == Some(RankMark(Read(count), stack + dual != "", Read(width)))
  {
    var tail := "RX" + width;
    DigitRunStops(count, stack + (dual + tail));
    Split(count, stack + (dual + tail));
    StackSkips(stack, dual + tail);
    DualSkips(dual, tail);
    Split("RX", width);
  }

  lemma DualSkips(dual: string, tail: string)
    requires IsDual(dual) && tail != "" && tail[0] != 'D'
    ensures SkipDual(dual + tail) == tail
  {
  }

  lemma Assembles(key: string, n: nat, stack: string, afterStack: string, dual: string, tail: string)
    requires n <= |key| && key[n..] == stack + afterStack && afterStack == dual + tail
    requires |tail| >= 2 && tail[..2] == "RX"
    ensures key == key[..n] + (stack + (dual + ("RX" + tail[2..])))
  {
    assert tail == tail[..2] + tail[2..];
    assert key == key[..n] + key[n..];
  }

  lemma ReadIsSpelled(key: string)
    requires ReadRank(key).Some?
    ensures Spelled(key, ReadRank(key).value)
  {
    var n := DigitRun(key);
    var afterStack := SkipStack(key[n..]);
    var stack := StackSplits(key[n..]);
    var dual := DualSplits(afterStack);
    var tail := SkipDual(afterStack);
    Assembles(key, n, stack, afterStack, dual, tail);
    SpelledAs(key, key[..n], stack, dual, tail[2..], ReadRank(key).value);
  }

  lemma SpelledAs(key: string, count: string, stack: string, dual: string, width: string, m: RankMark)
    requires Spelling(key, count, stack, dual, width) && m == RankMark(Read(count), stack + dual != "", Read(width))
    ensures Spelled(key, m)
  {
  }

  /** The pattern takes exactly those spellings, and reads their numbers. */
  lemma RanksReadAsSpelled(key: string, m: RankMark)
    ensures ReadRank(key) == Some(m) <==> Spelled(key, m)
  {
    if ReadRank(key) == Some(m) { ReadIsSpelled(key); }
    if Spelled(key, m) {
      var count: string, stack: string, dual: string, width: string :|
        Spelling(key, count, stack, dual, width) && m == RankMark(Read(count), stack + dual != "", Read(width));
      SpellingReads(key, count, stack, dual, width);
    }
  }

  /** The x4 and quad ranks an unbuffered full-size module was sold with; every generation's when unknown. */
  predicate FullSizeRank(gen: Option<Gen>, key: string) {
    match gen
    case Some(DDR3) => key == "1RX4" || key == "2RX4"
    case Some(DDR4) => false
    case Some(DDR5) => key == "4RX8"
    case _ => key == "1RX4" || key == "2RX4" || key == "4RX8"
  }

  function RankNeeds(rank: Value, gen: Value): Option<RankNeed> {
    match ReadRank(KeyOf(rank))
    case None => None
    case Some(m) =>
      if m.stacked || m.ranks >= 8 then Some(Buffered)
      else if m.ranks <= 2 && m.width != 4 then Some(Any)
      else if FullSizeRank(GenOf(gen), KeyOf(rank)) then Some(Dimm)
      else Some(Buffered)
  }

  /** The richest rank a form or device takes; the others take anything. */
  const LIMIT_KEYS: seq<string> := ["UDIMM", "SODIMM", "CAMM", "DESKTOP", "LAPTOP"]
  const LIMITS: seq<RankNeed> := [Dimm, Any, Any, Dimm, Any]

  function LimitOf(v: Value): Option<RankNeed> { Named(LIMIT_KEYS, LIMITS, KeyOf(v)) }

  datatype Limit = Limit(mark: string, need: RankNeed)

  function Get(spec: Spec, f: Field): Value { if f in spec then spec[f] else None }

  /** The tighter of the form's and the device's limit; the form's on a tie. */
  function RankLimit(spec: Spec): Option<Limit> {
    var form, device := LimitOf(Get(spec, Classification)), LimitOf(Get(spec, Type));
    if form.None? && device.None? then None
    else if device.None? || (form.Some? && Order(form.value) <= Order(device.value))
    then Some(Limit(Text(Get(spec, Classification)), form.value))
    else Some(Limit(Text(Get(spec, Type)), device.value))
  }

  method FindRankLimit(spec: Spec) returns (out: Option<Limit>)
    ensures out == RankLimit(spec)
  {
    out := None;
    var fields := [Get(spec, Classification), Get(spec, Type)];
    for k := 0 to 2
      invariant k == 0 ==> out.None?
      invariant k == 1 ==> out == match LimitOf(fields[0]) case None => None case Some(need) => Some(Limit(Text(fields[0]), need))
      invariant k == 2 ==> out == RankLimit(spec)
    {
      var need := LimitOf(fields[k]);
      if need.Some? && (out.None? || Order(need.value) < Order(out.value.need)) {
        out := Some(Limit(Text(fields[k]), need.value));
      }
    }
  }

  // ---- the rules: `Some(false)` is a misfit, `None` says nothing ----

  function FormFitsGen(form: Value, gen: Value): Option<bool> {
    if FormOf(form) != Some(CAMM) || GenOf(gen).None? then None else Some(GenOf(gen) == Some(DDR5))
  }

  function DeviceFitsForm(form: Value, device: Value): Option<bool> {
    if FormOf(form).None? || DeviceOf(device).None? then None
    else Some(DeviceOf(device).value in FormDevices(FormOf(form).value))
  }

  function RankFits(spec: Spec, rank: Value): Option<bool> {
    var need := RankNeeds(rank, Get(spec, Generation));
    if RankLimit(spec).None? || need.None? then None
    else Some(Order(need.value) <= Order(RankLimit(spec).value.need))
  }

  function BayFits(bus: Value, bay: Value): Option<bool> {
    if BusOf(bus).None? || BayOf(bay).None? then None else Some(BayOf(bay).value in BusBays(BusOf(bus).value))
  }

  // ---- the patch ----

  /** Differs from the line it is applied to, judged on the trimmed text. */
  predicate Changed(spec: Spec, out: Spec, f: Field) {
    f in out && Text(out[f]) != Text(Get(spec, f))
  }

  function Cur(spec: Spec, out: Spec, f: Field): Value { Get(spec + out, f) }

  function Put(spec: Spec, out: Spec, f: Field, v: string): Spec {
    if Text(Cur(spec, out, f)) != v then out[f := Some(v)] else out
  }

  /** Generation outranks form. */
  function SettleGeneration(spec: Spec, out: Spec): Spec {
    if (Changed(spec, out, Generation) || Changed(spec, out, Classification))
       && FormFitsGen(Cur(spec, out, Classification), Cur(spec, out, Generation)) == Some(false)
    then Put(spec, out, Classification, "") else out
  }

  /** The forms of `fs` that hold `d` and exist in `gen`. */
  function FormsFor(fs: seq<Form>, d: Device, gen: Value): (r: seq<Form>)
    ensures forall f :: f in r <==> f in fs && d in FormDevices(f) && !(f == CAMM && GenOf(gen).Some? && GenOf(gen) != Some(DDR5))
  {
    if fs == [] then []
    else
      var rest := FormsFor(fs[1..], d, gen);
      if d in FormDevices(fs[0]) && !(fs[0] == CAMM && GenOf(gen).Some? && GenOf(gen) != Some(DDR5))
      then [fs[0]] + rest else rest
  }

  function OnlyName(fs: seq<Form>): string { if |fs| == 1 then FormName(fs[0]) else "" }

  /** Form and device are peers: whichever was set last fixes the other, and form wins when both were. */
  function SettleDevice(spec: Spec, out: Spec): Spec {
    var form, device := Cur(spec, out, Classification), Cur(spec, out, Type);
    var formSet := Text(form) != "";
    if Changed(spec, out, Classification) && formSet then
      if FormOf(form).Some? && (DeviceOf(device).None? || DeviceOf(device).value !in FormDevices(FormOf(form).value))
      then Put(spec, out, Type, DeviceName(FormDevices(FormOf(form).value)[0])) else out
    else if (Changed(spec, out, Type) || (Changed(spec, out, Generation) && !formSet)) && DeviceOf(device).Some? then
      var forms := FormsFor(FORMS, DeviceOf(device).value, Cur(spec, out, Generation));
      if !formSet || (FormOf(form).Some? && FormOf(form).value !in forms)
      then Put(spec, out, Classification, OnlyName(forms)) else out
    else out
  }

  function SettleRank(spec: Spec, out: Spec): Spec {
    if (Changed(spec, out, Generation) || Changed(spec, out, Classification) || Changed(spec, out, Type) || Changed(spec, out, Rank))
       && RankFits(spec + out, Cur(spec, out, Rank)) == Some(false)
    then Put(spec, out, Rank, "") else out
  }

  function SettleBay(spec: Spec, out: Spec): Spec {
    if BayFits(Cur(spec, out, Interface), Cur(spec, out, FormFactor)) == Some(false)
    then Put(spec, out, FormFactor, "") else out
  }

  function FillBay(spec: Spec, out: Spec): Spec {
    var bus := BusOf(Cur(spec, out, Interface));
    if Changed(spec, out, Interface) && bus.Some? && DefaultBay(bus.value).Some? && Text(Cur(spec, out, FormFactor)) == ""
    then Put(spec, out, FormFactor, DefaultBay(bus.value).value) else out
  }

  function Cascaded(category: string, spec: Spec, patch: Spec): Spec {
    if category == "RAM" then SettleRank(spec, SettleDevice(spec, SettleGeneration(spec, patch)))
    else if category == "SSD" && (Changed(spec, patch, Interface) || Changed(spec, patch, FormFactor))
    then FillBay(spec, SettleBay(spec, patch))
    else patch
  }

  method PutRank(spec: Spec, before: Spec) returns (out: Spec)
    ensures out == SettleRank(spec, before)
  {
    out := before;
    if Changed(spec, out, Generation) || Changed(spec, out, Classification) || Changed(spec, out, Type) || Changed(spec, out, Rank) {
      if RankFits(spec + out, Cur(spec, out, Rank)) == Some(false) { out := Put(spec, out, Rank, ""); }
    }
  }

  method PutBay(spec: Spec, before: Spec) returns (out: Spec)
    ensures out == FillBay(spec, SettleBay(spec, before))
  {
    out := before;
    if BayFits(Cur(spec, out, Interface), Cur(spec, out, FormFactor)) == Some(false) {
      out := Put(spec, out, FormFactor, "");
    }
    var bus := BusOf(Cur(spec, out, Interface));
    if Changed(spec, out, Interface) && bus.Some? && DefaultBay(bus.value).Some? && Text(Cur(spec, out, FormFactor)) == "" {
      out := Put(spec, out, FormFactor, DefaultBay(bus.value).value);
    }
  }

  method PutDevice(spec: Spec, before: Spec) returns (out: Spec)
    ensures out == SettleDevice(spec, before)
  {
    out := before;
    var form := Cur(spec, out, Classification);
    var formSet := Text(form) != "";
    if Changed(spec, out, Classification) && formSet {
      var known, device := FormOf(form), DeviceOf(Cur(spec, out, Type));
      if known.Some? {
        var devices := FormDevices(known.value);
        if device.None? || device.value !in devices { out := Put(spec, out, Type, DeviceName(devices[0])); }
      }
    } else if Changed(spec, out, Type) || (Changed(spec, out, Generation) && !formSet) {
      var device := DeviceOf(Cur(spec, out, Type));
      if device.Some? {
        var forms := FormsFor(FORMS, device.value, Cur(spec, out, Generation));
        if !formSet || (FormOf(form).Some? && FormOf(form).value !in forms) {
          out := Put(spec, out, Classification, OnlyName(forms));
        }
      }
    }
  }

  // ---- the save validator ----

  datatype Conflict =
    | FormInGeneration
    | DeviceInForm
    | ServerRankInGeneration(mark: string)
    | ServerRank(mark: string)
    | FullSizeNeeded(mark: string)
    | BayOnBus

  /** The first broken rule that has a field in `touched`. */
  function SpecConflicts(category: string, merged: Spec, touched: set<Field>): Option<Conflict> {
    if category == "RAM" && touched * {Generation, Classification} != {}
       && FormFitsGen(Get(merged, Classification), Get(merged, Generation)) == Some(false) then Some(FormInGeneration)
    else if category == "RAM" && touched * {Classification, Type} != {}
            && DeviceFitsForm(Get(merged, Classification), Get(merged, Type)) == Some(false) then Some(DeviceInForm)
    else if category == "RAM" && touched * {Generation, Classification, Type, Rank} != {}
            && RankFits(merged, Get(merged, Rank)) == Some(false) then
      var mark := RankLimit(merged).value.mark;
      if RankFits(merged[Generation := None], Get(merged, Rank)) == Some(true) then Some(ServerRankInGeneration(mark))
      else if RankNeeds(Get(merged, Rank), None) == Some(Buffered) then Some(ServerRank(mark))
      else Some(FullSizeNeeded(mark))
    else if category == "SSD" && touched * {Interface, FormFactor} != {}
            && BayFits(Get(merged, Interface), Get(merged, FormFactor)) == Some(false) then Some(BayOnBus)
    else None
  }

  function ChangedFields(spec: Spec, out: Spec): set<Field> { set f | f in out && Changed(spec, out, f) }

  // ---- the patch against the validator ----

  lemma BlankReads()
    ensures Text(Some("")) == "" && KeyOf(Some("")) == ""
  {
  }

  lemma NamesAreTrim(f: Form, d: Device)
    ensures Text(Some(FormName(f))) == FormName(f) != ""
    ensures Text(Some(DeviceName(d))) == DeviceName(d) != ""
  {
  }

  lemma FormNamesAreKeys(f: Form)
    ensures Upper(FormName(f)) == FormName(f)
  {
    match f {
      case UDIMM => assert Upper("UDIMM") == "UDIMM";
      case RDIMM => assert Upper("RDIMM") == "RDIMM";
      case LRDIMM => assert Upper("LRDIMM") == "LRDIMM";
      case SODIMM => assert Upper("SODIMM") == "SODIMM";
      case CAMM => assert Upper("CAMM") == "CAMM";
    }
  }

  /** What the cascade writes reads back as the table entry it came from. */
  lemma FormNameReads(f: Form)
    ensures Text(Some(FormName(f))) == FormName(f) != "" && FormOf(Some(FormName(f))) == Some(f)
  {
    NamesAreTrim(f, Desktop);
    FormNamesAreKeys(f);
  }

  lemma DeviceNameReads(d: Device)
    ensures Text(Some(DeviceName(d))) == DeviceName(d) != "" && DeviceOf(Some(DeviceName(d))) == Some(d)
  {
    NamesAreTrim(UDIMM, d);
    match d {
      case Desktop => assert Upper("Desktop") == "DESKTOP";
      case Server => assert Upper("Server") == "SERVER";
      case Laptop => assert Upper("Laptop") == "LAPTOP";
    }
  }

  lemma BayNameReads()
    ensures Text(Some("2.5\"")) == "2.5\"" && BayOf(Some("2.5\"")) == Some(Inch25)
  {
    assert Upper("2.5\"") == "2.5\"";
  }

  lemma PutSets(spec: Spec, out: Spec, f: Field, v: string)
    requires Text(Some(v)) == v
    ensures Text(Cur(spec, Put(spec, out, f, v), f)) == v
    ensures forall g :: g != f ==> Cur(spec, Put(spec, out, f, v), g) == Cur(spec, out, g)
    ensures forall g :: g != f ==> Changed(spec, Put(spec, out, f, v), g) == Changed(spec, out, g)
  {
  }

  predicate GenerationSettled(spec: Spec, out: Spec) {
    Changed(spec, out, Generation) || Changed(spec, out, Classification)
    ==> FormFitsGen(Cur(spec, out, Classification), Cur(spec, out, Generation)) != Some(false)
  }

  predicate FormTakesDevice(spec: Spec, out: Spec) {
    Changed(spec, out, Classification) || Changed(spec, out, Type)
    ==> DeviceFitsForm(Cur(spec, out, Classification), Cur(spec, out, Type)) != Some(false)
  }

  /** Nothing is left for `SettleDevice` to do. */
  predicate DeviceSettled(spec: Spec, out: Spec) {
    var form, device := Cur(spec, out, Classification), Cur(spec, out, Type);
    var formSet := Text(form) != "";
    if Changed(spec, out, Classification) && formSet then
      FormOf(form).Some? ==> DeviceOf(device).Some? && DeviceOf(device).value in FormDevices(FormOf(form).value)
    else (Changed(spec, out, Type) || (Changed(spec, out, Generation) && !formSet)) && DeviceOf(device).Some? ==>
      var forms := FormsFor(FORMS, DeviceOf(device).value, Cur(spec, out, Generation));
      if formSet then FormOf(form).Some? ==> FormOf(form).value in forms else |forms| != 1
  }

  predicate RankSettled(spec: Spec, out: Spec) {
    (Changed(spec, out, Generation) || Changed(spec, out, Classification) || Changed(spec, out, Type) || Changed(spec, out, Rank))
    ==> RankFits(spec + out, Cur(spec, out, Rank)) != Some(false)
  }

  predicate BaySettled(spec: Spec, out: Spec) {
    BayFits(Cur(spec, out, Interface), Cur(spec, out, FormFactor)) != Some(false)
  }

  lemma GenerationSettles(spec: Spec, out: Spec)
    ensures GenerationSettled(spec, SettleGeneration(spec, out))
  {
    BlankReads();
    PutSets(spec, out, Classification, "");
  }

  lemma DeviceSettles(spec: Spec, out: Spec)
    requires GenerationSettled(spec, out)
    ensures var after := SettleDevice(spec, out);
            GenerationSettled(spec, after) && FormTakesDevice(spec, after) && DeviceSettled(spec, after)
  {
    hide Text, Put;
    var form, device := Cur(spec, out, Classification), Cur(spec, out, Type);
    var formSet := Text(form) != "";
    if Changed(spec, out, Classification) && formSet {
      if FormOf(form).Some? {
        var fill := FormDevices(FormOf(form).value)[0];
        DeviceNameReads(fill);
        PutSets(spec, out, Type, DeviceName(fill));
      }
    } else if (Changed(spec, out, Type) || (Changed(spec, out, Generation) && !formSet)) && DeviceOf(device).Some? {
      var forms := FormsFor(FORMS, DeviceOf(device).value, Cur(spec, out, Generation));
      FormPutSettles(spec, out, forms);
    }
  }

  /** The form is filled in when one fits, and cleared otherwise. */
  lemma FormPutSettles(spec: Spec, out: Spec, forms: seq<Form>)
    requires DeviceOf(Cur(spec, out, Type)).Some? && GenerationSettled(spec, out)
    requires forms == FormsFor(FORMS, DeviceOf(Cur(spec, out, Type)).value, Cur(spec, out, Generation))
    ensures var after := Put(spec, out, Classification, OnlyName(forms));
            GenerationSettled(spec, after) && FormTakesDevice(spec, after) && DeviceSettled(spec, after)
  {
    if |forms| == 1 {
      FormFills(spec, out, forms);
    } else {
      FormClears(spec, out, forms);
    }
  }

  lemma FormFills(spec: Spec, out: Spec, forms: seq<Form>)
    requires DeviceOf(Cur(spec, out, Type)).Some? && GenerationSettled(spec, out) && |forms| == 1
    requires forms == FormsFor(FORMS, DeviceOf(Cur(spec, out, Type)).value, Cur(spec, out, Generation))
    ensures var after := Put(spec, out, Classification, FormName(forms[0]));
            GenerationSettled(spec, after) && FormTakesDevice(spec, after) && DeviceSettled(spec, after)
  {
    FormNameReads(forms[0]);
    assert forms[0] in forms;
    PutSets(spec, out, Classification, FormName(forms[0]));
    FormStands(spec, Put(spec, out, Classification, FormName(forms[0])), forms);
  }

  lemma FormStands(spec: Spec, out: Spec, forms: seq<Form>)
    requires DeviceOf(Cur(spec, out, Type)).Some? && Text(Cur(spec, out, Classification)) != ""
    requires FormOf(Cur(spec, out, Classification)).Some? && FormOf(Cur(spec, out, Classification)).value in forms
    requires forms == FormsFor(FORMS, DeviceOf(Cur(spec, out, Type)).value, Cur(spec, out, Generation))
    ensures GenerationSettled(spec, out) && FormTakesDevice(spec, out) && DeviceSettled(spec, out)
  {
  }

  lemma FormClears(spec: Spec, out: Spec, forms: seq<Form>)
    requires DeviceOf(Cur(spec, out, Type)).Some? && GenerationSettled(spec, out) && |forms| != 1
    requires forms == FormsFor(FORMS, DeviceOf(Cur(spec, out, Type)).value, Cur(spec, out, Generation))
    ensures var after := Put(spec, out, Classification, "");
            GenerationSettled(spec, after) && FormTakesDevice(spec, after) && DeviceSettled(spec, after)
  {
    BlankReads();
    PutSets(spec, out, Classification, "");
  }

  lemma RankSettles(spec: Spec, out: Spec)
    requires GenerationSettled(spec, out) && FormTakesDevice(spec, out) && DeviceSettled(spec, out)
    ensures var after := SettleRank(spec, out);
            GenerationSettled(spec, after) && FormTakesDevice(spec, after) && DeviceSettled(spec, after) && RankSettled(spec, after)
  {
    BlankReads();
    PutSets(spec, out, Rank, "");
    assert ReadRank("").None?;
  }

  lemma BlankBayFits(spec: Spec, out: Spec)
    ensures BaySettled(spec, SettleBay(spec, out))
  {
    BlankReads();
    PutSets(spec, out, FormFactor, "");
  }

  lemma BayFills(spec: Spec, out: Spec)
    requires BaySettled(spec, out)
    ensures BaySettled(spec, FillBay(spec, out)) && FillBay(spec, FillBay(spec, out)) == FillBay(spec, out)
  {
    hide Text, Named, Upper;
    BayNameReads();
    PutSets(spec, out, FormFactor, "2.5\"");
  }

  lemma BaySettles(spec: Spec, out: Spec)
    ensures var after := FillBay(spec, SettleBay(spec, out)); BaySettled(spec, after) && FillBay(spec, after) == after
  {
    BlankBayFits(spec, out);
    BayFills(spec, SettleBay(spec, out));
  }

  lemma MemorySettles(spec: Spec, patch: Spec)
    ensures var out := Cascaded("RAM", spec, patch);
            GenerationSettled(spec, out) && FormTakesDevice(spec, out) && DeviceSettled(spec, out) && RankSettled(spec, out)
  {
    GenerationSettles(spec, patch);
    DeviceSettles(spec, SettleGeneration(spec, patch));
    RankSettles(spec, SettleDevice(spec, SettleGeneration(spec, patch)));
  }

  lemma PatchedMemorySaves(spec: Spec, patch: Spec)
    ensures var out := Cascaded("RAM", spec, patch);
            SpecConflicts("RAM", spec + out, ChangedFields(spec, out)).None?
  {
    MemorySettles(spec, patch);
    SettledSaves(spec, Cascaded("RAM", spec, patch));
  }

  lemma SettledSaves(spec: Spec, out: Spec)
    requires GenerationSettled(spec, out) && FormTakesDevice(spec, out) && RankSettled(spec, out)
    ensures SpecConflicts("RAM", spec + out, ChangedFields(spec, out)).None?
  {
  }

  /** The line after the patch breaks no rule the save is judged by, whatever the line held before. */
  lemma PatchedLineSaves(category: string, spec: Spec, patch: Spec)
    ensures var out := Cascaded(category, spec, patch);
            SpecConflicts(category, spec + out, ChangedFields(spec, out)).None?
  {
    if category == "RAM" {
      PatchedMemorySaves(spec, patch);
    } else if category == "SSD" && (Changed(spec, patch, Interface) || Changed(spec, patch, FormFactor)) {
      BaySettles(spec, patch);
    }
  }

  lemma SettledGenerationStays(spec: Spec, out: Spec)
    requires GenerationSettled(spec, out)
    ensures SettleGeneration(spec, out) == out
  {
  }

  lemma SettledDeviceStays(spec: Spec, out: Spec)
    requires DeviceSettled(spec, out)
    ensures SettleDevice(spec, out) == out
  {
  }

  lemma SettledRankStays(spec: Spec, out: Spec)
    requires RankSettled(spec, out)
    ensures SettleRank(spec, out) == out
  {
  }

  lemma MemoryIsIdempotent(spec: Spec, patch: Spec)
    ensures var out := Cascaded("RAM", spec, patch); Cascaded("RAM", spec, out) == out
  {
    var out := Cascaded("RAM", spec, patch);
    MemorySettles(spec, patch);
    SettledGenerationStays(spec, out);
    SettledDeviceStays(spec, out);
    SettledRankStays(spec, out);
  }

  /** Applied to its own result, the cascade adds nothing. */
  lemma CascadeIsIdempotent(category: string, spec: Spec, patch: Spec)
    ensures var out := Cascaded(category, spec, patch); Cascaded(category, spec, out) == out
  {
    if category == "RAM" {
      MemoryIsIdempotent(spec, patch);
    } else if category == "SSD" && (Changed(spec, patch, Interface) || Changed(spec, patch, FormFactor)) {
      BaySettles(spec, patch);
    }
  }

  /**
   * The patch, written step by step into `out`: the line that takes it breaks no rule the save is judged by,
   * and taking it again would change nothing more.
   */
  method CascadePatch(category: string, spec: Spec, patch: Spec) returns (out: Spec)
    ensures out == Cascaded(category, spec, patch)
    ensures SpecConflicts(category, spec + out, ChangedFields(spec, out)).None?
    ensures Cascaded(category, spec, out) == out
  {
    PatchedLineSaves(category, spec, patch);
    CascadeIsIdempotent(category, spec, patch);
    out := patch;
    if category == "RAM" {
      if (Changed(spec, out, Generation) || Changed(spec, out, Classification))
         && FormFitsGen(Cur(spec, out, Classification), Cur(spec, out, Generation)) == Some(false) {
        out := Put(spec, out, Classification, "");
      }
      out := PutDevice(spec, out);
      out := PutRank(spec, out);
    }
    if category == "SSD" && (Changed(spec, out, Interface) || Changed(spec, out, FormFactor)) {
      out := PutBay(spec, out);
    }
  }

  // ---- what the cascade leaves alone ----

  /** What a select offers. */
  predicate Offered(category: string, f: Field, spec: Spec, option: string) {
    if category == "RAM" && f == Classification then FormFitsGen(Some(option), Get(spec, Generation)) != Some(false)
    else if category == "RAM" && f == Rank then RankFits(spec, Some(option)) != Some(false)
    else if category == "SSD" && f == FormFactor then BayFits(Get(spec, Interface), Some(option)) != Some(false)
    else true
  }

  predicate Untouched(before: Spec, after: Spec, f: Field) {
    (f in after <==> f in before) && Get(after, f) == Get(before, f)
  }

  lemma DeviceStepTouches(spec: Spec, out: Spec, f: Field)
    requires f != Classification && f != Type
    ensures Untouched(out, SettleDevice(spec, out), f)
  {
  }

  lemma StepsTouch(spec: Spec, out: Spec, f: Field)
    ensures f != Classification ==> Untouched(out, SettleGeneration(spec, out), f)
    ensures f != Rank ==> Untouched(out, SettleRank(spec, out), f)
  {
  }

  lemma BayStepsTouch(spec: Spec, out: Spec, f: Field)
    requires f != FormFactor
    ensures Untouched(out, SettleBay(spec, out), f) && Untouched(out, FillBay(spec, out), f)
  {
  }

  /** Generation and interface are never touched, and of the rest only what the category's rules speak of. */
  lemma OnlyPeersAreSettled(category: string, spec: Spec, patch: Spec, f: Field)
    requires f in {Generation, Interface} || category !in {"RAM", "SSD"}
             || (category == "RAM" && f == FormFactor) || (category == "SSD" && f != FormFactor)
    ensures Untouched(patch, Cascaded(category, spec, patch), f)
  {
    if category == "RAM" {
      StepsTouch(spec, patch, f);
      DeviceStepTouches(spec, SettleGeneration(spec, patch), f);
      StepsTouch(spec, SettleDevice(spec, SettleGeneration(spec, patch)), f);
    } else if category == "SSD" {
      BayStepsTouch(spec, patch, f);
      BayStepsTouch(spec, SettleBay(spec, patch), f);
    }
  }

  /** A form that exists in the generation is left as picked. */
  lemma FormStays(spec: Spec, option: string)
    requires FormFitsGen(Some(option), Get(spec, Generation)) != Some(false)
    ensures var patch: Spec := map[Classification := Some(option)];
            Get(SettleDevice(spec, SettleGeneration(spec, patch)), Classification) == Some(option)
  {
  }

  /** One that does not is not what the line ends up with. */
  lemma FormGoes(spec: Spec, option: string)
    requires Text(Some(option)) != Text(Get(spec, Classification))
    requires FormFitsGen(Some(option), Get(spec, Generation)) == Some(false)
    ensures Get(Cascaded("RAM", spec, map[Classification := Some(option)]), Classification) != Some(option)
  {
    var patch: Spec := map[Classification := Some(option)];
    MemorySettles(spec, patch);
    OnlyPeersAreSettled("RAM", spec, patch, Generation);
  }

  lemma OfferedFormIsKept(spec: Spec, option: string)
    requires Text(Some(option)) != Text(Get(spec, Classification))
    ensures Get(Cascaded("RAM", spec, map[Classification := Some(option)]), Classification) == Some(option)
            <==> Offered("RAM", Classification, spec, option)
  {
    if FormFitsGen(Some(option), Get(spec, Generation)) == Some(false) {
      FormGoes(spec, option);
    } else {
      var patch: Spec := map[Classification := Some(option)];
      FormStays(spec, option);
      StepsTouch(spec, SettleDevice(spec, SettleGeneration(spec, patch)), Classification);
    }
  }

  lemma RankMovesAlone(spec: Spec, patch: Spec)
    requires patch.Keys <= {Rank}
    ensures SettleGeneration(spec, patch) == patch && SettleDevice(spec, patch) == patch
  {
  }

  lemma RankFitsAlike(spec: Spec, patch: Spec, option: string)
    requires patch.Keys <= {Rank}
    ensures RankFits(spec + patch, Some(option)) == RankFits(spec, Some(option))
  {
    assert RankLimit(spec + patch) == RankLimit(spec);
  }

  lemma BlankRankFits(spec: Spec)
    ensures RankFits(spec, Some("")) == None
  {
    BlankReads();
    assert ReadRank("").None?;
  }

  lemma OfferedRankIsKept(spec: Spec, option: string)
    requires Text(Some(option)) != Text(Get(spec, Rank))
    ensures Get(Cascaded("RAM", spec, map[Rank := Some(option)]), Rank) == Some(option)
            <==> Offered("RAM", Rank, spec, option)
  {
    var patch: Spec := map[Rank := Some(option)];
    RankMovesAlone(spec, patch);
    RankFitsAlike(spec, patch, option);
    BlankRankFits(spec);
    RankStays(spec, patch, option);
  }

  lemma RankStays(spec: Spec, patch: Spec, option: string)
    requires patch == map[Rank := Some(option)] && Text(Some(option)) != Text(Get(spec, Rank))
    requires RankFits(spec + patch, Some(option)) == Some(false) ==> Text(Some(option)) != ""
    ensures Get(SettleRank(spec, patch), Rank) == Some(option) <==> RankFits(spec + patch, Some(option)) != Some(false)
  {
    BlankReads();
  }

  lemma OfferedBayIsKept(spec: Spec, option: string)
    requires Text(Some(option)) != Text(Get(spec, FormFactor))
    ensures Get(Cascaded("SSD", spec, map[FormFactor := Some(option)]), FormFactor) == Some(option)
            <==> Offered("SSD", FormFactor, spec, option)
  {
    var patch: Spec := map[FormFactor := Some(option)];
    BlankReads();
    PutSets(spec, patch, FormFactor, "");
  }

  /** A pick that changes a filtered select is kept exactly when the select offers it. */
  lemma OfferedPicksAreKept(category: string, f: Field, spec: Spec, option: string)
    requires Text(Some(option)) != Text(Get(spec, f))
    requires (category, f) in {("RAM", Classification), ("RAM", Rank), ("SSD", FormFactor)}
    ensures Get(Cascaded(category, spec, map[f := Some(option)]), f) == Some(option) <==> Offered(category, f, spec, option)
  {
    match f {
      case Classification => OfferedFormIsKept(spec, option);
      case Rank => OfferedRankIsKept(spec, option);
      case _ => OfferedBayIsKept(spec, option);
    }
  }

  /** An edit of other fields leaves a conflict that was there before alone. */
  lemma OtherEditsAreLeftAlone(category: string, spec: Spec, patch: Spec)
    requires forall f :: !Changed(spec, patch, f)
    ensures Cascaded(category, spec, patch) == patch
    ensures SpecConflicts(category, spec + patch, ChangedFields(spec, patch)).None?
  {
  }
}
