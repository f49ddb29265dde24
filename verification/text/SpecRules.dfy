/** The rules of `SpecCascade` by the names on the labels: what is refused, and what a pick fills in. */
module SpecRules {
  import Ascii
  import opened Options
  import opened Decimal
  import opened SpecCascade

  // ---- the rules ----

  predicate KnownForm(key: string) { key in {"UDIMM", "RDIMM", "LRDIMM", "SODIMM", "CAMM"} }

  predicate KnownDevice(key: string) { key in {"DESKTOP", "SERVER", "LAPTOP"} }

  predicate GoesInto(form: string, device: string) {
    || (form == "UDIMM" && device in {"DESKTOP", "SERVER"})
    || (form in {"RDIMM", "LRDIMM"} && device == "SERVER")
    || (form in {"SODIMM", "CAMM"} && device == "LAPTOP")
  }

  predicate BeforeDDR5(gen: string) { gen in {"DDR2", "DDR3", "DDR4"} }

  predicate KnownBus(key: string) { key in {"SATA", "SAS", "NVME", "U.2"} }

  predicate KnownBay(key: string) { key in {"2.5\"", "3.5\"", "M.2 2230", "M.2 2280", "M.2 22110", "U.2", "AIC"} }

  predicate PlugsInto(bus: string, bay: string) {
    || bay == "2.5\""
    || (bay == "3.5\"" && bus in {"SATA", "SAS"})
    || (bay in {"M.2 2230", "M.2 2280", "M.2 22110"} && bus in {"SATA", "NVME"})
    || (bay == "U.2" && bus in {"NVME", "U.2"})
    || (bay == "AIC" && bus == "NVME")
  }

  /** One or two ranks of anything but x4. */
  predicate FitsAny(m: RankMark) { !m.stacked && m.ranks <= 2 && m.width != 4 }

  /** An x4 or quad rank that unbuffered modules of the generation were sold with. */
  predicate SoldUnbuffered(key: string, gen: string) {
    (key in {"1RX4", "2RX4"} && gen !in {"DDR4", "DDR5"}) || (key == "4RX8" && gen !in {"DDR3", "DDR4"})
  }

  predicate ServerOnly(m: RankMark, key: string, gen: string) { !FitsAny(m) && !SoldUnbuffered(key, gen) }

  /** A name is looked up the same in either field: a form written as the device limits the rank as well. */
  predicate SmallModule(form: string, device: string) {
    form in {"SODIMM", "CAMM", "LAPTOP"} || device in {"SODIMM", "CAMM", "LAPTOP"}
  }

  predicate Unbuffered(form: string, device: string) {
    form in {"UDIMM", "DESKTOP"} || device in {"UDIMM", "DESKTOP"} || SmallModule(form, device)
  }

  /** A known rank that the smaller of the two modules the line names was never sold with. */
  predicate RankMisfit(form: string, device: string, gen: string, rank: string) {
    match ReadRank(rank)
    case None => false
    case Some(m) =>
      (SmallModule(form, device) && !FitsAny(m)) || (Unbuffered(form, device) && ServerOnly(m, rank, gen))
  }

  // ---- the tables are those rules ----

  lemma FormKey(v: Value)
    ensures var k := KeyOf(v);
            FormOf(v) == if k == "UDIMM" then Some(UDIMM) else if k == "RDIMM" then Some(RDIMM) else if k == "LRDIMM" then Some(LRDIMM)
                         else if k == "SODIMM" then Some(SODIMM) else if k == "CAMM" then Some(CAMM) else None
  {
    hide Text, Upper;
    var k := KeyOf(v);
    assert Named(FORM_KEYS, FORMS, k, 3) == if k == "SODIMM" then Some(SODIMM) else if k == "CAMM" then Some(CAMM) else None;
    assert Named(FORM_KEYS, FORMS, k, 1)
           == if k == "RDIMM" then Some(RDIMM) else if k == "LRDIMM" then Some(LRDIMM) else Named(FORM_KEYS, FORMS, k, 3);
  }

  lemma DeviceKey(v: Value)
    ensures var k := KeyOf(v);
            DeviceOf(v) == if k == "DESKTOP" then Some(Desktop) else if k == "SERVER" then Some(Server)
                           else if k == "LAPTOP" then Some(Laptop) else None
  {
    hide Text, Upper;
    var k := KeyOf(v);
    assert Named(DEVICE_KEYS, DEVICES, k, 2) == if k == "LAPTOP" then Some(Laptop) else None;
  }

  lemma GenKey(v: Value)
    ensures var k := KeyOf(v);
            GenOf(v) == if k == "DDR2" then Some(DDR2) else if k == "DDR3" then Some(DDR3)
                        else if k == "DDR4" then Some(DDR4) else if k == "DDR5" then Some(DDR5) else None
  {
    hide Text, Upper;
    var k := KeyOf(v);
    assert Named(GENERATION_KEYS, GENERATIONS, k, 2) == if k == "DDR4" then Some(DDR4) else if k == "DDR5" then Some(DDR5) else None;
  }

  lemma BusKey(v: Value)
    ensures var k := KeyOf(v);
            BusOf(v) == if k == "SATA" then Some(SATA) else if k == "SAS" then Some(SAS)
                        else if k == "NVME" then Some(NVME) else if k == "U.2" then Some(U2) else None
  {
    hide Text, Upper;
    var k := KeyOf(v);
    assert Named(BUS_KEYS, BUSES, k, 2) == if k == "NVME" then Some(NVME) else if k == "U.2" then Some(U2) else None;
  }

  lemma BayKey(v: Value)
    ensures var k := KeyOf(v);
            BayOf(v) == if k == "2.5\"" then Some(Inch25) else if k == "3.5\"" then Some(Inch35) else if k == "M.2 2230" then Some(M2230)
                        else if k == "M.2 2280" then Some(M2280) else if k == "M.2 22110" then Some(M22110)
                        else if k == "U.2" then Some(U2Bay) else if k == "AIC" then Some(AIC) else None
  {
    hide Text, Upper;
    var k := KeyOf(v);
    assert Named(BAY_KEYS, BAYS, k, 5) == if k == "U.2" then Some(U2Bay) else if k == "AIC" then Some(AIC) else None;
    assert Named(BAY_KEYS, BAYS, k, 3)
           == if k == "M.2 2280" then Some(M2280) else if k == "M.2 22110" then Some(M22110) else Named(BAY_KEYS, BAYS, k, 5);
    assert Named(BAY_KEYS, BAYS, k, 1)
           == if k == "3.5\"" then Some(Inch35) else if k == "M.2 2230" then Some(M2230) else Named(BAY_KEYS, BAYS, k, 3);
  }

  lemma LimitKey(v: Value)
    ensures var k := KeyOf(v);
            LimitOf(v) == if k in {"UDIMM", "DESKTOP"} then Some(Dimm) else if k in {"SODIMM", "CAMM", "LAPTOP"} then Some(Any) else None
  {
    hide Text, Upper;
    var k := KeyOf(v);
    assert Named(LIMIT_KEYS, LIMITS, k, 3) == if k == "DESKTOP" then Some(Dimm) else if k == "LAPTOP" then Some(Any) else None;
    assert Named(LIMIT_KEYS, LIMITS, k, 1)
           == if k in {"SODIMM", "CAMM"} then Some(Any) else Named(LIMIT_KEYS, LIMITS, k, 3);
  }

  /** CAMM is DDR5 only. */
  lemma GenerationRule(form: Value, gen: Value)
    ensures FormFitsGen(form, gen) == Some(false) <==> KeyOf(form) == "CAMM" && BeforeDDR5(KeyOf(gen))
  {
    FormKey(form);
    GenKey(gen);
    hide KeyOf, FormOf, GenOf;
  }

  lemma DeviceRule(form: Value, device: Value)
    ensures DeviceFitsForm(form, device) ==
            if KnownForm(KeyOf(form)) && KnownDevice(KeyOf(device)) then Some(GoesInto(KeyOf(form), KeyOf(device))) else None
  {
    FormKey(form);
    DeviceKey(device);
    hide KeyOf, FormOf, DeviceOf;
  }

  lemma BayRule(bus: Value, bay: Value)
    ensures BayFits(bus, bay) ==
            if KnownBus(KeyOf(bus)) && KnownBay(KeyOf(bay)) then Some(PlugsInto(KeyOf(bus), KeyOf(bay))) else None
  {
    BusKey(bus);
    BayKey(bay);
    hide KeyOf, BusOf, BayOf;
  }

  lemma NeedRule(rank: Value, gen: Value)
    ensures RankNeeds(rank, gen) ==
            match ReadRank(KeyOf(rank))
            case None => None
            case Some(m) =>
              if FitsAny(m) then Some(Any) else if ServerOnly(m, KeyOf(rank), KeyOf(gen)) then Some(Buffered) else Some(Dimm)
  {
    GenKey(gen);
    var key := KeyOf(rank);
    hide KeyOf, GenOf;
    if SoldUnbuffered(key, KeyOf(gen)) { QuadReads(); }
    hide ReadRank;
  }

  lemma PlainReads(count: string, width: string)
    requires Digits(count) && count != "" && Digits(width) && width != ""
    ensures ReadRank(count + ("" + ("" + ("RX" + width)))) == Some(RankMark(Read(count), false, Read(width)))
  {
    hide ReadRank;
    assert Spelling(count + ("" + ("" + ("RX" + width))), count, "", "", width);
    SpellingReads(count + ("" + ("" + ("RX" + width))), count, "", "", width);
    assert "" + "" == "";
  }

  lemma QuadReads()
    ensures ReadRank("1RX4") == Some(RankMark(1, false, 4))
    ensures ReadRank("2RX4") == Some(RankMark(2, false, 4))
    ensures ReadRank("4RX8") == Some(RankMark(4, false, 8))
  {
    hide ReadRank;
    PlainReads("1", "4");
    PlainReads("2", "4");
    PlainReads("4", "8");
    assert "1" + ("" + ("" + ("RX" + "4"))) == "1RX4";
    assert "2" + ("" + ("" + ("RX" + "4"))) == "2RX4";
    assert "4" + ("" + ("" + ("RX" + "8"))) == "4RX8";
  }

  lemma RankRule(spec: Spec, rank: Value)
    ensures RankFits(spec, rank) == Some(false) <==>
            RankMisfit(KeyOf(Get(spec, Classification)), KeyOf(Get(spec, Type)), KeyOf(Get(spec, Generation)), KeyOf(rank))
    ensures RankFits(spec, rank) == None <==>
            ReadRank(KeyOf(rank)).None? || !Unbuffered(KeyOf(Get(spec, Classification)), KeyOf(Get(spec, Type)))
  {
    LimitKey(Get(spec, Classification));
    LimitKey(Get(spec, Type));
    NeedRule(rank, Get(spec, Generation));
    hide KeyOf, LimitOf, RankNeeds, ReadRank, FitsAny, SoldUnbuffered;
  }

  // ---- what a save is refused for ----

  ghost predicate FormBroken(line: Spec, touched: set<Field>) {
    && (Generation in touched || Classification in touched)
    && KeyOf(Get(line, Classification)) == "CAMM" && BeforeDDR5(KeyOf(Get(line, Generation)))
  }

  ghost predicate DeviceBroken(line: Spec, touched: set<Field>) {
    var form, device := KeyOf(Get(line, Classification)), KeyOf(Get(line, Type));
    (Classification in touched || Type in touched) && KnownForm(form) && KnownDevice(device) && !GoesInto(form, device)
  }

  ghost predicate RankBroken(line: Spec, touched: set<Field>) {
    && (Generation in touched || Classification in touched || Type in touched || Rank in touched)
    && RankMisfit(KeyOf(Get(line, Classification)), KeyOf(Get(line, Type)), KeyOf(Get(line, Generation)), KeyOf(Get(line, Rank)))
  }

  ghost predicate BayBroken(line: Spec, touched: set<Field>) {
    var bus, bay := KeyOf(Get(line, Interface)), KeyOf(Get(line, FormFactor));
    (Interface in touched || FormFactor in touched) && KnownBus(bus) && KnownBay(bay) && !PlugsInto(bus, bay)
  }

  lemma Meets(touched: set<Field>, f: Field, g: Field)
    ensures touched * {f, g} != {} <==> f in touched || g in touched
  {
    if f in touched { assert f in touched * {f, g}; }
    if g in touched { assert g in touched * {f, g}; }
  }

  lemma MeetsAny(touched: set<Field>)
    ensures touched * {Generation, Classification, Type, Rank} != {}
            <==> Generation in touched || Classification in touched || Type in touched || Rank in touched
  {
    var all := touched * {Generation, Classification, Type, Rank};
    if Generation in touched { assert Generation in all; }
    if Classification in touched { assert Classification in all; }
    if Type in touched { assert Type in all; }
    if Rank in touched { assert Rank in all; }
  }

  /**
   * A save of a memory line is refused for the first of three rules that is broken, of a drive for one, each judged
   * only when a field of it was touched; anything else is saved.
   */
  lemma RefusedExactly(category: string, line: Spec, touched: set<Field>)
    ensures var memory, drive, c := category == "RAM", category == "SSD", SpecConflicts(category, line, touched);
            && (c.None? <==> !(memory && (FormBroken(line, touched) || DeviceBroken(line, touched) || RankBroken(line, touched)))
                             && !(drive && BayBroken(line, touched)))
            && (c == Some(FormInGeneration) <==> memory && FormBroken(line, touched))
            && (c == Some(DeviceInForm) <==> memory && !FormBroken(line, touched) && DeviceBroken(line, touched))
            && (c == Some(BayOnBus) <==> drive && BayBroken(line, touched))
  {
    hide KeyOf, Get, FormFitsGen, DeviceFitsForm, RankFits, RankNeeds, RankLimit, BayFits, RankMisfit, BeforeDDR5;
    hide KnownForm, KnownDevice, KnownBus, KnownBay, GoesInto, PlugsInto;
    GenerationRule(Get(line, Classification), Get(line, Generation));
    DeviceRule(Get(line, Classification), Get(line, Type));
    RankRule(line, Get(line, Rank));
    BayRule(Get(line, Interface), Get(line, FormFactor));
    Meets(touched, Generation, Classification);
    Meets(touched, Classification, Type);
    Meets(touched, Interface, FormFactor);
    MeetsAny(touched);
  }

  /** The label on the line that the rank is said not to fit: the smaller module's, and the form's when they are alike. */
  ghost function MarkOf(line: Spec): string {
    var form, device := Get(line, Classification), Get(line, Type);
    if Unbuffered(KeyOf(form), "") && (SmallModule(KeyOf(form), "") || !SmallModule("", KeyOf(device))) then Text(form)
    else Text(device)
  }

  /**
   * How a misfit rank is refused: as a server rank of this generation if some other generation has it unbuffered
   * in such a module, else as a server rank, or as one that needs a full-size module.
   */
  lemma RankRefusal(line: Spec, touched: set<Field>)
    requires RankBroken(line, touched) && !FormBroken(line, touched) && !DeviceBroken(line, touched)
    ensures var form, device, rank := KeyOf(Get(line, Classification)), KeyOf(Get(line, Type)), KeyOf(Get(line, Rank));
            SpecConflicts("RAM", line, touched) ==
            Some(if !RankMisfit(form, device, "", rank) then ServerRankInGeneration(MarkOf(line))
                 else if ServerOnly(ReadRank(rank).value, rank, "") then ServerRank(MarkOf(line))
                 else FullSizeNeeded(MarkOf(line)))
  {
    hide KeyOf, Text, FormFitsGen, DeviceFitsForm, RankFits, RankNeeds, RankLimit, BayFits, MarkOf, BeforeDDR5, FormBroken, DeviceBroken;
    hide KnownForm, KnownDevice, KnownBus, KnownBay, GoesInto, PlugsInto, SoldUnbuffered, FitsAny, SmallModule, ReadRank;
    RefusedExactly("RAM", line, touched);
    var anyGen := line[Generation := None];
    RankRule(line, Get(line, Rank));
    RankRule(anyGen, Get(line, Rank));
    NeedRule(Get(line, Rank), None);
    NoGeneration();
    MarkIs(line);
    assert Get(anyGen, Classification) == Get(line, Classification) && Get(anyGen, Type) == Get(line, Type);
    assert Get(anyGen, Generation) == None;
    var fits := RankFits(anyGen, Get(line, Rank));
    assert fits == if fits.value then Some(true) else Some(false);
  }

  lemma NoGeneration()
    ensures KeyOf(None) == ""
  {
  }

  lemma MarkIs(line: Spec)
    requires Unbuffered(KeyOf(Get(line, Classification)), KeyOf(Get(line, Type)))
    ensures RankLimit(line).Some? && RankLimit(line).value.mark == MarkOf(line)
  {
    hide Text, KeyOf, LimitOf;
    LimitKey(Get(line, Classification));
    LimitKey(Get(line, Type));
  }

  /** A value is read without the blanks around it, and looked up in upper case. */
  lemma ValueIsRead(before: string, core: string, after: string)
    requires forall k :: 0 <= k < |before| ==> Ascii.Blank(before[k])
    requires forall k :: 0 <= k < |after| ==> Ascii.Blank(after[k])
    requires core != "" ==> !Ascii.Blank(core[0]) && !Ascii.Blank(core[|core| - 1])
    ensures Text(Some(before + core + after)) == core
    ensures |KeyOf(Some(before + core + after))| == |core|
    ensures forall k :: 0 <= k < |core| ==> KeyOf(Some(before + core + after))[k] == Ascii.UpperChar(core[k])
  {
    LeftTrims(before, core + after);
    assert before + core + after == before + (core + after);
    if core == "" {
      assert core + after == after;
      LeftTrims(after, "");
      assert after + "" == after;
    } else {
      assert TrimLeft(core + after) == core + after;
      RightTrims(core, after);
    }
    UpperIs(core);
  }

  lemma {:induction false} LeftTrims(blanks: string, rest: string)
    requires forall k :: 0 <= k < |blanks| ==> Ascii.Blank(blanks[k])
    ensures TrimLeft(blanks + rest) == TrimLeft(rest)
  {
    if blanks == "" {
      assert blanks + rest == rest;
    } else {
      assert (blanks + rest)[1..] == blanks[1..] + rest;
      LeftTrims(blanks[1..], rest);
    }
  }

  lemma {:induction false} RightTrims(core: string, blanks: string)
    requires core != "" && !Ascii.Blank(core[|core| - 1]) && forall k :: 0 <= k < |blanks| ==> Ascii.Blank(blanks[k])
    ensures TrimRight(core + blanks) == core
  {
    if blanks == "" {
      assert core + blanks == core;
    } else {
      var n := |blanks| - 1;
      assert (core + blanks)[..|core| + n] == core + blanks[..n];
      RightTrims(core, blanks[..n]);
    }
  }

  lemma {:induction false} UpperIs(s: string)
    ensures |Upper(s)| == |s| && forall k :: 0 <= k < |s| ==> Upper(s)[k] == Ascii.UpperChar(s[k])
  {
    if s != "" { UpperIs(s[1..]); }
  }

  // ---- what a pick fills in ----

  /** The form that a device leaves no choice of. */
  function FormFor(device: string, gen: string): string {
    if device == "DESKTOP" then "UDIMM" else if device == "LAPTOP" && BeforeDDR5(gen) then "SODIMM" else ""
  }

  /** The device of a form, which is the first where there are two. */
  function DeviceFor(form: string): string {
    if form == "UDIMM" then "Desktop" else if form in {"RDIMM", "LRDIMM"} then "Server" else "Laptop"
  }

  function DeviceKeyOf(d: Device): string { match d case Desktop => "DESKTOP" case Server => "SERVER" case Laptop => "LAPTOP" }

  lemma FormsCons(f: Form, rest: seq<Form>, d: Device, gen: Value)
    ensures FormsFor([f] + rest, d, gen) ==
            if d in FormDevices(f) && !(f == CAMM && BeforeDDR5(KeyOf(gen))) then [f] + FormsFor(rest, d, gen) else FormsFor(rest, d, gen)
  {
    GenKey(gen);
    hide KeyOf, GenOf;
    assert ([f] + rest)[1..] == rest;
  }

  lemma FormsAre(d: Device, gen: Value)
    ensures OnlyName(FormsFor(FORMS, d, gen)) == FormFor(DeviceKeyOf(d), KeyOf(gen))
  {
    hide KeyOf, FormsFor;
    var server := [RDIMM] + ([LRDIMM] + ([SODIMM] + ([CAMM] + [])));
    assert FORMS == [UDIMM] + server;
    FormsCons(UDIMM, server, d, gen);
    FormsCons(RDIMM, [LRDIMM] + ([SODIMM] + ([CAMM] + [])), d, gen);
    FormsCons(LRDIMM, [SODIMM] + ([CAMM] + []), d, gen);
    FormsCons(SODIMM, [CAMM] + [], d, gen);
    FormsCons(CAMM, [], d, gen);
    NoForms(d, gen);
  }

  lemma NoForms(d: Device, gen: Value)
    ensures FormsFor([], d, gen) == []
  {
  }

  predicate Moves(spec: Spec, line: Spec, f: Field) { Text(Get(line, f)) != Text(Get(spec, f)) }

  lemma ChangedMoves(spec: Spec, out: Spec, f: Field)
    ensures Changed(spec, out, f) <==> Moves(spec, spec + out, f)
  {
  }

  /** The form after the generation had its say: a CAMM from before DDR5 is none. */
  function FormLeft(spec: Spec, line: Spec): string {
    var form := Get(line, Classification);
    if (Moves(spec, line, Generation) || Moves(spec, line, Classification))
       && KeyOf(form) == "CAMM" && BeforeDDR5(KeyOf(Get(line, Generation))) then ""
    else Text(form)
  }

  lemma GenerationStep(spec: Spec, out: Spec)
    ensures var before, after := spec + out, spec + SettleGeneration(spec, out);
            && Text(Get(after, Classification)) == FormLeft(spec, before)
            && (forall f :: f != Classification ==> Get(after, f) == Get(before, f))
  {
    hide Text, KeyOf, Put, FormFitsGen, Changed, Moves, BeforeDDR5;
    GenerationRule(Get(spec + out, Classification), Get(spec + out, Generation));
    ChangedMoves(spec, out, Generation);
    ChangedMoves(spec, out, Classification);
    BlankReads();
    PutSets(spec, out, Classification, "");
    PutLeaves(spec, out, Classification, "");
  }

  /** Whether the form decides the device. */
  predicate ByForm(spec: Spec, line: Spec) { Moves(spec, line, Classification) && Text(Get(line, Classification)) != "" }

  /** The device, and the form, that the other one leaves. */
  function DeviceLeft(spec: Spec, line: Spec): string {
    var form, device := Get(line, Classification), Get(line, Type);
    if ByForm(spec, line) && KnownForm(KeyOf(form)) && !GoesInto(KeyOf(form), KeyOf(device)) then DeviceFor(KeyOf(form))
    else Text(device)
  }

  function FormGiven(spec: Spec, line: Spec): string {
    var form, device, gen := Get(line, Classification), KeyOf(Get(line, Type)), KeyOf(Get(line, Generation));
    var blank := Text(form) == "";
    if !ByForm(spec, line) && (Moves(spec, line, Type) || (Moves(spec, line, Generation) && blank)) && KnownDevice(device)
       && (blank || (KnownForm(KeyOf(form)) && !(GoesInto(KeyOf(form), device) && !(KeyOf(form) == "CAMM" && BeforeDDR5(gen)))))
    then FormFor(device, gen)
    else Text(form)
  }

  lemma FormTakes(form: Value, device: Value)
    requires FormOf(form).Some?
    ensures DeviceOf(device).Some? && DeviceOf(device).value in FormDevices(FormOf(form).value) <==> GoesInto(KeyOf(form), KeyOf(device))
    ensures DeviceName(FormDevices(FormOf(form).value)[0]) == DeviceFor(KeyOf(form))
  {
    FormKey(form);
    DeviceKey(device);
    hide KeyOf, FormOf, DeviceOf;
  }

  lemma FormIsOffered(form: Value, device: Value, gen: Value)
    requires FormOf(form).Some? && DeviceOf(device).Some?
    ensures FormOf(form).value in FormsFor(FORMS, DeviceOf(device).value, gen) <==>
            GoesInto(KeyOf(form), KeyOf(device)) && !(KeyOf(form) == "CAMM" && BeforeDDR5(KeyOf(gen)))
  {
    FormIsOne(FormOf(form).value);
    FormTakes(form, device);
    FormKey(form);
    GenKey(gen);
    hide KeyOf, FormOf, DeviceOf, GenOf, GoesInto, FormDevices;
  }

  lemma KnownAre(form: Value, device: Value)
    ensures KnownForm(KeyOf(form)) <==> FormOf(form).Some?
    ensures KnownDevice(KeyOf(device)) <==> DeviceOf(device).Some?
    ensures DeviceOf(device).Some? ==> DeviceKeyOf(DeviceOf(device).value) == KeyOf(device)
  {
    FormKey(form);
    DeviceKey(device);
    hide KeyOf, FormOf, DeviceOf;
  }

  /** A form decides the device. */
  lemma FormDecides(spec: Spec, out: Spec)
    requires ByForm(spec, spec + out)
    ensures var before, after := spec + out, spec + SettleDevice(spec, out);
            && Text(Get(after, Type)) == DeviceLeft(spec, before) && Get(after, Classification) == Get(before, Classification)
  {
    hide Text, KeyOf, Put, Changed, FormOf, DeviceOf, KnownForm, KnownDevice, GoesInto, DeviceFor, DeviceName, FormDevices;
    var form, device := Get(spec + out, Classification), Get(spec + out, Type);
    ChangedMoves(spec, out, Classification);
    KnownAre(form, device);
    if FormOf(form).Some? {
      FormTakes(form, device);
      var fill := FormDevices(FormOf(form).value)[0];
      NamesAreTrim(UDIMM, fill);
      PutSets(spec, out, Type, DeviceName(fill));
      PutLeaves(spec, out, Type, DeviceName(fill));
    }
  }

  lemma PutLeaves(spec: Spec, out: Spec, f: Field, v: string)
    ensures forall g :: g != f ==> Get(spec + Put(spec, out, f, v), g) == Get(spec + out, g)
  {
  }

  /** Otherwise the device decides the form. */
  lemma DeviceDecides(spec: Spec, out: Spec)
    requires !ByForm(spec, spec + out)
    ensures var before, after := spec + out, spec + SettleDevice(spec, out);
            && Text(Get(after, Classification)) == FormGiven(spec, before) && Get(after, Type) == Get(before, Type)
  {
    hide Text, KeyOf, Put, Changed, FormOf, DeviceOf, GenOf, OnlyName, FormFor, FormsFor, KnownForm, KnownDevice, GoesInto, BeforeDDR5;
    var form, device, gen := Get(spec + out, Classification), Get(spec + out, Type), Get(spec + out, Generation);
    ChangedMoves(spec, out, Classification);
    ChangedMoves(spec, out, Type);
    ChangedMoves(spec, out, Generation);
    KnownAre(form, device);
    if DeviceOf(device).Some? {
      var forms := FormsFor(FORMS, DeviceOf(device).value, gen);
      FormsAre(DeviceOf(device).value, gen);
      if FormOf(form).Some? { FormIsOffered(form, device, gen); }
      OnlyNameIsTrim(forms);
      PutSets(spec, out, Classification, OnlyName(forms));
      PutLeaves(spec, out, Classification, OnlyName(forms));
    }
  }

  lemma FormIsOne(f: Form)
    ensures f in FORMS
  {
    assert FORMS[0] == UDIMM && FORMS[1] == RDIMM && FORMS[2] == LRDIMM && FORMS[3] == SODIMM && FORMS[4] == CAMM;
    match f {
      case UDIMM => case RDIMM => case LRDIMM => case SODIMM => case CAMM =>
    }
  }

  lemma OnlyNameIsTrim(fs: seq<Form>)
    ensures Text(Some(OnlyName(fs))) == OnlyName(fs)
  {
    BlankReads();
    if |fs| == 1 { NamesAreTrim(fs[0], Desktop); }
  }

  lemma DeviceStep(spec: Spec, out: Spec)
    ensures var before, after := spec + out, spec + SettleDevice(spec, out);
            && Text(Get(after, Type)) == DeviceLeft(spec, before) && Text(Get(after, Classification)) == FormGiven(spec, before)
            && Get(after, Generation) == Get(before, Generation) && Get(after, Rank) == Get(before, Rank)
  {
    hide Text, KeyOf, SettleDevice, Moves, DeviceFor, FormFor, KnownDevice, KnownForm, GoesInto;
    DeviceStepTouches(spec, out, Generation);
    DeviceStepTouches(spec, out, Rank);
    if ByForm(spec, spec + out) { FormDecides(spec, out); } else { DeviceDecides(spec, out); }
  }

  /** The rank that is left on the line when its other fields stand. */
  function RankLeft(spec: Spec, line: Spec): string {
    var rank := Get(line, Rank);
    if (Moves(spec, line, Generation) || Moves(spec, line, Classification) || Moves(spec, line, Type) || Moves(spec, line, Rank))
       && RankMisfit(KeyOf(Get(line, Classification)), KeyOf(Get(line, Type)), KeyOf(Get(line, Generation)), KeyOf(rank))
    then "" else Text(rank)
  }

  lemma RankStep(spec: Spec, out: Spec)
    ensures var before, after := spec + out, spec + SettleRank(spec, out);
            Text(Get(after, Rank)) == RankLeft(spec, before) && forall f :: f != Rank ==> Get(after, f) == Get(before, f)
  {
    hide Text, KeyOf, Put, RankFits, Changed, Moves, RankMisfit;
    RankRule(spec + out, Get(spec + out, Rank));
    ChangedMoves(spec, out, Generation);
    ChangedMoves(spec, out, Classification);
    ChangedMoves(spec, out, Type);
    ChangedMoves(spec, out, Rank);
    BlankReads();
    PutSets(spec, out, Rank, "");
    PutLeaves(spec, out, Rank, "");
  }

  /**
   * What any patch makes of a memory line: a CAMM from before DDR5 goes; then the form set anew decides the device,
   * or else the device the form; then a rank that does not fit the two goes. The generation stays as patched.
   */
  lemma MemoryFills(spec: Spec, patch: Spec)
    ensures exists told: Spec, peers: Spec ::
              var line, final := spec + patch, spec + Cascaded("RAM", spec, patch);
              && Text(Get(told, Classification)) == FormLeft(spec, line)
              && (forall f :: f != Classification ==> Get(told, f) == Get(line, f))
              && Text(Get(peers, Type)) == DeviceLeft(spec, told) && Text(Get(peers, Classification)) == FormGiven(spec, told)
              && Get(peers, Generation) == Get(told, Generation) && Get(peers, Rank) == Get(told, Rank)
              && Text(Get(final, Rank)) == RankLeft(spec, peers)
              && (forall f :: f != Rank ==> Get(final, f) == Get(peers, f))
  {
    hide Text, KeyOf, FormLeft, DeviceLeft, FormGiven, RankLeft, SettleGeneration, SettleDevice, SettleRank, Get;
    var one := SettleGeneration(spec, patch);
    var two := SettleDevice(spec, one);
    GenerationStep(spec, patch);
    DeviceStep(spec, one);
    RankStep(spec, two);
    var told, peers := spec + one, spec + two;
    assert Text(Get(told, Classification)) == FormLeft(spec, spec + patch);
    assert Text(Get(peers, Type)) == DeviceLeft(spec, told);
  }

  /**
   * Of a drive whose bus or bay moved, a known bay that does not plug into a known bus goes, and a SAS drive just
   * made one gets the 2.5" bay when it has none.
   */
  lemma DriveFills(spec: Spec, patch: Spec)
    ensures var line, final := spec + patch, spec + Cascaded("SSD", spec, patch);
            var bus, bay := KeyOf(Get(line, Interface)), KeyOf(Get(line, FormFactor));
            var left := if KnownBus(bus) && KnownBay(bay) && !PlugsInto(bus, bay) then "" else Text(Get(line, FormFactor));
            && Text(Get(final, FormFactor)) ==
               (if !Moves(spec, line, Interface) && !Moves(spec, line, FormFactor) then Text(Get(line, FormFactor))
                else if Moves(spec, line, Interface) && bus == "SAS" && left == "" then "2.5\"" else left)
            && (forall f :: f != FormFactor ==> Get(final, f) == Get(line, f))
  {
    hide Text, KeyOf, Put, Changed, BusOf, BayFits, KnownBus, KnownBay, PlugsInto;
    var after := SettleBay(spec, patch);
    ChangedMoves(spec, patch, Interface);
    ChangedMoves(spec, patch, FormFactor);
    ChangedMoves(spec, after, Interface);
    BayRule(Get(spec + patch, Interface), Get(spec + patch, FormFactor));
    BusKey(Get(spec + patch, Interface));
    BlankReads();
    BayNameReads();
    PutSets(spec, patch, FormFactor, "");
    PutSets(spec, after, FormFactor, "2.5\"");
    PutLeaves(spec, patch, FormFactor, "");
    PutLeaves(spec, after, FormFactor, "2.5\"");
  }
}
