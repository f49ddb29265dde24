/** What the writer writes, the reader reads back as what it was given, every None removed. */
module TomlRoundTrip {
  import opened Options
  import opened Decimal
  import opened Toml
  import opened TomlReader
  import Sequences

  // ---- what a value means ----

  function Meaning(v: Value): Doc
    requires !v.Null?
    decreases v
  {
    match v
    case Bool(b) => Truth(b)
    case Int(n) => Number(n)
    case Str(s) => Text(s)
    case List(items) => Array(Meanings(items))
    case Dict(entries) => Table(FieldsOf(entries))
  }

  function Meanings(items: seq<Value>): seq<Doc>
    decreases items
  {
    if items == [] then [] else (if items[0].Null? then [] else [Meaning(items[0])]) + Meanings(items[1..])
  }

  function FieldsOf(entries: seq<Entry>): map<string, Doc>
    decreases entries
  {
    if entries == [] then map[]
    else if entries[0].value.Null? then FieldsOf(entries[1..])
    else FieldsOf(entries[1..])[entries[0].key := Meaning(entries[0].value)]
  }

  // ---- what the writer can write ----

  /** The one control character JSON does not escape and TOML does not allow. */
  const DEL: char := 127 as char

  /** Not a bare key with a newline after it. */
  predicate CleanKey(key: string) {
    DEL !in key && !(key != "" && key[|key| - 1] == '\n' && Bare(key[..|key| - 1]))
  }

  predicate Clean(v: Value)
    decreases v
  {
    match v
    case Str(s) => DEL !in s
    case List(items) => CleanItems(items)
    case Dict(entries) => CleanEntries(entries)
    case _ => true
  }

  predicate CleanItems(items: seq<Value>)
    decreases items
  {
    items == [] || (Clean(items[0]) && CleanItems(items[1..]))
  }

  predicate Apart(key: string, entries: seq<Entry>) {
    forall k :: 0 <= k < |entries| ==> entries[k].key != key
  }

  /** Distinct keys, as a dictionary has them, and nothing unwritable in what is kept. */
  predicate CleanEntries(entries: seq<Entry>)
    decreases entries
  {
    entries == [] || (
      && Apart(entries[0].key, entries[1..])
      && (entries[0].value.Null? || (CleanKey(entries[0].key) && Clean(entries[0].value)))
      && CleanEntries(entries[1..]))
  }

  // ---- texts put together ----

  lemma AfterComma(again: string, close: string)
    ensures (", " + again) + close == "," + (" " + (again + close))
  {
  }

  lemma Regroup3(a: string, b: string, c: string, t: string)
    ensures (a + (b + c)) + t == a + (b + (c + t))
  {
  }

  lemma Halves(a: string, b: string)
    ensures (a + b)[..|a|] == a && (a + b)[|a|..] == b
  {
  }

  // ---- strings and keys ----

  lemma HexReads(n: nat)
    requires n < 32
    ensures ReadHex("00" + [HexDigit(n / 16), HexDigit(n % 16)]) == Some(n as char)
  {
  }

  lemma CharReads(c: char, t: string)
    requires c != DEL
    ensures ReadChar(Escaped(c) + t) == Some(Parsed(c, t))
  {
    var e := Escaped(c);
    var s := e + t;
    assert s[|e|..] == t;
    if c < 32 as char && |e| == 6 {
      HexReads(c as nat);
      assert s[2..6] == "00" + [HexDigit(c as nat / 16), HexDigit(c as nat % 16)];
    }
  }

  lemma EscapedStarts(c: char)
    ensures Escaped(c) != "" && Escaped(c)[0] != '"' && '\n' !in Escaped(c)
  {
  }

  lemma {:induction false} BodyReads(s: string, t: string)
    requires DEL !in s
    ensures ReadBody(Body(s) + ("\"" + t)) == Some(Parsed(s, t))
  {
    if s == "" {
      assert Body(s) + ("\"" + t) == "\"" + t;
    } else {
      var rest := Body(s[1..]) + ("\"" + t);
      assert Body(s) + ("\"" + t) == Escaped(s[0]) + rest;
      EscapedStarts(s[0]);
      CharReads(s[0], rest);
      BodyReads(s[1..], t);
      assert [s[0]] + s[1..] == s;
    }
  }

  lemma QuotedReads(s: string, t: string)
    requires DEL !in s
    ensures (Quoted(s) + t)[0] == '"' && ReadBody((Quoted(s) + t)[1..]) == Some(Parsed(s, t))
  {
    Unquoted(Body(s), t);
    BodyReads(s, t);
  }

  lemma Unquoted(body: string, t: string)
    ensures var u := ("\"" + (body + "\"")) + t; u[0] == '"' && u[1..] == body + ("\"" + t)
  {
  }

  lemma {:induction false} BareRunStops(a: string, t: string)
    requires (forall k :: 0 <= k < |a| ==> BareChar(a[k])) && (t == "" || !BareChar(t[0]))
    ensures BareRun(a + t) == |a|
  {
    if a == "" {
      assert a + t == t;
    } else {
      assert (a + t)[1..] == a[1..] + t;
      BareRunStops(a[1..], t);
    }
  }

  /** Begins neither blank nor a comment nor a header. */
  predicate Plain(s: string) { s != "" && !IsBlank(s[0]) && s[0] != '#' && s[0] != '[' }

  lemma KeyReads(key: string, t: string)
    requires CleanKey(key) && (t == "" || !BareChar(t[0]))
    ensures ReadKey(KeyText(key) + t) == Some(Parsed(key, t))
    ensures Plain(KeyText(key)) && KeyText(key)[0] != ']' && KeyText(key)[0] != '}'
  {
    if BareMatch(key) {
      BareRunStops(key, t);
      assert BareChar(key[0]) && key[0] == (key + t)[0];
      assert (key + t)[..|key|] == key && (key + t)[|key|..] == t;
    } else {
      QuotedReads(key, t);
    }
  }

  // ---- values ----

  /** What may follow a value. */
  predicate Ends(t: string) { t == "" || t[0] in {',', ']', ' ', '}'} }

  predicate Opens(s: string) { s != "" && !IsBlank(s[0]) && s[0] != ']' && s[0] != '}' }

  lemma DigitsRead(n: nat, t: string)
    requires Ends(t)
    ensures var u, k := Print(n) + t, |Print(n)|;
            DigitRun(u) == k && u[..k] == Print(n) && u[k..] == t && Read(Print(n)) == n && (k > 1 ==> u[0] != '0') && IsDigit(u[0])
  {
    ReadPrint(n);
    DigitRunStops(Print(n), t);
    LeadingZero(n);
    Halves(Print(n), t);
  }

  lemma NaturalReads(n: nat, t: string)
    requires Ends(t)
    ensures ReadInt(Print(n) + t) == Some(Parsed(Number(n), t))
  {
    DigitsRead(n, t);
  }

  lemma NegativeReads(n: nat, t: string)
    requires Ends(t)
    ensures ReadInt("-" + (Print(n) + t)) == Some(Parsed(Number(0 - n), t))
  {
    DigitsRead(n, t);
    Halves("-", Print(n) + t);
  }

  lemma IntReads(n: int, t: string)
    requires Ends(t)
    ensures ReadInt(IntText(n) + t) == Some(Parsed(Number(n), t))
    ensures Opens(IntText(n)) && IntText(n)[0] !in {'t', 'f', '"', '[', '{'}
  {
    hide ReadInt, Print, Ends;
    if n < 0 {
      NegativeReads(-n, t);
      Sequences.Regroup("-", Print(-n), t);
    } else {
      NaturalReads(n, t);
      assert IsDigit(Print(n)[0]);
    }
  }

  lemma LeadingZero(n: nat)
    ensures |Print(n)| > 1 ==> Print(n)[0] != '0'
  {
  }

  lemma {:induction false} ItemsSeparate(items: seq<Value>)
    ensures if Meanings(items) == [] then ItemsText(items, true) == ItemsText(items, false) == ""
            else ItemsText(items, false) == ", " + ItemsText(items, true)
  {
    hide ValueText, Meaning;
    if items != [] {
      ItemsSeparate(items[1..]);
    }
  }

  lemma {:induction false} EntriesSeparate(entries: seq<Entry>)
    ensures if FieldsOf(entries) == map[] then EntriesText(entries, true) == EntriesText(entries, false) == ""
            else EntriesText(entries, false) == ", " + EntriesText(entries, true)
  {
    hide EntryText, Meaning;
    if entries != [] {
      EntriesSeparate(entries[1..]);
      if !entries[0].value.Null? { assert entries[0].key in FieldsOf(entries); }
    }
  }

  lemma {:induction false} FieldsAreApart(key: string, entries: seq<Entry>)
    requires Apart(key, entries)
    ensures key !in FieldsOf(entries)
  {
    if entries != [] {
      assert entries[0].key != key;
      FieldsAreApart(key, entries[1..]);
    }
  }

  lemma {:induction false} ValueReads(v: Value, t: string)
    requires !v.Null? && Clean(v) && Ends(t)
    ensures ReadValue(ValueText(v) + t) == Some(Parsed(Meaning(v), t))
    ensures Opens(ValueText(v))
    decreases v
  {
    match v {
      case Bool(b) => BoolReads(b, t);
      case Int(n) => IntReads(n, t);
      case Str(s) => QuotedReads(s, t);
      case List(items) =>
        ItemsRead(items, t);
        ItemsSeparate(items);
        ListReads(ItemsText(items, true), Meanings(items), t);
      case Dict(entries) =>
        EntriesRead(entries, t);
        EntriesSeparate(entries);
        DictReads(EntriesText(entries, true), FieldsOf(entries), t);
    }
  }

  lemma BoolReads(b: bool, t: string)
    ensures ReadValue(ValueText(Bool(b)) + t) == Some(Parsed(Truth(b), t))
  {
    var s := ValueText(Bool(b)) + t;
    if b {
      assert StartsWith(s, "true") && s[4..] == t;
    } else {
      assert s[0] == 'f' && StartsWith(s, "false") && s[5..] == t;
    }
  }

  lemma SkipNothing(s: string)
    requires s != "" ==> !IsBlank(s[0])
    ensures Skip(s) == s && Skip(" " + s) == s
  {
    assert (" " + s)[1..] == s;
  }

  // ---- the reader, one construct at a time ----

  /** There is something, and it is not blank. */
  predicate Solid(s: string) { s != "" && !IsBlank(s[0]) }

  lemma ArrayReads(inside: string, items: seq<Doc>, t: string)
    requires Solid(inside) && ReadItems(inside) == Some(Parsed(items, t))
    ensures ReadValue("[" + inside) == Some(Parsed(Array(items), t))
  {
    SkipNothing(inside);
    assert ("[" + inside)[0] == '[' && ("[" + inside)[1..] == inside;
  }

  lemma Opened(first: string, rest: string)
    requires |first| == 1
    ensures (first + rest)[0] == first[0] && (first + rest)[1..] == rest
  {
  }

  lemma InlineReads(inside: string, fields: map<string, Doc>, t: string)
    requires Solid(inside) && inside[0] != '}' && ReadPairs(inside) == Some(Parsed(fields, t))
    ensures ReadValue("{" + (" " + inside)) == Some(Parsed(Table(fields), t))
  {
    SkipNothing(inside);
    Opened("{", " " + inside);
  }

  lemma EmptyInlineReads(t: string)
    ensures ReadValue("{" + (" " + (" " + ("}" + t)))) == Some(Parsed(Table(map[]), t))
  {
    var s := "{" + (" " + (" " + ("}" + t)));
    assert s[0] == '{' && s[1..] == " " + (" " + ("}" + t));
    SkipNothing("}" + t);
    assert (" " + (" " + ("}" + t)))[1..] == " " + ("}" + t);
    assert ("}" + t)[1..] == t;
  }

  lemma LastItemReads(s: string, value: Doc, t: string)
    requires s != "" && s[0] != ']' && ReadValue(s) == Some(Parsed(value, "]" + t))
    ensures ReadItems(s) == Some(Parsed([value], t))
  {
    SkipNothing("]" + t);
    assert ("]" + t)[1..] == t;
  }

  lemma NextItemReads(s: string, value: Doc, more: string, items: seq<Doc>, t: string)
    requires s != "" && s[0] != ']' && ReadValue(s) == Some(Parsed(value, "," + (" " + more)))
    requires Solid(more) && ReadItems(more) == Some(Parsed(items, t))
    ensures ReadItems(s) == Some(Parsed([value] + items, t))
  {
    var after := "," + (" " + more);
    SkipNothing(after);
    assert after[1..] == " " + more;
    SkipNothing(more);
  }

  lemma PairReads(s: string, key: string, u: string, value: Doc, t: string)
    requires ReadKey(s) == Some(Parsed(key, " = " + u)) && Solid(u) && ReadValue(u) == Some(Parsed(value, t))
    ensures ReadPair(s) == Some(Parsed((key, value), t))
  {
    assert " = " + u == " " + ("= " + u);
    SkipNothing("= " + u);
    assert ("= " + u)[1..] == " " + u;
    SkipNothing(u);
  }

  lemma LastPairReads(s: string, key: string, value: Doc, t: string)
    requires ReadPair(s) == Some(Parsed((key, value), " }" + t))
    ensures ReadPairs(s) == Some(Parsed(map[key := value], t))
  {
    assert " }" + t == " " + ("}" + t);
    SkipNothing("}" + t);
    assert ("}" + t)[1..] == t;
  }

  lemma NextPairReads(s: string, key: string, value: Doc, more: string, fields: map<string, Doc>, t: string)
    requires ReadPair(s) == Some(Parsed((key, value), "," + (" " + more)))
    requires Solid(more) && ReadPairs(more) == Some(Parsed(fields, t)) && key !in fields
    ensures ReadPairs(s) == Some(Parsed(fields[key := value], t))
  {
    var after := "," + (" " + more);
    SkipNothing(after);
    assert after[1..] == " " + more;
    SkipNothing(more);
  }

  lemma ListReads(inner: string, docs: seq<Doc>, t: string)
    requires inner == "" || Opens(inner)
    requires ReadItems(inner + ("]" + t)) == Some(Parsed(docs, t))
    ensures ReadValue(("[" + (inner + "]")) + t) == Some(Parsed(Array(docs), t))
  {
    ArrayReads(inner + ("]" + t), docs, t);
    Regroup3("[", inner, "]", t);
  }

  lemma Braces(inner: string, t: string)
    ensures ("{ " + (inner + " }")) + t == "{" + (" " + (inner + (" }" + t)))
  {
  }

  lemma DictReads(inner: string, fields: map<string, Doc>, t: string)
    requires fields == map[] ==> inner == ""
    requires fields != map[] ==> Opens(inner) && ReadPairs(inner + (" }" + t)) == Some(Parsed(fields, t))
    ensures ReadValue(("{ " + (inner + " }")) + t) == Some(Parsed(Table(fields), t))
  {
    Braces(inner, t);
    if fields == map[] {
      EmptyInlineReads(t);
      assert inner + (" }" + t) == " " + ("}" + t);
    } else {
      InlineReads(inner + (" }" + t), fields, t);
    }
  }

  /** One item, then the ones after it. */
  lemma ItemReads(text: string, value: Doc, later: string, again: string, docs: seq<Doc>, t: string)
    requires Opens(text) && ReadValue(text + (later + ("]" + t))) == Some(Parsed(value, later + ("]" + t)))
    requires if docs == [] then later == "" else later == ", " + again && Opens(again)
    requires docs != [] ==> ReadItems(again + ("]" + t)) == Some(Parsed(docs, t))
    ensures ReadItems((text + later) + ("]" + t)) == Some(Parsed([value] + docs, t))
  {
    var close := "]" + t;
    Sequences.Regroup(text, later, close);
    if docs == [] {
      assert later + close == close;
      LastItemReads(text + (later + close), value, t);
      assert [value] + docs == [value];
    } else {
      AfterComma(again, close);
      NextItemReads(text + (later + close), value, again + close, docs, t);
    }
  }

  lemma PairThenRest(text: string, key: string, value: Doc, later: string, again: string, fields: map<string, Doc>, t: string)
    requires ReadPair(text + (later + (" }" + t))) == Some(Parsed((key, value), later + (" }" + t)))
    requires if fields == map[] then later == "" else later == ", " + again && Opens(again)
    requires fields != map[] ==> ReadPairs(again + (" }" + t)) == Some(Parsed(fields, t))
    requires key !in fields
    ensures ReadPairs((text + later) + (" }" + t)) == Some(Parsed(fields[key := value], t))
  {
    var close := " }" + t;
    Sequences.Regroup(text, later, close);
    if fields == map[] {
      assert later + close == close;
      LastPairReads(text + (later + close), key, value, t);
    } else {
      AfterComma(again, close);
      NextPairReads(text + (later + close), key, value, again + close, fields, t);
    }
  }

  // ---- what was written, read ----

  /** An array, from after its bracket. */
  lemma {:induction false} ItemsRead(items: seq<Value>, t: string)
    requires CleanItems(items) && Ends(t)
    ensures ReadItems(ItemsText(items, true) + ("]" + t)) == Some(Parsed(Meanings(items), t))
    ensures Meanings(items) != [] ==> Opens(ItemsText(items, true))
    decreases items
  {
    if items == [] {
      assert "" + ("]" + t) == "]" + t;
      assert ("]" + t)[1..] == t;
    } else {
      var rest := items[1..];
      ItemsRead(rest, t);
      if items[0].Null? {
        assert Meanings(items) == Meanings(rest);
      } else {
        var text, later := ValueText(items[0]), ItemsText(rest, false);
        ItemsSeparate(rest);
        ValueReads(items[0], later + ("]" + t));
        ItemReads(text, Meaning(items[0]), later, ItemsText(rest, true), Meanings(rest), t);
        assert ItemsText(items, true) == text + later;
      }
    }
  }

  lemma {:induction false} EntriesRead(entries: seq<Entry>, t: string)
    requires CleanEntries(entries) && Ends(t)
    ensures FieldsOf(entries) != map[] ==>
              && Opens(EntriesText(entries, true))
              && ReadPairs(EntriesText(entries, true) + (" }" + t)) == Some(Parsed(FieldsOf(entries), t))
    decreases entries
  {
    if entries != [] {
      var rest := entries[1..];
      EntriesRead(rest, t);
      if !entries[0].value.Null? {
        var text, later := EntryText(entries[0]), EntriesText(rest, false);
        EntriesSeparate(rest);
        EntryReads(entries[0], later + (" }" + t));
        FieldsAreApart(entries[0].key, rest);
        PairThenRest(text, entries[0].key, Meaning(entries[0].value), later, EntriesText(rest, true), FieldsOf(rest), t);
        assert EntriesText(entries, true) == text + later;
      }
    }
  }

  lemma {:induction false} EntryReads(e: Entry, t: string)
    requires !e.value.Null? && CleanKey(e.key) && Clean(e.value) && Ends(t)
    ensures ReadPair(EntryText(e) + t) == Some(Parsed((e.key, Meaning(e.value)), t))
    ensures Opens(EntryText(e)) && Plain(EntryText(e))
    decreases e, 0
  {
    var value := ValueText(e.value) + t;
    ValueReads(e.value, t);
    KeyReads(e.key, " = " + value);
    EntryJoins(KeyText(e.key), ValueText(e.value), t);
    PairReads(KeyText(e.key) + (" = " + value), e.key, value, Meaning(e.value), t);
  }

  lemma EntryJoins(key: string, value: string, t: string)
    ensures (key + (" = " + value)) + t == key + (" = " + (value + t))
  {
  }
}
