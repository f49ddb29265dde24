/** Exactly what can be written: with any other key or string the document no longer reads at all. */
module TomlLimits {
  import opened Options
  import opened Decimal
  import opened Toml
  import opened TomlReader
  import opened TomlRoundTrip
  import opened TomlDocument
  import Sequences

  predicate Writable(v: Value)
    decreases v
  {
    match v
    case Str(s) => DEL !in s
    case List(items) => WritableItems(items)
    case Dict(entries) => WritableEntries(entries)
    case _ => true
  }

  predicate WritableItems(items: seq<Value>)
    decreases items
  {
    items == [] || (Writable(items[0]) && WritableItems(items[1..]))
  }

  predicate WritableEntry(e: Entry)
    decreases e, 0
  {
    e.value.Null? || (CleanKey(e.key) && Writable(e.value))
  }

  predicate WritableEntries(entries: seq<Entry>)
    decreases entries
  {
    entries == [] || (WritableEntry(entries[0]) && WritableEntries(entries[1..]))
  }

  /** Every dictionary inside has distinct keys. */
  predicate Proper(v: Value)
    decreases v
  {
    match v
    case List(items) => ProperItems(items)
    case Dict(entries) => ProperEntries(entries)
    case _ => true
  }

  predicate ProperItems(items: seq<Value>)
    decreases items
  {
    items == [] || (Proper(items[0]) && ProperItems(items[1..]))
  }

  predicate ProperEntries(entries: seq<Entry>)
    decreases entries
  {
    entries == [] || (Apart(entries[0].key, entries[1..]) && Proper(entries[0].value) && ProperEntries(entries[1..]))
  }

  lemma {:induction false} CleanIsBoth(v: Value)
    requires Proper(v) && Writable(v)
    ensures Clean(v)
    decreases v
  {
    match v {
      case List(items) => CleanItemsAreBoth(items);
      case Dict(entries) => CleanEntriesAreBoth(entries);
      case _ =>
    }
  }

  lemma {:induction false} CleanItemsAreBoth(items: seq<Value>)
    requires ProperItems(items) && WritableItems(items)
    ensures CleanItems(items)
    decreases items
  {
    if items != [] {
      CleanIsBoth(items[0]);
      CleanItemsAreBoth(items[1..]);
    }
  }

  lemma {:induction false} CleanEntriesAreBoth(entries: seq<Entry>)
    requires ProperEntries(entries) && WritableEntries(entries)
    ensures CleanEntries(entries)
    decreases entries
  {
    if entries != [] {
      if !entries[0].value.Null? { CleanIsBoth(entries[0].value); }
      CleanEntriesAreBoth(entries[1..]);
    }
  }

  // ---- up to the first newline ----

  function Cut(s: string): string { s[..NewlineAt(s)] }

  lemma {:induction false} CutJoins(a: string, t: string)
    requires OneLine(a)
    ensures Cut(a + t) == a + Cut(t)
  {
    if a == "" {
      assert a + t == t;
    } else {
      assert (a + t)[1..] == a[1..] + t;
      CutJoins(a[1..], t);
      assert Cut(a + t) == [a[0]] + Cut(a[1..] + t);
    }
  }

  lemma CutAfterComma(a: string, more: string)
    requires OneLine(a)
    ensures Cut(a + ("," + (" " + more))) == a + ("," + (" " + Cut(more)))
  {
    CutJoins(a, "," + (" " + more));
    CutJoins(",", " " + more);
    CutJoins(" ", more);
  }

  lemma CutStarts(s: string)
    requires s != "" && s[0] != '\n'
    ensures Cut(s) != "" && Cut(s)[0] == s[0]
  {
  }

  lemma ValueOpens(v: Value)
    requires !v.Null?
    ensures Opens(ValueText(v)) && ValueText(v)[0] != '\n'
  {
    match v {
      case Int(n) =>
        var digits := Print(if n < 0 then -n else n);
        assert IsDigit(digits[0]);
      case _ =>
    }
  }

  lemma KeyOpens(key: string)
    ensures Opens(KeyText(key)) && Plain(KeyText(key)) && KeyText(key)[0] != '\n'
  {
    if BareMatch(key) { assert BareChar(key[0]); }
  }

  lemma {:induction false} UnwritableIsKept(items: seq<Value>)
    requires !WritableItems(items)
    ensures Meanings(items) != []
  {
    if Writable(items[0]) { UnwritableIsKept(items[1..]); }
  }

  lemma {:induction false} UnwritableEntryIsKept(entries: seq<Entry>)
    requires !WritableEntries(entries)
    ensures FieldsOf(entries) != map[]
  {
    if WritableEntry(entries[0]) {
      UnwritableEntryIsKept(entries[1..]);
      if !entries[0].value.Null? { assert entries[0].key in FieldsOf(entries); }
    } else {
      assert entries[0].key in FieldsOf(entries);
    }
  }

  // ---- where reading stops ----

  lemma {:induction false} BodyFails(s: string, t: string)
    requires DEL in s
    ensures ReadBody(Body(s) + ("\"" + t)).None?
  {
    var rest := Body(s[1..]) + ("\"" + t);
    assert Body(s) + ("\"" + t) == Escaped(s[0]) + rest;
    if s[0] == DEL {
      assert (Escaped(s[0]) + rest)[0] == DEL;
    } else {
      EscapedStarts(s[0]);
      CharReads(s[0], rest);
      assert s == [s[0]] + s[1..];
      BodyFails(s[1..], t);
    }
  }

  lemma QuotedFails(s: string, t: string)
    requires DEL in s
    ensures var u := Cut(Quoted(s) + t); u != "" && u[0] == '"' && ReadBody(u[1..]).None?
  {
    QuotedOneLine(s);
    CutJoins(Quoted(s), t);
    BodyFails(s, Cut(t));
    Unquoted(Body(s), Cut(t));
  }

  lemma QuotedOneLine(s: string)
    ensures OneLine(Quoted(s))
  {
    BodyOneLine(s);
  }

  /** A key that cannot be written ends the line or cannot be read. */
  lemma KeyFails(key: string, t: string)
    requires !CleanKey(key)
    ensures var r := ReadKey(Cut(KeyText(key) + t)); r.None? || r.value.rest == ""
  {
    if DEL in key {
      assert !BareChar(DEL) && DEL != '\n';
      if BareMatch(key) {
        NoDelInBare(key);
      }
      QuotedFails(key, t);
    } else {
      var b := key[..|key| - 1];
      assert key + t == b + ("\n" + t);
      NewlineInBare(b);
      NewlineFound(b, t);
      BareRunStops(b, "");
      assert b + "" == b;
    }
  }

  lemma NoDelInBare(key: string)
    requires BareMatch(key)
    ensures DEL !in key
  {
  }

  lemma NewlineInBare(b: string)
    requires Bare(b)
    ensures OneLine(b)
  {
  }

  lemma ArrayFails(inside: string)
    requires Solid(inside) && ReadItems(inside).None?
    ensures ReadValue("[" + inside).None?
  {
    SkipNothing(inside);
    assert ("[" + inside)[0] == '[' && ("[" + inside)[1..] == inside;
  }

  lemma InlineFails(inside: string)
    requires Solid(inside) && inside[0] != '}' && ReadPairs(inside).None?
    ensures ReadValue("{" + (" " + inside)).None?
  {
    SkipNothing(inside);
    var s := "{" + (" " + inside);
    assert s[0] == '{' && s[1..] == " " + inside;
  }

  lemma NextItemFails(s: string, value: Doc, more: string)
    requires s != "" && s[0] != ']' && ReadValue(s) == Some(Parsed(value, "," + (" " + more)))
    requires Solid(more) && ReadItems(more).None?
    ensures ReadItems(s).None?
  {
    var after := "," + (" " + more);
    SkipNothing(after);
    assert after[1..] == " " + more;
    SkipNothing(more);
  }

  lemma PairFails(s: string, key: string, u: string)
    requires ReadKey(s) == Some(Parsed(key, " = " + u)) && Solid(u) && ReadValue(u).None?
    ensures ReadPair(s).None?
  {
    assert " = " + u == " " + ("= " + u);
    SkipNothing("= " + u);
    assert ("= " + u)[1..] == " " + u;
    SkipNothing(u);
  }

  lemma NextPairFails(s: string, key: string, value: Doc, more: string)
    requires ReadPair(s) == Some(Parsed((key, value), "," + (" " + more)))
    requires Solid(more) && ReadPairs(more).None?
    ensures ReadPairs(s).None?
  {
    var after := "," + (" " + more);
    SkipNothing(after);
    assert after[1..] == " " + more;
    SkipNothing(more);
  }

  // ---- values that cannot be written ----

  lemma {:induction false} ValueFails(v: Value, t: string)
    requires !v.Null? && Proper(v) && !Writable(v)
    ensures ReadValue(Cut(ValueText(v) + t)).None?
    decreases v
  {
    match v {
      case Str(s) =>
        QuotedFails(s, t);
      case List(items) =>
        ItemsFail(items, t);
        ListFails(ItemsText(items, true), t);
      case Dict(entries) =>
        EntriesFail(entries, t);
        DictFails(EntriesText(entries, true), t);
    }
  }

  lemma ListFails(inner: string, t: string)
    requires var s := Cut(inner + ("]" + t)); Solid(s) && ReadItems(s).None?
    ensures ReadValue(Cut(("[" + (inner + "]")) + t)).None?
  {
    Regroup3("[", inner, "]", t);
    CutJoins("[", inner + ("]" + t));
    ArrayFails(Cut(inner + ("]" + t)));
  }

  lemma DictFails(inner: string, t: string)
    requires var s := Cut(inner + (" }" + t)); Solid(s) && s[0] != '}' && ReadPairs(s).None?
    ensures ReadValue(Cut(("{ " + (inner + " }")) + t)).None?
  {
    var u := inner + (" }" + t);
    Braces(inner, t);
    CutJoins("{", " " + u);
    CutJoins(" ", u);
    InlineFails(Cut(u));
  }

  lemma {:induction false} ItemsFail(items: seq<Value>, t: string)
    requires ProperItems(items) && !WritableItems(items)
    ensures var s := Cut(ItemsText(items, true) + ("]" + t)); Solid(s) && ReadItems(s).None?
    decreases items
  {
    var rest := items[1..];
    if items[0].Null? {
      ItemsFail(rest, t);
    } else {
      var text, later, close := ValueText(items[0]), ItemsText(rest, false), "]" + t;
      ValueOpens(items[0]);
      assert ItemsText(items, true) == text + later;
      Sequences.Regroup(text, later, close);
      CutStarts(text + (later + close));
      if Writable(items[0]) {
        ItemsFail(rest, t);
        LaterItemsFail(items[0], rest, t);
      } else {
        ValueFails(items[0], later + close);
      }
    }
  }

  lemma {:induction false} LaterItemsFail(v: Value, rest: seq<Value>, t: string)
    requires !v.Null? && Proper(v) && Writable(v) && !WritableItems(rest)
    requires var s := Cut(ItemsText(rest, true) + ("]" + t)); Solid(s) && ReadItems(s).None?
    ensures ReadItems(Cut(ValueText(v) + (ItemsText(rest, false) + ("]" + t)))).None?
  {
    var more := ItemsText(rest, true) + ("]" + t);
    ItemsSeparate(rest);
    UnwritableIsKept(rest);
    AfterComma(ItemsText(rest, true), "]" + t);
    CleanIsBoth(v);
    ValueOneLine(v);
    var follow := "," + (" " + Cut(more));
    CutAfterComma(ValueText(v), more);
    ValueReads(v, follow);
    NextItemFails(ValueText(v) + follow, Meaning(v), Cut(more));
  }

  lemma {:induction false} EntryFails(e: Entry, t: string)
    requires !e.value.Null? && Proper(e.value) && !WritableEntry(e)
    ensures ReadPair(Cut(EntryText(e) + t)).None?
    decreases e, 0
  {
    var value := ValueText(e.value) + t;
    EntryJoins(KeyText(e.key), ValueText(e.value), t);
    if CleanKey(e.key) {
      KeyOneLine(e.key);
      CutJoins(KeyText(e.key), " = " + value);
      CutJoins(" = ", value);
      KeyReads(e.key, " = " + Cut(value));
      ValueFails(e.value, t);
      ValueOpens(e.value);
      CutStarts(value);
      PairFails(KeyText(e.key) + (" = " + Cut(value)), e.key, Cut(value));
    } else {
      KeyFails(e.key, " = " + value);
    }
  }

  lemma {:induction false} EntriesFail(entries: seq<Entry>, t: string)
    requires ProperEntries(entries) && !WritableEntries(entries)
    ensures var s := Cut(EntriesText(entries, true) + (" }" + t)); Solid(s) && s[0] != '}' && ReadPairs(s).None?
    decreases entries
  {
    var e, rest := entries[0], entries[1..];
    if e.value.Null? {
      EntriesFail(rest, t);
    } else {
      var text, later, close := EntryText(e), EntriesText(rest, false), " }" + t;
      KeyOpens(e.key);
      assert EntriesText(entries, true) == text + later;
      Sequences.Regroup(text, later, close);
      assert (text + (later + close))[0] == text[0] == KeyText(e.key)[0];
      CutStarts(text + (later + close));
      if WritableEntry(e) {
        EntriesFail(rest, t);
        LaterEntriesFail(e, rest, t);
      } else {
        EntryFails(e, later + close);
      }
    }
  }

  lemma {:induction false} LaterEntriesFail(e: Entry, rest: seq<Entry>, t: string)
    requires !e.value.Null? && Proper(e.value) && WritableEntry(e) && !WritableEntries(rest)
    requires var s := Cut(EntriesText(rest, true) + (" }" + t)); Solid(s) && ReadPairs(s).None?
    ensures ReadPairs(Cut(EntryText(e) + (EntriesText(rest, false) + (" }" + t)))).None?
  {
    var more := EntriesText(rest, true) + (" }" + t);
    EntriesSeparate(rest);
    UnwritableEntryIsKept(rest);
    AfterComma(EntriesText(rest, true), " }" + t);
    CleanIsBoth(e.value);
    EntryOneLine(e);
    var follow := "," + (" " + Cut(more));
    CutAfterComma(EntryText(e), more);
    EntryReads(e, follow);
    NextPairFails(EntryText(e) + follow, e.key, Meaning(e.value), Cut(more));
  }

  // ---- lines that cannot be read ----

  lemma EntryLineFails(e: Entry)
    requires !e.value.Null? && Proper(e.value) && !WritableEntry(e)
    ensures ReadLine(Cut(EntryText(e))).None?
  {
    EntryFails(e, "");
    assert EntryText(e) + "" == EntryText(e);
    KeyOpens(e.key);
    CutStarts(EntryText(e));
    SkipNothing(Cut(EntryText(e)));
  }

  lemma {:induction false} PathFails(path: Path, t: string)
    requires path != [] && !CleanPath(path)
    ensures var r := ReadPath(Cut(PathText(path) + t)); r.None? || r.value.rest == ""
    ensures Solid(PathText(path)) && PathText(path)[0] != '\n'
  {
    var key, rest := path[0], path[1..];
    KeyOpens(key);
    if |path| == 1 {
      KeyFails(key, t);
    } else {
      var more := PathText(rest) + t;
      DotJoins(KeyText(key), PathText(rest), t);
      if CleanKey(key) {
        assert exists k :: 0 <= k < |rest| && !CleanKey(rest[k]) by {
          var k :| 0 <= k < |path| && !CleanKey(path[k]);
          assert rest[k - 1] == path[k];
        }
        PathFails(rest, t);
        KeyOneLine(key);
        CutJoins(KeyText(key), "." + more);
        CutJoins(".", more);
        CutStarts(more);
        KeyReads(key, "." + Cut(more));
        SkipNothing("." + Cut(more));
        assert ("." + Cut(more))[1..] == Cut(more);
        SkipNothing(Cut(more));
      } else {
        KeyFails(key, "." + more);
      }
    }
  }

  lemma HeaderFails(path: Path)
    requires path != [] && !CleanPath(path)
    ensures ReadLine(Cut(HeaderText(path))).None?
  {
    var inside := PathText(path) + "]";
    PathFails(path, "]");
    CutJoins("[", inside);
    var s := Cut(inside);
    CutStarts(inside);
    SkipNothing(s);
    var line := "[" + s;
    SkipNothing(line);
    assert line[1..] == s;
  }

  // ---- the document that cannot be read ----

  /** One of the lines, up to its first newline, is refused. */
  ghost predicate Broken(lines: seq<string>) {
    exists k: nat :: k < |lines| && ReadLine(Cut(lines[k])).None?
  }

  lemma BrokenJoins(a: seq<string>, b: seq<string>)
    ensures Broken(a) || Broken(b) ==> Broken(a + b)
  {
    if Broken(a) {
      var k: nat :| k < |a| && ReadLine(Cut(a[k])).None?;
      assert (a + b)[k] == a[k];
    } else if Broken(b) {
      var k: nat :| k < |b| && ReadLine(Cut(b[k])).None?;
      assert (a + b)[|a| + k] == b[k];
    }
  }

  /** Some scalar, or the lines of some inner table, cannot be written. */
  predicate ScalarsWritable(entries: seq<Entry>) {
    entries == [] || ((Scalar(entries[0]) ==> WritableEntry(entries[0])) && ScalarsWritable(entries[1..]))
  }

  predicate TablesWritable(entries: seq<Entry>) {
    entries == [] || ((entries[0].value.Dict? ==> WritableEntry(entries[0])) && TablesWritable(entries[1..]))
  }

  lemma {:induction false} WritableInParts(entries: seq<Entry>)
    ensures WritableEntries(entries) <==> ScalarsWritable(entries) && TablesWritable(entries)
  {
    if entries != [] { WritableInParts(entries[1..]); }
  }

  lemma {:induction false} ScalarsBreak(entries: seq<Entry>)
    requires ProperEntries(entries) && !ScalarsWritable(entries)
    ensures Broken(ScalarLines(entries))
  {
    var line := if Scalar(entries[0]) then [EntryText(entries[0])] else [];
    BrokenJoins(line, ScalarLines(entries[1..]));
    if Scalar(entries[0]) && !WritableEntry(entries[0]) {
      EntryLineFails(entries[0]);
      assert line[0] == EntryText(entries[0]);
    } else {
      ScalarsBreak(entries[1..]);
    }
  }

  lemma {:induction false} TableBreaks(entries: seq<Entry>, path: Path)
    requires ProperEntries(entries) && ((path != [] && !CleanPath(path)) || !WritableEntries(entries))
    ensures Broken(TableLines(entries, path))
    decreases entries, 1
  {
    var scalars := ScalarLines(entries);
    var header := if path == [] then [] else [HeaderText(path)];
    var blank := if path != [] || scalars != [] then [""] else [];
    BrokenJoins(header + scalars + blank, InnerLines(entries, path));
    BrokenJoins(header + scalars, blank);
    BrokenJoins(header, scalars);
    WritableInParts(entries);
    if path != [] && !CleanPath(path) {
      HeaderFails(path);
      assert header[0] == HeaderText(path);
    } else if !ScalarsWritable(entries) {
      ScalarsBreak(entries);
    } else {
      InnerBreaks(entries, path);
    }
  }

  lemma UncleanEnd(path: Path, key: string)
    requires !CleanKey(key)
    ensures !CleanPath(path + [key])
  {
    assert (path + [key])[|path|] == key;
  }

  lemma {:induction false} EntryBreaks(e: Entry, path: Path)
    requires e.value.Dict? && Proper(e.value) && !WritableEntry(e)
    ensures Broken(TableLines(e.value.entries, path + [e.key]))
    decreases e, 0
  {
    if !CleanKey(e.key) { UncleanEnd(path, e.key); }
    TableBreaks(e.value.entries, path + [e.key]);
  }

  lemma {:induction false} InnerBreaks(entries: seq<Entry>, path: Path)
    requires ProperEntries(entries) && !TablesWritable(entries)
    ensures Broken(InnerLines(entries, path))
    decreases entries, 0
  {
    var e, rest := entries[0], entries[1..];
    var lines := if e.value.Dict? then TableLines(e.value.entries, path + [e.key]) else [];
    var more := InnerLines(rest, path);
    if e.value.Dict? && !WritableEntry(e) {
      EntryBreaks(e, path);
    } else {
      InnerBreaks(rest, path);
    }
    assert Broken(lines) || Broken(more);
    BrokenJoins(lines, more);
  }

  lemma {:induction false} LinesJoin(a: string, b: string)
    ensures Lines(a + ("\n" + b)) == Lines(a) + Lines(b)
    decreases |a|
  {
    var n := NewlineAt(a);
    SplitOrNot(a);
    if n == |a| {
      assert a[..n] == a;
      FirstLine(a, b);
    } else {
      var front, rest := a[..n], a[n + 1..];
      assert a == front + ("\n" + rest);
      Newlines(front, rest, b);
      FirstLine(front, rest + ("\n" + b));
      LinesJoin(rest, b);
      Sequences.Regroup([front], Lines(rest), Lines(b));
    }
  }

  lemma Newlines(a: string, b: string, c: string)
    ensures (a + ("\n" + b)) + ("\n" + c) == a + ("\n" + (b + ("\n" + c)))
  {
  }

  /** The first line of what was one line when written is a line of the text. */
  lemma {:induction false} CutIsALine(lines: seq<string>, k: nat)
    requires k < |lines|
    ensures Cut(lines[k]) in Lines(Join(lines))
  {
    CutComesFirst(lines[0]);
    if |lines| > 1 {
      LinesJoin(lines[0], Join(lines[1..]));
      if k > 0 { CutIsALine(lines[1..], k - 1); }
    }
  }

  lemma CutComesFirst(s: string)
    ensures Lines(s)[0] == Cut(s) && Cut(s) in Lines(s)
  {
  }

  lemma {:induction false} BrokenRun(lines: seq<string>, st: State)
    requires exists line :: line in lines && ReadLine(line).None?
    ensures Run(lines, st).None?
  {
    var line :| line in lines && ReadLine(line).None?;
    if ReadLine(lines[0]).Some? && Step(st, ReadLine(lines[0]).value).Some? {
      assert lines == [lines[0]] + lines[1..];
      BrokenRun(lines[1..], Step(st, ReadLine(lines[0]).value).value);
    }
  }

  /**
   * For any data with distinct keys, the document reads back exactly when no kept key is a bare one with a
   * newline after it and no kept key or string holds a DEL; otherwise it does not read at all.
   */
  lemma WritableExactly(data: seq<Entry>)
    requires ProperEntries(data)
    ensures ReadDocument(Dumped(data)) == if WritableEntries(data) then Some(FieldsOf(data)) else None
  {
    if WritableEntries(data) {
      CleanEntriesAreBoth(data);
      RoundTrip(data);
    } else {
      var lines := TableLines(data, []);
      var st := State(map[], [], {}, {});
      NewlineAddsNothing(StripNewlines(Join(lines)), st);
      StrippingKeeps(Join(lines), st);
      TableBreaks(data, []);
      var k: nat :| k < |lines| && ReadLine(Cut(lines[k])).None?;
      CutIsALine(lines, k);
      BrokenRun(Lines(Join(lines)), st);
    }
  }

  /** So `{"a\n": 1}` does not survive being written. */
  lemma NewlineKeyBreaks()
    ensures ReadDocument(Dumped([Entry("a\n", Int(1))])).None?
  {
    var data := [Entry("a\n", Int(1))];
    assert data[1..] == [];
    assert "a\n"[..1] == "a" && Bare("a");
    WritableExactly(data);
  }

  /** The writer: what comes out reads back as the data without its Nones when that can be written, and not at all otherwise. */
  method TomlDumps(data: seq<Entry>) returns (text: string)
    ensures text == Dumped(data)
    ensures ProperEntries(data) ==> ReadDocument(text) == if WritableEntries(data) then Some(FieldsOf(data)) else None
  {
    var lines := Emit(data, [], []);
    assert lines == TableLines(data, []);
    text := StripNewlines(Join(lines)) + "\n";
    if ProperEntries(data) { WritableExactly(data); }
  }
}
