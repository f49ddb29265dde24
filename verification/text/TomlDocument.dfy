/** The whole document: scalars first never moves a key into another table, and reading gives the data back. */
module TomlDocument {
  import opened Options
  import opened Decimal
  import opened Toml
  import opened TomlReader
  import opened TomlRoundTrip

  // ---- lines ----

  lemma EntryLineReads(e: Entry)
    requires !e.value.Null? && CleanKey(e.key) && Clean(e.value)
    ensures ReadLine(EntryText(e)) == Some(Pair(e.key, Meaning(e.value)))
  {
    EntryReads(e, "");
    assert EntryText(e) + "" == EntryText(e);
    assert LineEnds("");
  }

  predicate CleanPath(path: Path) { forall k :: 0 <= k < |path| ==> CleanKey(path[k]) }

  lemma LastKeyReads(s: string, key: string, close: string)
    requires ReadKey(s) == Some(Parsed(key, close)) && Solid(close) && close[0] != '.'
    ensures ReadPath(s) == Some(Parsed([key], close))
  {
    SkipNothing(close);
  }

  lemma {:induction false} PathReads(path: Path, t: string)
    requires path != [] && CleanPath(path)
    ensures ReadPath(PathText(path) + ("]" + t)) == Some(Parsed(path, "]" + t))
    ensures PathText(path) != "" && !IsBlank(PathText(path)[0])
  {
    hide ReadPath, ReadKey, KeyText, CleanKey;
    var key, close := path[0], "]" + t;
    if |path| == 1 {
      KeyReads(key, close);
      LastKeyReads(KeyText(key) + close, key, close);
      assert [key] == path;
    } else {
      var more := PathText(path[1..]) + close;
      PathReads(path[1..], t);
      KeyReads(key, "." + more);
      DotJoins(KeyText(key), PathText(path[1..]), close);
      NextKeyReads(KeyText(key) + ("." + more), key, more, path[1..], close);
      assert [key] + path[1..] == path;
    }
  }

  lemma NextKeyReads(s: string, key: string, more: string, path: Path, rest: string)
    requires ReadKey(s) == Some(Parsed(key, "." + more)) && Solid(more) && ReadPath(more) == Some(Parsed(path, rest))
    ensures ReadPath(s) == Some(Parsed([key] + path, rest))
  {
    SkipNothing("." + more);
    assert ("." + more)[1..] == more;
    SkipNothing(more);
  }

  lemma DotJoins(key: string, rest: string, close: string)
    ensures (key + ("." + rest)) + close == key + ("." + (rest + close))
  {
  }

  lemma HeaderReads(path: Path)
    requires path != [] && CleanPath(path)
    ensures ReadLine(HeaderText(path)) == Some(Header(path))
  {
    PathReads(path, "");
    var line := HeaderText(path);
    var inside := PathText(path) + ("]" + "");
    assert "]" + "" == "]";
    assert line == "[" + inside && line[1..] == inside;
    SkipNothing(inside);
    assert "]"[1..] == "" && LineEnds("");
  }

  // ---- tables inside tables ----

  /** There is a table at `path`. */
  predicate Reached(root: map<string, Doc>, path: Path)
    decreases path
  {
    path == [] || (path[0] in root && root[path[0]].Table? && Reached(root[path[0]].fields, path[1..]))
  }

  lemma {:induction false} WithReaches(root: map<string, Doc>, path: Path, fields: map<string, Doc>)
    ensures Reached(With(root, path, fields), path) && Fields(With(root, path, fields), path) == fields
    decreases path
  {
    if path != [] {
      var inner := if path[0] in root && root[path[0]].Table? then root[path[0]].fields else map[];
      WithReaches(inner, path[1..], fields);
    }
  }

  lemma {:induction false} WithTwice(root: map<string, Doc>, path: Path, fields: map<string, Doc>, again: map<string, Doc>)
    ensures With(With(root, path, fields), path, again) == With(root, path, again)
    decreases path
  {
    if path != [] {
      var inner := if path[0] in root && root[path[0]].Table? then root[path[0]].fields else map[];
      WithTwice(inner, path[1..], fields, again);
    }
  }

  lemma {:induction false} WithSame(root: map<string, Doc>, path: Path)
    requires Reached(root, path)
    ensures With(root, path, Fields(root, path)) == root
    decreases path
  {
    if path != [] { WithSame(root[path[0]].fields, path[1..]); }
  }

  /** Filling an inner table is setting one field of the outer one. */
  lemma {:induction false} WithInner(root: map<string, Doc>, path: Path, key: string, fields: map<string, Doc>)
    ensures With(root, path + [key], fields) == With(root, path, Fields(root, path)[key := Table(fields)])
    decreases path
  {
    if path == [] {
      assert path + [key] == [key] && [key][1..] == [];
    } else {
      var inner := if path[0] in root && root[path[0]].Table? then root[path[0]].fields else map[];
      WithInner(inner, path[1..], key, fields);
      assert (path + [key])[1..] == path[1..] + [key];
    }
  }

  lemma {:induction false} RunJoins(a: seq<string>, b: seq<string>, st: State)
    ensures Run(a + b, st) == match Run(a, st) case None => None case Some(mid) => Run(b, mid)
  {
    if a == [] {
      assert a + b == b;
    } else {
      assert (a + b)[1..] == a[1..] + b;
      match ReadLine(a[0]) {
        case None =>
        case Some(line) => if Step(st, line).Some? { RunJoins(a[1..], b, Step(st, line).value); }
      }
    }
  }

  // ---- scalars, then tables ----

  function ScalarFields(entries: seq<Entry>): map<string, Doc> {
    if entries == [] then map[]
    else if Scalar(entries[0]) then ScalarFields(entries[1..])[entries[0].key := Meaning(entries[0].value)]
    else ScalarFields(entries[1..])
  }

  function TableFields(entries: seq<Entry>): map<string, Doc> {
    if entries == [] then map[]
    else if entries[0].value.Dict? then TableFields(entries[1..])[entries[0].key := Meaning(entries[0].value)]
    else TableFields(entries[1..])
  }

  lemma {:induction false} PartsAreApart(key: string, entries: seq<Entry>)
    requires Apart(key, entries)
    ensures key !in ScalarFields(entries) && key !in TableFields(entries)
  {
    if entries != [] {
      assert entries[0].key != key;
      PartsAreApart(key, entries[1..]);
    }
  }

  /** Scalars and tables together are all the fields: the order does not matter. */
  lemma {:induction false} PartsMakeFields(entries: seq<Entry>)
    requires CleanEntries(entries)
    ensures ScalarFields(entries) + TableFields(entries) == FieldsOf(entries)
  {
    if entries != [] {
      PartsMakeFields(entries[1..]);
      PartsAreApart(entries[0].key, entries[1..]);
    }
  }

  lemma LineRuns(line: string, lines: seq<string>, st: State)
    requires ReadLine(line).Some? && Step(st, ReadLine(line).value).Some?
    ensures Run([line] + lines, st) == Run(lines, Step(st, ReadLine(line).value).value)
  {
    assert ([line] + lines)[1..] == lines;
  }

  lemma FieldJoins(fields: map<string, Doc>, key: string, value: Doc, rest: map<string, Doc>)
    requires key !in rest
    ensures fields[key := value] + rest == fields + rest[key := value]
  {
  }

  lemma {:induction false} ScalarsRun(entries: seq<Entry>, st: State)
    requires CleanEntries(entries) && Reached(st.root, st.current)
    requires forall k :: 0 <= k < |entries| ==> entries[k].key !in Fields(st.root, st.current)
    ensures Run(ScalarLines(entries), st)
         == Some(st.(root := With(st.root, st.current, Fields(st.root, st.current) + ScalarFields(entries))))
    decreases |entries|, 0
  {
    var fields := Fields(st.root, st.current);
    if entries == [] {
      WithSame(st.root, st.current);
      assert fields + map[] == fields;
    } else if !Scalar(entries[0]) {
      ScalarsRun(entries[1..], st);
      assert [] + ScalarLines(entries[1..]) == ScalarLines(entries[1..]);
    } else {
      ScalarThenRest(entries[0], entries[1..], st);
    }
  }

  lemma {:induction false} ScalarThenRest(e: Entry, rest: seq<Entry>, st: State)
    requires Scalar(e) && CleanKey(e.key) && Clean(e.value) && Apart(e.key, rest)
    requires CleanEntries(rest) && Reached(st.root, st.current)
    requires e.key !in Fields(st.root, st.current)
    requires forall k :: 0 <= k < |rest| ==> rest[k].key !in Fields(st.root, st.current)
    ensures Run([EntryText(e)] + ScalarLines(rest), st)
         == Some(st.(root := With(st.root, st.current, Fields(st.root, st.current) + ScalarFields(rest)[e.key := Meaning(e.value)])))
    decreases |rest|, 1
  {
    var fields := Fields(st.root, st.current);
    var grown := fields[e.key := Meaning(e.value)];
    EntryLineReads(e);
    LineRuns(EntryText(e), ScalarLines(rest), st);
    WithReaches(st.root, st.current, grown);
    ScalarsRun(rest, st.(root := With(st.root, st.current, grown)));
    WithTwice(st.root, st.current, grown, grown + ScalarFields(rest));
    PartsAreApart(e.key, rest);
    FieldJoins(fields, e.key, Meaning(e.value), ScalarFields(rest));
  }

  // ---- headers ----

  /** A header for `path` has not been seen, nothing stands there, and every table around it has been opened. */
  ghost predicate Unopened(st: State, path: Path)
    requires path != []
  {
    && Reached(st.root, path[..|path| - 1])
    && !Exists(st.root, path)
    && (forall k :: 1 <= k < |path| ==> path[..k] in st.tables)
    && (forall q :: q in st.tables ==> !(path <= q))
    && st.named <= st.tables
  }

  lemma HeaderRuns(path: Path, st: State)
    requires path != [] && CleanPath(path) && Unopened(st, path)
    ensures Run([HeaderText(path)], st)
         == Some(State(With(st.root, path, map[]), path, st.named + {path}, st.tables + {path}))
  {
    HeaderReads(path);
    OnlyItselfIsNew(path, st);
    LineRuns(HeaderText(path), [], st);
    assert [HeaderText(path)] + [] == [HeaderText(path)];
  }

  lemma OnlyItselfIsNew(path: Path, st: State)
    requires path != [] && Unopened(st, path)
    ensures MayOpen(st, path) && path !in st.tables && st.tables + Prefixes(path) == st.tables + {path}
  {
    assert path[..|path|] == path && path <= path;
    assert path[..|path|] in Prefixes(path);
    forall q | q in Prefixes(path) ensures q in st.tables || q == path {
      var k :| 1 <= k <= |path| && q == path[..k];
    }
  }

  /** What reading some lines under `path` leaves: the fields, and only tables under it. */
  ghost predicate Filled(before: State, after: Option<State>, path: Path, fields: map<string, Doc>) {
    && after.Some?
    && after.value.root == With(before.root, path, fields)
    && before.tables <= after.value.tables && after.value.named <= after.value.tables
    && forall q :: q in after.value.tables - before.tables ==> path <= q
  }

  /** Its header, its scalars, and the blank line. */
  lemma HeadRuns(entries: seq<Entry>, path: Path, st: State)
    requires CleanEntries(entries) && CleanPath(path)
    requires if path == [] then st.root == map[] && st.current == [] && st.named <= st.tables else Unopened(st, path)
    ensures var scalars := ScalarLines(entries);
            var header := if path == [] then [] else [HeaderText(path)];
            var blank := if path != [] || scalars != [] then [""] else [];
            var after := Run(header + scalars + blank, st);
            && Filled(st, after, path, ScalarFields(entries))
            && after.value.tables == st.tables + if path == [] then {} else {path}
  {
    var scalars := ScalarLines(entries);
    var header := if path == [] then [] else [HeaderText(path)];
    var blank := if path != [] || scalars != [] then [""] else [];
    RunJoins(header + scalars, blank, st);
    RunJoins(header, scalars, st);
    var begun := if path == [] then st else State(With(st.root, path, map[]), path, st.named + {path}, st.tables + {path});
    if path != [] { HeaderRuns(path, st); }
    WithReaches(st.root, path, map[]);
    WithTwice(st.root, path, map[], ScalarFields(entries));
    ScalarsRun(entries, begun);
    assert map[] + ScalarFields(entries) == ScalarFields(entries);
    BlankRuns(blank, Run(header + scalars, st).value);
  }

  lemma BlankRuns(blank: seq<string>, st: State)
    requires blank == [""] || blank == []
    ensures Run(blank, st) == Some(st)
  {
    assert LineEnds("");
    if blank == [""] { LineRuns("", [], st); }
  }

  // ---- the tables of a table ----

  /** Each inner table of `entries` can still be opened at `path`. */
  ghost predicate InnerUnopened(st: State, path: Path, entries: seq<Entry>) {
    && Reached(st.root, path)
    && (forall k :: 1 <= k <= |path| ==> path[..k] in st.tables)
    && (forall k, q :: 0 <= k < |entries| && entries[k].value.Dict? && q in st.tables ==> !(path + [entries[k].key] <= q))
    && (forall k :: 0 <= k < |entries| && entries[k].value.Dict? ==> entries[k].key !in Fields(st.root, path))
    && st.named <= st.tables
  }

  lemma FirstIsUnopened(st: State, path: Path, entries: seq<Entry>)
    requires InnerUnopened(st, path, entries) && entries != [] && entries[0].value.Dict?
    ensures Unopened(st, path + [entries[0].key])
  {
    var inner := path + [entries[0].key];
    assert inner[..|inner| - 1] == path;
    forall k | 1 <= k < |inner| ensures inner[..k] in st.tables { assert inner[..k] == path[..k]; }
  }

  /** With the first table read, the others are as they were. */
  lemma OthersStayUnopened(st: State, after: State, path: Path, entries: seq<Entry>, fields: map<string, Doc>)
    requires InnerUnopened(st, path, entries) && entries != [] && Apart(entries[0].key, entries[1..])
    requires Filled(st, Some(after), path + [entries[0].key], fields)
    ensures InnerUnopened(after, path, entries[1..])
    ensures after.root == With(st.root, path, Fields(st.root, path)[entries[0].key := Table(fields)])
  {
    var key, rest := entries[0].key, entries[1..];
    WithInner(st.root, path, key, fields);
    WithReaches(st.root, path, Fields(st.root, path)[key := Table(fields)]);
    forall k, q | 0 <= k < |rest| && rest[k].value.Dict? && q in after.tables ensures !(path + [rest[k].key] <= q) {
      assert rest[k] == entries[k + 1] && rest[k].key != key;
      if q !in st.tables {
        assert q in after.tables - st.tables;
        BranchesPart(path, key, rest[k].key, q);
      }
    }
    forall k | 0 <= k < |rest| && rest[k].value.Dict? ensures rest[k].key !in Fields(after.root, path) {
      assert rest[k] == entries[k + 1] && rest[k].key != key;
    }
  }

  lemma Longer(path: Path, key: string, q: Path)
    ensures path + [key] <= q ==> path <= q && |path| < |q|
  {
    if path + [key] <= q { assert q[..|path|] == path; }
  }

  lemma BranchesPart(path: Path, key: string, other: string, q: Path)
    requires path + [key] <= q && key != other
    ensures !(path + [other] <= q)
  {
    assert q[|path|] == (path + [key])[|path|] == key;
    assert (path + [other])[|path|] == other;
  }

  lemma FilledOn(before: State, mid: State, after: Option<State>, path: Path, key: string, first: map<string, Doc>,
                 rest: map<string, Doc>)
    requires Filled(before, Some(mid), path + [key], first) && key !in rest
    requires mid.root == With(before.root, path, Fields(before.root, path)[key := Table(first)])
    requires Filled(mid, after, path, Fields(mid.root, path) + rest)
    ensures Filled(before, after, path, Fields(before.root, path) + rest[key := Table(first)])
  {
    var fields := Fields(before.root, path);
    WithReaches(before.root, path, fields[key := Table(first)]);
    WithTwice(before.root, path, fields[key := Table(first)], fields[key := Table(first)] + rest);
    FieldJoins(fields, key, Table(first), rest);
    forall q | q in after.value.tables - before.tables ensures path <= q {
      assert q in mid.tables - before.tables || q in after.value.tables - mid.tables;
      Longer(path, key, q);
    }
  }

  lemma {:induction false} InnerRuns(entries: seq<Entry>, path: Path, st: State)
    requires CleanEntries(entries) && CleanPath(path) && InnerUnopened(st, path, entries)
    ensures Filled(st, Run(InnerLines(entries, path), st), path, Fields(st.root, path) + TableFields(entries))
    decreases entries, 0
  {
    if entries == [] {
      WithSame(st.root, path);
      assert Fields(st.root, path) + map[] == Fields(st.root, path);
    } else if !entries[0].value.Dict? {
      assert forall k :: 0 <= k < |entries[1..]| ==> entries[1..][k] == entries[k + 1];
      InnerRuns(entries[1..], path, st);
      assert [] + InnerLines(entries[1..], path) == InnerLines(entries[1..], path);
    } else {
      var e, rest := entries[0], entries[1..];
      FirstIsUnopened(st, path, entries);
      TableRuns(e.value.entries, path + [e.key], st);
      var mid := Run(TableLines(e.value.entries, path + [e.key]), st).value;
      OthersStayUnopened(st, mid, path, entries, FieldsOf(e.value.entries));
      InnerRuns(rest, path, mid);
      RunJoins(TableLines(e.value.entries, path + [e.key]), InnerLines(rest, path), st);
      PartsAreApart(e.key, rest);
      FilledOn(st, mid, Run(InnerLines(rest, path), mid), path, e.key, FieldsOf(e.value.entries), TableFields(rest));
    }
  }

  /** A table's lines, read where it can be opened, give exactly its fields. */
  lemma {:induction false} TableRuns(entries: seq<Entry>, path: Path, st: State)
    requires CleanEntries(entries) && CleanPath(path)
    requires if path == [] then st.root == map[] && st.current == [] && st.tables == {} && st.named == {} else Unopened(st, path)
    ensures Filled(st, Run(TableLines(entries, path), st), path, FieldsOf(entries))
    decreases entries, 1
  {
    var scalars := ScalarLines(entries);
    var header := if path == [] then [] else [HeaderText(path)];
    var blank := if path != [] || scalars != [] then [""] else [];
    HeadRuns(entries, path, st);
    var mid := Run(header + scalars + blank, st).value;
    RunJoins(header + scalars + blank, InnerLines(entries, path), st);
    HeadLeavesInner(st, mid, path, entries);
    InnerRuns(entries, path, mid);
    PartsMakeFields(entries);
    FilledFurther(st, mid, Run(InnerLines(entries, path), mid), path, ScalarFields(entries), TableFields(entries));
  }

  lemma FilledFurther(before: State, mid: State, after: Option<State>, path: Path, first: map<string, Doc>, rest: map<string, Doc>)
    requires Filled(before, Some(mid), path, first)
    requires Filled(mid, after, path, Fields(mid.root, path) + rest)
    ensures Filled(before, after, path, first + rest)
  {
    WithReaches(before.root, path, first);
    WithTwice(before.root, path, first, first + rest);
    forall q | q in after.value.tables - before.tables ensures path <= q {
      assert q in mid.tables - before.tables || q in after.value.tables - mid.tables;
    }
  }

  lemma {:induction false} ScalarsAreNotTables(entries: seq<Entry>, k: nat)
    requires CleanEntries(entries) && k < |entries| && entries[k].value.Dict?
    ensures entries[k].key !in ScalarFields(entries)
  {
    if k == 0 {
      PartsAreApart(entries[0].key, entries[1..]);
    } else {
      ScalarsAreNotTables(entries[1..], k - 1);
      assert entries[1..][k - 1].key != entries[0].key;
    }
  }

  lemma HeadLeavesInner(st: State, mid: State, path: Path, entries: seq<Entry>)
    requires CleanEntries(entries) && Filled(st, Some(mid), path, ScalarFields(entries))
    requires if path == [] then st.tables == {} && mid.tables == {} else Unopened(st, path) && path in mid.tables && mid.tables == st.tables + {path}
    ensures InnerUnopened(mid, path, entries)
  {
    WithReaches(st.root, path, ScalarFields(entries));
    forall k | 0 <= k < |entries| && entries[k].value.Dict? ensures entries[k].key !in Fields(mid.root, path) {
      ScalarsAreNotTables(entries, k);
    }
    forall k | 1 <= k <= |path| ensures path[..k] in mid.tables {
      if k == |path| { assert path[..k] == path; }
    }
    forall k, q | 0 <= k < |entries| && entries[k].value.Dict? && q in mid.tables ensures !(path + [entries[k].key] <= q) {
      Longer(path, entries[k].key, q);
    }
  }

  // ---- lines into text and back ----

  predicate OneLine(s: string) { '\n' !in s }

  predicate OneLiners(lines: seq<string>) { forall k :: 0 <= k < |lines| ==> OneLine(lines[k]) }

  lemma {:induction false} NewlineFound(a: string, b: string)
    requires OneLine(a)
    ensures NewlineAt(a + ("\n" + b)) == |a| && NewlineAt(a) == |a|
  {
    if a == "" {
      assert a + ("\n" + b) == "\n" + b;
    } else {
      assert (a + ("\n" + b))[1..] == a[1..] + ("\n" + b);
      NewlineFound(a[1..], b);
    }
  }

  lemma SplitAtNewline(a: string, b: string)
    ensures var s := a + ("\n" + b); s[..|a|] == a && s[|a| + 1..] == b
  {
  }

  lemma FirstLine(a: string, b: string)
    requires OneLine(a)
    ensures Lines(a + ("\n" + b)) == [a] + Lines(b)
  {
    NewlineFound(a, b);
    SplitAtNewline(a, b);
  }

  lemma {:induction false} JoinedLines(lines: seq<string>)
    requires lines != [] && OneLiners(lines)
    ensures Lines(Join(lines)) == lines
  {
    assert OneLine(lines[0]);
    if |lines| == 1 {
      NewlineFound(lines[0], "");
    } else {
      JoinedLines(lines[1..]);
      FirstLine(lines[0], Join(lines[1..]));
      assert [lines[0]] + lines[1..] == lines;
    }
  }

  /** A newline at the end is one more empty line. */
  lemma {:induction false} NewlineAppended(s: string)
    ensures Lines(s + "\n") == Lines(s) + [""]
    decreases |s|
  {
    var n := NewlineAt(s);
    SplitOrNot(s);
    if n == |s| {
      NewlineFound(s, "");
      assert s + "\n" == s + ("\n" + "");
      assert (s + "\n")[..n] == s && (s + "\n")[n + 1..] == "";
    } else {
      assert s == s[..n] + ("\n" + s[n + 1..]);
      NewlineFound(s[..n], s[n + 1..] + "\n");
      assert s + "\n" == s[..n] + ("\n" + (s[n + 1..] + "\n"));
      assert (s + "\n")[..n] == s[..n] && (s + "\n")[n + 1..] == s[n + 1..] + "\n";
      NewlineAppended(s[n + 1..]);
      assert ([s[..n]] + Lines(s[n + 1..])) + [""] == [s[..n]] + (Lines(s[n + 1..]) + [""]);
    }
  }

  lemma {:induction false} SplitOrNot(s: string)
    ensures OneLine(s[..NewlineAt(s)])
  {
    if s != "" && s[0] != '\n' {
      SplitOrNot(s[1..]);
      assert s[..NewlineAt(s)] == [s[0]] + s[1..][..NewlineAt(s[1..])];
    }
  }

  lemma NewlineAddsNothing(s: string, st: State)
    ensures Run(Lines(s + "\n"), st) == Run(Lines(s), st)
  {
    NewlineAppended(s);
    RunJoins(Lines(s), [""], st);
    if Run(Lines(s), st).Some? { BlankRuns([""], Run(Lines(s), st).value); }
  }

  lemma {:induction false} StrippingKeeps(s: string, st: State)
    ensures Run(Lines(StripNewlines(s)), st) == Run(Lines(s), st)
  {
    if s != "" && s[|s| - 1] == '\n' {
      var t := s[..|s| - 1];
      StrippingKeeps(t, st);
      NewlineAddsNothing(t, st);
      assert t + "\n" == s;
    }
  }

  // ---- nothing written breaks a line ----

  lemma {:induction false} BodyOneLine(s: string)
    ensures OneLine(Body(s))
  {
    if s != "" {
      EscapedStarts(s[0]);
      BodyOneLine(s[1..]);
    }
  }

  lemma KeyOneLine(key: string)
    requires CleanKey(key)
    ensures OneLine(KeyText(key))
  {
    BodyOneLine(key);
  }

  lemma {:induction false} DigitsOneLine(n: nat)
    ensures OneLine(Print(n))
  {
  }

  lemma {:induction false} ValueOneLine(v: Value)
    requires !v.Null? && Clean(v)
    ensures OneLine(ValueText(v))
    decreases v
  {
    match v {
      case Bool(_) =>
      case Int(n) => DigitsOneLine(if n < 0 then -n else n);
      case Str(s) => BodyOneLine(s);
      case List(items) => ItemsOneLine(items, true);
      case Dict(entries) => EntriesOneLine(entries, true);
    }
  }

  lemma {:induction false} ItemsOneLine(items: seq<Value>, first: bool)
    requires CleanItems(items)
    ensures OneLine(ItemsText(items, first))
    decreases items
  {
    if items != [] {
      ItemsOneLine(items[1..], first);
      ItemsOneLine(items[1..], false);
      if !items[0].Null? { ValueOneLine(items[0]); }
    }
  }

  lemma {:induction false} EntryOneLine(e: Entry)
    requires !e.value.Null? && CleanKey(e.key) && Clean(e.value)
    ensures OneLine(EntryText(e))
    decreases e, 0
  {
    KeyOneLine(e.key);
    ValueOneLine(e.value);
  }

  lemma {:induction false} EntriesOneLine(entries: seq<Entry>, first: bool)
    requires CleanEntries(entries)
    ensures OneLine(EntriesText(entries, first))
    decreases entries
  {
    if entries != [] {
      EntriesOneLine(entries[1..], first);
      EntriesOneLine(entries[1..], false);
      if !entries[0].value.Null? { EntryOneLine(entries[0]); }
    }
  }

  lemma {:induction false} PathOneLine(path: Path)
    requires path != [] && CleanPath(path)
    ensures OneLine(PathText(path))
  {
    KeyOneLine(path[0]);
    if |path| > 1 { PathOneLine(path[1..]); }
  }

  lemma {:induction false} ScalarsOneLine(entries: seq<Entry>)
    requires CleanEntries(entries)
    ensures OneLiners(ScalarLines(entries))
  {
    if entries != [] {
      ScalarsOneLine(entries[1..]);
      if Scalar(entries[0]) { EntryOneLine(entries[0]); }
    }
  }

  lemma {:induction false} TableOneLine(entries: seq<Entry>, path: Path)
    requires CleanEntries(entries) && CleanPath(path)
    ensures OneLiners(TableLines(entries, path))
    decreases entries, 1
  {
    ScalarsOneLine(entries);
    if path != [] { PathOneLine(path); }
    InnerOneLine(entries, path);
  }

  lemma {:induction false} InnerOneLine(entries: seq<Entry>, path: Path)
    requires CleanEntries(entries) && CleanPath(path)
    ensures OneLiners(InnerLines(entries, path))
    decreases entries, 0
  {
    if entries != [] {
      InnerOneLine(entries[1..], path);
      if entries[0].value.Dict? { TableOneLine(entries[0].value.entries, path + [entries[0].key]); }
    }
  }

  // ---- the round trip ----

  /** Reading what was written gives the data, every None removed, at any nesting. */
  lemma RoundTrip(data: seq<Entry>)
    requires CleanEntries(data)
    ensures ReadDocument(Dumped(data)) == Some(FieldsOf(data))
  {
    var lines := TableLines(data, []);
    var st := State(map[], [], {}, {});
    TableOneLine(data, []);
    TableRuns(data, [], st);
    NewlineAddsNothing(StripNewlines(Join(lines)), st);
    StrippingKeeps(Join(lines), st);
    if lines == [] {
      BlankRuns([""], st);
    } else {
      JoinedLines(lines);
    }
  }
}
