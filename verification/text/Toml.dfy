/**
 * A writer of TOML: one `[a.b]` table per nested dictionary, scalars first, None left out. Integers are
 * unbounded, as the language's own are.
 */
module Toml {
  import opened Decimal
  import Sequences

  /** What the writer is given; a dictionary keeps its order, and its keys are distinct. */
  datatype Value =
    | Null
    | Bool(b: bool)
    | Int(n: int)
    | Str(s: string)
    | List(items: seq<Value>)
    | Dict(entries: seq<Entry>)

  datatype Entry = Entry(key: string, value: Value)

  // ---- keys and scalars ----

  predicate BareChar(c: char) { 'a' <= c <= 'z' || 'A' <= c <= 'Z' || IsDigit(c) || c == '_' || c == '-' }

  predicate Bare(s: string) { s != "" && forall k :: 0 <= k < |s| ==> BareChar(s[k]) }

  /** What `^[A-Za-z0-9_-]+$` matches: `$` also stands before a newline at the very end. */
  predicate BareMatch(key: string) {
    Bare(key) || (key != "" && key[|key| - 1] == '\n' && Bare(key[..|key| - 1]))
  }

  function HexDigit(n: nat): (c: char)
    requires n < 16
  {
    if n < 10 then '0' + n as char else 'a' + (n - 10) as char
  }

  /** One character as JSON writes it when it keeps what is not ASCII. */
  function Escaped(c: char): string {
    if c == '"' then "\\\""
    else if c == '\\' then "\\\\"
    else if c == 8 as char then "\\b"
    else if c == 9 as char then "\\t"
    else if c == 10 as char then "\\n"
    else if c == 12 as char then "\\f"
    else if c == 13 as char then "\\r"
    else if c < 32 as char then "\\u00" + [HexDigit(c as nat / 16), HexDigit(c as nat % 16)]
    else [c]
  }

  function Body(s: string): string {
    if s == "" then "" else Escaped(s[0]) + Body(s[1..])
  }

  function Quoted(s: string): string { "\"" + (Body(s) + "\"") }

  function KeyText(key: string): string { if BareMatch(key) then key else Quoted(key) }

  function IntText(n: int): string { if n < 0 then "-" + Print(-n) else Print(n) }

  // ---- values on one line ----

  function ValueText(v: Value): string
    requires !v.Null?
    decreases v
  {
    match v
    case Bool(b) => if b then "true" else "false"
    case Int(n) => IntText(n)
    case Str(s) => Quoted(s)
    case List(items) => "[" + (ItemsText(items, true) + "]")
    case Dict(entries) => "{ " + (EntriesText(entries, true) + " }")
  }

  /** The items that are not None, joined by a comma and a blank. */
  function ItemsText(items: seq<Value>, first: bool): string
    decreases items
  {
    if items == [] then ""
    else if items[0].Null? then ItemsText(items[1..], first)
    else (if first then "" else ", ") + (ValueText(items[0]) + ItemsText(items[1..], false))
  }

  function EntryText(e: Entry): string
    requires !e.value.Null?
    decreases e, 0
  {
    KeyText(e.key) + (" = " + ValueText(e.value))
  }

  function EntriesText(entries: seq<Entry>, first: bool): string
    decreases entries
  {
    if entries == [] then ""
    else if entries[0].value.Null? then EntriesText(entries[1..], first)
    else (if first then "" else ", ") + (EntryText(entries[0]) + EntriesText(entries[1..], false))
  }

  // ---- the document ----

  predicate Scalar(e: Entry) { !e.value.Null? && !e.value.Dict? }

  function PathText(path: seq<string>): string
    requires path != []
  {
    if |path| == 1 then KeyText(path[0]) else KeyText(path[0]) + ("." + PathText(path[1..]))
  }

  function HeaderText(path: seq<string>): string
    requires path != []
  {
    "[" + (PathText(path) + "]")
  }

  function ScalarLines(entries: seq<Entry>): seq<string> {
    if entries == [] then []
    else (if Scalar(entries[0]) then [EntryText(entries[0])] else []) + ScalarLines(entries[1..])
  }

  /** A table's header, its scalars and a blank line; then its tables. */
  function TableLines(entries: seq<Entry>, path: seq<string>): seq<string>
    decreases entries, 1
  {
    var scalars := ScalarLines(entries);
    var header := if path == [] then [] else [HeaderText(path)];
    var blank := if path != [] || scalars != [] then [""] else [];
    (header + scalars + blank) + InnerLines(entries, path)
  }

  function InnerLines(entries: seq<Entry>, path: seq<string>): seq<string>
    decreases entries, 0
  {
    if entries == [] then []
    else (if entries[0].value.Dict? then TableLines(entries[0].value.entries, path + [entries[0].key]) else [])
         + InnerLines(entries[1..], path)
  }

  function Join(lines: seq<string>): string {
    if lines == [] then "" else if |lines| == 1 then lines[0] else lines[0] + ("\n" + Join(lines[1..]))
  }

  function StripNewlines(s: string): string {
    if s != "" && s[|s| - 1] == '\n' then StripNewlines(s[..|s| - 1]) else s
  }

  function Dumped(data: seq<Entry>): string { StripNewlines(Join(TableLines(data, []))) + "\n" }

  /** What a table writes before its inner tables. */
  method EmitHead(entries: seq<Entry>, path: seq<string>) returns (lines: seq<string>)
    ensures lines + InnerLines(entries, path) == TableLines(entries, path)
  {
    var scalars := EmitScalars(entries);
    lines := if path == [] then [] else [HeaderText(path)];
    lines := lines + scalars;
    if path != [] || scalars != [] { lines := lines + [""]; }
  }

  lemma InnerStep(entries: seq<Entry>, k: nat, path: seq<string>)
    requires k < |entries|
    ensures InnerLines(entries[k..], path)
            == if entries[k].value.Dict?
               then TableLines(entries[k].value.entries, path + [entries[k].key]) + InnerLines(entries[k + 1..], path)
               else InnerLines(entries[k + 1..], path)
  {
    assert entries[k..][1..] == entries[k + 1..];
  }

  /** The writer as it runs: every table appends its lines. */
  method Emit(entries: seq<Entry>, path: seq<string>, before: seq<string>) returns (lines: seq<string>)
    ensures lines == before + TableLines(entries, path)
    decreases entries
  {
    var head := EmitHead(entries, path);
    lines := before + head;
    for k := 0 to |entries|
      invariant lines + InnerLines(entries[k..], path) == before + TableLines(entries, path)
    {
      InnerStep(entries, k, path);
      if entries[k].value.Dict? {
        ghost var inner := TableLines(entries[k].value.entries, path + [entries[k].key]);
        Sequences.Regroup(lines, inner, InnerLines(entries[k + 1..], path));
        lines := Emit(entries[k].value.entries, path + [entries[k].key], lines);
      }
    }
    assert InnerLines(entries[|entries|..], path) == [];
  }

  method EmitScalars(entries: seq<Entry>) returns (lines: seq<string>)
    ensures lines == ScalarLines(entries)
  {
    lines := [];
    for k := 0 to |entries|
      invariant lines + ScalarLines(entries[k..]) == ScalarLines(entries)
    {
      assert entries[k..][1..] == entries[k + 1..];
      if Scalar(entries[k]) {
        Sequences.Regroup(lines, [EntryText(entries[k])], ScalarLines(entries[k + 1..]));
        lines := lines + [EntryText(entries[k])];
      }
    }
  }

  // ---- one document ----

  const INNER: seq<Entry> := [Entry("k", List([Bool(true), Null, Int(-2)]))]
  const SAMPLE: seq<Entry> :=
    [Entry("a", Int(1)), Entry("t", Dict(INNER)), Entry("none", Null), Entry("b c", Str("x\"y")), Entry("e", Dict([]))]

  lemma BodyStep(c: char, rest: string)
    ensures Body([c] + rest) == Escaped(c) + Body(rest)
  {
    assert ([c] + rest)[1..] == rest;
  }

  lemma SampleTexts()
    ensures Quoted("x\"y") == "\"x\\\"y\"" && Quoted("b c") == "\"b c\""
  {
    assert Body("") == "";
    hide Body;
    BodyStep('y', "");
    BodyStep('"', "y");
    BodyStep('x', "\"y");
    assert ['y'] + "" == "y" && ['"'] + "y" == "\"y" && ['x'] + "\"y" == "x\"y";
    BodyStep('c', "");
    BodyStep(' ', "c");
    BodyStep('b', " c");
    assert ['c'] + "" == "c" && [' '] + "c" == " c" && ['b'] + " c" == "b c";
  }

  lemma SampleKeys()
    ensures KeyText("a") == "a" && KeyText("k") == "k" && KeyText("b c") == Quoted("b c")
  {
    hide Quoted;
    assert Bare("a") && Bare("k");
    assert !BareMatch("b c") by { assert !BareChar("b c"[1]) && !BareChar("b c"[..2][1]); }
  }

  lemma EntryIs(key: string, value: Value, keyText: string, valueText: string)
    requires !value.Null? && KeyText(key) == keyText && ValueText(value) == valueText
    ensures EntryText(Entry(key, value)) == keyText + (" = " + valueText)
  {
  }

  lemma SampleValues()
    ensures EntryText(Entry("a", Int(1))) == "a = 1"
    ensures EntryText(Entry("b c", Str("x\"y"))) == "\"b c\" = \"x\\\"y\""
    ensures EntryText(INNER[0]) == "k = [true, -2]"
  {
    hide EntryText, KeyText, Quoted, ItemsText;
    SampleTexts();
    SampleKeys();
    SampleItems();
    assert ValueText(Int(1)) == "1" by { assert Print(1) == "1"; }
    assert ValueText(Str("x\"y")) == Quoted("x\"y");
    hide ValueText;
    EntryIs("a", Int(1), "a", "1");
    EntryIs("b c", Str("x\"y"), "\"b c\"", "\"x\\\"y\"");
    EntryIs("k", List([Bool(true), Null, Int(-2)]), "k", "[true, -2]");
  }

  lemma SampleItems()
    ensures ValueText(List([Bool(true), Null, Int(-2)])) == "[true, -2]"
  {
    assert Print(2) == "2";
    var items := [Bool(true), Null, Int(-2)];
    assert ValueText(Int(-2)) == "-2";
    assert ItemsText([Int(-2)], false) == ", -2" by { assert [Int(-2)][1..] == [] && ItemsText([], false) == ""; }
    assert ItemsText([Null, Int(-2)], false) == ", -2" by { assert [Null, Int(-2)][1..] == [Int(-2)]; }
    assert ItemsText(items, true) == "true, -2" by { assert items[1..] == [Null, Int(-2)]; }
  }

  lemma SampleTables()
    ensures TableLines(INNER, ["t"]) == ["[t]", "k = [true, -2]", ""]
    ensures TableLines([], ["e"]) == ["[e]", ""]
  {
    SampleValues();
    hide EntryText, ValueText;
    assert Bare("t") && Bare("e");
    assert HeaderText(["t"]) == "[t]" && HeaderText(["e"]) == "[e]";
    assert INNER[1..] == [];
    assert ScalarLines(INNER) == ["k = [true, -2]"];
    assert InnerLines(INNER, ["t"]) == [];
  }

  lemma SampleLines()
    ensures TableLines(SAMPLE, []) == ["a = 1", "\"b c\" = \"x\\\"y\"", "", "[t]", "k = [true, -2]", "", "[e]", ""]
  {
    SampleValues();
    SampleTables();
    hide EntryText, ValueText, TableLines;
    SampleScalars();
    SampleInner();
    TopLines();
  }

  lemma TopLines()
    ensures TableLines(SAMPLE, []) == ScalarLines(SAMPLE) + (if ScalarLines(SAMPLE) != [] then [""] else []) + InnerLines(SAMPLE, [])
  {
  }

  lemma SampleScalars()
    ensures ScalarLines(SAMPLE) == ["a = 1", "\"b c\" = \"x\\\"y\""]
  {
    SampleValues();
    hide EntryText, ValueText;
    var b, e := Entry("b c", Str("x\"y")), Entry("e", Dict([]));
    assert ScalarLines([e]) == [] by { assert [e][1..] == []; }
    assert ScalarLines([b, e]) == [EntryText(b)] by { assert [b, e][1..] == [e]; }
    assert SAMPLE[1..][1..][1..] == [b, e];
    assert ScalarLines(SAMPLE[1..][1..]) == [EntryText(b)];
    assert ScalarLines(SAMPLE[1..]) == [EntryText(b)];
  }

  lemma InnerCons(e: Entry, rest: seq<Entry>, path: seq<string>)
    ensures InnerLines([e] + rest, path) ==
            if e.value.Dict? then TableLines(e.value.entries, path + [e.key]) + InnerLines(rest, path) else InnerLines(rest, path)
  {
    assert ([e] + rest)[1..] == rest;
  }

  lemma InnerOfFive(a: Entry, t: Entry, n: Entry, b: Entry, e: Entry)
    requires !a.value.Dict? && t.value.Dict? && !n.value.Dict? && !b.value.Dict? && e.value.Dict?
    ensures InnerLines([a, t, n, b, e], []) == TableLines(t.value.entries, [t.key]) + TableLines(e.value.entries, [e.key])
  {
    assert InnerLines([], []) == [];
    hide InnerLines, TableLines;
    InnerCons(e, [], []);
    InnerCons(b, [e] + [], []);
    InnerCons(n, [b] + ([e] + []), []);
    InnerCons(t, [n] + ([b] + ([e] + [])), []);
    InnerCons(a, [t] + ([n] + ([b] + ([e] + []))), []);
    assert [a] + ([t] + ([n] + ([b] + ([e] + [])))) == [a, t, n, b, e];
    assert [] + [t.key] == [t.key] && [] + [e.key] == [e.key];
  }

  lemma SampleInner()
    ensures InnerLines(SAMPLE, []) == ["[t]", "k = [true, -2]", "", "[e]", ""]
  {
    hide InnerLines, TableLines;
    SampleTables();
    InnerOfFive(SAMPLE[0], SAMPLE[1], SAMPLE[2], SAMPLE[3], SAMPLE[4]);
  }

  lemma JoinStep(line: string, rest: seq<string>)
    requires rest != []
    ensures Join([line] + rest) == line + ("\n" + Join(rest))
  {
    assert ([line] + rest)[1..] == rest;
  }

  lemma JoinThree(a: string, b: string, rest: seq<string>)
    requires rest != []
    ensures Join([a, b, ""] + rest) == a + ("\n" + (b + ("\n\n" + Join(rest))))
  {
    JoinStep("", rest);
    JoinStep(b, [""] + rest);
    JoinStep(a, [b] + ([""] + rest));
    assert [a] + ([b] + ([""] + rest)) == [a, b, ""] + rest;
    hide Join;
    assert "" + ("\n" + Join(rest)) == "\n" + Join(rest);
    assert "\n" + ("\n" + Join(rest)) == "\n\n" + Join(rest);
  }

  lemma JoinTwo(a: string)
    ensures Join([a, ""]) == a + "\n"
  {
    JoinStep(a, [""]);
    assert [a] + [""] == [a, ""];
    assert "\n" + "" == "\n";
  }

  lemma StripOne(s: string)
    requires s != "" && s[|s| - 1] != '\n'
    ensures StripNewlines(s + "\n") == s
  {
    assert (s + "\n")[..|s|] == s;
  }

  lemma SampleJoins(a: string, b: string, t: string, k: string, e: string)
    ensures Join([a, b, "", t, k, "", e, ""]) == a + ("\n" + (b + ("\n\n" + (t + ("\n" + (k + ("\n\n" + e))))))) + "\n"
  {
    hide Join;
    JoinTwo(e);
    JoinThree(t, k, [e, ""]);
    JoinThree(a, b, [t, k, ""] + [e, ""]);
    assert [a, b, ""] + ([t, k, ""] + [e, ""]) == [a, b, "", t, k, "", e, ""];
    assert a + ("\n" + (b + ("\n\n" + (t + ("\n" + (k + ("\n\n" + (e + "\n"))))))))
           == a + ("\n" + (b + ("\n\n" + (t + ("\n" + (k + ("\n\n" + e))))))) + "\n";
  }

  lemma SampleStrips(a: string, b: string, t: string, k: string, e: string)
    requires e != "" && e[|e| - 1] != '\n'
    ensures StripNewlines(Join([a, b, "", t, k, "", e, ""]))
            == a + ("\n" + (b + ("\n\n" + (t + ("\n" + (k + ("\n\n" + e)))))))
  {
    SampleJoins(a, b, t, k, e);
    StripOne(a + ("\n" + (b + ("\n\n" + (t + ("\n" + (k + ("\n\n" + e))))))));
  }

  lemma SampleTail()
    ensures "[t]" + ("\n" + ("k = [true, -2]" + ("\n\n" + "[e]"))) == "[t]\nk = [true, -2]\n\n[e]"
  {
  }

  lemma SampleHead(tail: string)
    ensures "a = 1" + ("\n" + ("\"b c\" = \"x\\\"y\"" + ("\n\n" + tail))) == "a = 1\n\"b c\" = \"x\\\"y\"\n\n" + tail
  {
  }

  /** Scalars come first, a table and an empty table follow under their headers, and None is left out. */
  lemma SampleDocument()
    ensures Dumped(SAMPLE) == "a = 1\n\"b c\" = \"x\\\"y\"\n\n" + ("[t]\nk = [true, -2]\n\n[e]") + "\n"
  {
    hide Join, StripNewlines, TableLines;
    SampleLines();
    SampleStrips("a = 1", "\"b c\" = \"x\\\"y\"", "[t]", "k = [true, -2]", "[e]");
    SampleTail();
    SampleHead("[t]\nk = [true, -2]\n\n[e]");
  }
}
