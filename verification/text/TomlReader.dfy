/**
 * A reader of TOML v1.0.0 for what the writer uses: tables by header, bare and quoted keys, booleans,
 * integers, basic strings, arrays and inline tables. Anything else is refused.
 */
module TomlReader {
  import opened Options
  import opened Decimal
  import opened Toml

  /** What a document means; a table is a mapping without order. */
  datatype Doc =
    | Truth(b: bool)
    | Number(n: int)
    | Text(s: string)
    | Array(items: seq<Doc>)
    | Table(fields: map<string, Doc>)

  datatype Parsed<T> = Parsed(value: T, rest: string)

  predicate IsBlank(c: char) { c == ' ' || c == 9 as char }

  function Skip(s: string): (r: string)
    ensures |r| <= |s|
  {
    if s != "" && IsBlank(s[0]) then Skip(s[1..]) else s
  }

  predicate StartsWith(s: string, t: string) { t <= s }

  // ---- strings and keys ----

  function HexValue(c: char): Option<nat> {
    if '0' <= c <= '9' then Some(c as nat - '0' as nat)
    else if 'a' <= c <= 'f' then Some(c as nat - 'a' as nat + 10)
    else if 'A' <= c <= 'F' then Some(c as nat - 'A' as nat + 10)
    else None
  }

  /** Four hexadecimal digits that name a character. */
  function ReadHex(s: string): (r: Option<char>)
    requires |s| >= 4
  {
    var a, b, c, d := HexValue(s[0]), HexValue(s[1]), HexValue(s[2]), HexValue(s[3]);
    if a.None? || b.None? || c.None? || d.None? then None
    else
      var n := ((a.value * 16 + b.value) * 16 + c.value) * 16 + d.value;
      if n < 0xD800 || 0xE000 <= n < 0x1_0000 then Some(n as char) else None
  }

  function Unescaped(c: char): Option<char> {
    match c
    case '"' => Some('"')
    case '\\' => Some('\\')
    case 'b' => Some(8 as char)
    case 't' => Some(9 as char)
    case 'n' => Some(10 as char)
    case 'f' => Some(12 as char)
    case 'r' => Some(13 as char)
    case _ => None
  }

  predicate Control(c: char) { (c < 32 as char && c != 9 as char) || c == 127 as char }

  /** The character that comes next in a string, raw or escaped. */
  function ReadChar(s: string): (r: Option<Parsed<char>>)
    ensures r.Some? ==> |r.value.rest| < |s|
  {
    if s == "" || Control(s[0]) || s[0] == '"' then None
    else if s[0] != '\\' then Some(Parsed(s[0], s[1..]))
    else if |s| >= 2 && Unescaped(s[1]).Some? then Some(Parsed(Unescaped(s[1]).value, s[2..]))
    else if |s| >= 6 && s[1] == 'u' && ReadHex(s[2..6]).Some? then Some(Parsed(ReadHex(s[2..6]).value, s[6..]))
    else None
  }

  /** The rest of a string whose opening quote was read. */
  function ReadBody(s: string): (r: Option<Parsed<string>>)
    ensures r.Some? ==> |r.value.rest| < |s|
    decreases |s|
  {
    if s != "" && s[0] == '"' then Some(Parsed("", s[1..]))
    else
      match ReadChar(s)
      case None => None
      case Some(c) =>
        match ReadBody(c.rest)
        case None => None
        case Some(t) => Some(Parsed([c.value] + t.value, t.rest))
  }

  /** A character of a bare key in TOML v1.0.0: an ASCII letter, a digit, an underscore or a dash. */
  predicate KeyChar(c: char) {
    65 <= c as int <= 90 || 97 <= c as int <= 122 || 48 <= c as int <= 57 || c as int in {45, 95}
  }

  /** What the writer leaves bare is what may be. */
  lemma BareIsKeyChar(c: char)
    ensures BareChar(c) <==> KeyChar(c)
  {
  }

  function BareRun(s: string): (n: nat)
    ensures n <= |s|
  {
    if s == "" || !KeyChar(s[0]) then 0 else 1 + BareRun(s[1..])
  }

  function ReadKey(s: string): (r: Option<Parsed<string>>)
    ensures r.Some? ==> |r.value.rest| < |s|
  {
    if s != "" && s[0] == '"' then ReadBody(s[1..])
    else if BareRun(s) > 0 then Some(Parsed(s[..BareRun(s)], s[BareRun(s)..]))
    else None
  }

  // ---- values ----

  function ReadInt(s: string): (r: Option<Parsed<Doc>>)
    ensures r.Some? ==> |r.value.rest| < |s|
  {
    var signed := s != "" && (s[0] == '-' || s[0] == '+');
    var t := if signed then s[1..] else s;
    var n := DigitRun(t);
    if n == 0 || (n > 1 && t[0] == '0') then None
    else Some(Parsed(Number(if signed && s[0] == '-' then 0 - Read(t[..n]) else Read(t[..n])), t[n..]))
  }

  function ReadValue(s: string): (r: Option<Parsed<Doc>>)
    ensures r.Some? ==> |r.value.rest| < |s|
    decreases |s|, 0
  {
    if StartsWith(s, "true") then Some(Parsed(Truth(true), s[4..]))
    else if StartsWith(s, "false") then Some(Parsed(Truth(false), s[5..]))
    else if s != "" && s[0] == '"' then
      match ReadBody(s[1..])
      case None => None
      case Some(t) => Some(Parsed(Text(t.value), t.rest))
    else if s != "" && s[0] == '[' then
      match ReadItems(Skip(s[1..]))
      case None => None
      case Some(t) => Some(Parsed(Array(t.value), t.rest))
    else if s != "" && s[0] == '{' then
      match ReadInline(Skip(s[1..]))
      case None => None
      case Some(t) => Some(Parsed(Table(t.value), t.rest))
    else ReadInt(s)
  }

  /** The rest of an array; a comma may stand before its end. */
  function ReadItems(s: string): (r: Option<Parsed<seq<Doc>>>)
    ensures r.Some? ==> |r.value.rest| < |s|
    decreases |s|, 1
  {
    if s != "" && s[0] == ']' then Some(Parsed([], s[1..]))
    else
      match ReadValue(s)
      case None => None
      case Some(v) =>
        var after := Skip(v.rest);
        if after != "" && after[0] == ']' then Some(Parsed([v.value], after[1..]))
        else if after != "" && after[0] == ',' then
          match ReadItems(Skip(after[1..]))
          case None => None
          case Some(t) => Some(Parsed([v.value] + t.value, t.rest))
        else None
  }

  /** Key, equals sign, value. */
  function ReadPair(s: string): (r: Option<Parsed<(string, Doc)>>)
    ensures r.Some? ==> |r.value.rest| < |s|
    decreases |s|, 1
  {
    match ReadKey(s)
    case None => None
    case Some(k) =>
      var after := Skip(k.rest);
      if after == "" || after[0] != '=' then None
      else
        match ReadValue(Skip(after[1..]))
        case None => None
        case Some(v) => Some(Parsed((k.value, v.value), v.rest))
  }

  function ReadInline(s: string): (r: Option<Parsed<map<string, Doc>>>)
    ensures r.Some? ==> |r.value.rest| < |s|
    decreases |s|, 3
  {
    if s != "" && s[0] == '}' then Some(Parsed(map[], s[1..])) else ReadPairs(s)
  }

  /** The rest of an inline table with at least one pair; no key twice. */
  function ReadPairs(s: string): (r: Option<Parsed<map<string, Doc>>>)
    ensures r.Some? ==> |r.value.rest| < |s|
    decreases |s|, 2
  {
    match ReadPair(s)
    case None => None
    case Some(p) =>
      var after := Skip(p.rest);
      if after != "" && after[0] == '}' then Some(Parsed(map[p.value.0 := p.value.1], after[1..]))
      else if after != "" && after[0] == ',' then
        match ReadPairs(Skip(after[1..]))
        case None => None
        case Some(t) =>
          if p.value.0 in t.value then None else Some(Parsed(t.value[p.value.0 := p.value.1], t.rest))
      else None
  }

  // ---- lines ----

  datatype Line = Empty | Header(path: seq<string>) | Pair(key: string, value: Doc)

  function ReadPath(s: string): (r: Option<Parsed<seq<string>>>)
    ensures r.Some? ==> r.value.value != []
    decreases |s|
  {
    match ReadKey(s)
    case None => None
    case Some(k) =>
      var after := Skip(k.rest);
      if after != "" && after[0] == '.' then
        match ReadPath(Skip(after[1..]))
        case None => None
        case Some(t) => Some(Parsed([k.value] + t.value, t.rest))
      else Some(Parsed([k.value], after))
  }

  /** Nothing but blanks or a comment is left. */
  predicate LineEnds(s: string) { Skip(s) == "" || Skip(s)[0] == '#' }

  function ReadLine(line: string): (r: Option<Line>)
    ensures r.Some? && r.value.Header? ==> r.value.path != []
  {
    var s := Skip(line);
    if LineEnds(line) then Some(Empty)
    else if s[0] == '[' then
      match ReadPath(Skip(s[1..]))
      case None => None
      case Some(p) => if p.rest != "" && p.rest[0] == ']' && LineEnds(p.rest[1..]) then Some(Header(p.value)) else None
    else
      match ReadPair(s)
      case None => None
      case Some(p) => if LineEnds(p.rest) then Some(Pair(p.value.0, p.value.1)) else None
  }

  // ---- documents ----

  type Path = seq<string>

  /** The fields of the table at `path`; none when there is no table. */
  function Fields(root: map<string, Doc>, path: Path): map<string, Doc>
    decreases path
  {
    if path == [] then root
    else if path[0] in root && root[path[0]].Table? then Fields(root[path[0]].fields, path[1..])
    else map[]
  }

  function With(root: map<string, Doc>, path: Path, fields: map<string, Doc>): map<string, Doc>
    decreases path
  {
    if path == [] then fields
    else
      var inner := if path[0] in root && root[path[0]].Table? then root[path[0]].fields else map[];
      root[path[0] := Table(With(inner, path[1..], fields))]
  }

  predicate Exists(root: map<string, Doc>, path: Path)
    requires path != []
  {
    path[|path| - 1] in Fields(root, path[..|path| - 1])
  }

  function Prefixes(path: Path): set<Path> { set k | 1 <= k <= |path| :: path[..k] }

  /** `named` are the tables a header named; `tables` adds those a longer header made on its way. */
  datatype State = State(root: map<string, Doc>, current: Path, named: set<Path>, tables: set<Path>)

  /** A header opens a table once, and never reaches into a value. */
  predicate MayOpen(st: State, path: Path)
    requires path != []
  {
    path !in st.named && forall k :: 1 <= k <= |path| ==> path[..k] in st.tables || !Exists(st.root, path[..k])
  }

  function Step(st: State, line: Line): Option<State>
    requires line.Header? ==> line.path != []
  {
    match line
    case Empty => Some(st)
    case Header(path) =>
      if !MayOpen(st, path) then None
      else
        Some(State(if path in st.tables then st.root else With(st.root, path, map[]),
                   path, st.named + {path}, st.tables + Prefixes(path)))
    case Pair(key, value) =>
      if key in Fields(st.root, st.current) then None
      else Some(st.(root := With(st.root, st.current, Fields(st.root, st.current)[key := value])))
  }

  function Run(lines: seq<string>, st: State): Option<State> {
    if lines == [] then Some(st)
    else
      match ReadLine(lines[0])
      case None => None
      case Some(line) =>
        match Step(st, line)
        case None => None
        case Some(next) => Run(lines[1..], next)
  }

  function NewlineAt(s: string): (n: nat)
    ensures n <= |s| && (n < |s| ==> s[n] == '\n')
  {
    if s == "" || s[0] == '\n' then 0 else 1 + NewlineAt(s[1..])
  }

  function Lines(s: string): (r: seq<string>)
    ensures r != []
    decreases |s|
  {
    var n := NewlineAt(s);
    if n == |s| then [s] else [s[..n]] + Lines(s[n + 1..])
  }

  function ReadDocument(s: string): Option<map<string, Doc>> {
    match Run(Lines(s), State(map[], [], {}, {}))
    case None => None
    case Some(st) => Some(st.root)
  }
}
