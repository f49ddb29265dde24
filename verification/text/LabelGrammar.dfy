/** What the label pattern of `PartNumber` says, without a backtracker: which texts it matches. */
module LabelGrammar {
  import opened Ascii
  import opened PartNumber

  // ---- the texts of a pattern ----

  ghost predicate Lang(p: Pattern, t: string)
    decreases p
  {
    match p
    case Word(text) => Spells(t, text)
    case One(k) => |t| == 1 && In(k, t[0])
    case Many(k) => forall j :: 0 <= j < |t| ==> In(k, t[j])
    case Then(a, b) => exists k: nat :: k <= |t| && LangAt(a, b, t, k)
    case Or(a, b) => Lang(a, t) || Lang(b, t)
    case Maybe(a) => Lang(a, t) || t == ""
  }

  ghost predicate LangAt(a: Pattern, b: Pattern, t: string, k: nat)
    requires k <= |t|
    decreases Then(a, b), 0
  {
    Lang(a, t[..k]) && Lang(b, t[k..])
  }

  /** The word in either case. */
  predicate Spells(t: string, word: string) { |t| == |word| && forall k :: 0 <= k < |t| ==> UpperChar(t[k]) == word[k] }

  lemma WordIsLang(text: string, s: string, i: nat, e: nat)
    requires i <= |s|
    ensures e in Ends(Word(text), s, i) <==> i <= e <= |s| && Spells(s[i..e], text)
  {
    if i <= e <= |s| && Spells(s[i..e], text) {
      forall k | 0 <= k < |text| ensures UpperChar(s[i + k]) == text[k] { assert s[i..e][k] == s[i + k]; }
    }
  }

  lemma RunIsLang(k: Kind, s: string, i: nat, e: nat)
    requires i <= |s|
    ensures e in Ends(Many(k), s, i) <==> i <= e <= |s| && Lang(Many(k), s[i..e])
  {
    var top := Reach(k, s, i);
    DownHolds(i, top);
    assert i <= top < e <= |s| ==> s[i..e][top - i] == s[top];
  }

  /** The backtracker's ends are exactly where a text of the pattern ends. */
  lemma {:induction false} EndsAreLang(p: Pattern, s: string, i: nat, e: nat)
    requires i <= |s|
    ensures e in Ends(p, s, i) <==> i <= e <= |s| && Lang(p, s[i..e])
    decreases p, 1
  {
    match p {
      case Word(text) => WordIsLang(text, s, i, e);
      case One(k) =>
      case Many(k) => RunIsLang(k, s, i, e);
      case Or(a, b) =>
        EndsAreLang(a, s, i, e);
        EndsAreLang(b, s, i, e);
      case Maybe(a) => EndsAreLang(a, s, i, e);
      case Then(a, b) =>
        ThenHolds(a, b, s, i, e);
        if Leads(Ends(a, s, i), b, s, e) {
          var j: nat :| j in Ends(a, s, i) && j <= |s| && e in Ends(b, s, j);
          EndsAreLang(a, s, i, j);
          EndsAreLang(b, s, j, e);
          Meets(a, b, s, i, j, e);
        }
        if i <= e <= |s| && Lang(Then(a, b), s[i..e]) {
          var k := PlaceToSplit(a, b, s[i..e]);
          Parts(s, i, i + k, e);
          EndsAreLang(a, s, i, i + k);
          EndsAreLang(b, s, i + k, e);
        }
    }
  }

  lemma PlaceToSplit(a: Pattern, b: Pattern, t: string) returns (k: nat)
    requires Lang(Then(a, b), t)
    ensures k <= |t| && LangAt(a, b, t, k)
  {
    k :| k <= |t| && LangAt(a, b, t, k);
  }

  lemma Parts(s: string, i: nat, j: nat, e: nat)
    requires i <= j <= e <= |s|
    ensures s[i..e][..j - i] == s[i..j] && s[i..e][j - i..] == s[j..e]
  {
  }

  lemma Meets(a: Pattern, b: Pattern, s: string, i: nat, j: nat, e: nat)
    requires i <= j <= e <= |s| && Lang(a, s[i..j]) && Lang(b, s[j..e])
    ensures Lang(Then(a, b), s[i..e])
  {
    Parts(s, i, j, e);
    assert LangAt(a, b, s[i..e], j - i);
  }

  // ---- the label, in words ----

  predicate AllBlank(t: string) { forall k :: 0 <= k < |t| ==> Blank(t[k]) }

  /** P/N, S/N and their kin: blanks anywhere, the slash or not. */
  ghost predicate LetterLabel(t: string, letter: string) {
    exists x: string, u: string, slash: string, v: string, y: string :: LetterParts(t, letter, x, u, slash, v, y)
  }

  predicate LetterParts(t: string, letter: string, x: string, u: string, slash: string, v: string, y: string) {
    && t == x + (u + (slash + (v + y)))
    && Spells(x, letter) && AllBlank(u) && (slash == "" || slash == "/") && AllBlank(v) && Spells(y, "N")
  }

  /** PART, PART NO, PART NUMBER. */
  ghost predicate PartLabel(t: string) { exists x: string, u: string, y: string :: PartParts(t, x, u, y) }

  predicate PartParts(t: string, x: string, u: string, y: string) {
    && t == x + (u + y)
    && Spells(x, "PART") && AllBlank(u) && (y == "" || Spells(y, "NO") || Spells(y, "NUMBER"))
  }

  /** A colon or a number sign with blanks around it, or blanks alone. */
  ghost predicate Separates(t: string) {
    (t != "" && AllBlank(t)) || exists u: string, m: string, v: string :: MarkParts(t, u, m, v)
  }

  predicate MarkParts(t: string, u: string, m: string, v: string) {
    t == u + (m + v) && AllBlank(u) && (m == ":" || m == "#") && AllBlank(v)
  }

  ghost predicate LabelText(t: string) {
    exists u: string, name: string, sep: string :: LabelParts(t, u, name, sep)
  }

  ghost predicate LabelParts(t: string, u: string, name: string, sep: string) {
    && t == u + (name + sep) && AllBlank(u) && Separates(sep)
    && (LetterLabel(name, "P") || LetterLabel(name, "S") || PartLabel(name))
  }

  // ---- the pattern says so ----

  lemma Joins(a: Pattern, b: Pattern, x: string, y: string)
    requires Lang(a, x) && Lang(b, y)
    ensures Lang(Then(a, b), x + y)
  {
    assert (x + y)[..|x|] == x && (x + y)[|x|..] == y;
    assert LangAt(a, b, x + y, |x|);
  }

  lemma Splits(a: Pattern, b: Pattern, t: string) returns (x: string, y: string)
    requires Lang(Then(a, b), t)
    ensures t == x + y && Lang(a, x) && Lang(b, y)
  {
    var k := PlaceToSplit(a, b, t);
    x, y := t[..k], t[k..];
  }

  lemma BlanksAre(t: string)
    ensures Lang(BLANKS, t) <==> AllBlank(t)
  {
    assert forall j :: 0 <= j < |t| ==> (In(Ws, t[j]) <==> Blank(t[j]));
  }

  lemma SlashIs(t: string)
    ensures Lang(Maybe(Word("/")), t) <==> t == "" || t == "/"
  {
    if Spells(t, "/") { assert UpperChar(t[0]) == '/'; assert t[0] == '/'; assert t == [t[0]]; }
  }

  lemma LetterIs(letter: string, t: string)
    ensures Lang(Letter(letter), t) <==> LetterLabel(t, letter)
  {
    hide Lang, Spells, AllBlank;
    var n := Word("N");
    var c, d, f := Then(BLANKS, n), Then(Maybe(Word("/")), Then(BLANKS, n)), Then(BLANKS, Then(Maybe(Word("/")), Then(BLANKS, n)));
    if Lang(Letter(letter), t) {
      var x, t1 := Splits(Word(letter), f, t);
      var u, t2 := Splits(BLANKS, d, t1);
      var slash, t3 := Splits(Maybe(Word("/")), c, t2);
      var v, y := Splits(BLANKS, n, t3);
      LetterPartsAre(letter, x, u, slash, v, y);
      assert LetterParts(t, letter, x, u, slash, v, y);
    }
    if LetterLabel(t, letter) {
      var x: string, u: string, slash: string, v: string, y: string :| LetterParts(t, letter, x, u, slash, v, y);
      LetterPartsAre(letter, x, u, slash, v, y);
      Joins(BLANKS, n, v, y);
      Joins(Maybe(Word("/")), c, slash, v + y);
      Joins(BLANKS, d, u, slash + (v + y));
      Joins(Word(letter), f, x, u + (slash + (v + y)));
    }
  }

  lemma LetterPartsAre(letter: string, x: string, u: string, slash: string, v: string, y: string)
    ensures Lang(Word(letter), x) <==> Spells(x, letter)
    ensures Lang(Word("N"), y) <==> Spells(y, "N")
    ensures Lang(BLANKS, u) <==> AllBlank(u)
    ensures Lang(BLANKS, v) <==> AllBlank(v)
    ensures Lang(Maybe(Word("/")), slash) <==> slash == "" || slash == "/"
  {
    BlanksAre(u);
    BlanksAre(v);
    SlashIs(slash);
  }

  const PART: Pattern := Then(Word("PART"), Then(BLANKS, Maybe(NUMBER)))

  lemma PartIs(t: string)
    ensures Lang(PART, t) <==> PartLabel(t)
  {
    hide Lang, Spells, AllBlank;
    if Lang(PART, t) {
      var x, t1 := Splits(Word("PART"), Then(BLANKS, Maybe(NUMBER)), t);
      var u, y := Splits(BLANKS, Maybe(NUMBER), t1);
      PartPartsAre(x, u, y);
      assert PartParts(t, x, u, y);
    }
    if PartLabel(t) {
      var x: string, u: string, y: string :| PartParts(t, x, u, y);
      PartPartsAre(x, u, y);
      Joins(BLANKS, Maybe(NUMBER), u, y);
      Joins(Word("PART"), Then(BLANKS, Maybe(NUMBER)), x, u + y);
    }
  }

  lemma PartPartsAre(x: string, u: string, y: string)
    ensures Lang(Word("PART"), x) <==> Spells(x, "PART")
    ensures Lang(BLANKS, u) <==> AllBlank(u)
    ensures Lang(Maybe(NUMBER), y) <==> y == "" || Spells(y, "NO") || Spells(y, "NUMBER")
  {
    BlanksAre(u);
    assert Lang(NUMBER, y) <==> Spells(y, "NO") || Spells(y, "NUMBER");
  }

  lemma MarkIs(t: string)
    ensures Lang(One(Mark), t) <==> t == ":" || t == "#"
  {
    if |t| == 1 { assert t == [t[0]]; }
  }

  lemma MarkedIs(t: string)
    ensures Lang(Then(BLANKS, Then(One(Mark), BLANKS)), t) <==> exists u: string, m: string, v: string :: MarkParts(t, u, m, v)
  {
    hide Lang, AllBlank;
    if Lang(Then(BLANKS, Then(One(Mark), BLANKS)), t) {
      var u, t1 := Splits(BLANKS, Then(One(Mark), BLANKS), t);
      var m, v := Splits(One(Mark), BLANKS, t1);
      BlanksAre(u);
      BlanksAre(v);
      MarkIs(m);
      assert MarkParts(t, u, m, v);
    }
    if exists u: string, m: string, v: string :: MarkParts(t, u, m, v) {
      var u: string, m: string, v: string :| MarkParts(t, u, m, v);
      BlanksAre(u);
      BlanksAre(v);
      MarkIs(m);
      Joins(One(Mark), BLANKS, m, v);
      Joins(BLANKS, Then(One(Mark), BLANKS), u, m + v);
    }
  }

  lemma BlankedIs(t: string)
    ensures Lang(Then(One(Ws), BLANKS), t) <==> t != "" && AllBlank(t)
  {
    if Lang(Then(One(Ws), BLANKS), t) {
      var x, y := Splits(One(Ws), BLANKS, t);
      BlanksAre(y);
    }
    if t != "" && AllBlank(t) {
      BlanksAre(t[1..]);
      assert Lang(One(Ws), t[..1]);
      Joins(One(Ws), BLANKS, t[..1], t[1..]);
      assert t[..1] + t[1..] == t;
    }
  }

  lemma SeparatorIs(t: string)
    ensures Lang(SEPARATOR, t) <==> Separates(t)
  {
    MarkedIs(t);
    BlankedIs(t);
    OrIs(Then(BLANKS, Then(One(Mark), BLANKS)), Then(One(Ws), BLANKS), t);
    hide Lang;
  }

  lemma OrIs(a: Pattern, b: Pattern, t: string)
    ensures Lang(Or(a, b), t) <==> Lang(a, t) || Lang(b, t)
  {
  }

  lemma WhichLabel(t: string)
    ensures Lang(LABEL, t) <==> LetterLabel(t, "P") || LetterLabel(t, "S") || PartLabel(t)
  {
    hide Lang;
    LetterIs("P", t);
    LetterIs("S", t);
    PartIs(t);
    OrIs(Letter("P"), Or(Letter("S"), PART), t);
    OrIs(Letter("S"), PART, t);
  }

  lemma TemplateIs(t: string)
    ensures Lang(TEMPLATE, t) <==> LabelText(t)
  {
    hide Lang, AllBlank, Separates, LetterLabel, PartLabel;
    if Lang(TEMPLATE, t) {
      var u, t1 := Splits(BLANKS, Then(LABEL, SEPARATOR), t);
      var name, sep := Splits(LABEL, SEPARATOR, t1);
      BlanksAre(u);
      WhichLabel(name);
      SeparatorIs(sep);
      assert LabelParts(t, u, name, sep);
    }
    if LabelText(t) {
      var u: string, name: string, sep: string :| LabelParts(t, u, name, sep);
      BlanksAre(u);
      WhichLabel(name);
      SeparatorIs(sep);
      Joins(LABEL, SEPARATOR, name, sep);
      Joins(BLANKS, Then(LABEL, SEPARATOR), u, name + sep);
    }
  }

  /**
   * What is taken off the front of a string is a label, if any: blanks, P/N, S/N or PART with or without NO or
   * NUMBER, and a separator. Nothing is taken off exactly when the string begins with no label.
   */
  lemma LabelIsTaken(s: string)
    ensures LabelLength(s) <= |s|
    ensures LabelLength(s) > 0 ==> LabelText(s[..LabelLength(s)])
    ensures LabelLength(s) == 0 <==> forall e: nat :: e <= |s| ==> !LabelText(s[..e])
  {
    hide LabelText, Lang;
    var ends := Ends(TEMPLATE, s, 0);
    forall e: nat ensures e in ends <==> e <= |s| && LabelText(s[..e]) {
      EndsAreLang(TEMPLATE, s, 0, e);
      if e <= |s| { TemplateIs(s[..e]); assert s[0..e] == s[..e]; }
    }
    NoEmptyLabel();
    SpellingsMatchAlike(s);
    assert s[..0] == "";
    if ends != [] { assert ends[0] in ends; }
  }

  lemma NoEmptyLabel()
    ensures !LabelText("")
  {
    hide AllBlank, LetterLabel, PartLabel;
    assert !Separates("");
  }

  // ---- the key ----

  /** The key drops blanks, underscores and dashes one by one, and puts every other character in upper case. */
  lemma {:induction false} KeyIsByCharacter(a: string, b: string, upper: char -> string)
    ensures Folded(a + b, upper) == Folded(a, upper) + Folded(b, upper)
    ensures |a| == 1 ==> Folded(a, upper) == if a[0] == ' ' || 9 <= a[0] as int <= 13 || a[0] == '_' || a[0] == '-' then "" else upper(a[0])
  {
    if b == "" {
      assert a + b == a;
    } else {
      var front := b[..|b| - 1];
      assert (a + b)[..|a + b| - 1] == a + front;
      KeyIsByCharacter(a, front, upper);
    }
    if |a| == 1 { assert a[..0] == "" && Folded(a[..0], upper) == ""; }
  }

  /** What the family counts is all but JavaScript's blanks, underscores and dashes. */
  lemma CountedCodes(c: char)
    ensures Counts(c) <==>
            && c != '_' && c != '-' && !(9 <= c as int <= 13) && !(8192 <= c as int <= 8202)
            && c as int !in {32, 160, 5760, 8232, 8233, 8239, 8287, 12288, 65279}
  {
  }
}
