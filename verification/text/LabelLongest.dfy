/** The linear spelling of the label pattern has the same texts, and its first match is its longest. */
module LabelLongest {
  import opened Ascii
  import opened PartNumber
  import opened LabelGrammar

  // ---- the linear spelling has the same texts ----

  const SLASHED: Pattern := Then(Word("/"), BLANKS)

  lemma SlashedIs(t: string)
    ensures Lang(SLASHED, t) <==> t != "" && t[0] == '/' && AllBlank(t[1..])
  {
    if Lang(SLASHED, t) {
      var x, y := Splits(Word("/"), BLANKS, t);
      SlashIs(x);
      BlanksAre(y);
      assert t[1..] == y;
    }
    if t != "" && t[0] == '/' && AllBlank(t[1..]) {
      SlashIs(t[..1]);
      BlanksAre(t[1..]);
      assert Spells(t[..1], "/");
      Joins(Word("/"), BLANKS, t[..1], t[1..]);
      assert t[..1] + t[1..] == t;
    }
  }

  lemma MaybeIs(p: Pattern, t: string)
    ensures Lang(Maybe(p), t) <==> t == "" || Lang(p, t)
  {
  }

  lemma LinearLetterIs(letter: string, t: string)
    ensures Lang(LinearLetter(letter), t) <==> LetterLabel(t, letter)
  {
    hide Lang, LetterLabel;
    if Lang(LinearLetter(letter), t) { LinearIsLetter(letter, t); }
    if LetterLabel(t, letter) { LetterIsLinear(letter, t); }
  }

  lemma LinearIsLetter(letter: string, t: string)
    requires Lang(LinearLetter(letter), t)
    ensures LetterLabel(t, letter)
  {
    hide Lang, Spells, AllBlank;
    var x, t1 := Splits(Word(letter), Then(BEFORE_N, Word("N")), t);
    var t2, y := Splits(BEFORE_N, Word("N"), t1);
    var u, w := Splits(BLANKS, Maybe(SLASHED), t2);
    MaybeIs(SLASHED, w);
    SlashedIs(w);
    var slash, v := w[..if w == "" then 0 else 1], w[if w == "" then 0 else 1..];
    LetterPartsAre(letter, x, u, slash, v, y);
    NothingIsBlank();
    Regrouped(u, slash, v, y, w);
    assert LetterParts(t, letter, x, u, slash, v, y);
  }

  lemma Regrouped(u: string, slash: string, v: string, y: string, w: string)
    requires w == slash + v
    ensures (u + w) + y == u + (slash + (v + y))
  {
  }

  lemma LetterIsLinear(letter: string, t: string)
    requires LetterLabel(t, letter)
    ensures Lang(LinearLetter(letter), t)
  {
    hide Lang, Spells, AllBlank;
    var x: string, u: string, slash: string, v: string, y: string :| LetterParts(t, letter, x, u, slash, v, y);
    LetterPartsAre(letter, x, u, slash, v, y);
    Regrouped(u, slash, v, y, slash + v);
    BeforeNJoins(u, slash, v);
    Joins(BEFORE_N, Word("N"), u + (slash + v), y);
    Joins(Word(letter), Then(BEFORE_N, Word("N")), x, (u + (slash + v)) + y);
  }

  lemma BeforeNJoins(u: string, slash: string, v: string)
    requires AllBlank(u) && AllBlank(v) && (slash == "" || slash == "/")
    ensures Lang(BEFORE_N, u + (slash + v))
  {
    hide Lang, AllBlank;
    if slash == "" {
      BlanksJoin(u, v);
      BlanksAre(u + v);
      MaybeIs(SLASHED, "");
      Joins(BLANKS, Maybe(SLASHED), u + v, "");
      assert (u + v) + "" == u + v == u + (slash + v);
    } else {
      SlashedIs(slash + v);
      assert (slash + v)[1..] == v;
      MaybeIs(SLASHED, slash + v);
      BlanksAre(u);
      Joins(BLANKS, Maybe(SLASHED), u, slash + v);
    }
  }

  lemma NothingIsBlank()
    ensures AllBlank("")
  {
  }

  lemma BlanksJoin(u: string, v: string)
    requires AllBlank(u) && AllBlank(v)
    ensures AllBlank(u + v)
  {
  }

  const LINEAR_PART: Pattern := Then(Word("PART"), Maybe(Then(BLANKS, NUMBER)))

  /** PART, and no blanks before the separator unless a word follows them. */
  ghost predicate TightPart(t: string) {
    exists x: string, u: string, y: string :: PartParts(t, x, u, y) && (y == "" ==> u == "")
  }

  lemma LinearPartIs(t: string)
    ensures Lang(LINEAR_PART, t) <==> TightPart(t)
  {
    hide Lang, Spells, AllBlank;
    var worded := Then(BLANKS, NUMBER);
    if Lang(LINEAR_PART, t) {
      var x, w := Splits(Word("PART"), Maybe(worded), t);
      MaybeIs(worded, w);
      NothingIsBlank();
      if w == "" {
        PartPartsAre(x, "", "");
        assert w == "" + "";
        assert PartParts(t, x, "", "");
      } else {
        var u, y := Splits(BLANKS, NUMBER, w);
        PartPartsAre(x, u, y);
        MaybeIs(NUMBER, y);
        NumberHasLetters(y);
        assert PartParts(t, x, u, y);
      }
    }
    if TightPart(t) {
      var x: string, u: string, y: string :| PartParts(t, x, u, y) && (y == "" ==> u == "");
      PartPartsAre(x, u, y);
      MaybeIs(NUMBER, y);
      MaybeIs(worded, u + y);
      if y != "" { Joins(BLANKS, NUMBER, u, y); }
      Joins(Word("PART"), Maybe(worded), x, u + y);
    }
  }

  lemma NumberHasLetters(y: string)
    ensures Lang(NUMBER, y) ==> y != ""
  {
  }

  lemma WhichLinear(t: string)
    ensures Lang(LINEAR_LABEL, t) <==> LetterLabel(t, "P") || LetterLabel(t, "S") || TightPart(t)
  {
    hide Lang;
    LinearLetterIs("P", t);
    LinearLetterIs("S", t);
    LinearPartIs(t);
    OrIs(LinearLetter("P"), Or(LinearLetter("S"), LINEAR_PART), t);
    OrIs(LinearLetter("S"), LINEAR_PART, t);
  }

  /** Blanks before a separator are part of one. */
  lemma BlanksBefore(u: string, sep: string)
    requires AllBlank(u) && LabelGrammar.Separates(sep)
    ensures LabelGrammar.Separates(u + sep)
  {
    if sep != "" && AllBlank(sep) {
      BlanksJoin(u, sep);
    } else {
      var w: string, m: string, v: string :| MarkParts(sep, w, m, v);
      BlanksJoin(u, w);
      assert u + sep == (u + w) + (m + v);
      assert MarkParts(u + sep, u + w, m, v);
    }
  }

  /** A label's blanks before the separator can be the separator's. */
  lemma Tightens(u: string, name: string, sep: string) returns (name': string, sep': string)
    requires AllBlank(u) && LabelGrammar.Separates(sep) && (LetterLabel(name, "P") || LetterLabel(name, "S") || PartLabel(name))
    ensures name' + sep' == name + sep && LabelGrammar.Separates(sep')
    ensures LetterLabel(name', "P") || LetterLabel(name', "S") || TightPart(name')
  {
    name', sep' := name, sep;
    if PartLabel(name) {
      var x: string, w: string, y: string :| PartParts(name, x, w, y);
      if y == "" {
        name', sep' := x, w + sep;
        BlanksBefore(w, sep);
        assert name + sep == x + (w + sep);
        assert x == x + ("" + "");
        assert PartParts(x, x, "", "");
      }
    }
  }

  lemma LinearIs(t: string)
    ensures Lang(LINEAR, t) <==> LabelText(t)
  {
    hide Lang, AllBlank, LabelGrammar.Separates, LetterLabel, TightPart, PartLabel;
    if Lang(LINEAR, t) {
      var u, t1 := Splits(BLANKS, Then(LINEAR_LABEL, SEPARATOR), t);
      var name, sep := Splits(LINEAR_LABEL, SEPARATOR, t1);
      BlanksAre(u);
      WhichLinear(name);
      TightIsPart(name);
      SeparatorIs(sep);
      assert LabelParts(t, u, name, sep);
    }
    if LabelText(t) {
      var u: string, name: string, sep: string :| LabelParts(t, u, name, sep);
      var name', sep' := Tightens(u, name, sep);
      BlanksAre(u);
      WhichLinear(name');
      SeparatorIs(sep');
      Joins(LINEAR_LABEL, SEPARATOR, name', sep');
      Joins(BLANKS, Then(LINEAR_LABEL, SEPARATOR), u, name' + sep');
    }
  }

  lemma TightIsPart(t: string)
    ensures TightPart(t) ==> PartLabel(t)
  {
  }

  // ---- the first match is the longest ----

  ghost predicate Tops(ends: seq<nat>) { forall k :: 0 <= k < |ends| ==> ends[k] <= ends[0] }

  ghost predicate Below(ends: seq<nat>, top: nat) { forall k :: 0 <= k < |ends| ==> ends[k] <= top }

  ghost predicate Past(ends: seq<nat>, i: nat) { forall k :: 0 <= k < |ends| ==> ends[k] > i }

  lemma TopsJoin(a: seq<nat>, b: seq<nat>, i: nat)
    requires Tops(a) && Tops(b) && (a != [] ==> Past(a, i) && Below(b, i))
    ensures Tops(a + b)
  {
  }

  lemma DownTops(from: nat, top: nat)
    requires from <= top
    ensures Tops(Down(from, top)) && Below(Down(from, top), top) && forall i: nat :: i < from ==> Past(Down(from, top), i)
  {
    DownHolds(from, top);
    var d := Down(from, top);
    assert d[0] == top;
    assert forall k :: 0 <= k < |d| ==> d[k] in d;
  }

  lemma MarkedTops(s: string, a: nat)
    requires a <= |s|
    ensures Tops(Ends(MARKED, s, a)) && Past(Ends(MARKED, s, a), a)
    ensures a < |s| && s[a] != ':' && s[a] != '#' ==> Ends(MARKED, s, a) == []
  {
    OneThen(Mark, BLANKS, s, a);
    if a < |s| { DownTops(a + 1, Reach(Ws, s, a + 1)); }
  }

  lemma SeparatorTops(s: string, j: nat)
    requires j <= |s|
    ensures Tops(Ends(SEPARATOR, s, j)) && Past(Ends(SEPARATOR, s, j), j)
    ensures var a := Reach(Ws, s, j); a < |s| && s[a] != ':' && s[a] != '#' ==> Below(Ends(SEPARATOR, s, j), a)
  {
    var a := Reach(Ws, s, j);
    SeparatorEnds(s, j);
    MarkedTops(s, a);
    if j < a {
      DownTops(j + 1, a);
      TopsJoin(Ends(MARKED, s, a), Down(j + 1, a), a);
    } else {
      TopsJoin(Ends(MARKED, s, a), [], a);
    }
  }

  lemma InBoth(a: seq<nat>, b: seq<nat>)
    requires Tops(b) && First(a) == First(b) && forall k :: 0 <= k < |a| ==> a[k] in b
    ensures Tops(a)
  {
  }

  lemma FromOnePlace(starts: seq<nat>, e: nat, s: string, i: nat, x: nat)
    requires i <= |s| && Inside(starts, i, |s|) && Inside(starts, e, e) && x in Each(starts, SEPARATOR, s, i)
    ensures e <= |s| && x in Ends(SEPARATOR, s, e)
  {
    EachHolds(starts, SEPARATOR, s, i, x);
    var j: nat :| j in starts && j <= |s| && x in Ends(SEPARATOR, s, j);
  }

  /** Labels that end in one place. */
  lemma OnePlaceTops(starts: seq<nat>, e: nat, s: string, i: nat)
    requires i <= |s| && Inside(starts, i, |s|) && Inside(starts, e, e)
    ensures Tops(Each(starts, SEPARATOR, s, i))
  {
    hide Tops;
    var all := Each(starts, SEPARATOR, s, i);
    if starts == [] {
      NothingTops();
    } else {
      assert starts[0] == e;
      EachRepeats(starts, e, SEPARATOR, s, i);
      hide Each, Ends;
      SeparatorTops(s, e);
      forall k | 0 <= k < |all| ensures all[k] in Ends(SEPARATOR, s, e) { FromOnePlace(starts, e, s, i, all[k]); }
      InBoth(all, Ends(SEPARATOR, s, e));
    }
  }

  lemma NothingTops()
    ensures Tops([])
  {
  }

  lemma LetterTops(c: string, s: string, i: nat)
    requires i <= |s|
    ensures Tops(Each(Ends(LinearLetter(c), s, i), SEPARATOR, s, i))
  {
    WordThen(c, LINEAR_AFTER, s, i);
    if At(s, i, c) {
      LetterList(s, i + |c|);
      OnePlaceTops(Ends(LinearLetter(c), s, i), PlaceOfN(s, i + |c|) + 1, s, i);
    }
  }

  lemma AtTwo(s: string, j: nat, w: string)
    requires |w| >= 2 && At(s, j, w)
    ensures j + 1 < |s| && UpperChar(s[j]) == w[0] && UpperChar(s[j + 1]) == w[1]
  {
    assert UpperChar(s[j + 0]) == w[0];
  }

  /** At most one of NO and NUMBER stands there. */
  lemma OneNumber(s: string, a: nat)
    requires a <= |s|
    ensures var n := Ends(NUMBER, s, a);
            n == [] || (|n| == 1 && n[0] > a && a < |s| && UpperChar(s[a]) == 'N')
  {
    if At(s, a, "NO") { AtTwo(s, a, "NO"); }
    if At(s, a, "NUMBER") { AtTwo(s, a, "NUMBER"); }
  }

  lemma PartTops(s: string, i: nat)
    requires i <= |s|
    ensures Tops(Each(Ends(Maybe(Then(BLANKS, NUMBER)), s, i), SEPARATOR, s, i))
  {
    var a := Reach(Ws, s, i);
    NumberIsSolid(s);
    BlanksThenSolid(NUMBER, s, i);
    OneNumber(s, a);
    var n := Ends(NUMBER, s, a);
    EachJoins(n, [i], SEPARATOR, s, i);
    EachOne(i, SEPARATOR, s, i);
    SeparatorTops(s, i);
    if n == [] {
      TopsJoin([], Ends(SEPARATOR, s, i), i);
    } else {
      assert n == [n[0]];
      EachOne(n[0], SEPARATOR, s, i);
      SeparatorTops(s, n[0]);
      TopsFrom(Ends(SEPARATOR, s, n[0]), Ends(SEPARATOR, s, i), n[0], a);
    }
  }

  lemma TopsFrom(a: seq<nat>, b: seq<nat>, n: nat, i: nat)
    requires Tops(a) && Past(a, n) && Tops(b) && Below(b, i) && i < n
    ensures Tops(a + b)
  {
    TopsJoin(a, b, i);
  }

  lemma WordedPartTops(s: string, i: nat)
    requires i <= |s|
    ensures Tops(Each(Ends(LINEAR_PART, s, i), SEPARATOR, s, i))
  {
    WordThen("PART", Maybe(Then(BLANKS, NUMBER)), s, i);
    if At(s, i, "PART") {
      PartTops(s, i + 4);
      EachAnywhere(Ends(Maybe(Then(BLANKS, NUMBER)), s, i + 4), SEPARATOR, s, i, i + 4);
    }
  }

  lemma LetterBegins(c: string, s: string, i: nat)
    requires i <= |s| && |c| == 1 && Ends(LinearLetter(c), s, i) != []
    ensures i < |s| && UpperChar(s[i]) == c[0] && Ends(LINEAR_AFTER, s, i + 1) != []
  {
    hide Ends, At, UpperChar;
    WordThen(c, LINEAR_AFTER, s, i);
    AtStart(s, i, c);
  }

  lemma PartBegins(s: string, i: nat)
    requires i <= |s| && Ends(LINEAR_PART, s, i) != []
    ensures i + 1 < |s| && UpperChar(s[i]) == 'P' && UpperChar(s[i + 1]) == 'A'
  {
    hide Ends, At, UpperChar;
    WordThen("PART", Maybe(Then(BLANKS, NUMBER)), s, i);
    AtTwo(s, i, "PART");
  }

  /** The letter that a label begins with; a part's second one is A. */
  lemma LabelsDiffer(s: string, i: nat)
    requires i <= |s|
    ensures Ends(LinearLetter("P"), s, i) != [] ==> Ends(LinearLetter("S"), s, i) == [] && Ends(LINEAR_PART, s, i) == []
    ensures Ends(LinearLetter("S"), s, i) != [] ==> Ends(LINEAR_PART, s, i) == []
  {
    hide Ends;
    if Ends(LinearLetter("P"), s, i) != [] { LetterBegins("P", s, i); }
    if Ends(LinearLetter("S"), s, i) != [] { LetterBegins("S", s, i); }
    if Ends(LINEAR_PART, s, i) != [] {
      PartBegins(s, i);
      NoNAfterA(s, i + 1);
    }
  }

  lemma NoNAfterA(s: string, i: nat)
    requires i < |s| && UpperChar(s[i]) == 'A'
    ensures Ends(LINEAR_AFTER, s, i) == []
  {
    assert Reach(Ws, s, i) == i && PlaceOfN(s, i) == i;
    AtOne(s, i, 'N');
    var ends := Ends(LINEAR_AFTER, s, i);
    assert ends != [] ==> ends[0] in ends;
    if ends != [] { LinearLetterEnds(s, i, ends[0]); }
  }

  lemma LabelTops(s: string, i: nat)
    requires i <= |s|
    ensures Tops(Ends(Then(LINEAR_LABEL, SEPARATOR), s, i))
  {
    var p, l, part := Ends(LinearLetter("P"), s, i), Ends(LinearLetter("S"), s, i), Ends(LINEAR_PART, s, i);
    LetterTops("P", s, i);
    LetterTops("S", s, i);
    WordedPartTops(s, i);
    LabelsDiffer(s, i);
    OneOfThree(p, l, part);
    EachJoins(l, part, SEPARATOR, s, i);
    EachJoins(p, l + part, SEPARATOR, s, i);
  }

  lemma OneOfThree(a: seq<nat>, b: seq<nat>, c: seq<nat>)
    requires (a != [] ==> b == [] && c == []) && (b != [] ==> c == [])
    ensures a + (b + c) == a || a + (b + c) == b || a + (b + c) == c
  {
    if a != [] { assert a + (b + c) == a; } else if b != [] { assert a + (b + c) == b; } else { assert a + (b + c) == c; }
  }

  lemma LabelIsSolid(s: string)
    ensures Solid(Then(LINEAR_LABEL, SEPARATOR), s)
  {
    forall j: nat | j < |s| ensures SolidAt(Then(LINEAR_LABEL, SEPARATOR), s, j) {
      if Blank(s[j]) { NoLabelAtBlank(s, j); }
    }
  }

  lemma NoLabelAtBlank(s: string, j: nat)
    requires j < |s| && Blank(s[j])
    ensures Ends(Then(LINEAR_LABEL, SEPARATOR), s, j) == []
  {
    WordThen("P", LINEAR_AFTER, s, j);
    WordThen("S", LINEAR_AFTER, s, j);
    WordThen("PART", Maybe(Then(BLANKS, NUMBER)), s, j);
    AtStart(s, j, "P");
    AtStart(s, j, "S");
    AtStart(s, j, "PART");
    assert Ends(LINEAR_LABEL, s, j) == [];
  }

  /**
   * What is taken off the front of a string is the longest label there, if any: blanks, P/N, S/N or PART with or
   * without NO or NUMBER, and a separator.
   */
  lemma LongestIsTaken(s: string, e: nat)
    requires e <= |s|
    ensures LabelText(s[..e]) ==> 0 < e <= LabelLength(s)
    ensures LabelLength(s) > 0 ==> LabelText(s[..LabelLength(s)])
  {
    hide LabelText, Lang;
    var ends := Ends(LINEAR, s, 0);
    LabelIsSolid(s);
    BlanksThenSolid(Then(LINEAR_LABEL, SEPARATOR), s, 0);
    LabelTops(s, Reach(Ws, s, 0));
    assert Tops(ends);
    EndsAreLang(LINEAR, s, 0, e);
    LinearIs(s[..e]);
    assert s[0..e] == s[..e];
    LabelIsTaken(s);
    NoEmptyLabel();
    assert s[..0] == "";
  }
}
