/**
 * Part numbers: the label in front of one, the key it is looked up by, and the split of a written number
 * after its family. The label pattern exists in two spellings, matched here by an ordered backtracker.
 */
module PartNumber {
  import opened Options
  import opened Ascii
  import Sequences

  // ---- patterns ----

  datatype Kind = Ws | Mark

  predicate In(k: Kind, c: char) {
    match k
    case Ws => Blank(c)
    case Mark => c == ':' || c == '#'
  }

  datatype Pattern =
    | Word(text: string)
    | One(kind: Kind)
    | Many(kind: Kind)
    | Then(first: Pattern, second: Pattern)
    | Or(first: Pattern, second: Pattern)
    | Maybe(first: Pattern)

  /** The text stands at `i`, whatever its case. */
  predicate At(s: string, i: nat, text: string) {
    i + |text| <= |s| && forall k :: 0 <= k < |text| ==> UpperChar(s[i + k]) == text[k]
  }

  /** How far the kind reaches from `i`. */
  function Reach(k: Kind, s: string, i: nat): (e: nat)
    requires i <= |s|
    ensures i <= e <= |s|
    ensures forall j :: i <= j < e ==> In(k, s[j])
    ensures e < |s| ==> !In(k, s[e])
    decreases |s| - i
  {
    if i < |s| && In(k, s[i]) then Reach(k, s, i + 1) else i
  }

  /** `top`, `top - 1`, ..., `from`: a greedy run gives back one character at a time. */
  function Down(from: nat, top: nat): seq<nat>
    requires from <= top
    decreases top - from
  {
    if top == from then [from] else [top] + Down(from, top - 1)
  }

  predicate Inside(ends: seq<nat>, from: nat, top: nat) {
    forall k :: 0 <= k < |ends| ==> from <= ends[k] <= top
  }

  /** Every end a match from `i` can have, in the order a backtracker tries them. */
  function Ends(p: Pattern, s: string, i: nat): (r: seq<nat>)
    requires i <= |s|
    ensures Inside(r, i, |s|)
    decreases p, 0
  {
    match p
    case Word(text) => if At(s, i, text) then [i + |text|] else []
    case One(k) => if i < |s| && In(k, s[i]) then [i + 1] else []
    case Many(k) =>
      DownHolds(i, Reach(k, s, i));
      Down(i, Reach(k, s, i))
    case Then(a, b) => Each(Ends(a, s, i), b, s, i)
    case Or(a, b) => Ends(a, s, i) + Ends(b, s, i)
    case Maybe(a) => Ends(a, s, i) + [i]
  }

  function Each(starts: seq<nat>, p: Pattern, s: string, i: nat): (r: seq<nat>)
    requires i <= |s| && Inside(starts, i, |s|)
    ensures Inside(r, i, |s|)
    decreases p, 1 + |starts|
  {
    if starts == [] then []
    else if |starts| == 1 then Ends(p, s, starts[0])
    else Ends(p, s, starts[0]) + Each(starts[1..], p, s, i)
  }

  lemma {:induction false} DownHolds(from: nat, top: nat)
    requires from <= top
    ensures (forall e :: e in Down(from, top) <==> from <= e <= top) && Inside(Down(from, top), from, top)
    decreases top - from
  {
    if from < top { DownHolds(from, top - 1); }
  }

  function First(ends: seq<nat>): Option<nat> { if ends == [] then None else Some(ends[0]) }

  const BLANKS: Pattern := Many(Ws)
  const SEPARATOR: Pattern := Or(Then(BLANKS, Then(One(Mark), BLANKS)), Then(One(Ws), BLANKS))

  /** As the database spells it. */
  function Letter(c: string): Pattern {
    Then(Word(c), Then(BLANKS, Then(Maybe(Word("/")), Then(BLANKS, Word("N")))))
  }

  const NUMBER: Pattern := Or(Word("NO"), Word("NUMBER"))
  const LABEL: Pattern := Or(Letter("P"), Or(Letter("S"), Then(Word("PART"), Then(BLANKS, Maybe(NUMBER)))))
  const TEMPLATE: Pattern := Then(BLANKS, Then(LABEL, SEPARATOR))

  /** Rewritten so that no two runs of blanks meet. */
  function LinearLetter(c: string): Pattern {
    Then(Word(c), Then(Then(BLANKS, Maybe(Then(Word("/"), BLANKS))), Word("N")))
  }

  const LINEAR_LABEL: Pattern :=
    Or(LinearLetter("P"), Or(LinearLetter("S"), Then(Word("PART"), Maybe(Then(BLANKS, NUMBER)))))
  const LINEAR: Pattern := Then(BLANKS, Then(LINEAR_LABEL, SEPARATOR))

  // ---- both spellings match alike ----

  lemma {:induction false} EachJoins(a: seq<nat>, b: seq<nat>, p: Pattern, s: string, i: nat)
    requires i <= |s| && Inside(a, i, |s|) && Inside(b, i, |s|)
    ensures Each(a + b, p, s, i) == Each(a, p, s, i) + Each(b, p, s, i)
  {
    if a == [] {
      assert a + b == b;
    } else {
      assert (a + b)[1..] == a[1..] + b;
      EachJoins(a[1..], b, p, s, i);
    }
  }

  lemma EachStep(first: nat, rest: seq<nat>, p: Pattern, s: string, i: nat)
    requires i <= first <= |s| && Inside(rest, i, |s|)
    ensures Inside([first] + rest, i, |s|)
    ensures Each([first] + rest, p, s, i) == Ends(p, s, first) + Each(rest, p, s, i)
  {
    assert ([first] + rest)[1..] == rest;
  }

  lemma EachSkips(first: nat, rest: seq<nat>, p: Pattern, s: string, i: nat)
    requires i <= first <= |s| && Inside(rest, i, |s|) && Ends(p, s, first) == []
    ensures Inside([first] + rest, i, |s|)
    ensures Each([first] + rest, p, s, i) == Each(rest, p, s, i)
  {
    EachStep(first, rest, p, s, i);
  }

  lemma EachOne(first: nat, p: Pattern, s: string, i: nat)
    requires i <= first <= |s|
    ensures Each([first], p, s, i) == Ends(p, s, first)
  {
    assert [first][1..] == [] && Each([first][1..], p, s, i) == [];
  }

  lemma {:induction false} DownInside(from: nat, top: nat, i: nat, n: nat)
    requires i <= from <= top <= n
    ensures Inside(Down(from, top), i, n)
  {
    DownHolds(from, top);
  }

  lemma DownSteps(from: nat, top: nat)
    requires from < top
    ensures Down(from, top) == [top] + Down(from, top - 1)
  {
  }

  ghost predicate Leads(starts: seq<nat>, p: Pattern, s: string, e: nat) {
    exists j: nat :: j in starts && j <= |s| && e in Ends(p, s, j)
  }

  lemma {:induction false} EachHolds(starts: seq<nat>, p: Pattern, s: string, i: nat, e: nat)
    requires i <= |s| && Inside(starts, i, |s|)
    ensures e in Each(starts, p, s, i) <==> Leads(starts, p, s, e)
  {
    if starts != [] {
      EachHolds(starts[1..], p, s, i, e);
      assert starts == [starts[0]] + starts[1..];
      assert Leads(starts, p, s, e) <==> e in Ends(p, s, starts[0]) || Leads(starts[1..], p, s, e);
    }
  }

  lemma ThenHolds(p: Pattern, q: Pattern, s: string, i: nat, e: nat)
    requires i <= |s|
    ensures e in Ends(Then(p, q), s, i) <==> Leads(Ends(p, s, i), q, s, e)
  {
    EachHolds(Ends(p, s, i), q, s, i, e);
  }

  /** Where every start leads to the same first end, so does the list of starts. */
  lemma {:induction false} EachFirst(starts: seq<nat>, p: Pattern, q: Pattern, s: string, i: nat)
    requires i <= |s| && Inside(starts, i, |s|)
    requires forall j: nat :: j <= |s| ==> First(Ends(p, s, j)) == First(Ends(q, s, j))
    ensures First(Each(starts, p, s, i)) == First(Each(starts, q, s, i))
  {
    if starts != [] {
      var j := starts[0];
      EachFirst(starts[1..], p, q, s, i);
      FirstJoins(Ends(p, s, j), Each(starts[1..], p, s, i));
      FirstJoins(Ends(q, s, j), Each(starts[1..], q, s, i));
    }
  }

  lemma FirstJoins(a: seq<nat>, b: seq<nat>)
    ensures First(a + b) == if a == [] then First(b) else First(a)
  {
  }

  /** Trying one end over and over finds what trying it once does. */
  lemma {:induction false} EachRepeats(starts: seq<nat>, e: nat, p: Pattern, s: string, i: nat)
    requires i <= e <= |s| && starts != [] && Inside(starts, e, e)
    ensures First(Each(starts, p, s, i)) == First(Ends(p, s, e))
  {
    if |starts| > 1 { EachRepeats(starts[1..], e, p, s, i); }
  }

  lemma {:induction false} ReachMeets(s: string, i: nat, j: nat)
    requires i <= j <= |s| && j <= Reach(Ws, s, i)
    ensures Reach(Ws, s, j) == Reach(Ws, s, i)
    decreases j - i
  {
    if i < j { ReachMeets(s, i + 1, j); }
  }

  lemma BlanksHold(s: string, i: nat, e: nat)
    requires i <= |s|
    ensures e in Ends(Many(Ws), s, i) <==> i <= e <= Reach(Ws, s, i)
  {
    DownHolds(i, Reach(Ws, s, i));
  }

  /** What cannot begin with a blank is tried in vain before the run of blanks ends. */
  lemma BlanksThen(q: Pattern, s: string, i: nat, e: nat)
    requires i <= |s| && forall j: nat {:trigger Ends(q, s, j)} :: j < |s| && Blank(s[j]) ==> e !in Ends(q, s, j)
    ensures e in Ends(Then(Many(Ws), q), s, i) <==> e in Ends(q, s, Reach(Ws, s, i))
  {
    var a := Reach(Ws, s, i);
    ThenHolds(Many(Ws), q, s, i, e);
    BlanksHold(s, i, a);
    if Leads(Ends(Many(Ws), s, i), q, s, e) {
      var j: nat :| j in Ends(Many(Ws), s, i) && j <= |s| && e in Ends(q, s, j);
      BlanksHold(s, i, j);
      assert j == a by { assert j < a ==> In(Ws, s[j]); }
    }
  }

  // ---- the letter labels ----

  lemma AtOne(s: string, i: nat, c: char)
    ensures At(s, i, [c]) <==> i < |s| && UpperChar(s[i]) == c
  {
    assert At(s, i, [c]) ==> UpperChar(s[i + 0]) == [c][0];
  }

  const AFTER_SLASH: Pattern := Then(BLANKS, Word("N"))

  lemma AfterSlash(s: string, i: nat, e: nat)
    requires i <= |s|
    ensures e in Ends(AFTER_SLASH, s, i) <==> At(s, Reach(Ws, s, i), "N") && e == Reach(Ws, s, i) + 1
  {
    forall j: nat | j < |s| && Blank(s[j]) ensures e !in Ends(Word("N"), s, j) { AtOne(s, j, 'N'); }
    BlanksThen(Word("N"), s, i, e);
  }

  lemma SlashHolds(q: Pattern, s: string, j: nat, e: nat)
    requires j <= |s|
    ensures e in Ends(Then(Maybe(Word("/")), q), s, j)
            <==> e in Ends(q, s, j) || (At(s, j, "/") && e in Ends(q, s, j + 1))
  {
    ThenHolds(Maybe(Word("/")), q, s, j, e);
    var starts := Ends(Maybe(Word("/")), s, j);
    assert starts == if At(s, j, "/") then [j + 1, j] else [j];
    if At(s, j, "/") { assert starts[0] == j + 1 && starts[1] == j; } else { assert starts[0] == j; }
    if e in Ends(q, s, j) { assert j in starts; }
  }

  /** The one place the N after a letter can stand. */
  function PlaceOfN(s: string, i: nat): (e: nat)
    requires i <= |s|
    ensures i <= e <= |s|
  {
    var a := Reach(Ws, s, i);
    if a < |s| && s[a] == '/' then Reach(Ws, s, a + 1) else a
  }

  ghost predicate EndsAfterN(s: string, i: nat, e: nat)
    requires i <= |s|
  {
    At(s, PlaceOfN(s, i), "N") && e == PlaceOfN(s, i) + 1
  }

  lemma SlashOnlyAtStop(s: string, i: nat, j: nat)
    requires i <= j <= |s| && j <= Reach(Ws, s, i) && At(s, j, "/")
    ensures j == Reach(Ws, s, i) < |s| && s[j] == '/'
  {
    AtOne(s, j, '/');
    assert j < Reach(Ws, s, i) ==> In(Ws, s[j]);
  }

  /** From anywhere, ends after the N that follows the blanks, and nowhere else. */
  ghost predicate FindsNAt(q: Pattern, s: string, j: nat, e: nat)
    requires j <= |s|
  {
    e in Ends(q, s, j) <==> At(s, Reach(Ws, s, j), "N") && e == Reach(Ws, s, j) + 1
  }

  ghost predicate FindsN(q: Pattern, s: string) { forall j: nat, e: nat :: j <= |s| ==> FindsNAt(q, s, j, e) }

  lemma TailEndsAfterN(q: Pattern, s: string, i: nat, j: nat, e: nat)
    requires i <= j <= |s| && j <= Reach(Ws, s, i) && FindsN(q, s)
    requires e in Ends(Then(Maybe(Word("/")), q), s, j)
    ensures EndsAfterN(s, i, e)
  {
    SlashHolds(q, s, j, e);
    ReachMeets(s, i, j);
    AtOne(s, Reach(Ws, s, i), 'N');
    assert FindsNAt(q, s, j, e);
    if At(s, j, "/") {
      SlashOnlyAtStop(s, i, j);
      assert FindsNAt(q, s, j + 1, e);
    }
  }

  lemma TailFindsN(q: Pattern, s: string, i: nat, e: nat)
    requires i <= |s| && EndsAfterN(s, i, e) && FindsN(q, s)
    ensures e in Ends(Then(Maybe(Word("/")), q), s, Reach(Ws, s, i))
  {
    var a := Reach(Ws, s, i);
    AtOne(s, a, '/');
    SlashHolds(q, s, a, e);
    ReachMeets(s, i, a);
    assert FindsNAt(q, s, a, e) && (a < |s| ==> FindsNAt(q, s, a + 1, e));
  }

  lemma TemplateLetter(s: string, i: nat, e: nat)
    requires i <= |s|
    ensures e in Ends(Then(Many(Ws), Then(Maybe(Word("/")), AFTER_SLASH)), s, i) <==> EndsAfterN(s, i, e)
  {
    forall j: nat, k: nat | j <= |s|
      ensures FindsNAt(AFTER_SLASH, s, j, k)
    {
      AfterSlash(s, j, k);
    }
    RunThenTail(AFTER_SLASH, s, i, e);
  }

  /** From wherever in the run the tail is tried, it ends where the N stands. */
  lemma RunThenTail(q: Pattern, s: string, i: nat, e: nat)
    requires i <= |s| && FindsN(q, s)
    ensures e in Ends(Then(Many(Ws), Then(Maybe(Word("/")), q)), s, i) <==> EndsAfterN(s, i, e)
  {
    var tail := Then(Maybe(Word("/")), q);
    ThenHolds(Many(Ws), tail, s, i, e);
    if EndsAfterN(s, i, e) {
      BlanksHold(s, i, Reach(Ws, s, i));
      TailFindsN(q, s, i, e);
    }
    if Leads(Ends(Many(Ws), s, i), tail, s, e) {
      var j: nat :| j in Ends(Many(Ws), s, i) && j <= |s| && e in Ends(tail, s, j);
      BlanksHold(s, i, j);
      TailEndsAfterN(q, s, i, j, e);
    }
  }

  const BEFORE_N: Pattern := Then(BLANKS, Maybe(Then(Word("/"), BLANKS)))

  lemma SlashBlanks(s: string, j: nat, k: nat)
    requires j <= |s|
    ensures k in Ends(Maybe(Then(Word("/"), Many(Ws))), s, j)
            <==> k == j || (At(s, j, "/") && j + 1 <= k <= Reach(Ws, s, j + 1))
  {
    ThenHolds(Word("/"), Many(Ws), s, j, k);
    if At(s, j, "/") {
      assert Ends(Word("/"), s, j) == [j + 1];
      assert [j + 1][0] == j + 1;
      BlanksHold(s, j + 1, k);
    }
  }

  lemma OnlyAtStop(s: string, i: nat, k: nat)
    requires i <= k <= |s| && k <= Reach(Ws, s, i) && At(s, k, "N")
    ensures k == Reach(Ws, s, i)
  {
    AtOne(s, k, 'N');
    assert k < Reach(Ws, s, i) ==> In(Ws, s[k]);
  }

  lemma SlashBlanksThenN(s: string, i: nat, j: nat, k: nat)
    requires i <= j <= |s| && j <= Reach(Ws, s, i) && At(s, k, "N")
    ensures k in Ends(Maybe(Then(Word("/"), Many(Ws))), s, j) ==> k == PlaceOfN(s, i)
    ensures j == Reach(Ws, s, i) && k == PlaceOfN(s, i) ==> k in Ends(Maybe(Then(Word("/"), Many(Ws))), s, j)
  {
    AtOne(s, k, 'N');
    AtOne(s, j, '/');
    SlashBlanks(s, j, k);
    if k == j { OnlyAtStop(s, i, k); }
    if At(s, j, "/") {
      SlashOnlyAtStop(s, i, j);
      if j + 1 <= k <= Reach(Ws, s, j + 1) { OnlyAtStop(s, j + 1, k); }
    }
  }

  lemma BeforeN(s: string, i: nat, k: nat)
    requires i <= |s|
    ensures k in Ends(BEFORE_N, s, i) && At(s, k, "N") <==> k == PlaceOfN(s, i) && At(s, k, "N")
  {
    var a := Reach(Ws, s, i);
    ThenHolds(Many(Ws), Maybe(Then(Word("/"), Many(Ws))), s, i, k);
    BlanksHold(s, i, a);
    if At(s, k, "N") {
      SlashBlanksThenN(s, i, a, k);
      if k in Ends(BEFORE_N, s, i) {
        var j: nat :| j in Ends(Many(Ws), s, i) && j <= |s| && k in Ends(Maybe(Then(Word("/"), Many(Ws))), s, j);
        BlanksHold(s, i, j);
        SlashBlanksThenN(s, i, j, k);
      }
    }
  }

  lemma LinearLetterEnds(s: string, i: nat, e: nat)
    requires i <= |s|
    ensures e in Ends(Then(BEFORE_N, Word("N")), s, i) <==> EndsAfterN(s, i, e)
  {
    ThenHolds(BEFORE_N, Word("N"), s, i, e);
    var k := PlaceOfN(s, i);
    BeforeN(s, i, k);
    if e > 0 { BeforeN(s, i, e - 1); }
    assert forall j: nat :: j <= |s| && e in Ends(Word("N"), s, j) ==> At(s, j, "N") && e == j + 1;
    if EndsAfterN(s, i, e) { assert e in Ends(Word("N"), s, k); }
  }

  // ---- the label as a whole ----

  /** Two lists of one and the same end lead to the same first match. */
  lemma SameEndFirst(x: seq<nat>, y: seq<nat>, e: nat, p: Pattern, s: string, i: nat)
    requires i <= |s| && Inside(x, i, |s|) && Inside(y, i, |s|)
    requires (x == [] <==> y == []) && Inside(x, e, e) && Inside(y, e, e)
    ensures First(Each(x, p, s, i)) == First(Each(y, p, s, i))
  {
    if x != [] {
      assert e == x[0];
      EachRepeats(x, e, p, s, i);
      EachRepeats(y, e, p, s, i);
    }
  }

  lemma WordThen(w: string, p: Pattern, s: string, i: nat)
    requires i <= |s|
    ensures Ends(Then(Word(w), p), s, i) == if At(s, i, w) then Ends(p, s, i + |w|) else []
  {
    if At(s, i, w) { EachOne(i + |w|, p, s, i); }
  }

  lemma OneThen(k: Kind, p: Pattern, s: string, i: nat)
    requires i <= |s|
    ensures Ends(Then(One(k), p), s, i) == if i < |s| && In(k, s[i]) then Ends(p, s, i + 1) else []
  {
    if i < |s| && In(k, s[i]) { EachOne(i + 1, p, s, i); }
  }

  /** From `j`, both patterns match or neither does, and at `e` only. */
  ghost predicate OneEnd(p: Pattern, q: Pattern, s: string, j: nat, e: nat)
    requires j <= |s|
  {
    var x, y := Ends(p, s, j), Ends(q, s, j);
    Inside(x, e, e) && Inside(y, e, e) && (x == [] <==> y == [])
  }

  const AFTER_LETTER: Pattern := Then(BLANKS, Then(Maybe(Word("/")), AFTER_SLASH))
  const LINEAR_AFTER: Pattern := Then(BEFORE_N, Word("N"))

  lemma LetterList(s: string, i: nat)
    requires i <= |s|
    ensures OneEnd(AFTER_LETTER, LINEAR_AFTER, s, i, PlaceOfN(s, i) + 1)
  {
    var x, y := Ends(AFTER_LETTER, s, i), Ends(LINEAR_AFTER, s, i);
    var e := PlaceOfN(s, i) + 1;
    forall k | 0 <= k < |x| ensures x[k] == e { TemplateLetter(s, i, x[k]); }
    forall k | 0 <= k < |y| ensures y[k] == e { LinearLetterEnds(s, i, y[k]); }
    TemplateLetter(s, i, e);
    LinearLetterEnds(s, i, e);
    assert x != [] ==> x[0] == e;
    assert y != [] ==> y[0] == e;
  }

  /** After the same word, two rests with one and the same end. */
  lemma WordsAgree(w: string, p: Pattern, q: Pattern, e: nat, rest: Pattern, s: string, i: nat)
    requires i <= |s|
    requires At(s, i, w) ==> OneEnd(p, q, s, i + |w|, e)
    ensures First(Each(Ends(Then(Word(w), p), s, i), rest, s, i)) == First(Each(Ends(Then(Word(w), q), s, i), rest, s, i))
  {
    WordThen(w, p, s, i);
    WordThen(w, q, s, i);
    if At(s, i, w) { SameEndFirst(Ends(Then(Word(w), p), s, i), Ends(Then(Word(w), q), s, i), e, rest, s, i); }
  }

  lemma LettersAgree(c: string, rest: Pattern, s: string, i: nat)
    requires i <= |s|
    ensures First(Each(Ends(Letter(c), s, i), rest, s, i)) == First(Each(Ends(LinearLetter(c), s, i), rest, s, i))
  {
    var e := if At(s, i, c) then PlaceOfN(s, i + |c|) + 1 else 0;
    if At(s, i, c) { LetterList(s, i + |c|); }
    WordsAgree(c, AFTER_LETTER, LINEAR_AFTER, e, rest, s, i);
  }

  /** Starts no match with a blank. */
  ghost predicate SolidAt(q: Pattern, s: string, j: nat)
    requires j < |s|
  {
    Blank(s[j]) ==> Ends(q, s, j) == []
  }

  ghost predicate Solid(q: Pattern, s: string) { forall j: nat :: j < |s| ==> SolidAt(q, s, j) }

  ghost predicate BlankRun(s: string, low: nat, top: nat) { top < |s| && forall j :: low <= j <= top ==> Blank(s[j]) }

  /** Before the run of blanks ends, nothing solid is found, and an optional rest is skipped at every place. */
  lemma {:induction false} NothingInRun(q: Pattern, s: string, i: nat, low: nat, top: nat)
    requires i <= low <= top < |s| && Solid(q, s) && BlankRun(s, low, top)
    ensures Inside(Down(low, top), i, |s|) && Each(Down(low, top), q, s, i) == []
    decreases top
  {
    DownInside(low, top, i, |s|);
    assert SolidAt(q, s, top);
    if low < top {
      NothingInRun(q, s, i, low, top - 1);
      DownSteps(low, top);
      EachSkips(top, Down(low, top - 1), q, s, i);
    } else {
      JustOne(top);
      EachOne(top, q, s, i);
    }
  }

  lemma JustOne(top: nat)
    ensures Down(top, top) == [top]
  {
  }

  lemma {:induction false} MaybeInRun(q: Pattern, s: string, i: nat, low: nat, top: nat)
    requires i <= low <= top < |s| && Solid(q, s) && BlankRun(s, low, top)
    ensures Inside(Down(low, top), i, |s|) && Each(Down(low, top), Maybe(q), s, i) == Down(low, top)
    decreases top
  {
    DownInside(low, top, i, |s|);
    if low < top {
      MaybeInRun(q, s, i, low, top - 1);
      DownSteps(low, top);
      MaybeStep(q, s, i, top, Down(low, top - 1));
    } else {
      MaybeSkips(q, s, top);
      EachOne(top, Maybe(q), s, i);
    }
  }

  lemma MaybeStep(q: Pattern, s: string, i: nat, top: nat, rest: seq<nat>)
    requires i <= top < |s| && Blank(s[top]) && Solid(q, s) && Inside(rest, i, |s|) && Each(rest, Maybe(q), s, i) == rest
    ensures Inside([top] + rest, i, |s|) && Each([top] + rest, Maybe(q), s, i) == [top] + rest
  {
    MaybeSkips(q, s, top);
    EachStep(top, rest, Maybe(q), s, i);
  }

  lemma MaybeSkips(q: Pattern, s: string, j: nat)
    requires j < |s| && Blank(s[j]) && Solid(q, s)
    ensures Ends(Maybe(q), s, j) == [j]
  {
    assert SolidAt(q, s, j);
  }

  lemma RunIsBlank(s: string, i: nat)
    requires i <= |s|
    ensures forall j :: i <= j < Reach(Ws, s, i) ==> Blank(s[j])
  {
    assert forall j :: i <= j < Reach(Ws, s, i) ==> In(Ws, s[j]);
  }

  lemma AfterRun(first: seq<nat>, rest: seq<nat>)
    requires rest == []
    ensures first + rest == first
  {
  }

  lemma SolidStep(q: Pattern, s: string, i: nat, a: nat, rest: seq<nat>)
    requires i <= a <= |s| && Inside(rest, i, |s|) && Each(rest, q, s, i) == []
    ensures Inside([a] + rest, i, |s|) && Each([a] + rest, q, s, i) == Ends(q, s, a)
  {
    EachStep(a, rest, q, s, i);
    AfterRun(Ends(q, s, a), Each(rest, q, s, i));
  }

  lemma BlanksThenSolid(q: Pattern, s: string, i: nat)
    requires i <= |s| && Solid(q, s)
    ensures Ends(Then(Many(Ws), q), s, i) == Ends(q, s, Reach(Ws, s, i))
  {
    var a := Reach(Ws, s, i);
    DownInside(i, a, i, |s|);
    RunIsBlank(s, i);
    if i < a {
      NothingInRun(q, s, i, i, a - 1);
      DownSteps(i, a);
      SolidStep(q, s, i, a, Down(i, a - 1));
    } else {
      EachOne(a, q, s, i);
    }
  }

  lemma BlanksThenMaybe(q: Pattern, s: string, i: nat)
    requires i <= |s| && Solid(q, s)
    ensures var a := Reach(Ws, s, i); Ends(Then(Many(Ws), Maybe(q)), s, i) == Ends(q, s, a) + Down(i, a)
  {
    var a := Reach(Ws, s, i);
    DownInside(i, a, i, |s|);
    RunIsBlank(s, i);
    if i < a {
      MaybeInRun(q, s, i, i, a - 1);
      DownSteps(i, a);
      EachStep(a, Down(i, a - 1), Maybe(q), s, i);
      Sequences.Regroup(Ends(q, s, a), [a], Down(i, a - 1));
    } else {
      EachOne(a, Maybe(q), s, i);
    }
  }

  const MARKED: Pattern := Then(One(Mark), BLANKS)

  lemma MarkIsSolid(s: string)
    ensures Solid(MARKED, s)
  {
    forall j: nat | j < |s| ensures SolidAt(MARKED, s, j) { OneThen(Mark, BLANKS, s, j); }
  }

  /** The separator after a label, from anywhere in a run of blanks. */
  lemma SeparatorEnds(s: string, j: nat)
    requires j <= |s|
    ensures var a := Reach(Ws, s, j);
            Ends(SEPARATOR, s, j) == Ends(MARKED, s, a) + if j < a then Down(j + 1, a) else []
  {
    MarkIsSolid(s);
    BlanksThenSolid(MARKED, s, j);
    OneThen(Ws, Many(Ws), s, j);
    RunIsBlank(s, j);
    if j < Reach(Ws, s, j) { ReachMeets(s, j, j + 1); }
  }

  /** The first separator found at `j`, somewhere in a run of blanks or at its end, where `m` begins with the mark. */
  ghost predicate SeparatesAt(p: Pattern, m: Pattern, s: string, j: nat)
    requires j <= |s|
  {
    var a := Reach(Ws, s, j);
    var marked := Ends(m, s, a);
    && (j == a ==> Ends(p, s, j) == marked)
    && First(Ends(p, s, j)) == if marked != [] then First(marked) else if j < a then Some(a) else None
  }

  lemma SeparatorFirst(s: string, j: nat)
    requires j <= |s|
    ensures SeparatesAt(SEPARATOR, MARKED, s, j)
  {
    var a := Reach(Ws, s, j);
    SeparatorEnds(s, j);
    if j < a {
      FirstJoins(Ends(MARKED, s, a), Down(j + 1, a));
    } else {
      AfterRun(Ends(MARKED, s, a), []);
    }
  }

  /** The far end of a run decides, unless nothing is found there. */
  lemma FarDecides(p: Pattern, s: string, i: nat, a: nat)
    requires i < a <= |s|
    ensures Inside(Down(i, a), i, |s|) && Inside(Down(i, a - 1), i, |s|)
    ensures First(Each(Down(i, a), p, s, i))
            == if Ends(p, s, a) == [] then First(Each(Down(i, a - 1), p, s, i)) else First(Ends(p, s, a))
  {
    DownInside(i, a, i, |s|);
    DownInside(i, a - 1, i, |s|);
    DownSteps(i, a);
    EachStep(a, Down(i, a - 1), p, s, i);
    FirstJoins(Ends(p, s, a), Each(Down(i, a - 1), p, s, i));
  }

  lemma NearDecides(p: Pattern, s: string, i: nat)
    requires i <= |s|
    ensures Inside(Down(i, i), i, |s|) && Each(Down(i, i), p, s, i) == Ends(p, s, i)
  {
    JustOne(i);
    EachOne(i, p, s, i);
  }

  /** Giving back blanks before a rest that takes them itself changes nothing. */
  lemma BlanksGivenBack(p: Pattern, s: string, i: nat, a: nat, found: Option<nat>)
    requires i <= a <= |s| && Inside(Down(i, a), i, |s|)
    requires i < a && Ends(p, s, a) == [] ==> First(Ends(p, s, a - 1)) == found && found.Some?
    requires i < a && Ends(p, s, a) != [] ==> First(Ends(p, s, a)) == found
    requires First(Ends(p, s, i)) == found
    ensures First(Each(Down(i, a), p, s, i)) == found
  {
    if i == a {
      NearDecides(p, s, i);
    } else {
      FarDecides(p, s, i, a);
      SecondDecides(p, s, i, a - 1);
    }
  }

  lemma SecondDecides(p: Pattern, s: string, i: nat, top: nat)
    requires i <= top <= |s| && Inside(Down(i, top), i, |s|)
    ensures Ends(p, s, top) != [] ==> First(Each(Down(i, top), p, s, i)) == First(Ends(p, s, top))
  {
    if i == top { NearDecides(p, s, i); } else { FarDecides(p, s, i, top); }
  }

  lemma AtStart(s: string, j: nat, w: string)
    requires w != ""
    ensures At(s, j, w) ==> j < |s| && UpperChar(s[j]) == w[0]
  {
    assert At(s, j, w) ==> UpperChar(s[j + 0]) == w[0];
  }

  lemma NumberIsSolid(s: string)
    ensures Solid(NUMBER, s)
  {
    forall j: nat | j < |s| ensures SolidAt(NUMBER, s, j) {
      AtStart(s, j, "NO");
      AtStart(s, j, "NUMBER");
    }
  }

  ghost predicate Separates(p: Pattern, m: Pattern, s: string) { forall j: nat :: j <= |s| ==> SeparatesAt(p, m, s, j) }

  lemma GivesBack(p: Pattern, m: Pattern, s: string, i: nat)
    requires i <= |s| && Inside(Down(i, Reach(Ws, s, i)), i, |s|) && Separates(p, m, s)
    ensures First(Each(Down(i, Reach(Ws, s, i)), p, s, i)) == First(Ends(p, s, i))
  {
    var a := Reach(Ws, s, i);
    ReachMeets(s, i, a);
    assert SeparatesAt(p, m, s, i) && SeparatesAt(p, m, s, a);
    if i < a {
      ReachMeets(s, i, a - 1);
      assert SeparatesAt(p, m, s, a - 1);
    }
    BlanksGivenBack(p, s, i, a, First(Ends(p, s, i)));
  }

  lemma SeparatorGivesBack(s: string, i: nat)
    requires i <= |s| && Inside(Down(i, Reach(Ws, s, i)), i, |s|)
    ensures First(Each(Down(i, Reach(Ws, s, i)), SEPARATOR, s, i)) == First(Ends(SEPARATOR, s, i))
  {
    SeparatorSeparates(s);
    GivesBack(SEPARATOR, MARKED, s, i);
  }

  lemma SeparatorSeparates(s: string)
    ensures Separates(SEPARATOR, MARKED, s)
  {
    forall j: nat | j <= |s| ensures SeparatesAt(SEPARATOR, MARKED, s, j) { SeparatorFirst(s, j); }
  }

  /** PART, and NO or NUMBER perhaps: the two spellings differ only in blanks given back. */
  lemma PartsAgree(q: Pattern, rest: Pattern, s: string, i: nat)
    requires i <= |s| && Solid(q, s)
    requires forall j: nat :: j <= |s| && Inside(Down(j, Reach(Ws, s, j)), j, |s|) ==>
               First(Each(Down(j, Reach(Ws, s, j)), rest, s, j)) == First(Ends(rest, s, j))
    ensures var x, y := Ends(Then(Many(Ws), Maybe(q)), s, i), Ends(Maybe(Then(Many(Ws), q)), s, i);
            First(Each(x, rest, s, i)) == First(Each(y, rest, s, i))
  {
    var a := Reach(Ws, s, i);
    BlanksThenMaybe(q, s, i);
    BlanksThenSolid(q, s, i);
    DownHolds(i, a);
    EachJoins(Ends(q, s, a), Down(i, a), rest, s, i);
    EachJoins(Ends(q, s, a), [i], rest, s, i);
    FirstJoins(Each(Ends(q, s, a), rest, s, i), Each(Down(i, a), rest, s, i));
    FirstJoins(Each(Ends(q, s, a), rest, s, i), Each([i], rest, s, i));
    EachOne(i, rest, s, i);
  }

  /** Followed by `rest`, both find the same first match. */
  ghost predicate Agree(p: Pattern, q: Pattern, rest: Pattern, s: string, i: nat)
    requires i <= |s|
  {
    First(Each(Ends(p, s, i), rest, s, i)) == First(Each(Ends(q, s, i), rest, s, i))
  }

  lemma OrAgrees(p: Pattern, q: Pattern, p': Pattern, q': Pattern, rest: Pattern, s: string, i: nat)
    requires i <= |s| && Agree(p, q, rest, s, i) && Agree(p', q', rest, s, i)
    ensures Agree(Or(p, p'), Or(q, q'), rest, s, i)
  {
    EachJoins(Ends(p, s, i), Ends(p', s, i), rest, s, i);
    EachJoins(Ends(q, s, i), Ends(q', s, i), rest, s, i);
    FirstJoins(Each(Ends(p, s, i), rest, s, i), Each(Ends(p', s, i), rest, s, i));
    FirstJoins(Each(Ends(q, s, i), rest, s, i), Each(Ends(q', s, i), rest, s, i));
  }

  lemma {:induction false} EachAnywhere(starts: seq<nat>, p: Pattern, s: string, i: nat, j: nat)
    requires i <= |s| && j <= |s| && Inside(starts, i, |s|) && Inside(starts, j, |s|)
    ensures Each(starts, p, s, i) == Each(starts, p, s, j)
  {
    if starts != [] { EachAnywhere(starts[1..], p, s, i, j); }
  }

  lemma WordEach(w: string, p: Pattern, rest: Pattern, s: string, i: nat)
    requires i <= |s| && At(s, i, w)
    ensures Each(Ends(Then(Word(w), p), s, i), rest, s, i) == Each(Ends(p, s, i + |w|), rest, s, i + |w|)
  {
    WordThen(w, p, s, i);
    EachAnywhere(Ends(p, s, i + |w|), rest, s, i, i + |w|);
  }

  lemma WordAgrees(w: string, p: Pattern, q: Pattern, rest: Pattern, s: string, i: nat)
    requires i <= |s| && (At(s, i, w) ==> Agree(p, q, rest, s, i + |w|))
    ensures Agree(Then(Word(w), p), Then(Word(w), q), rest, s, i)
  {
    if At(s, i, w) {
      WordEach(w, p, rest, s, i);
      WordEach(w, q, rest, s, i);
    } else {
      WordThen(w, p, s, i);
      WordThen(w, q, s, i);
    }
  }

  lemma PartAgrees(s: string, i: nat)
    requires i <= |s|
    ensures Agree(Then(Many(Ws), Maybe(NUMBER)), Maybe(Then(Many(Ws), NUMBER)), SEPARATOR, s, i)
  {
    NumberIsSolid(s);
    forall j: nat | j <= |s| && Inside(Down(j, Reach(Ws, s, j)), j, |s|)
      ensures First(Each(Down(j, Reach(Ws, s, j)), SEPARATOR, s, j)) == First(Ends(SEPARATOR, s, j))
    {
      SeparatorGivesBack(s, j);
    }
    PartsAgree(NUMBER, SEPARATOR, s, i);
  }

  lemma LabelsAgree(s: string, i: nat)
    requires i <= |s|
    ensures Agree(LABEL, LINEAR_LABEL, SEPARATOR, s, i)
  {
    if At(s, i, "PART") { PartAgrees(s, i + 4); }
    Alternatives(Then(Many(Ws), Maybe(NUMBER)), Maybe(Then(Many(Ws), NUMBER)), SEPARATOR, s, i);
  }

  lemma Alternatives(part: Pattern, linearPart: Pattern, rest: Pattern, s: string, i: nat)
    requires i <= |s| && (At(s, i, "PART") ==> Agree(part, linearPart, rest, s, i + 4))
    ensures Agree(Or(Letter("P"), Or(Letter("S"), Then(Word("PART"), part))),
                  Or(LinearLetter("P"), Or(LinearLetter("S"), Then(Word("PART"), linearPart))), rest, s, i)
  {
    WordAgrees("PART", part, linearPart, rest, s, i);
    LettersAgree("S", rest, s, i);
    LettersAgree("P", rest, s, i);
    OrAgrees(Letter("S"), LinearLetter("S"), Then(Word("PART"), part), Then(Word("PART"), linearPart), rest, s, i);
    OrAgrees(Letter("P"), LinearLetter("P"), Or(Letter("S"), Then(Word("PART"), part)),
             Or(LinearLetter("S"), Then(Word("PART"), linearPart)), rest, s, i);
  }

  lemma ThenAgrees(p: Pattern, q: Pattern, rest: Pattern, s: string)
    requires forall i: nat :: i <= |s| ==> Agree(p, q, rest, s, i)
    ensures First(Ends(Then(Many(Ws), Then(p, rest)), s, 0)) == First(Ends(Then(Many(Ws), Then(q, rest)), s, 0))
  {
    forall j: nat | j <= |s| ensures First(Ends(Then(p, rest), s, j)) == First(Ends(Then(q, rest), s, j)) {
      assert Agree(p, q, rest, s, j);
    }
    EachFirst(Ends(Many(Ws), s, 0), Then(p, rest), Then(q, rest), s, 0);
  }

  /** In every string both spellings match the same label, or neither matches. */
  lemma SpellingsMatchAlike(s: string)
    ensures First(Ends(TEMPLATE, s, 0)) == First(Ends(LINEAR, s, 0))
  {
    forall i: nat | i <= |s| ensures Agree(LABEL, LINEAR_LABEL, SEPARATOR, s, i) { LabelsAgree(s, i); }
    ThenAgrees(LABEL, LINEAR_LABEL, SEPARATOR, s);
  }

  // ---- the key, and the split ----

  /** How long the leading label is; zero when there is none. */
  function LabelLength(s: string): (n: nat)
    ensures n <= |s|
  {
    if Ends(LINEAR, s, 0) == [] then 0 else Ends(LINEAR, s, 0)[0]
  }

  function Stripped(s: string): string { s[LabelLength(s)..] }

  /** What the key leaves out. */
  predicate Dropped(c: char) { Blank(c) || c == '_' || c == '-' }

  /** What the split counts: its pattern has `\s`, which is wider than the key's own class of blanks. */
  predicate Counts(c: char) { !JsBlank(c) && c != '_' && c != '-' }

  /**
   * Without separators, in upper case. The upper case of one character is a string of its own, of one character
   * or, as for a sharp s, of more.
   */
  function Folded(s: string, upper: char -> string): (r: string) {
    if s == [] then []
    else if Dropped(s[|s| - 1]) then Folded(s[..|s| - 1], upper)
    else Folded(s[..|s| - 1], upper) + upper(s[|s| - 1])
  }

  ghost predicate NeverEmpty(upper: char -> string) { forall c :: upper(c) != "" }

  function Canonical(s: string, upper: char -> string): string { Folded(Stripped(s), upper) }

  lemma {:induction false} FoldedIsPrefix(s: string, upper: char -> string, n: nat)
    requires n <= |s|
    ensures Folded(s[..n], upper) <= Folded(s, upper)
    decreases |s|
  {
    if n < |s| {
      FoldedIsPrefix(s[..|s| - 1], upper, n);
      assert s[..|s| - 1][..n] == s[..n];
    } else {
      assert s[..n] == s;
    }
  }

  /** The ends no further than `n`. */
  function Upto(ends: seq<nat>, n: nat): seq<nat> {
    if ends == [] then [] else if ends[0] <= n then [ends[0]] + Upto(ends[1..], n) else Upto(ends[1..], n)
  }

  lemma {:induction false} UptoInside(ends: seq<nat>, n: nat, i: nat, top: nat)
    requires Inside(ends, i, top)
    ensures Inside(Upto(ends, n), i, n)
  {
    if ends != [] { UptoInside(ends[1..], n, i, top); }
  }

  lemma {:induction false} UptoJoins(a: seq<nat>, b: seq<nat>, n: nat)
    ensures Upto(a + b, n) == Upto(a, n) + Upto(b, n)
  {
    if a == [] {
      assert a + b == b;
    } else {
      assert (a + b)[1..] == a[1..] + b;
      UptoJoins(a[1..], b, n);
    }
  }

  lemma {:induction false} UptoNone(ends: seq<nat>, n: nat, i: nat, top: nat)
    requires Inside(ends, i, top) && n < i
    ensures Upto(ends, n) == []
  {
    if ends != [] { UptoNone(ends[1..], n, i, top); }
  }

  lemma {:induction false} UptoDown(from: nat, top: nat, n: nat)
    requires from <= top && from <= n
    ensures Upto(Down(from, top), n) == Down(from, if top <= n then top else n)
    decreases top
  {
    var d := Down(from, top);
    if from < top {
      assert d[1..] == Down(from, top - 1);
      UptoDown(from, top - 1, n);
    } else {
      assert d[1..] == [];
    }
  }

  lemma {:induction false} ReachCut(k: Kind, s: string, n: nat, i: nat)
    requires i <= n <= |s|
    ensures Reach(k, s[..n], i) == if Reach(k, s, i) <= n then Reach(k, s, i) else n
    decreases n - i
  {
    if i < n && In(k, s[i]) { ReachCut(k, s, n, i + 1); }
  }

  lemma AtCut(s: string, n: nat, i: nat, w: string)
    requires n <= |s|
    ensures At(s[..n], i, w) <==> At(s, i, w) && i + |w| <= n
  {
    if i + |w| <= n {
      assert forall k :: 0 <= k < n ==> s[..n][k] == s[k];
    }
  }

  /** In a string cut short, the ends are the same ones, as far as they go. */
  lemma {:induction false} EndsCut(p: Pattern, s: string, n: nat, i: nat)
    requires i <= n <= |s|
    ensures Ends(p, s[..n], i) == Upto(Ends(p, s, i), n)
    decreases p, 0
  {
    match p {
      case Word(w) => AtCut(s, n, i, w);
      case One(k) =>
      case Many(k) =>
        ReachCut(k, s, n, i);
        UptoDown(i, Reach(k, s, i), n);
      case Then(a, b) =>
        EndsCut(a, s, n, i);
        EachCut(Ends(a, s, i), b, s, n, i);
      case Or(a, b) =>
        EndsCut(a, s, n, i);
        EndsCut(b, s, n, i);
        UptoJoins(Ends(a, s, i), Ends(b, s, i), n);
      case Maybe(a) =>
        EndsCut(a, s, n, i);
        UptoJoins(Ends(a, s, i), [i], n);
        assert [i][1..] == [] && Upto([i][1..], n) == [];
    }
  }

  lemma {:induction false} EachCut(starts: seq<nat>, p: Pattern, s: string, n: nat, i: nat)
    requires i <= n <= |s| && Inside(starts, i, |s|)
    requires Inside(Upto(starts, n), i, n)
    ensures Each(Upto(starts, n), p, s[..n], i) == Upto(Each(starts, p, s, i), n)
    decreases p, 1 + |starts|
  {
    if starts != [] {
      var j, rest := starts[0], starts[1..];
      UptoInside(rest, n, i, |s|);
      EachCut(rest, p, s, n, i);
      UptoJoins(Ends(p, s, j), Each(rest, p, s, i), n);
      if j <= n {
        EndsCut(p, s, n, j);
        assert ([j] + Upto(rest, n))[1..] == Upto(rest, n);
      } else {
        UptoNone(Ends(p, s, j), n, j, |s|);
      }
    }
  }

  /** A head that holds the whole label has the same label. */
  lemma LabelOfHead(s: string, n: nat)
    requires LabelLength(s) <= n <= |s|
    ensures LabelLength(s[..n]) == LabelLength(s)
  {
    EndsCut(LINEAR, s, n, 0);
    UptoFirst(Ends(LINEAR, s, 0), n);
  }

  lemma UptoFirst(ends: seq<nat>, n: nat)
    requires ends != [] ==> ends[0] <= n
    ensures First(Upto(ends, n)) == First(ends)
  {
  }

  lemma HeadKeeps(raw: string, upper: char -> string, i: nat)
    requires i <= |Stripped(raw)|
    ensures Canonical(raw[..LabelLength(raw) + i], upper) == Folded(Stripped(raw)[..i], upper) <= Canonical(raw, upper)
  {
    var n := LabelLength(raw) + i;
    LabelOfHead(raw, n);
    assert raw[..n][LabelLength(raw)..] == Stripped(raw)[..i];
    FoldedIsPrefix(Stripped(raw), upper, i);
  }

  /** How many characters the split counts. */
  function Counted(s: string): (n: nat)
    ensures n <= |s|
  {
    if s == [] then 0 else Counted(s[..|s| - 1]) + (if Counts(s[|s| - 1]) then 1 else 0)
  }

  lemma {:induction false} CountedGrows(s: string, n: nat)
    requires n <= |s|
    ensures Counted(s[..n]) <= Counted(s)
    decreases |s|
  {
    if n < |s| {
      CountedGrows(s[..|s| - 1], n);
      assert s[..|s| - 1][..n] == s[..n];
    } else {
      assert s[..n] == s;
    }
  }

  /** The family ends with its last counted character, or, when there are too few, with the string. */
  ghost predicate FamilyEnds(body: string, family: nat, n: nat) {
    n <= |body|
    && if Counted(body) < family then n == |body| else Counted(body[..n]) == family && (n > 0 ==> Counts(body[n - 1]))
  }

  lemma FamilyEndsOnce(body: string, family: nat, m: nat, n: nat)
    requires FamilyEnds(body, family, m) && FamilyEnds(body, family, n)
    ensures m == n
  {
    if Counted(body) >= family && m != n {
      var lo, hi := if m < n then m else n, if m < n then n else m;
      assert body[..hi][..hi - 1] == body[..hi - 1];
      assert body[..hi - 1][..lo] == body[..lo];
      CountedGrows(body[..hi - 1], lo);
      assert false;
    }
  }

  /** The key and the count agree on a character: both leave it out, or both take it as one. */
  ghost predicate Plain(c: char, upper: char -> string) { if Counts(c) then |upper(c)| == 1 else Dropped(c) }

  ghost predicate AllPlain(s: string, upper: char -> string) { forall k :: 0 <= k < |s| ==> Plain(s[k], upper) }

  /** The key holds at least what the split counts, and exactly that if and only if every character is plain. */
  lemma {:induction false} CountedInKey(s: string, upper: char -> string)
    requires NeverEmpty(upper)
    ensures Counted(s) <= |Folded(s, upper)| && (Counted(s) == |Folded(s, upper)| <==> AllPlain(s, upper))
  {
    if s != [] {
      var front, last := s[..|s| - 1], s[|s| - 1];
      assert s == front + [last];
      CountedInKey(front, upper);
      assert upper(last) != "";
      assert AllPlain(s, upper) <==> AllPlain(front, upper) && Plain(last, upper);
    }
  }

  /** The key of the head is the first `family` characters of the whole key, when that has as many. */
  ghost predicate KeySplits(raw: string, family: nat, head: string, upper: char -> string) {
    |Canonical(raw, upper)| >= family ==> Canonical(head, upper) == Canonical(raw, upper)[..family]
  }

  /** How many characters are blanks for the count alone, and stay in the key. */
  function OddBlanks(s: string): nat {
    if s == [] then 0 else OddBlanks(s[..|s| - 1]) + (if JsBlank(s[|s| - 1]) && !Blank(s[|s| - 1]) then 1 else 0)
  }

  /** By how many characters the upper case is longer than what the key takes. */
  function Growth(s: string, upper: char -> string): int {
    if s == [] then 0
    else Growth(s[..|s| - 1], upper) + (if Dropped(s[|s| - 1]) then 0 else |upper(s[|s| - 1])| - 1)
  }

  lemma {:induction false} KeyLength(s: string, upper: char -> string)
    ensures |Folded(s, upper)| == Counted(s) + OddBlanks(s) + Growth(s, upper)
  {
    if s != [] { KeyLength(s[..|s| - 1], upper); }
  }

  /** When it is, for every string and every family length. */
  ghost predicate MaySplit(body: string, family: nat, n: nat, upper: char -> string)
    requires n <= |body|
  {
    if Counted(body) >= family then AllPlain(body[..n], upper)
    else Counted(body) + OddBlanks(body) + Growth(body, upper) <= family
  }

  lemma KeySplitsExactlyWhen(raw: string, family: nat, n: nat, upper: char -> string)
    requires NeverEmpty(upper)
    requires FamilyEnds(Stripped(raw), family, n)
    ensures KeySplits(raw, family, raw[..LabelLength(raw) + n], upper) <==> MaySplit(Stripped(raw), family, n, upper)
  {
    var body := Stripped(raw);
    HeadKeeps(raw, upper, n);
    CountedInKey(body[..n], upper);
    CountedInKey(body, upper);
    KeyLength(body, upper);
    if Counted(body) < family { assert raw[..LabelLength(raw) + n] == raw; }
  }

  /** A string that begins with neither a blank nor a P nor an S has no label. */
  lemma NoLabel(s: string)
    requires s != "" && !Blank(s[0]) && UpperChar(s[0]) != 'P' && UpperChar(s[0]) != 'S'
    ensures Stripped(s) == s
  {
    LetterMisses("P", s);
    LetterMisses("S", s);
    assert !At(s, 0, "PART") by { assert "PART"[0] == 'P'; }
    assert Ends(Then(Word("PART"), Maybe(Then(BLANKS, NUMBER))), s, 0) == [];
    assert Ends(LINEAR_LABEL, s, 0) == [];
    assert Ends(Then(LINEAR_LABEL, SEPARATOR), s, 0) == [];
    EachOne(0, Then(LINEAR_LABEL, SEPARATOR), s, 0);
    assert Ends(BLANKS, s, 0) == [0];
  }

  lemma LetterMisses(c: string, s: string)
    requires |c| == 1 && s != "" && UpperChar(s[0]) != c[0]
    ensures Ends(LinearLetter(c), s, 0) == []
  {
    assert !At(s, 0, c);
  }

  lemma NbspCounts(raw: string)
    requires raw == "A\U{a0}B"
    ensures Counted(raw) == 2 && raw[..3] == raw
  {
    assert raw[..2][..1] == raw[..1] && raw[..1][..0] == "";
    assert Counted(raw[..1]) == 1;
  }

  lemma NbspStays(raw: string, upper: char -> string)
    requires raw == "A\U{a0}B" && forall c :: upper(c) == [UpperChar(c)]
    ensures Folded(raw, upper) == raw
  {
    assert raw[..2][..1] == raw[..1] && raw[..1][..0] == "";
    assert Folded(raw[..1], upper) == "A";
    assert Folded(raw[..2], upper) == raw[..2];
  }

  /** A non-breaking space is skipped by the count and stays in the key. */
  lemma NbspMovesTheSplit(raw: string, upper: char -> string)
    requires raw == "A\U{a0}B" && forall c :: upper(c) == [UpperChar(c)]
    ensures FamilyEnds(Stripped(raw), 2, 3) && Canonical(raw, upper) == raw && !KeySplits(raw, 2, raw, upper)
  {
    NoLabel(raw);
    NbspCounts(raw);
    NbspStays(raw, upper);
    WholeEnds(raw, 2);
    KeyTooLong(raw, 2, upper);
  }

  lemma WholeEnds(body: string, family: nat)
    requires body != "" && Counted(body) == family && Counts(body[|body| - 1])
    ensures FamilyEnds(body, family, |body|)
  {
    assert body[..|body|] == body;
  }

  lemma KeyTooLong(raw: string, family: nat, upper: char -> string)
    requires Canonical(raw, upper) == raw && family < |raw|
    ensures !KeySplits(raw, family, raw, upper)
  {
    assert |raw[..family]| != |raw|;
  }

  /** Cut behind the last counted character of the family, or not at all. */
  lemma CutIsFamily(body: string, family: nat, n: nat)
    requires n <= |body| && Counted(body[..n]) <= family
    requires n > 0 && Counted(body[..n]) == family ==> Counts(body[n - 1])
    requires n < |body| ==> Counted(body[..n]) == family
    ensures FamilyEnds(body, family, n)
  {
    CountedGrows(body, n);
    if n == |body| { assert body[..n] == body; }
  }

  /**
   * Splits a written number after the first `family` characters that count. What that makes of the key is said
   * by `KeySplitsExactlyWhen`.
   */
  method SplitFamily(raw: string, family: nat) returns (head: string, tail: string)
    ensures head + tail == raw && |head| >= LabelLength(raw)
    ensures FamilyEnds(Stripped(raw), family, |head| - LabelLength(raw))
  {
    var body := Stripped(raw);
    var lead := |raw| - |body|;
    var kept := 0;
    for i := 0 to |body|
      invariant kept == Counted(body[..i]) <= family
      invariant i > 0 && kept == family ==> Counts(body[i - 1])
    {
      if kept == family {
        CutIsFamily(body, family, i);
        return raw[..lead + i], raw[lead + i..];
      }
      assert body[..i + 1][..i] == body[..i];
      if Counts(body[i]) { kept := kept + 1; }
    }
    CutIsFamily(body, family, |body|);
    return raw, "";
  }
}
