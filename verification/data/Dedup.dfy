/**
 * Copies of one listing. Two posts are compared by author and words, and each worker decides from one
 * snapshot of the table, without a lock, whether the post it holds is the copy to alert.
 */
module Dedup {
  import opened Options
  import opened Arithmetic
  import opened Ascii
  import Decimal
  import opened Lexical
  import Sequences
  import opened Claims

  const WINDOW_MS: int := 72 * 3600000
  const MIN_BODY_CHARS: nat := 80
  const MAKERS: set<string> := {
    "samsung", "hynix", "skhynix", "micron", "crucial", "kingston", "corsair", "gskill", "intel",
    "seagate", "wd", "toshiba", "hgst", "sandisk", "kioxia", "solidigm"
  }

  datatype Listing = Listing(subreddit: string, author: Option<string>, title: string, selftext: string, postedAt: int)

  // ---- words ----

  function Lower(s: string): (r: string)
    ensures |r| == |s| && forall k :: 0 <= k < |s| ==> r[k] == LowerChar(s[k])
  {
    seq(|s|, i requires 0 <= i < |s| => LowerChar(s[i]))
  }

  predicate WordChar(c: char) { 'a' <= c <= 'z' || '0' <= c <= '9' }

  /** Lower-case letters and digits of ASCII. */
  lemma WordCharCodes(c: char)
    ensures WordChar(c) <==> 97 <= c as int <= 122 || 48 <= c as int <= 57
  {
  }

  /** A stretch of word characters that cannot be made longer. */
  predicate Run(s: string, i: nat, j: nat) {
    && i < j <= |s|
    && (forall k :: i <= k < j ==> WordChar(s[k]))
    && (i == 0 || !WordChar(s[i - 1]))
    && (j == |s| || !WordChar(s[j]))
  }

  function Piece(s: string, i: nat, j: nat): set<string>
    requires i <= j <= |s|
  {
    if i < j then {s[i..j]} else {}
  }

  /** Splitting at everything else: `start` is where the piece being read began. */
  function Pieces(s: string, start: nat, k: nat): set<string>
    requires start <= k <= |s|
    decreases |s| - k
  {
    if k == |s| then Piece(s, start, k)
    else if WordChar(s[k]) then Pieces(s, start, k + 1)
    else Piece(s, start, k) + Pieces(s, k + 1, k + 1)
  }

  function Words(text: string): set<string> { Pieces(Lower(text), 0, 0) }

  ghost predicate RunsAs(s: string, from: nat, w: string) {
    exists i: nat, j: nat :: from <= i && Run(s, i, j) && w == s[i..j]
  }

  lemma {:induction false} PiecesAreRuns(s: string, start: nat, k: nat, w: string)
    requires start <= k <= |s| && (forall i :: start <= i < k ==> WordChar(s[i]))
    requires start == 0 || !WordChar(s[start - 1])
    ensures w in Pieces(s, start, k) <==> RunsAs(s, start, w)
    decreases |s| - k
  {
    if k == |s| || !WordChar(s[k]) {
      if start < k { assert Run(s, start, k); }
      if k < |s| { PiecesAreRuns(s, k + 1, k + 1, w); }
      if RunsAs(s, start, w) {
        var i: nat, j: nat :| start <= i && Run(s, i, j) && w == s[i..j];
        if i <= k {
          assert i == start && j == k;
        }
      }
    } else {
      PiecesAreRuns(s, start, k + 1, w);
    }
  }

  /** The words of a text are exactly its maximal runs of letters and digits, in lower case. */
  lemma WordsAreRuns(text: string, w: string)
    ensures w in Words(text) <==> RunsAs(Lower(text), 0, w)
  {
    PiecesAreRuns(Lower(text), 0, 0, w);
  }

  /** Where "[w]" begins. */
  predicate WantAt(s: string, k: nat) { k + 3 <= |s| && s[k..k + 3] == "[w]" }

  lemma WantShifts(s: string)
    requires s != ""
    ensures forall k: nat :: k > 0 ==> (WantAt(s, k) <==> WantAt(s[1..], k - 1))
  {
    forall k: nat | k > 0 ensures WantAt(s, k) <==> WantAt(s[1..], k - 1) {
      if k + 3 <= |s| { assert s[k..k + 3] == s[1..][k - 1..k + 2]; }
    }
  }

  /** Everything before the first "[w]". */
  function CutWant(s: string): (r: string)
    ensures r <= s
    ensures r == s || WantAt(s, |r|)
    ensures forall k: nat :: k < |r| ==> !WantAt(s, k)
  {
    if s == [] || WantAt(s, 0) then ""
    else
      WantShifts(s);
      [s[0]] + CutWant(s[1..])
  }

  function IndexOf(s: string, c: char): (k: nat)
    ensures k <= |s| && (k < |s| ==> s[k] == c)
    ensures forall i :: 0 <= i < k ==> s[i] != c
  {
    if s == [] || s[0] == c then 0 else 1 + IndexOf(s[1..], c)
  }

  /** Every bracketed tag becomes a blank; a bracket that is never closed stays. */
  function StripTags(s: string): (r: string)
    ensures ']' !in s || '[' !in s ==> r == s
    ensures forall i, j :: 0 <= i < j < |r| && r[i] == '[' ==> r[j] != ']'
    decreases |s|
  {
    if s == [] then ""
    else if s[0] == '[' && IndexOf(s, ']') < |s| then " " + StripTags(s[IndexOf(s, ']') + 1..])
    else
      assert s[0] == '[' ==> ']' !in s;
      [s[0]] + StripTags(s[1..])
  }

  lemma CharIsKept(c: char, s: string)
    requires c != '['
    ensures StripTags([c] + s) == [c] + StripTags(s)
  {
    assert ([c] + s)[1..] == s;
  }

  lemma {:induction false} TextIsKept(a: string, b: string)
    requires '[' !in a
    ensures StripTags(a + b) == a + StripTags(b)
  {
    if a == "" {
      assert a + b == b;
      assert a + StripTags(b) == StripTags(b);
    } else {
      var c, t := a[0], a[1..];
      assert a == [c] + t;
      TextIsKept(t, b);
      CharIsKept(c, t + b);
      Sequences.Regroup([c], t, b);
      Sequences.Regroup([c], t, StripTags(b));
    }
  }

  lemma {:induction false} IndexOfFirst(a: string, c: char, b: string)
    requires c !in a
    ensures IndexOf(a + [c] + b, c) == |a|
  {
    var s := a + [c] + b;
    if a != "" {
      assert s[1..] == a[1..] + [c] + b;
      IndexOfFirst(a[1..], c, b);
    }
  }

  /** Text before a tag stays, the tag up to the first closing bracket is one blank, and the rest is stripped likewise. */
  lemma TagsBecomeBlanks(a: string, tag: string, b: string)
    requires '[' !in a && ']' !in tag
    ensures StripTags(a + ("[" + tag + "]" + b)) == a + " " + StripTags(b)
  {
    var s := "[" + tag + "]" + b;
    TextIsKept(a, s);
    IndexOfFirst("[" + tag, ']', b);
    assert s == "[" + tag + [']'] + b;
    assert s[|tag| + 2..] == b;
    assert StripTags(s) == " " + StripTags(b);
    Sequences.Regroup(a, " ", StripTags(b));
  }

  function ListingWords(title: string): set<string> { Words(StripTags(CutWant(Lower(title)))) }

  // ---- comparing ----

  /** |a * b| / |a + b| >= num / den, and zero when either is empty. */
  predicate Alike(a: set<string>, b: set<string>, num: nat, den: nat) {
    a != {} && b != {} && |a * b| * den >= num * |a + b|
  }

  lemma InclusionExclusion(a: set<string>, b: set<string>)
    ensures |a + b| == |a| + |b| - |a * b|
  {
    assert a + b == (a - b) + (a * b) + (b - a);
    assert a == (a - b) + (a * b) && b == (b - a) + (a * b);
  }

  /** Counting the shared words one by one, then shared / (|a| + |b| - shared) >= num / den. */
  method Jaccard(a: set<string>, b: set<string>, num: nat, den: nat) returns (alike: bool)
    requires num > 0
    ensures alike == Alike(a, b, num, den)
  {
    if a == {} || b == {} { return false; }
    var shared, rest, seen := 0, a, {};
    while rest != {}
      invariant rest == a - seen && seen <= a && shared == |seen * b|
      decreases |rest|
    {
      var w :| w in rest;
      if w in b {
        shared := shared + 1;
        assert (seen + {w}) * b == seen * b + {w};
      } else {
        assert (seen + {w}) * b == seen * b;
      }
      seen, rest := seen + {w}, rest - {w};
    }
    assert seen == a;
    InclusionExclusion(a, b);
    alike := shared * den >= num * (|a| + |b| - shared);
  }

  predicate AllDigits(s: string) { s != [] && forall k :: 0 <= k < |s| ==> Decimal.IsDigit(s[k]) }

  /** Digits then x, or x then digits. */
  predicate IsQuantity(w: string) {
    w != [] && ((w[|w| - 1] == 'x' && AllDigits(w[..|w| - 1])) || (w[0] == 'x' && AllDigits(w[1..])))
  }

  function Quantities(a: set<string>): set<string> { set w | w in a && IsQuantity(w) }

  function MakersOf(a: set<string>): set<string> { set w | w in a && w in MAKERS }

  function WithDigits(a: set<string>): set<string> { set w | w in a && exists k :: 0 <= k < |w| && Decimal.IsDigit(w[k]) }

  /** Both name words of a kind, and none of them in common. */
  predicate Conflicting(ofA: set<string>, ofB: set<string>) { ofA != {} && ofB != {} && ofA !! ofB }

  predicate Nameless(author: Option<string>) {
    author.None? || author.value == "" || Lower(author.value) == "[deleted]"
  }

  predicate SameAuthor(a: Option<string>, b: Option<string>) {
    !Nameless(a) && b.Some? && b.value != "" && Lower(a.value) == Lower(b.value)
  }

  predicate TitlesClash(a: set<string>, b: set<string>) {
    Conflicting(Quantities(a), Quantities(b)) || Conflicting(MakersOf(a), MakersOf(b))
  }

  predicate TitlesMatch(a: set<string>, b: set<string>) {
    && Alike(a, b, 3, 5)
    && (WithDigits(a) == {} || WithDigits(b) == {} || Alike(WithDigits(a), WithDigits(b), 1, 2))
  }

  predicate BodiesMatch(a: Listing, b: Listing) {
    && a.subreddit != b.subreddit
    && |a.selftext| >= MIN_BODY_CHARS && |b.selftext| >= MIN_BODY_CHARS
    && Alike(Words(a.selftext), Words(b.selftext), 4, 5)
  }

  predicate SameListing(a: Listing, b: Listing) {
    && SameAuthor(a.author, b.author)
    && Abs(a.postedAt - b.postedAt) <= WINDOW_MS
    && !TitlesClash(ListingWords(a.title), ListingWords(b.title))
    && (TitlesMatch(ListingWords(a.title), ListingWords(b.title)) || BodiesMatch(a, b))
  }

  method MatchTitles(a: set<string>, b: set<string>) returns (same: bool)
    ensures same == TitlesMatch(a, b)
  {
    same := Jaccard(a, b, 3, 5);
    if same {
      var numbersA, numbersB := WithDigits(a), WithDigits(b);
      if numbersA == {} || numbersB == {} { return true; }
      same := Jaccard(numbersA, numbersB, 1, 2);
    }
  }

  /** The comparison as it runs, one exit at a time. */
  method IsSameListing(a: Listing, b: Listing) returns (same: bool)
    ensures same == SameListing(a, b)
  {
    if !SameAuthor(a.author, b.author) { return false; }
    if Abs(a.postedAt - b.postedAt) > WINDOW_MS { return false; }
    var titleA, titleB := ListingWords(a.title), ListingWords(b.title);
    if TitlesClash(titleA, titleB) { return false; }
    var titles := MatchTitles(titleA, titleB);
    if titles { return true; }
    if a.subreddit == b.subreddit || |a.selftext| < MIN_BODY_CHARS || |b.selftext| < MIN_BODY_CHARS { return false; }
    same := Jaccard(Words(a.selftext), Words(b.selftext), 4, 5);
  }

  lemma AlikeIsSymmetric(a: set<string>, b: set<string>, num: nat, den: nat)
    ensures Alike(a, b, num, den) == Alike(b, a, num, den)
  {
    assert a * b == b * a && a + b == b + a;
  }

  lemma TitlesAreSymmetric(a: set<string>, b: set<string>)
    ensures TitlesClash(a, b) == TitlesClash(b, a)
    ensures TitlesMatch(a, b) == TitlesMatch(b, a)
  {
    AlikeIsSymmetric(a, b, 3, 5);
    AlikeIsSymmetric(WithDigits(a), WithDigits(b), 1, 2);
  }

  lemma BodiesAreSymmetric(a: Listing, b: Listing)
    ensures BodiesMatch(a, b) == BodiesMatch(b, a)
  {
    AlikeIsSymmetric(Words(a.selftext), Words(b.selftext), 4, 5);
  }

  lemma AuthorsAreSymmetric(a: Option<string>, b: Option<string>)
    ensures SameAuthor(a, b) == SameAuthor(b, a)
  {
  }

  /** Being copies of one listing does not depend on which of the two is asked. */
  lemma SameListingIsSymmetric(a: Listing, b: Listing)
    ensures SameListing(a, b) == SameListing(b, a)
  {
    TitlesAreSymmetric(ListingWords(a.title), ListingWords(b.title));
    BodiesAreSymmetric(a, b);
    AuthorsAreSymmetric(a.author, b.author);
  }

  // ---- the rule in its own numbers ----

  /** The two share at least that part of all their words. */
  ghost predicate Share(a: set<string>, b: set<string>, part: real) {
    a != {} && b != {} && |a * b| as real >= part * |a + b| as real
  }

  lemma AlikeIsShare(a: set<string>, b: set<string>, num: nat, den: nat, part: real)
    requires den > 0 && num as real == part * den as real
    ensures Alike(a, b, num, den) <==> Share(a, b, part)
  {
    var shared, all := |a * b| as real, |a + b| as real;
    assert (|a * b| * den) as real == shared * den as real;
    assert (num * |a + b|) as real == num as real * all == (part * all) * den as real;
    Scaled(shared, part * all, den as real);
  }

  lemma Scaled(x: real, y: real, d: real)
    requires d > 0.0
    ensures x * d >= y * d <==> x >= y
  {
    if x >= y { assert (x - y) * d >= 0.0; } else { assert (y - x) * d > 0.0; }
  }

  /** "16x" or "x16". */
  ghost predicate CountsPieces(w: string) {
    exists d: string :: d != "" && (forall c :: c in d ==> '0' <= c <= '9') && (w == d + "x" || w == "x" + d)
  }

  ghost predicate NamesMaker(w: string) {
    || w == "samsung" || w == "hynix" || w == "skhynix" || w == "micron" || w == "crucial" || w == "kingston" || w == "corsair"
    || w == "gskill" || w == "intel" || w == "seagate" || w == "wd" || w == "toshiba" || w == "hgst" || w == "sandisk"
    || w == "kioxia" || w == "solidigm"
  }

  ghost predicate HasDigit(w: string) { exists c :: c in w && '0' <= c <= '9' }

  /** The words of a title that have a digit, count pieces or name a maker. */
  ghost predicate KindsOf(words: set<string>, numbers: set<string>, counts: set<string>, makers: set<string>) {
    && (forall w :: w in numbers <==> w in words && HasDigit(w))
    && (forall w :: w in counts <==> w in words && CountsPieces(w))
    && (forall w :: w in makers <==> w in words && NamesMaker(w))
  }

  lemma QuantityCounts(w: string)
    ensures IsQuantity(w) <==> CountsPieces(w)
  {
    if IsQuantity(w) {
      if w[|w| - 1] == 'x' && AllDigits(w[..|w| - 1]) {
        assert w == w[..|w| - 1] + "x";
      } else {
        assert w == "x" + w[1..];
      }
    }
    if CountsPieces(w) {
      var d: string :| d != "" && (forall c :: c in d ==> '0' <= c <= '9') && (w == d + "x" || w == "x" + d);
      assert forall k :: 0 <= k < |d| ==> d[k] in d;
      if w == d + "x" { assert w[..|w| - 1] == d; } else { assert w[1..] == d; }
    }
  }

  lemma DigitsAreSeen(w: string)
    ensures (exists k :: 0 <= k < |w| && Decimal.IsDigit(w[k])) <==> HasDigit(w)
  {
    if HasDigit(w) {
      var c :| c in w && '0' <= c <= '9';
      var k :| 0 <= k < |w| && w[k] == c;
      assert Decimal.IsDigit(w[k]);
    }
    if exists k :: 0 <= k < |w| && Decimal.IsDigit(w[k]) {
      var k :| 0 <= k < |w| && Decimal.IsDigit(w[k]);
      assert w[k] in w;
    }
  }

  lemma KindsAre(words: set<string>, numbers: set<string>, counts: set<string>, makers: set<string>)
    requires KindsOf(words, numbers, counts, makers)
    ensures numbers == WithDigits(words) && counts == Quantities(words) && makers == MakersOf(words)
  {
    forall w ensures w in numbers <==> w in WithDigits(words) { DigitsAreSeen(w); }
    forall w ensures w in counts <==> w in Quantities(words) { QuantityCounts(w); }
    forall w ensures w in makers <==> w in MakersOf(words) { MakersAre(w); }
  }

  lemma MakersAre(w: string)
    ensures w in MAKERS <==> NamesMaker(w)
  {
  }

  /** Both have some, and none in common. */
  ghost predicate AtOdds(a: set<string>, b: set<string>) { a != {} && b != {} && forall w :: w in a ==> w !in b }

  /** The titles share 0.6 of their words, and half of those with a digit, where both have such words. */
  ghost predicate SameWords(a: set<string>, b: set<string>, numbersA: set<string>, numbersB: set<string>) {
    Share(a, b, 0.6) && (numbersA != {} && numbersB != {} ==> Share(numbersA, numbersB, 0.5))
  }

  ghost predicate OneAuthor(a: Option<string>, b: Option<string>) {
    && a.Some? && b.Some? && a.value != "" && b.value != ""
    && Lower(a.value) == Lower(b.value) && Lower(a.value) != "[deleted]"
  }

  lemma TitlesExactly(a: set<string>, b: set<string>, numbersA: set<string>, countsA: set<string>, makersA: set<string>,
                      numbersB: set<string>, countsB: set<string>, makersB: set<string>)
    requires KindsOf(a, numbersA, countsA, makersA) && KindsOf(b, numbersB, countsB, makersB)
    ensures TitlesClash(a, b) <==> AtOdds(countsA, countsB) || AtOdds(makersA, makersB)
    ensures TitlesMatch(a, b) <==> SameWords(a, b, numbersA, numbersB)
  {
    hide KindsOf, Quantities, MakersOf, WithDigits, Alike, Share;
    KindsAre(a, numbersA, countsA, makersA);
    KindsAre(b, numbersB, countsB, makersB);
    AlikeIsShare(a, b, 3, 5, 0.6);
    AlikeIsShare(numbersA, numbersB, 1, 2, 0.5);
  }

  /**
   * Two posts are copies exactly when they have one named author, are at most 72 hours apart, are not two lots
   * by their quantities or makers, and share enough words: in their titles, or 0.8 of those of two bodies of
   * 80 characters and more in different subreddits.
   */
  lemma CopiesExactly(a: Listing, b: Listing, numbersA: set<string>, countsA: set<string>, makersA: set<string>,
                      numbersB: set<string>, countsB: set<string>, makersB: set<string>)
    requires KindsOf(ListingWords(a.title), numbersA, countsA, makersA)
    requires KindsOf(ListingWords(b.title), numbersB, countsB, makersB)
    ensures SameListing(a, b) <==>
            && OneAuthor(a.author, b.author) && -259200000 <= a.postedAt - b.postedAt <= 259200000
            && !AtOdds(countsA, countsB) && !AtOdds(makersA, makersB)
            && (|| SameWords(ListingWords(a.title), ListingWords(b.title), numbersA, numbersB)
                || (a.subreddit != b.subreddit && |a.selftext| >= 80 && |b.selftext| >= 80
                    && Share(Words(a.selftext), Words(b.selftext), 0.8)))
  {
    hide KindsOf, TitlesClash, TitlesMatch, AtOdds, SameWords, Alike, Share, Words, ListingWords;
    TitlesExactly(ListingWords(a.title), ListingWords(b.title), numbersA, countsA, makersA, numbersB, countsB, makersB);
    AlikeIsShare(Words(a.selftext), Words(b.selftext), 4, 5, 0.8);
  }

  lemma LowerJoins(a: string, b: string)
    ensures Lower(a + b) == Lower(a) + Lower(b)
  {
  }

  lemma LowerKeepsBrackets(s: string)
    ensures '[' in Lower(s) <==> '[' in s
    ensures ']' in Lower(s) <==> ']' in s
  {
    var r := Lower(s);
    if '[' in s { var k :| 0 <= k < |s| && s[k] == '['; assert r[k] == '['; }
    if ']' in s { var k :| 0 <= k < |s| && s[k] == ']'; assert r[k] == ']'; }
  }

  lemma LowerTitle(tag: string, have: string, want: string)
    ensures Lower("[" + tag + "]" + have + "[W]" + want) == "[" + Lower(tag) + "]" + Lower(have) + "[w]" + Lower(want)
  {
    LowerJoins("[" + tag + "]" + have + "[W]", want);
    LowerJoins("[" + tag + "]" + have, "[W]");
    LowerJoins("[" + tag + "]", have);
    LowerJoins("[" + tag, "]");
    LowerJoins("[", tag);
    assert Lower("[") == "[" && Lower("]") == "]" && Lower("[W]") == "[w]";
    hide Lower;
  }

  lemma CutAtFirst(a: string, want: string)
    requires forall k: nat :: k < |a| ==> !WantAt(a + "[w]" + want, k)
    ensures CutWant(a + "[w]" + want) == a
  {
    var s := a + "[w]" + want;
    assert s[|a|..|a| + 3] == "[w]";
    assert WantAt(s, |a|);
    var r := CutWant(s);
    assert |r| == |a|;
    assert s[..|a|] == a;
  }

  lemma NoWantBefore(tag: string, have: string, want: string, k: nat)
    requires '[' !in tag && ']' !in tag && tag != "w" && '[' !in have && k < |tag| + 2 + |have|
    ensures !WantAt("[" + tag + "]" + have + "[w]" + want, k)
  {
    var s := "[" + tag + "]" + have + "[w]" + want;
    assert s[k..k + 3][0] == s[k];
    if k == 0 {
      assert s[k..k + 3][1] == s[1] && s[k..k + 3][2] == s[2];
      assert |tag| == 1 ==> tag == [tag[0]] && s[1] == tag[0];
      assert |tag| > 1 ==> s[2] == tag[1];
    } else {
      assert s[k] == if k <= |tag| then tag[k - 1] else if k == |tag| + 1 then ']' else have[k - |tag| - 2];
    }
  }

  /** Of a swap title only what the seller has counts: the tag before it and all from the want tag on do not. */
  lemma SwapTitle(tag: string, have: string, want: string)
    requires '[' !in tag && ']' !in tag && Lower(tag) != "w" && '[' !in have && ']' !in have
    ensures ListingWords("[" + tag + "]" + have + "[W]" + want) == Words(" " + Lower(have))
  {
    hide Lower, Words, StripTags, CutWant, WantAt;
    var t, h, w := Lower(tag), Lower(have), Lower(want);
    LowerKeepsBrackets(tag);
    LowerKeepsBrackets(have);
    LowerTitle(tag, have, want);
    var front := "[" + t + "]" + h;
    forall k: nat | k < |front| ensures !WantAt(front + "[w]" + w, k) { NoWantBefore(t, h, w, k); }
    CutAtFirst(front, w);
    TagsBecomeBlanks("", t, h);
    assert front == "" + front;
    assert StripTags(h) == h;
    assert "" + " " + h == " " + h;
  }

  // ---- which copy is alerted ----

  datatype Row = Row(listing: Listing, status: Status)

  /** One snapshot of the posts table. */
  type Table = map<string, Row>

  datatype Copy = Copy(id: string, sent: bool)

  /** ORDER BY posted_at, reddit_id. */
  predicate Earlier(t: Table, a: string, b: string)
    requires a in t && b in t
  {
    t[a].listing.postedAt < t[b].listing.postedAt || (t[a].listing.postedAt == t[b].listing.postedAt && Less(a, b))
  }

  lemma EarlierIsTransitive(t: Table, a: string, b: string, c: string)
    requires a in t && b in t && c in t && Earlier(t, a, b) && Earlier(t, b, c)
    ensures Earlier(t, a, c)
  {
    if t[a].listing.postedAt == t[c].listing.postedAt { LessIsTransitive(a, b, c); }
  }

  /** The WHERE clause of the siblings query. */
  predicate Selected(t: Table, id: string, other: string)
    requires id in t && t[id].listing.author.Some? && other in t
  {
    var mine, theirs := t[id].listing, t[other].listing;
    && theirs.author.Some? && Lower(theirs.author.value) == Lower(mine.author.value)
    && other != id
    && (t[other].status == Target || t[other].status == Notified)
    && mine.postedAt - WINDOW_MS <= theirs.postedAt <= mine.postedAt + WINDOW_MS
  }

  /** A copy of `id` that was alerted or waits to be, judged on the whole table. */
  predicate CopyOfPost(t: Table, id: string, other: string)
    requires id in t
  {
    && other in t && other != id
    && (t[other].status == Target || t[other].status == Notified)
    && SameListing(t[id].listing, t[other].listing)
  }

  ghost predicate Ordered(t: Table, ids: seq<string>) {
    && (forall k :: 0 <= k < |ids| ==> ids[k] in t)
    && (forall j, k :: 0 <= j < k < |ids| ==> Earlier(t, ids[j], ids[k]))
  }

  /** `ids` is what the query may answer. */
  ghost predicate Answers(t: Table, id: string, ids: seq<string>)
    requires id in t && t[id].listing.author.Some?
  {
    && Ordered(t, ids)
    && forall other :: other in ids <==> other in t && Selected(t, id, other)
  }

  /** Puts one more row where it belongs. */
  method Place(t: Table, ids: seq<string>, id: string) returns (placed: seq<string>)
    requires Ordered(t, ids) && id in t && id !in ids
    ensures Ordered(t, placed) && forall x :: x in placed <==> x in ids || x == id
  {
    var k := 0;
    while k < |ids| && Earlier(t, ids[k], id)
      invariant 0 <= k <= |ids| && forall j :: 0 <= j < k ==> Earlier(t, ids[j], id)
    {
      k := k + 1;
    }
    placed := ids[..k] + [id] + ids[k..];
    forall j | k <= j < |ids| ensures Earlier(t, id, ids[j]) {
      LessIsTotal(id, ids[k]);
      if k < j && t[id].listing.postedAt == t[ids[j]].listing.postedAt { LessIsTransitive(id, ids[k], ids[j]); }
    }
    assert forall x :: x in ids <==> x in ids[..k] || x in ids[k..];
  }

  method Siblings(t: Table, id: string) returns (ids: seq<string>)
    requires id in t && t[id].listing.author.Some?
    ensures Answers(t, id, ids)
  {
    ids := [];
    var todo := t.Keys;
    while todo != {}
      invariant todo <= t.Keys && Ordered(t, ids)
      invariant forall other :: other in ids <==> other in t.Keys - todo && Selected(t, id, other)
    {
      var other :| other in todo;
      todo := todo - {other};
      if Selected(t, id, other) { ids := Place(t, ids, other); }
    }
  }

  ghost predicate AlertedAlready(t: Table, id: string)
    requires id in t
  {
    exists other :: CopyOfPost(t, id, other) && t[other].status == Notified
  }

  ghost predicate WaitsForEarlier(t: Table, id: string)
    requires id in t
  {
    exists other :: CopyOfPost(t, id, other) && Earlier(t, other, id)
  }

  /** The query's author and window clauses keep every copy the comparison would accept. */
  lemma PrefilterLosesNothing(t: Table, id: string, other: string)
    requires id in t && CopyOfPost(t, id, other)
    ensures !Nameless(t[id].listing.author) && Selected(t, id, other)
  {
  }

  /** `copies` are all the copies in the table, in the query's order. */
  ghost predicate AllCopies(t: Table, id: string, copies: seq<string>)
    requires id in t
  {
    Ordered(t, copies) && forall other :: other in copies <==> CopyOfPost(t, id, other)
  }

  /** The siblings the comparison accepts, in the order they came. */
  method Filtered(t: Table, id: string, siblings: seq<string>) returns (copies: seq<string>)
    requires id in t && t[id].listing.author.Some? && Answers(t, id, siblings)
    ensures AllCopies(t, id, copies)
  {
    copies := [];
    for k := 0 to |siblings|
      invariant Ordered(t, copies)
      invariant forall other :: other in copies <==> other in siblings[..k] && SameListing(t[id].listing, t[other].listing)
    {
      var same := IsSameListing(t[id].listing, t[siblings[k]].listing);
      if same { copies := copies + [siblings[k]]; }
    }
    forall other ensures other in copies <==> CopyOfPost(t, id, other) {
      if CopyOfPost(t, id, other) { PrefilterLosesNothing(t, id, other); }
    }
  }

  /** The first copy with the given standing, if any. */
  method FirstNotified(t: Table, copies: seq<string>) returns (k: nat)
    requires Ordered(t, copies)
    ensures k <= |copies| && (k < |copies| ==> t[copies[k]].status == Notified)
    ensures forall j :: 0 <= j < k ==> t[copies[j]].status != Notified
  {
    k := 0;
    while k < |copies| && t[copies[k]].status != Notified
      invariant k <= |copies| && forall j :: 0 <= j < k ==> t[copies[j]].status != Notified
    {
      k := k + 1;
    }
  }

  method FirstEarlier(t: Table, id: string, copies: seq<string>) returns (k: nat)
    requires id in t && Ordered(t, copies)
    ensures k <= |copies| && (k < |copies| ==> Earlier(t, copies[k], id))
    ensures forall j :: 0 <= j < k ==> !Earlier(t, copies[j], id)
  {
    k := 0;
    while k < |copies| && !Earlier(t, copies[k], id)
      invariant k <= |copies| && forall j :: 0 <= j < k ==> !Earlier(t, copies[j], id)
    {
      k := k + 1;
    }
  }

  /** No other copy, or no other alerted copy, comes before `id`. */
  ghost predicate FirstOfCopies(t: Table, id: string, first: string)
    requires id in t && first in t
  {
    forall o :: CopyOfPost(t, id, o) && (t[first].status == Notified ==> t[o].status == Notified)
                ==> o == first || Earlier(t, first, o)
  }

  /** What the answer means: who is alerted instead, or that nobody is. */
  ghost predicate Decided(t: Table, id: string, copy: Option<Copy>)
    requires id in t
  {
    match copy
    case None => !AlertedAlready(t, id) && !WaitsForEarlier(t, id)
    case Some(c) =>
      && CopyOfPost(t, id, c.id)
      && FirstOfCopies(t, id, c.id)
      && (if c.sent then t[c.id].status == Notified
          else t[c.id].status == Target && Earlier(t, c.id, id) && !AlertedAlready(t, id))
  }

  lemma AlertedDecides(t: Table, id: string, copies: seq<string>, k: nat)
    requires id in t && AllCopies(t, id, copies) && k < |copies| && t[copies[k]].status == Notified
    requires forall j :: 0 <= j < k ==> t[copies[j]].status != Notified
    ensures Decided(t, id, Some(Copy(copies[k], true)))
  {
    assert copies[k] in copies;
    forall o | CopyOfPost(t, id, o) && t[o].status == Notified ensures o == copies[k] || Earlier(t, copies[k], o) {
      assert o in copies;
      var j :| 0 <= j < |copies| && copies[j] == o;
    }
  }

  lemma EarlierDecides(t: Table, id: string, copies: seq<string>, k: nat)
    requires id in t && AllCopies(t, id, copies) && k < |copies| && Earlier(t, copies[k], id)
    requires forall o :: o in copies ==> t[o].status != Notified
    requires forall j :: 0 <= j < k ==> !Earlier(t, copies[j], id)
    ensures Decided(t, id, Some(Copy(copies[k], false)))
  {
    assert copies[k] in copies;
    if k > 0 { EarlierIsTransitive(t, copies[0], copies[k], id); }
    forall o | CopyOfPost(t, id, o) ensures o == copies[k] || Earlier(t, copies[k], o) {
      assert o in copies;
      var j :| 0 <= j < |copies| && copies[j] == o;
    }
  }

  /**
   * The first copy already alerted, or else the first copy if it comes before this post; `None` when this
   * post is the one to alert.
   */
  method FindAlertedCopy(t: Table, id: string) returns (copy: Option<Copy>)
    requires id in t
    ensures Decided(t, id, copy)
  {
    if Nameless(t[id].listing.author) { return None; }
    var siblings := Siblings(t, id);
    var copies := Filtered(t, id, siblings);
    var alerted := FirstNotified(t, copies);
    if alerted < |copies| {
      AlertedDecides(t, id, copies, alerted);
      return Some(Copy(copies[alerted], true));
    }
    var earlier := FirstEarlier(t, id, copies);
    if earlier == |copies| { return None; }
    EarlierDecides(t, id, copies, earlier);
    copy := Some(Copy(copies[earlier], false));
  }

  /**
   * The one let through was posted before each of its copies, or at the same moment under a smaller id; the one
   * named instead of a post that has to wait was posted before it likewise.
   */
  lemma LetThroughIsFirst(t: Table, id: string, other: string, copy: Copy)
    requires id in t
    ensures Decided(t, id, None) && CopyOfPost(t, id, other) ==>
              t[id].listing.postedAt < t[other].listing.postedAt
              || (t[id].listing.postedAt == t[other].listing.postedAt && Less(id, other))
    ensures Decided(t, id, Some(copy)) && !copy.sent ==>
              copy.id in t && (t[copy.id].listing.postedAt < t[id].listing.postedAt
                               || (t[copy.id].listing.postedAt == t[id].listing.postedAt && Less(copy.id, id)))
  {
    LessIsTotal(id, other);
    if Decided(t, id, None) && CopyOfPost(t, id, other) { assert !Earlier(t, other, id); }
  }

  /** Of two copies in one snapshot at most one is let through, whichever workers hold them. */
  lemma AtMostOneIsLetThrough(t: Table, a: string, b: string, forA: Option<Copy>, forB: Option<Copy>)
    requires a in t && b in t && a != b && t[a].status == Target && t[b].status == Target
    requires SameListing(t[a].listing, t[b].listing)
    requires Decided(t, a, forA) && Decided(t, b, forB)
    ensures forA.Some? || forB.Some?
  {
    SameListingIsSymmetric(t[a].listing, t[b].listing);
    LessIsTotal(a, b);
    assert CopyOfPost(t, a, b) && CopyOfPost(t, b, a);
    assert Earlier(t, a, b) || Earlier(t, b, a);
  }

  /**
   * Buyers are never left without a lead: among any targets that have no alerted copy, some one is let
   * through, though copies need not be copies of each other's copies.
   */
  lemma {:induction false} SomeoneIsLetThrough(t: Table, group: set<string>)
    requires group != {} && group <= t.Keys
    requires forall a :: a in group ==> t[a].status == Target && !AlertedAlready(t, a)
    requires forall a, b :: a in group && CopyOfPost(t, a, b) ==> b in group
    ensures exists a :: a in group && Decided(t, a, None)
  {
    var first := FirstOf(t, group);
    if WaitsForEarlier(t, first) {
      var other :| CopyOfPost(t, first, other) && Earlier(t, other, first);
      LessIsTotal(other, first);
      assert false;
    }
  }

  lemma {:induction false} FirstOf(t: Table, group: set<string>) returns (first: string)
    requires group != {} && group <= t.Keys
    ensures first in group && forall b :: b in group && b != first ==> Earlier(t, first, b)
    decreases |group|
  {
    first :| first in group;
    var rest := group - {first};
    if rest != {} {
      var least := FirstOf(t, rest);
      LessIsTotal(least, first);
      if Earlier(t, least, first) {
        first := least;
      } else {
        forall b | b in rest && b != least ensures Earlier(t, first, b) { EarlierIsTransitive(t, first, least, b); }
      }
    }
  }

  // ---- together with the claims ----

  /** What the query reads of the posts. */
  function Snapshot(posts: Posts, listings: map<string, Listing>): Table {
    map id | id in posts && id in listings :: Row(listings[id], posts[id].status)
  }

  /**
   * Once the holder of a post reported it sent, no copy of it is ever let through: however the fleet goes on, as
   * long as only failed posts are requeued, every copy finds one alerted before it.
   */
  lemma SentSilencesCopies(f: Fleet, worker: string, id: string, run: seq<Step>, listings: map<string, Listing>,
                           copy: string, answer: Option<Copy>)
    requires Orderly(f.posts) && Holds(f.posts, worker, id)
    requires var sent := Next(f, Settle(worker, id, Sent));
             PossibleRun(sent, run) && RequeuesFailed(sent, run) && copy in After(sent, run).posts
    requires id in listings && copy in listings && copy != id && SameListing(listings[copy], listings[id])
    ensures var t := Snapshot(After(Next(f, Settle(worker, id, Sent)), run).posts, listings);
            && copy in t && AlertedAlready(t, copy)
            && (Decided(t, copy, answer) ==> answer.Some? && answer.value.sent)
  {
    var sent := Next(f, Settle(worker, id, Sent));
    StepKeepsOrderly(f, Settle(worker, id, Sent));
    VerdictsAreFinal(sent, run, id);
    var t := Snapshot(After(sent, run).posts, listings);
    assert CopyOfPost(t, copy, id) && t[id].status == Notified;
  }
}
