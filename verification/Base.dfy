/** Shared vocabulary: optional values, small arithmetic, ASCII letters, stable sorting and decimal numerals. */
module Options {
  datatype Option<+T> = None | Some(value: T)
}

module Arithmetic {
  function Min(a: int, b: int): int { if b < a then b else a }

  function Max(a: int, b: int): int { if b > a then b else a }

  function Abs(n: int): nat { if n < 0 then -n else n }

  function Pow2(n: nat): (r: nat)
    ensures r >= 1
  {
    if n == 0 then 1 else 2 * Pow2(n - 1)
  }

  lemma {:induction false} Pow2Grows(m: nat, n: nat)
    requires m <= n
    ensures Pow2(m) <= Pow2(n)
  {
    if m < n { Pow2Grows(m, n - 1); }
  }

  /** The quotient and the remainder are the only ones. */
  lemma Quotient(v: int, p: int, q: int, r: int)
    requires 0 <= r < p && v == p * q + r
    ensures v / p == q && v % p == r
  {
    assert v % p == r - p * (v / p - q);
    Multiples(p, v / p - q);
  }

  lemma Multiples(p: int, d: int)
    requires p >= 0
    ensures d != 0 ==> p * d >= p || p * d <= -p
  {
    if d >= 1 {
      assert p * (d - 1) >= 0;
    } else if d <= -1 {
      assert p * (-d - 1) >= 0;
    }
  }
}

/** Letters and blanks of ASCII text, and the wider blanks of JavaScript's patterns. */
module Ascii {
  predicate Blank(c: char) { c == ' ' || 9 as char <= c <= 13 as char }

  /** What `\s` matches and `trim` takes off. */
  predicate JsBlank(c: char) {
    Blank(c) || c in {'\U{a0}', '\U{1680}', '\U{2028}', '\U{2029}', '\U{202f}', '\U{205f}', '\U{3000}', '\U{feff}'}
    || '\U{2000}' <= c <= '\U{200a}'
  }

  function UpperChar(c: char): char { if 'a' <= c <= 'z' then c - 32 as char else c }

  function LowerChar(c: char): char { if 'A' <= c <= 'Z' then c + ('a' - 'A') else c }
}

/** Small facts about sequences. */
module Sequences {
  lemma Regroup<T>(a: seq<T>, b: seq<T>, c: seq<T>)
    ensures (a + b) + c == a + (b + c)
  {
  }

  /** Two places that hold the same element count it twice. */
  lemma Twice<T>(s: seq<T>, j: nat, k: nat)
    requires j < k < |s|
    ensures s[j] == s[k] ==> multiset(s)[s[j]] >= 2
  {
    assert s == s[..k] + [s[k]] + s[k + 1..];
    assert s[j] in multiset(s[..k]);
  }
}

/** How texts compare: at the first place where they differ. */
module Lexical {
  predicate Less(s: string, t: string) {
    t != [] && (s == [] || s[0] < t[0] || (s[0] == t[0] && Less(s[1..], t[1..])))
  }

  lemma {:induction false} LessIsTotal(s: string, t: string)
    ensures Less(s, t) || Less(t, s) || s == t
    ensures !(Less(s, t) && Less(t, s))
    ensures Less(s, t) ==> s != t
  {
    if s != [] && t != [] {
      LessIsTotal(s[1..], t[1..]);
      assert s == [s[0]] + s[1..] && t == [t[0]] + t[1..];
    }
  }

  lemma {:induction false} LessIsTransitive(s: string, t: string, u: string)
    requires Less(s, t) && Less(t, u)
    ensures Less(s, u)
  {
    if s != [] && s[0] == t[0] == u[0] { LessIsTransitive(s[1..], t[1..], u[1..]); }
  }

  /** A common beginning decides nothing, */
  lemma {:induction false} LessAfter(p: string, a: string, b: string)
    ensures Less(p + a, p + b) == Less(a, b)
  {
    if p == "" {
      assert p + a == a && p + b == b;
    } else {
      assert (p + a)[1..] == p[1..] + a && (p + b)[1..] == p[1..] + b;
      LessAfter(p[1..], a, b);
    }
  }

  /** and what follows two beginnings of one length that differ does not either. */
  lemma {:induction false} LessBefore(a: string, b: string, c: string, d: string)
    requires |a| == |b| && a != b
    ensures Less(a + c, b + d) == Less(a, b)
  {
    assert (a + c)[1..] == a[1..] + c && (b + d)[1..] == b[1..] + d;
    if a[0] == b[0] {
      assert a == [a[0]] + a[1..] && b == [b[0]] + b[1..];
      LessBefore(a[1..], b[1..], c, d);
    }
  }
}

/** Stable insertion sort, standing for the language's own stable `sort` with a numeric key. */
module Sorting {

  function Insert<T>(x: T, s: seq<T>, key: T -> int): (r: seq<T>)
    ensures |r| == |s| + 1
  {
    if s == [] then [x]
    else if key(x) <= key(s[0]) then [x] + s
    else [s[0]] + Insert(x, s[1..], key)
  }

  function SortBy<T>(s: seq<T>, key: T -> int): (r: seq<T>)
    ensures |r| == |s|
  {
    if s == [] then [] else Insert(s[0], SortBy(s[1..], key), key)
  }

  ghost predicate Ascending<T>(s: seq<T>, key: T -> int) {
    forall i, j :: 0 <= i < j < |s| ==> key(s[i]) <= key(s[j])
  }

  lemma {:induction false} InsertHolds<T>(x: T, s: seq<T>, key: T -> int)
    ensures multiset(Insert(x, s, key)) == multiset(s) + multiset{x}
  {
    if s != [] && key(x) > key(s[0]) {
      InsertHolds(x, s[1..], key);
      assert s == [s[0]] + s[1..];
    }
  }

  lemma {:induction false} InsertAscends<T>(x: T, s: seq<T>, key: T -> int)
    requires Ascending(s, key)
    ensures Ascending(Insert(x, s, key), key)
  {
    if s != [] && key(x) > key(s[0]) {
      InsertAscends(x, s[1..], key);
      InsertHolds(x, s[1..], key);
      var r := Insert(x, s[1..], key);
      forall k | 0 <= k < |r| ensures key(s[0]) <= key(r[k]) {
        assert r[k] in multiset(r);
      }
    }
  }

  /** Sorting rearranges, and leaves the keys in ascending order. */
  lemma {:induction false} Sorts<T>(s: seq<T>, key: T -> int)
    ensures multiset(SortBy(s, key)) == multiset(s)
    ensures Ascending(SortBy(s, key), key)
  {
    if s != [] {
      Sorts(s[1..], key);
      InsertHolds(s[0], SortBy(s[1..], key), key);
      InsertAscends(s[0], SortBy(s[1..], key), key);
      assert s == [s[0]] + s[1..];
    }
  }

  /** The elements with one key, in their order. */
  ghost function Keyed<T>(s: seq<T>, key: T -> int, v: int): seq<T> {
    if s == [] then [] else (if key(s[0]) == v then [s[0]] else []) + Keyed(s[1..], key, v)
  }

  lemma KeyedCons<T>(x: T, s: seq<T>, key: T -> int, v: int)
    ensures Keyed([x] + s, key, v) == (if key(x) == v then [x] + Keyed(s, key, v) else Keyed(s, key, v))
  {
    assert ([x] + s)[1..] == s;
  }

  lemma {:induction false} InsertKeyed<T>(x: T, s: seq<T>, key: T -> int, v: int)
    ensures Keyed(Insert(x, s, key), key, v) == (if key(x) == v then [x] + Keyed(s, key, v) else Keyed(s, key, v))
  {
    if s == [] || key(x) <= key(s[0]) {
      KeyedCons(x, s, key, v);
    } else {
      hide Insert;
      InsertKeyed(x, s[1..], key, v);
      InsertLater(x, s, key);
      KeyedCons(s[0], Insert(x, s[1..], key), key, v);
      KeyedCons(s[0], s[1..], key, v);
      assert s == [s[0]] + s[1..];
    }
  }

  lemma InsertLater<T>(x: T, s: seq<T>, key: T -> int)
    requires s != [] && key(x) > key(s[0])
    ensures Insert(x, s, key) == [s[0]] + Insert(x, s[1..], key)
  {
  }

  /** Elements of equal key keep their order. */
  lemma {:induction false} SortIsStable<T>(s: seq<T>, key: T -> int, v: int)
    ensures Keyed(SortBy(s, key), key, v) == Keyed(s, key, v)
  {
    if s != [] {
      SortIsStable(s[1..], key, v);
      InsertKeyed(s[0], SortBy(s[1..], key), key, v);
    }
  }

  lemma {:induction false} SortedIsKept<T>(s: seq<T>, key: T -> int)
    requires Ascending(s, key)
    ensures SortBy(s, key) == s
  {
    if s != [] {
      SortedIsKept(s[1..], key);
      assert s == [s[0]] + s[1..];
    }
  }
}

/** Decimal numerals without leading zeros, as JavaScript and Python print a non-negative integer. */
module Decimal {
  predicate IsDigit(c: char) { '0' <= c <= '9' }

  function DigitOf(n: nat): (c: char)
    requires n < 10
    ensures IsDigit(c)
  {
    '0' + n as char
  }

  function ValueOf(c: char): (n: nat)
    requires IsDigit(c)
    ensures n < 10
  {
    c as int - '0' as int
  }

  function Print(n: nat): (s: string)
    ensures s != [] && forall k :: 0 <= k < |s| ==> IsDigit(s[k])
    ensures n > 0 ==> s[0] != '0'
  {
    if n < 10 then [DigitOf(n)] else Print(n / 10) + [DigitOf(n % 10)]
  }

  predicate Digits(s: string) { forall k :: 0 <= k < |s| ==> IsDigit(s[k]) }

  function Read(s: string): nat
    requires Digits(s)
  {
    if s == [] then 0 else 10 * Read(s[..|s| - 1]) + ValueOf(s[|s| - 1])
  }

  /** How many digits `s` begins with. */
  function DigitRun(s: string): (n: nat)
    ensures n <= |s| && Digits(s[..n]) && (n < |s| ==> !IsDigit(s[n]))
  {
    if s == [] || !IsDigit(s[0]) then 0 else 1 + DigitRun(s[1..])
  }

  lemma {:induction false} DigitRunStops(a: string, rest: string)
    requires Digits(a) && (rest == "" || !IsDigit(rest[0]))
    ensures DigitRun(a + rest) == |a|
  {
    if a == "" {
      assert a + rest == rest;
    } else {
      assert (a + rest)[1..] == a[1..] + rest;
      DigitRunStops(a[1..], rest);
    }
  }

  lemma {:induction false} ReadPrint(n: nat)
    ensures Read(Print(n)) == n
  {
    var s := Print(n);
    if n < 10 {
      assert s[..|s| - 1] == [];
    } else {
      assert s[..|s| - 1] == Print(n / 10);
      ReadPrint(n / 10);
    }
  }

  lemma {:induction false} PositiveRead(s: string)
    requires Digits(s) && s != [] && s[0] != '0'
    ensures Read(s) > 0
  {
    if |s| > 1 {
      PositiveRead(s[..|s| - 1]);
    }
  }

  lemma PrintStep(a: nat, v: nat)
    requires a > 0 && v < 10
    ensures Print(10 * a + v) == Print(a) + [DigitOf(v)]
  {
    assert (10 * a + v) / 10 == a && (10 * a + v) % 10 == v;
  }

  /** A numeral with no leading zero is the one its number prints as. */
  lemma {:induction false} PrintRead(s: string)
    requires Digits(s) && s != [] && s[0] != '0'
    ensures Print(Read(s)) == s
  {
    var t, c := s[..|s| - 1], s[|s| - 1];
    assert s == t + [c];
    assert DigitOf(ValueOf(c)) == c;
    if t == [] {
      assert Read(t) == 0;
      assert Read(s) == ValueOf(c);
    } else {
      PrintRead(t);
      PositiveRead(t);
      PrintStep(Read(t), ValueOf(c));
    }
  }
}
