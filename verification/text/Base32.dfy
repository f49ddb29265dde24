/** Setup keys in base32: the decoder keeps sixteen bits of accumulator, and loses none that still matter. */
module Base32 {
  import opened Options
  import opened Arithmetic
  import opened Ascii
  import Sequences

  /** The value of a character of the alphabet of section 6 of RFC 4648, in upper case. */
  function ValueOf(c: char): (v: Option<nat>)
    ensures v.Some? ==> v.value < 32
  {
    if 'A' <= c <= 'Z' then Some(c as int - 'A' as int)
    else if '2' <= c <= '7' then Some(26 + (c as int - '2' as int))
    else None
  }

  function LetterOf(n: nat): char
    requires n < 32
  {
    if n < 26 then 'A' + n as char else '2' + (n - 26) as char
  }

  // ---- what was pasted ----

  /** What is dropped from a pasted key. */
  predicate Separator(c: char) { JsBlank(c) || c == '=' || c == '-' }

  /** Those are the blanks of JavaScript, by code point, the padding and the dash. */
  lemma SeparatorCodes(c: char)
    ensures Separator(c) <==>
            || c == '=' || c == '-' || 9 <= c as int <= 13 || 8192 <= c as int <= 8202
            || c as int in {32, 160, 5760, 8232, 8233, 8239, 8287, 12288, 65279}
  {
  }

  /** A pasted key without separators, in upper case. */
  function PlainKey(s: string, upper: char -> string): string {
    if s == [] then []
    else if Separator(s[0]) then PlainKey(s[1..], upper)
    else upper(s[0]) + PlainKey(s[1..], upper)
  }

  function TrimStart(s: string): (r: string)
    ensures |r| <= |s| && r == s[|s| - |r|..]
  {
    if s != "" && JsBlank(s[0]) then TrimStart(s[1..]) else s
  }

  function TrimEnd(s: string): (r: string)
    ensures |r| <= |s| && r == s[..|r|]
  {
    if s != "" && JsBlank(s[|s| - 1]) then TrimEnd(s[..|s| - 1]) else s
  }

  function Trim(s: string): string { TrimEnd(TrimStart(s)) }

  /** `text` stands at `i`, in whatever case. */
  predicate At(s: string, i: nat, text: string) {
    i + |text| <= |s| && forall k :: 0 <= k < |text| ==> LowerChar(s[i + k]) == text[k]
  }

  predicate IsLink(text: string) { At(text, 0, "otpauth://") }

  predicate EndsValue(c: char) { c == '&' || c == '#' }

  /** A `secret` parameter with a value begins at `i`. */
  predicate SecretAt(text: string, i: nat) {
    i + 8 < |text| && (text[i] == '?' || text[i] == '&') && At(text, i + 1, "secret=") && !EndsValue(text[i + 8])
  }

  function ValueEnd(text: string, i: nat): (e: nat)
    requires i <= |text|
    ensures i <= e <= |text| && (e < |text| ==> EndsValue(text[e])) && forall k :: i <= k < e ==> !EndsValue(text[k])
    decreases |text| - i
  {
    if i < |text| && !EndsValue(text[i]) then ValueEnd(text, i + 1) else i
  }

  /** The value of the first such parameter from `i` on. */
  function SecretFrom(text: string, i: nat): (r: Option<string>)
    decreases |text| - i
  {
    if i >= |text| then None
    else if SecretAt(text, i) then Some(text[i + 8..ValueEnd(text, i + 8)])
    else SecretFrom(text, i + 1)
  }

  /**
   * The key behind what was pasted: the key itself, or the secret of a link, its escapes undone by `unescape`,
   * which gives None where they are malformed. A link without a secret stays as typed.
   */
  function TotpKey(input: string, upper: char -> string, unescape: string -> Option<string>): string {
    var text := Trim(input);
    if !IsLink(text) then PlainKey(text, upper)
    else
      match SecretFrom(text, 0)
      case None => text
      case Some(secret) =>
        match unescape(secret)
        case None => text
        case Some(key) => PlainKey(key, upper)
  }

  // ---- bits, most significant first ----

  type Bit = n: nat | n < 2

  function BitsOf(n: nat, width: nat): (r: seq<Bit>)
    ensures |r| == width
  {
    if width == 0 then [] else BitsOf(n / 2, width - 1) + [n % 2]
  }

  function Number(bits: seq<Bit>): nat {
    if bits == [] then 0 else 2 * Number(bits[..|bits| - 1]) + bits[|bits| - 1]
  }

  lemma {:induction false} NumberFits(bits: seq<Bit>)
    ensures Number(bits) < Pow2(|bits|)
  {
    if bits != [] { NumberFits(bits[..|bits| - 1]); }
  }

  lemma {:induction false} NumberOfBits(n: nat, width: nat)
    requires n < Pow2(width)
    ensures Number(BitsOf(n, width)) == n
  {
    if width > 0 {
      NumberOfBits(n / 2, width - 1);
      assert BitsOf(n, width)[..width - 1] == BitsOf(n / 2, width - 1);
    }
  }

  lemma {:induction false} BitsOfNumber(bits: seq<Bit>)
    ensures BitsOf(Number(bits), |bits|) == bits
  {
    if bits != [] {
      BitsOfNumber(bits[..|bits| - 1]);
      assert bits == bits[..|bits| - 1] + [bits[|bits| - 1]];
    }
  }

  // ---- decoding ----

  predicate InAlphabet(s: string) { forall k :: 0 <= k < |s| ==> ValueOf(s[k]).Some? }

  /** Five bits a character. */
  function KeyBits(s: string): (r: seq<Bit>)
    requires InAlphabet(s)
    ensures |r| == 5 * |s|
  {
    if s == [] then [] else KeyBits(s[..|s| - 1]) + BitsOf(ValueOf(s[|s| - 1]).value, 5)
  }

  /** Whole groups of eight, the bits left over dropped. */
  function Octets(bits: seq<Bit>): (r: seq<nat>)
    ensures |r| == |bits| / 8
  {
    seq(|bits| / 8, i requires 0 <= i < |bits| / 8 => Number(bits[8 * i..8 * i + 8]))
  }

  /** The decoding of section 6 of RFC 4648, without bound and without padding. */
  function Decoded(key: string): Option<seq<nat>> {
    if !InAlphabet(key) || Octets(KeyBits(key)) == [] then None else Some(Octets(KeyBits(key)))
  }

  /** Five more bits make at most one more octet. */
  lemma OctetsGrow(bits: seq<Bit>, more: seq<Bit>)
    requires |more| <= 8
    ensures var whole := bits + more;
            var start := |bits| / 8 * 8;
            Octets(whole) == Octets(bits) + if |whole| - start < 8 then [] else [Number(whole[start..start + 8])]
  {
    var whole := bits + more;
    forall i | 0 <= i < |bits| / 8 ensures Octets(whole)[i] == Octets(bits)[i] {
      assert whole[8 * i..8 * i + 8] == bits[8 * i..8 * i + 8];
    }
  }

  /** An unsigned shift to the right. */
  function ShiftRight(v: nat, places: nat): nat { if places == 0 then v else ShiftRight(v / 2, places - 1) }

  lemma HalfOfRest(v: nat, p: nat)
    requires p >= 1
    ensures v % (2 * p) / 2 == v / 2 % p && v % (2 * p) % 2 == v % 2
  {
    var q, r := v / (2 * p), v % (2 * p);
    assert v == 2 * (p * q) + r;
    assert v / 2 == p * q + r / 2 && r / 2 < p;
    Quotient(v / 2, p, q, r / 2);
  }

  /** A mask keeps the bits below it. */
  lemma {:induction false} MaskKeeps(v: nat, mask: nat, width: nat)
    requires width <= mask
    ensures BitsOf(v % Pow2(mask), width) == BitsOf(v, width)
  {
    if width > 0 {
      HalfOfRest(v, Pow2(mask - 1));
      MaskKeeps(v / 2, mask - 1, width - 1);
    }
  }

  lemma {:induction false} LowBits(v: nat, width: nat, low: nat)
    requires low <= width
    ensures BitsOf(v, width)[width - low..] == BitsOf(v, low)
  {
    if low > 0 { LowBits(v / 2, width - 1, low - 1); }
  }

  lemma {:induction false} HighBits(v: nat, width: nat, low: nat)
    ensures BitsOf(v, width + low)[..width] == BitsOf(ShiftRight(v, low), width)
  {
    if low > 0 { HighBits(v / 2, width, low - 1); }
  }

  lemma Doubled(v: nat, p: nat)
    ensures v * (2 * p) == 2 * (v * p)
  {
  }

  lemma {:induction false} BitsAppend(v: nat, n: nat, width: nat, more: nat)
    requires n < Pow2(more)
    ensures BitsOf(v * Pow2(more) + n, width + more) == BitsOf(v, width) + BitsOf(n, more)
  {
    if more > 0 {
      var shifted := v * Pow2(more - 1);
      Doubled(v, Pow2(more - 1));
      assert v * Pow2(more) + n == 2 * shifted + n;
      assert (2 * shifted + n) / 2 == shifted + n / 2 && (2 * shifted + n) % 2 == n % 2;
      BitsAppend(v, n / 2, width, more - 1);
    }
  }

  lemma Powers()
    ensures Pow2(5) == 32 && Pow2(8) == 256 && Pow2(16) == 65536
  {
    assert Pow2(4) == 16;
    assert Pow2(12) == 4096;
  }

  /** One turn of the accumulator: of the sixteen bits kept, the low `bits + 5` are the pending ones. */
  lemma AccumulatorHolds(value: nat, bits: nat, n: nat)
    requires bits < 8 && n < 32
    ensures BitsOf((value * 32 + n) % 65536, bits + 5) == BitsOf(value, bits) + BitsOf(n, 5)
  {
    Powers();
    BitsAppend(value, n, bits, 5);
    MaskKeeps(value * 32 + n, 16, bits + 5);
  }

  /** Taking an octet off the top leaves the rest pending. */
  lemma OctetComesOff(value: nat, rest: nat)
    ensures ShiftRight(value, rest) % 256 == Number(BitsOf(value, rest + 8)[..8])
    ensures BitsOf(value, rest) == BitsOf(value, rest + 8)[8..]
  {
    Powers();
    HighBits(value, 8, rest);
    LowBits(value, rest + 8, rest);
    MaskKeeps(ShiftRight(value, rest), 8, 8);
    NumberOfBits(ShiftRight(value, rest) % 256, 8);
  }

  /** What the loop holds: the octets so far, and the bits that do not fill one yet. */
  ghost predicate Holds(all: seq<Bit>, bits: nat, value: nat, bytes: seq<nat>) {
    bits == |all| % 8 && bytes == Octets(all) && BitsOf(value, bits) == all[|all| - bits..]
  }

  /** The bits not yet in an octet, five more appended. */
  lemma PendingGrows(all: seq<Bit>, bits: nat, value: nat, n: nat)
    requires bits == |all| % 8 && BitsOf(value, bits) == all[|all| - bits..] && n < 32
    ensures (all + BitsOf(n, 5))[|all| - bits..] == BitsOf((value * 32 + n) % 65536, bits + 5)
  {
    AccumulatorHolds(value, bits, n);
  }

  lemma TurnHolds(all: seq<Bit>, bits: nat, value: nat, bytes: seq<nat>, n: nat)
    requires Holds(all, bits, value, bytes) && n < 32
    ensures var value', grown := (value * 32 + n) % 65536, all + BitsOf(n, 5);
            if bits + 5 >= 8
            then Holds(grown, bits - 3, value', bytes + [ShiftRight(value', bits - 3) % 256])
            else Holds(grown, bits + 5, value', bytes)
  {
    PendingGrows(all, bits, value, n);
    Extend(all, BitsOf(n, 5), bits, (value * 32 + n) % 65536, bytes);
  }

  lemma Extend(all: seq<Bit>, more: seq<Bit>, bits: nat, value: nat, bytes: seq<nat>)
    requires bits == |all| % 8 && bytes == Octets(all) && |more| == 5
    requires (all + more)[|all| - bits..] == BitsOf(value, bits + 5)
    ensures if bits + 5 >= 8
            then Holds(all + more, bits - 3, value, bytes + [ShiftRight(value, bits - 3) % 256])
            else Holds(all + more, bits + 5, value, bytes)
  {
    var grown, start := all + more, |all| - bits;
    OctetsGrow(all, more);
    if bits + 5 >= 8 {
      OctetComesOff(value, bits - 3);
      assert grown[start..start + 8] == grown[start..][..8];
      assert grown[start + 8..] == grown[start..][8..];
    }
  }

  lemma HoldsNothing()
    ensures InAlphabet("") && Holds(KeyBits(""), 0, 0, [])
  {
  }

  lemma HoldsAll(key: string, bits: nat, value: nat, bytes: seq<nat>)
    requires InAlphabet(key) && Holds(KeyBits(key), bits, value, bytes)
    ensures Decoded(key) == if bytes == [] then None else Some(bytes)
  {
    hide Octets, BitsOf, KeyBits;
  }

  lemma OneRead(key: string, k: nat)
    requires k < |key| && InAlphabet(key[..k])
    ensures InAlphabet(key[..k + 1]) <==> ValueOf(key[k]).Some?
    ensures ValueOf(key[k]).Some? ==> KeyBits(key[..k + 1]) == KeyBits(key[..k]) + BitsOf(ValueOf(key[k]).value, 5)
    ensures ValueOf(key[k]).None? ==> Decoded(key) == None
  {
    hide BitsOf, Octets, ValueOf;
    assert key[..k + 1][..k] == key[..k] && key[..k + 1][k] == key[k];
    assert ValueOf(key[k]).None? ==> !InAlphabet(key);
  }

  /** The decoder as it runs over the key. */
  method DecodeKey(key: string) returns (r: Option<seq<nat>>)
    ensures r == Decoded(key)
  {
    hide Octets, BitsOf, ShiftRight, ValueOf, KeyBits, Decoded, InAlphabet, Holds;
    var bits: nat, value: nat, bytes: seq<nat> := 0, 0, [];
    HoldsNothing();
    assert key[..0] == "";
    for k := 0 to |key|
      invariant bits < 8 && InAlphabet(key[..k]) && Holds(KeyBits(key[..k]), bits, value, bytes)
    {
      OneRead(key, k);
      var n := ValueOf(key[k]);
      if n.None? { return None; }
      TurnHolds(KeyBits(key[..k]), bits, value, bytes, n.value);
      value := (value * 32 + n.value) % 65536;
      bits := bits + 5;
      if bits >= 8 {
        bytes := bytes + [ShiftRight(value, bits - 8) % 256];
        bits := bits - 8;
      }
    }
    assert key[..|key|] == key;
    HoldsAll(key, bits, value, bytes);
    r := if bytes == [] then None else Some(bytes);
  }

  /** What was pasted, decoded. */
  method Base32Bytes(secret: string, upper: char -> string, unescape: string -> Option<string>) returns (r: Option<seq<nat>>)
    ensures r == Decoded(TotpKey(secret, upper, unescape))
  {
    var key := TotpKey(secret, upper, unescape);
    r := DecodeKey(key);
  }

  // ---- the same in numbers ----

  /** The alphabet of table 3 of RFC 4648. */
  const ALPHABET: string := "ABCDEFGHIJKLMNOPQRSTUVWXYZ234567"

  /** A character's value is its place in the alphabet. */
  lemma ValueIsPlace(c: char, k: nat)
    ensures ValueOf(c) == Some(k) <==> k < 32 && ALPHABET[k] == c
  {
    if k < 32 { PlaceOf(k); }
    if ValueOf(c).Some? { PlaceOf(ValueOf(c).value); }
  }

  lemma PlaceOf(k: nat)
    requires k < 32
    ensures ALPHABET[k] as int == if k < 26 then 'A' as int + k else '2' as int + (k - 26)
  {
    assert ALPHABET[..26] == "ABCDEFGHIJKLMNOPQRSTUVWXYZ" && ALPHABET[26..] == "234567";
  }

  /** The key as one number, a digit to base 32 a character. */
  function KeyNumber(key: string): nat
    requires InAlphabet(key)
  {
    if key == [] then 0 else 32 * KeyNumber(key[..|key| - 1]) + ValueOf(key[|key| - 1]).value
  }

  /** The bytes as one number, a digit to base 256 each. */
  function ByteNumber(bytes: seq<nat>): nat {
    if bytes == [] then 0 else 256 * ByteNumber(bytes[..|bytes| - 1]) + bytes[|bytes| - 1]
  }

  lemma {:induction false} NumberJoins(a: seq<Bit>, b: seq<Bit>)
    ensures Number(a + b) == Number(a) * Pow2(|b|) + Number(b)
  {
    if b == [] {
      assert a + b == a;
    } else {
      var front, last := b[..|b| - 1], b[|b| - 1];
      assert (a + b)[..|a + b| - 1] == a + front && (a + b)[|a + b| - 1] == last;
      NumberJoins(a, front);
      Doubled(Number(a), Pow2(|front|));
    }
  }

  lemma NoBits()
    ensures Number([]) == 0
  {
  }

  lemma {:induction false} KeyIsNumber(key: string)
    requires InAlphabet(key)
    ensures Number(KeyBits(key)) == KeyNumber(key)
  {
    NoBits();
    hide BitsOf, Number, ValueOf, Pow2;
    if key != [] {
      var front, v := key[..|key| - 1], ValueOf(key[|key| - 1]).value;
      Powers();
      KeyIsNumber(front);
      NumberOfBits(v, 5);
      NumberJoins(KeyBits(front), BitsOf(v, 5));
    }
  }

  lemma {:induction false} OctetsAreNumber(bits: seq<Bit>, k: nat)
    requires k <= |bits| / 8
    ensures ByteNumber(Octets(bits)[..k]) == Number(bits[..8 * k])
  {
    if k > 0 {
      Powers();
      OctetsAreNumber(bits, k - 1);
      assert Octets(bits)[..k][..k - 1] == Octets(bits)[..k - 1] && Octets(bits)[..k][k - 1] == Number(bits[8 * (k - 1)..8 * k]);
      assert bits[..8 * k] == bits[..8 * (k - 1)] + bits[8 * (k - 1)..8 * k];
      NumberJoins(bits[..8 * (k - 1)], bits[8 * (k - 1)..8 * k]);
    }
  }

  /**
   * Five bits a character make a byte out of every eight: the bytes decoded are, as one number, that of the key
   * without the bits left over.
   */
  lemma DecodedIsNumber(key: string)
    requires Decoded(key).Some?
    ensures var bytes := Decoded(key).value;
            && InAlphabet(key) && |bytes| == 5 * |key| / 8
            && ByteNumber(bytes) == KeyNumber(key) / Pow2(5 * |key| % 8)
            && forall k :: 0 <= k < |bytes| ==> bytes[k] < 256
  {
    hide Number, BitsOf, ByteNumber, KeyNumber, Pow2, KeyBits, ValueOf;
    var bits := KeyBits(key);
    var bytes, whole := Octets(bits), 8 * (|bits| / 8);
    KeyIsNumber(key);
    OctetsAreNumber(bits, |bytes|);
    assert bytes[..|bytes|] == bytes;
    WholePart(bits, whole);
    forall k | 0 <= k < |bytes| ensures bytes[k] < 256 { OctetFits(bits, k); }
  }

  lemma OctetFits(bits: seq<Bit>, k: nat)
    requires k < |Octets(bits)|
    ensures Octets(bits)[k] < 256
  {
    hide Number;
    NumberFits(bits[8 * k..8 * k + 8]);
    Powers();
  }

  lemma WholePart(bits: seq<Bit>, whole: nat)
    requires whole <= |bits|
    ensures Number(bits) / Pow2(|bits| - whole) == Number(bits[..whole])
  {
    hide Number, Pow2;
    assert bits == bits[..whole] + bits[whole..];
    NumberJoins(bits[..whole], bits[whole..]);
    NumberFits(bits[whole..]);
    Quotient(Number(bits), Pow2(|bits| - whole), Number(bits[..whole]), Number(bits[whole..]));
  }

  // ---- encoding, to decode again ----

  function OctetBits(bytes: seq<nat>): (r: seq<Bit>)
    ensures |r| == 8 * |bytes|
  {
    if bytes == [] then [] else OctetBits(bytes[..|bytes| - 1]) + BitsOf(bytes[|bytes| - 1], 8)
  }

  function Zeros(n: nat): (r: seq<Bit>)
    ensures |r| == n
  {
    if n == 0 then [] else Zeros(n - 1) + [0]
  }

  /** Zero bits make the last group of five whole. */
  function Filled(bytes: seq<nat>): (r: seq<Bit>)
    ensures |r| % 5 == 0 && 8 * |bytes| <= |r| < 8 * |bytes| + 5
  {
    OctetBits(bytes) + Zeros((5 - 8 * |bytes| % 5) % 5)
  }

  function LetterFor(group: seq<Bit>): (c: char)
    requires |group| == 5
    ensures ValueOf(c) == Some(Number(group))
  {
    NumberFits(group);
    Powers();
    LetterOf(Number(group))
  }

  function Letters(bits: seq<Bit>): (s: string)
    requires |bits| % 5 == 0
    ensures |s| == |bits| / 5
  {
    if bits == [] then [] else Letters(bits[..|bits| - 5]) + [LetterFor(bits[|bits| - 5..])]
  }

  function Encoded(bytes: seq<nat>): string { Letters(Filled(bytes)) }

  lemma LetterAppends(key: string, c: char)
    requires InAlphabet(key) && ValueOf(c).Some?
    ensures InAlphabet(key + [c]) && KeyBits(key + [c]) == KeyBits(key) + BitsOf(ValueOf(c).value, 5)
  {
    assert (key + [c])[..|key|] == key;
  }

  lemma LettersStep(bits: seq<Bit>)
    requires bits != [] && |bits| % 5 == 0
    ensures var front, last := bits[..|bits| - 5], bits[|bits| - 5..];
            bits == front + last && |front| % 5 == 0 && Letters(bits) == Letters(front) + [LetterFor(last)]
  {
  }

  lemma {:induction false} LettersRead(bits: seq<Bit>)
    requires |bits| % 5 == 0
    ensures InAlphabet(Letters(bits)) && KeyBits(Letters(bits)) == bits
  {
    if bits != [] {
      var front, last := bits[..|bits| - 5], bits[|bits| - 5..];
      LettersStep(bits);
      LettersRead(front);
      BitsOfNumber(last);
      LetterAppends(Letters(front), LetterFor(last));
    }
  }

  lemma {:induction false} OctetsRead(bytes: seq<nat>, i: nat)
    requires i < |bytes| && bytes[i] < 256
    ensures Number(OctetBits(bytes)[8 * i..8 * i + 8]) == bytes[i]
  {
    var last := |bytes| - 1;
    if i == last {
      Powers();
      NumberOfBits(bytes[i], 8);
      assert OctetBits(bytes)[8 * i..8 * i + 8] == BitsOf(bytes[i], 8);
    } else {
      OctetsRead(bytes[..last], i);
      assert OctetBits(bytes)[8 * i..8 * i + 8] == OctetBits(bytes[..last])[8 * i..8 * i + 8];
    }
  }

  lemma OctetsOfFilled(bytes: seq<nat>)
    requires forall k :: 0 <= k < |bytes| ==> bytes[k] < 256
    ensures Octets(Filled(bytes)) == bytes
  {
    var bits := Filled(bytes);
    forall i | 0 <= i < |bytes| ensures Octets(bits)[i] == bytes[i] {
      OctetsRead(bytes, i);
      assert bits[8 * i..8 * i + 8] == OctetBits(bytes)[8 * i..8 * i + 8];
    }
  }

  /** Decoding the unpadded encoding of any bytes gives them back. */
  lemma DecodeEncode(bytes: seq<nat>)
    requires bytes != [] && forall k :: 0 <= k < |bytes| ==> bytes[k] < 256
    ensures Decoded(Encoded(bytes)) == Some(bytes)
  {
    LettersRead(Filled(bytes));
    OctetsOfFilled(bytes);
  }

  // ---- however it is pasted ----

  /** An upper case that is that of ASCII on ASCII characters, and anything elsewhere. */
  ghost predicate UpperCases(upper: char -> string) { forall c: char :: c as int < 128 ==> upper(c) == [UpperChar(c)] }

  /** The key, with separators put anywhere and letters in either case. */
  ghost predicate Spaced(s: string, key: string) {
    if s == "" then key == ""
    else if Separator(s[0]) then Spaced(s[1..], key)
    else key != "" && UpperChar(s[0]) == key[0] && Spaced(s[1..], key[1..])
  }

  lemma UpperOfLetter(c: char, upper: char -> string)
    requires UpperCases(upper) && ValueOf(UpperChar(c)).Some?
    ensures upper(c) == [UpperChar(c)] && c != ':'
  {
  }

  lemma {:induction false} SpacedIsPlain(s: string, key: string, upper: char -> string)
    requires UpperCases(upper) && InAlphabet(key) && Spaced(s, key)
    ensures PlainKey(s, upper) == key && ':' !in s
  {
    if s != "" {
      assert s == [s[0]] + s[1..];
      if Separator(s[0]) {
        SpacedIsPlain(s[1..], key, upper);
      } else {
        assert ValueOf(key[0]).Some?;
        UpperOfLetter(s[0], upper);
        SpacedIsPlain(s[1..], key[1..], upper);
        assert key == [key[0]] + key[1..];
      }
    }
  }

  lemma {:induction false} PlainKeyJoins(a: string, b: string, upper: char -> string)
    ensures PlainKey(a + b, upper) == PlainKey(a, upper) + PlainKey(b, upper)
  {
    if a == [] {
      assert a + b == b;
    } else {
      assert (a + b)[1..] == a[1..] + b;
      PlainKeyJoins(a[1..], b, upper);
      Sequences.Regroup(upper(a[0]), PlainKey(a[1..], upper), PlainKey(b, upper));
    }
  }

  lemma {:induction false} TrimStartKeeps(s: string, upper: char -> string)
    ensures PlainKey(TrimStart(s), upper) == PlainKey(s, upper)
  {
    if s != "" && JsBlank(s[0]) { TrimStartKeeps(s[1..], upper); }
  }

  lemma {:induction false} TrimEndKeeps(s: string, upper: char -> string)
    ensures PlainKey(TrimEnd(s), upper) == PlainKey(s, upper)
  {
    if s != "" && JsBlank(s[|s| - 1]) {
      var front, last := s[..|s| - 1], s[|s| - 1..];
      TrimEndKeeps(front, upper);
      PlainKeyJoins(front, last, upper);
      BlankVanishes(last, upper);
      assert s == front + last;
    }
  }

  lemma BlankVanishes(s: string, upper: char -> string)
    requires |s| == 1 && Separator(s[0])
    ensures PlainKey(s, upper) == ""
  {
    assert s[1..] == "";
  }

  lemma LinkHasColon(s: string)
    requires IsLink(Trim(s))
    ensures ':' in Trim(s) && ':' in s
  {
    var text, start := Trim(s), TrimStart(s);
    assert LowerChar(text[0 + 7]) == "otpauth://"[7] == ':';
    assert text[7] == ':';
    assert start[7] == text[7] && s[|s| - |start| + 7] == start[7];
  }

  /** However a key is spaced, dashed, padded or cased, it decodes to the bytes it encodes. */
  lemma SpacingIsIgnored(bytes: seq<nat>, s: string, upper: char -> string, unescape: string -> Option<string>)
    requires UpperCases(upper) && bytes != [] && forall k :: 0 <= k < |bytes| ==> bytes[k] < 256
    requires Spaced(s, Encoded(bytes))
    ensures Decoded(TotpKey(s, upper, unescape)) == Some(bytes)
  {
    DecodeEncode(bytes);
    LettersRead(Filled(bytes));
    SpacedIsPlain(s, Encoded(bytes), upper);
    if IsLink(Trim(s)) { LinkHasColon(s); }
    TrimStartKeeps(s, upper);
    TrimEndKeeps(TrimStart(s), upper);
  }

  predicate FirstSecretAt(text: string, i: nat) { SecretAt(text, i) && forall k: nat :: k < i ==> !SecretAt(text, k) }

  /** So does the secret of a link: the first parameter of that name, its escapes undone. */
  lemma LinkIsRead(bytes: seq<nat>, link: string, i: nat, key: string, upper: char -> string, unescape: string -> Option<string>)
    requires UpperCases(upper) && bytes != [] && forall k :: 0 <= k < |bytes| ==> bytes[k] < 256
    requires IsLink(Trim(link)) && FirstSecretAt(Trim(link), i)
    requires unescape(Trim(link)[i + 8..ValueEnd(Trim(link), i + 8)]) == Some(key) && Spaced(key, Encoded(bytes))
    ensures Decoded(TotpKey(link, upper, unescape)) == Some(bytes)
  {
    DecodeEncode(bytes);
    LettersRead(Filled(bytes));
    SpacedIsPlain(key, Encoded(bytes), upper);
    FirstSecret(Trim(link), 0, i);
  }

  lemma {:induction false} FirstSecret(text: string, from: nat, i: nat)
    requires from <= i && SecretAt(text, i) && forall k: nat :: from <= k < i ==> !SecretAt(text, k)
    ensures SecretFrom(text, from) == Some(text[i + 8..ValueEnd(text, i + 8)])
    decreases i - from
  {
    if from < i { FirstSecret(text, from + 1, i); }
  }

  /** A link without a secret, or whose first one is malformed, is refused, whatever follows. */
  lemma OtherLinksAreRefused(link: string, upper: char -> string, unescape: string -> Option<string>)
    requires IsLink(Trim(link))
    requires forall i: nat :: FirstSecretAt(Trim(link), i) ==> unescape(Trim(link)[i + 8..ValueEnd(Trim(link), i + 8)]) == None
    ensures Decoded(TotpKey(link, upper, unescape)) == None
  {
    var text := Trim(link);
    LinkHasColon(link);
    SecretIsFirst(text, 0);
    assert TotpKey(link, upper, unescape) == text;
    assert ValueOf(':') == None;
  }

  lemma {:induction false} SecretIsFirst(text: string, from: nat)
    requires forall k: nat :: k < from ==> !SecretAt(text, k)
    ensures SecretFrom(text, from).Some?
            ==> exists i: nat :: FirstSecretAt(text, i) && SecretFrom(text, from) == Some(text[i + 8..ValueEnd(text, i + 8)])
    decreases |text| - from
  {
    if from < |text| {
      if SecretAt(text, from) { assert FirstSecretAt(text, from); } else { SecretIsFirst(text, from + 1); }
    }
  }

  /**
   * The link a service shows: after the scheme and a path, in whatever case, the secret runs to the next parameter,
   * the fragment or the end.
   */
  lemma SecretOfLink(scheme: string, path: string, mark: char, name: string, secret: string, rest: string)
    requires |scheme| == 10 && At(scheme, 0, "otpauth://") && |name| == 7 && At(name, 0, "secret=")
    requires mark in {'?', '&'} && '?' !in path && '&' !in path
    requires secret != "" && '&' !in secret && '#' !in secret && (rest == "" || rest[0] in {'&', '#'})
    ensures var link := scheme + path + [mark] + name + secret + rest;
            IsLink(link) && SecretFrom(link, 0) == Some(secret)
  {
    var link, i := scheme + path + [mark] + name + secret + rest, 10 + |path|;
    forall k | 0 <= k < 10 ensures LowerChar(link[0 + k]) == "otpauth://"[k] { assert link[k] == scheme[0 + k]; }
    forall k | 0 <= k < 7 ensures LowerChar(link[i + 1 + k]) == "secret="[k] { assert link[i + 1 + k] == name[0 + k]; }
    assert link[i] == mark && link[i + 8] == secret[0];
    assert SecretAt(link, i);
    forall k: nat | k < i ensures !SecretAt(link, k) {
      if k < 10 { NoMark(scheme, k); assert link[k] == scheme[k]; } else { assert link[k] == path[k - 10]; }
    }
    FirstSecret(link, 0, i);
    assert link[i + 8..][..|secret|] == secret && link[i + 8 + |secret|..] == rest;
    ValueStops(link, i + 8, i + 8 + |secret|);
    assert link[i + 8..i + 8 + |secret|] == secret;
  }

  lemma NoMark(scheme: string, k: nat)
    requires |scheme| == 10 && At(scheme, 0, "otpauth://") && k < 10
    ensures scheme[k] != '?' && scheme[k] != '&'
  {
    assert LowerChar(scheme[0 + k]) == "otpauth://"[k];
  }

  lemma {:induction false} ValueStops(text: string, i: nat, e: nat)
    requires i <= e <= |text| && (e < |text| ==> EndsValue(text[e])) && forall k :: i <= k < e ==> !EndsValue(text[k])
    ensures ValueEnd(text, i) == e
    decreases e - i
  {
    if i < e { ValueStops(text, i + 1, e); }
  }
}
