/** The device token `base64url(uid.did.kv.base64url(mac))`. Strings are their UTF-8 bytes. */
module Token {
  import opened Wrappers

  type Byte = b: int | 0 <= b < 256
  type Bytes = seq<Byte>

  const DOT: Byte := 46
  const PLUS: Byte := 43
  const U32_MAX := 4294967295

  // ---- base64url without padding, section 5 of RFC 4648 ----

  type Sextet = n: int | 0 <= n < 64

  function Sym(n: Sextet): Byte
  {
    if n < 26 then 65 + n
    else if n < 52 then 97 + n - 26
    else if n < 62 then 48 + n - 52
    else if n == 62 then 45
    else 95
  }

  function Val(c: Byte): Option<Sextet>
  {
    if 65 <= c <= 90 then Some(c - 65)
    else if 97 <= c <= 122 then Some(c - 97 + 26)
    else if 48 <= c <= 57 then Some(c - 48 + 52)
    else if c == 45 then Some(62)
    else if c == 95 then Some(63)
    else None
  }

  function Syms(q: seq<Sextet>): Bytes
  {
    if q == [] then [] else [Sym(q[0])] + Syms(q[1..])
  }

  function Vals(s: Bytes): Option<seq<Sextet>>
  {
    if s == [] then Some([])
    else
      match (Val(s[0]), Vals(s[1..]))
      case (Some(v), Some(rest)) => Some([v] + rest)
      case _ => None
  }

  /** The bits of the bytes, six at a time, the last sextet filled with zeros. */
  function Pack(s: Bytes): seq<Sextet>
  {
    if |s| == 0 then []
    else if |s| == 1 then [s[0] / 4, s[0] % 4 * 16]
    else if |s| == 2 then [s[0] / 4, s[0] % 4 * 16 + s[1] / 16, s[1] % 16 * 4]
    else [s[0] / 4, s[0] % 4 * 16 + s[1] / 16, s[1] % 16 * 4 + s[2] / 64, s[2] % 64] + Pack(s[3..])
  }

  function First(u: Sextet, v: Sextet): Byte { u as int * 4 + v / 16 }
  function Second(v: Sextet, w: Sextet): Byte { v as int % 16 * 16 + w / 4 }
  function Third(w: Sextet, x: Sextet): Byte { w as int % 4 * 64 + x }

  /** Strict: no lone sextet, no nonzero bits past the last byte. */
  function Unpack(q: seq<Sextet>): Option<Bytes>
  {
    if |q| == 0 then Some([])
    else if |q| == 1 then None
    else if |q| == 2 then if q[1] % 16 == 0 then Some([First(q[0], q[1])]) else None
    else if |q| == 3 then
      if q[2] % 4 == 0 then Some([First(q[0], q[1]), Second(q[1], q[2])]) else None
    else
      match Unpack(q[4..])
      case None => None
      case Some(rest) => Some([First(q[0], q[1]), Second(q[1], q[2]), Third(q[2], q[3])] + rest)
  }

  function Encode(s: Bytes): Bytes
  {
    Syms(Pack(s))
  }

  function Decode(s: Bytes): Option<Bytes>
  {
    match Vals(s)
    case None => None
    case Some(q) => Unpack(q)
  }

  lemma {:induction false} ValsSyms(q: seq<Sextet>)
    ensures Vals(Syms(q)) == Some(q)
  {
    if q != [] {
      ValsSyms(q[1..]);
      assert Syms(q)[1..] == Syms(q[1..]);
      assert q == [q[0]] + q[1..];
    }
  }

  lemma {:induction false} SymsVals(s: Bytes)
    requires Vals(s).Some?
    ensures Syms(Vals(s).value) == s
  {
    if s != [] {
      SymsVals(s[1..]);
      assert Vals(s).value[1..] == Vals(s[1..]).value;
      assert s == [s[0]] + s[1..];
    }
  }

  /** Cutting bytes and gluing the sextets gives the bytes. */
  lemma CutThenGlue(a: Byte, b: Byte, c: Byte)
    ensures First(a / 4, a % 4 * 16 + b / 16) == a
    ensures Second(a % 4 * 16 + b / 16, b % 16 * 4 + c / 64) == b
    ensures Third(b % 16 * 4 + c / 64, c % 64) == c
  {
  }

  lemma CutTwo(a: Byte, b: Byte)
    ensures First(a / 4, a % 4 * 16 + b / 16) == a && Second(a % 4 * 16 + b / 16, b % 16 * 4) == b
    ensures b % 16 * 4 % 4 == 0
  {
  }

  lemma CutOne(a: Byte)
    ensures First(a / 4, a % 4 * 16) == a && a % 4 * 16 % 16 == 0
  {
  }

  /** Gluing sextets and cutting the bytes gives the sextets. */
  lemma GlueThenCut(u: Sextet, v: Sextet, w: Sextet, x: Sextet)
    ensures var a, b, c := First(u, v), Second(v, w), Third(w, x);
            a / 4 == u && a % 4 * 16 + b / 16 == v && b % 16 * 4 + c / 64 == w && c % 64 == x
  {
  }

  lemma {:induction false} UnpackPack(s: Bytes)
    ensures Unpack(Pack(s)) == Some(s)
  {
    if |s| == 1 {
      CutOne(s[0]);
      assert s == [s[0]];
    } else if |s| == 2 {
      CutTwo(s[0], s[1]);
      assert s == [s[0], s[1]];
    } else if |s| >= 3 {
      CutThenGlue(s[0], s[1], s[2]);
      UnpackPack(s[3..]);
      assert Pack(s)[4..] == Pack(s[3..]);
      assert s == [s[0], s[1], s[2]] + s[3..];
    }
  }

  lemma {:induction false} PackUnpack(q: seq<Sextet>)
    requires Unpack(q).Some?
    ensures Pack(Unpack(q).value) == q
  {
    if |q| == 2 {
      GlueThenCut(q[0], q[1], 0, 0);
    } else if |q| == 3 {
      GlueThenCut(q[0], q[1], q[2], 0);
    } else if |q| >= 4 {
      GlueThenCut(q[0], q[1], q[2], q[3]);
      PackUnpack(q[4..]);
      assert Unpack(q).value[3..] == Unpack(q[4..]).value;
      assert q == [q[0], q[1], q[2], q[3]] + q[4..];
    }
  }

  /** The alphabet of the standard, eight characters to a row. */
  const ALPHABET := ["ABCDEFGH", "IJKLMNOP", "QRSTUVWX", "YZabcdef",
                     "ghijklmn", "opqrstuv", "wxyz0123", "456789-_"]

  lemma AlphabetIs(n: Sextet, c: Byte)
    ensures n / 8 < 8 && |ALPHABET[n / 8]| == 8
    ensures Sym(n) as char == ALPHABET[n / 8][n % 8]
    ensures Val(c) == Some(n) <==> c as char == ALPHABET[n / 8][n % 8]
  {
    assert Val(c) == Some(n) <==> c == Sym(n);
  }

  /** Big-endian numbers in base 256 and base 64, continuing from `acc`. */
  function Value256(acc: nat, s: Bytes): nat
    decreases s
  {
    if s == [] then acc else Value256(acc * 256 + s[0], s[1..])
  }

  function Value64(acc: nat, q: seq<Sextet>): nat
    decreases q
  {
    if q == [] then acc else Value64(acc * 64 + q[0], q[1..])
  }

  function Three256(a: nat, b: nat, c: nat): nat
  {
    a * 65536 + b * 256 + c
  }

  function Four64(u: nat, v: nat, w: nat, x: nat): nat
  {
    u * 262144 + v * 4096 + w * 64 + x
  }

  lemma ThreeBytes(acc: nat, s: Bytes)
    requires |s| >= 3
    ensures Value256(acc, s) == Value256(acc * 16777216 + Three256(s[0], s[1], s[2]), s[3..])
  {
    assert s[1..][1..] == s[2..] && s[2..][1..] == s[3..];
    assert Value256(acc, s) == Value256(acc * 256 + s[0], s[1..]);
    assert Value256(acc * 256 + s[0], s[1..]) == Value256((acc * 256 + s[0]) * 256 + s[1], s[2..]);
  }

  lemma FourSextets(acc: nat, q: seq<Sextet>)
    requires |q| >= 4
    ensures Value64(acc, q) == Value64(acc * 16777216 + Four64(q[0], q[1], q[2], q[3]), q[4..])
  {
    assert q[1..][1..] == q[2..] && q[2..][1..] == q[3..] && q[3..][1..] == q[4..];
    assert Value64(acc, q) == Value64(acc * 64 + q[0], q[1..]);
    assert Value64(acc * 64 + q[0], q[1..]) == Value64((acc * 64 + q[0]) * 64 + q[1], q[2..]);
    assert Value64((acc * 64 + q[0]) * 64 + q[1], q[2..])
        == Value64(((acc * 64 + q[0]) * 64 + q[1]) * 64 + q[2], q[3..]);
  }

  lemma SameGroup(a: Byte, b: Byte, c: Byte)
    ensures Three256(a, b, c) == Four64(a / 4, a % 4 * 16 + b / 16, b % 16 * 4 + c / 64, c % 64)
  {
  }

  lemma LastGroup(acc: nat, s: Bytes)
    requires 0 < |s| < 3
    ensures Value64(acc, Pack(s)) == Filled(Value256(acc, s), |s|)
  {
    var q := Pack(s);
    var two := (acc * 64 + q[0]) * 64 + q[1];
    assert Value64(acc, q) == Value64(acc * 64 + q[0], q[1..]);
    assert Value64(acc * 64 + q[0], q[1..]) == Value64(two, q[1..][1..]);
    if |s| == 1 {
      assert q[1..][1..] == [] && s[1..] == [];
    } else {
      assert q[1..][1..] == [q[2]] && [q[2]][1..] == [] && s[1..] == [s[1]] && [s[1]][1..] == [];
      assert Value64(two, [q[2]]) == Value64(two * 64 + q[2], []);
      assert Value256(acc * 256 + s[0], [s[1]]) == Value256((acc * 256 + s[0]) * 256 + s[1], []);
    }
  }

  /** The number of `n` bytes, with the zero bits that fill the last sextet. */
  function Filled(value: nat, n: nat): nat
  {
    if n % 3 == 0 then value else if n % 3 == 1 then value * 16 else value * 4
  }

  lemma FirstGroup(s: Bytes)
    requires |s| >= 3
    ensures var q := Pack(s);
            && |q| >= 4 && q[4..] == Pack(s[3..])
            && Four64(q[0], q[1], q[2], q[3]) == Three256(s[0], s[1], s[2])
  {
    SameGroup(s[0], s[1], s[2]);
    assert Pack(s)[4..] == Pack(s[3..]);
  }

  lemma {:induction false} PackLength(s: Bytes)
    ensures |Pack(s)| == (4 * |s| + 2) / 3
  {
    if |s| >= 3 { PackLength(s[3..]); }
  }

  /** The sextets spell the same number as the bytes, once zero bits fill the last one. */
  lemma {:induction false} PackValue(acc: nat, s: Bytes)
    ensures |Pack(s)| == (4 * |s| + 2) / 3
    ensures Value64(acc, Pack(s)) == Filled(Value256(acc, s), |s|)
    decreases s
  {
    PackLength(s);
    if |s| >= 3 {
      FirstGroup(s);
      SameRest(acc, s, Pack(s));
      FilledAgain(Value256(acc, s), |s[3..]|);
      PackValue(acc * 16777216 + Three256(s[0], s[1], s[2]), s[3..]);
    } else if s != [] {
      LastGroup(acc, s);
    }
  }

  lemma FilledAgain(value: nat, n: nat)
    ensures Filled(value, n + 3) == Filled(value, n)
  {
  }

  lemma SameRest(acc: nat, s: Bytes, q: seq<Sextet>)
    requires |s| >= 3 && |q| >= 4 && Four64(q[0], q[1], q[2], q[3]) == Three256(s[0], s[1], s[2])
    ensures var acc' := acc * 16777216 + Three256(s[0], s[1], s[2]);
            Value64(acc, q) == Value64(acc', q[4..]) && Value256(acc, s) == Value256(acc', s[3..])
  {
    ThreeBytes(acc, s);
    FourSextets(acc, q);
  }

  lemma DecodeEncode(s: Bytes)
    ensures Decode(Encode(s)) == Some(s)
  {
    ValsSyms(Pack(s));
    UnpackPack(s);
  }

  /** Only one text decodes to given bytes: the one their encoding is. */
  lemma EncodeDecode(s: Bytes)
    requires Decode(s).Some?
    ensures Encode(Decode(s).value) == s
  {
    SymsVals(s);
    PackUnpack(Vals(s).value);
  }

  // ---- decimal ----

  function Digits(n: nat): Bytes
  {
    if n < 10 then [48 + n] else Digits(n / 10) + [48 + n % 10]
  }

  predicate IsDigit(c: Byte)
  {
    48 <= c <= 57
  }

  function NumberOf(s: Bytes): Option<nat>
  {
    if s == [] then Some(0)
    else
      var n := |s| - 1;
      if !IsDigit(s[n]) then None
      else
        match NumberOf(s[..n])
        case None => None
        case Some(v) => Some(v * 10 + s[n] - 48)
  }

  /** `str::parse::<u32>`: one optional leading plus, at least one digit, no overflow. */
  function ParseU32(s: Bytes): Option<nat>
  {
    var digits := if |s| > 1 && s[0] == PLUS then s[1..] else s;
    if digits == [] then None
    else
      match NumberOf(digits)
      case None => None
      case Some(v) => if v > U32_MAX then None else Some(v)
  }

  lemma {:induction false} DigitsFacts(n: nat)
    ensures |Digits(n)| > 0 && NumberOf(Digits(n)) == Some(n)
    ensures forall i :: 0 <= i < |Digits(n)| ==> IsDigit(Digits(n)[i])
  {
    if n < 10 {
      assert Digits(n)[..0] == [];
    } else {
      DigitsFacts(n / 10);
      assert Digits(n)[..|Digits(n)| - 1] == Digits(n / 10);
    }
  }

  /** What is printed is the decimal notation: no leading zero but for 0 itself. */
  lemma {:induction false} DigitsAreDecimal(n: nat, d: nat)
    requires d < 10
    ensures Digits(d) == [48 + d]
    ensures n > 0 ==> Digits(10 * n + d) == Digits(n) + [48 + d]
    ensures n > 0 ==> Digits(n)[0] != 48
  {
    if n >= 10 { DigitsAreDecimal(n / 10, n % 10); }
  }

  function Zeros(z: nat): Bytes
  {
    seq(z, i => 48)
  }

  lemma {:induction false} NumberSkipsZeros(z: nat, s: Bytes)
    ensures NumberOf(Zeros(z) + s) == NumberOf(s)
  {
    if s != [] {
      var n := |s| - 1;
      NumberSkipsZeros(z, s[..n]);
      assert (Zeros(z) + s)[..z + n] == Zeros(z) + s[..n];
    } else if z > 0 {
      NumberSkipsZeros(z - 1, []);
      assert (Zeros(z) + [])[..z - 1] == Zeros(z - 1) + [];
    }
  }

  /** A text of digits is the decimal notation of its number after some zeros. */
  lemma {:induction false} NumberIsPadded(s: Bytes) returns (z: nat)
    requires s != [] && NumberOf(s).Some?
    ensures s == Zeros(z) + Digits(NumberOf(s).value)
  {
    var n := |s| - 1;
    var d: nat := s[n] - 48;
    z := 0;
    if n == 0 {
      assert s[..0] == [];
      assert s == Zeros(0) + [48 + d];
    } else {
      var m := NumberOf(s[..n]).value;
      z := NumberIsPadded(s[..n]);
      DigitsAreDecimal(m, d);
      if m == 0 {
        assert Zeros(z) + [48] == Zeros(z + 1);
        z := z + 1;
      }
      assert s == s[..n] + [s[n]];
      assert s == Zeros(z) + Digits(m * 10 + d);
    }
  }

  /** Exactly the texts that parse to `n`: its decimal notation, after any number of zeros and
      at most one plus. */
  lemma ParsesIff(s: Bytes, n: nat)
    ensures ParseU32(s) == Some(n) <==>
              n <= 4294967295 && exists z: nat :: s == Zeros(z) + Digits(n) || s == [43] + (Zeros(z) + Digits(n))
  {
    if ParseU32(s) == Some(n) {
      var digits := if |s| > 1 && s[0] == PLUS then s[1..] else s;
      var z := NumberIsPadded(digits);
      assert digits == Zeros(z) + Digits(n);
      assert s == digits || s == [43] + digits;
    }
    if z: nat :| s == Zeros(z) + Digits(n) || s == [43] + (Zeros(z) + Digits(n)) {
      DigitsFacts(n);
      NumberSkipsZeros(z, Digits(n));
      var digits := Zeros(z) + Digits(n);
      assert z == 0 ==> IsDigit(digits[0]);
      assert digits[0] != PLUS;
    }
  }

  lemma ParsePrinted(n: nat)
    requires n <= U32_MAX
    ensures ParseU32(Digits(n)) == Some(n)
  {
    DigitsFacts(n);
    assert IsDigit(Digits(n)[0]);
  }

  // ---- UTF-8 ----

  predicate Tail(c: Byte)
  {
    0x80 <= c <= 0xBF
  }

  /** The length of the well-formed sequence `s` starts with, or 0. */
  function Scalar(s: Bytes): nat
  {
    if |s| >= 1 && s[0] < 0x80 then 1
    else if |s| >= 2 && 0xC2 <= s[0] <= 0xDF && Tail(s[1]) then 2
    else if |s| >= 3 && Tail(s[2]) && Three(s[0], s[1]) then 3
    else if |s| >= 4 && Tail(s[2]) && Tail(s[3]) && Four(s[0], s[1]) then 4
    else 0
  }

  predicate Three(a: Byte, b: Byte)
  {
    || (a == 0xE0 && 0xA0 <= b <= 0xBF)
    || (0xE1 <= a <= 0xEC && Tail(b))
    || (a == 0xED && 0x80 <= b <= 0x9F)
    || (0xEE <= a <= 0xEF && Tail(b))
  }

  predicate Four(a: Byte, b: Byte)
  {
    || (a == 0xF0 && 0x90 <= b <= 0xBF)
    || (0xF1 <= a <= 0xF3 && Tail(b))
    || (a == 0xF4 && 0x80 <= b <= 0x8F)
  }

  predicate Utf8(s: Bytes)
  {
    s == [] || (0 < Scalar(s) <= |s| && Utf8(s[Scalar(s)..]))
  }

  predicate IsScalar(c: nat)
  {
    c < 0xD800 || 0xE000 <= c < 0x110000
  }

  /** The encoding form of a Unicode scalar value. */
  function Utf8Of(c: nat): Bytes
    requires IsScalar(c)
  {
    if c < 0x80 then [c]
    else if c < 0x800 then [0xC0 + c / 64, 0x80 + c % 64]
    else if c < 0x10000 then [0xE0 + c / 4096, 0x80 + c / 64 % 64, 0x80 + c % 64]
    else [0xF0 + c / 262144, 0x80 + c / 4096 % 64, 0x80 + c / 64 % 64, 0x80 + c % 64]
  }

  function Utf8OfAll(text: seq<nat>): Bytes
    requires forall i :: 0 <= i < |text| ==> IsScalar(text[i])
  {
    if text == [] then [] else Utf8Of(text[0]) + Utf8OfAll(text[1..])
  }

  /** Six more bits, from a continuation byte. */
  function Glued(high: nat, c: Byte): nat
    requires Tail(c)
  {
    high * 64 + c - 0x80
  }

  lemma GluedParts(high: nat, c: Byte)
    requires Tail(c)
    ensures Glued(high, c) / 64 == high && 0x80 + Glued(high, c) % 64 == c as int
  {
  }

  lemma TwoIsScalar(a: Byte, b: Byte) returns (c: nat)
    requires 0xC2 <= a <= 0xDF && Tail(b)
    ensures IsScalar(c) && Utf8Of(c) == [a, b]
  {
    c := Glued(a - 0xC0, b);
    GluedParts(a - 0xC0, b);
  }

  lemma ThreeIsScalar(a: Byte, b: Byte, d: Byte) returns (c: nat)
    requires Three(a, b) && Tail(d)
    ensures IsScalar(c) && Utf8Of(c) == [a, b, d]
  {
    var high := Glued(a - 0xE0, b);
    c := Glued(high, d);
    GluedParts(a - 0xE0, b);
    GluedParts(high, d);
    assert c / 4096 == high / 64;
  }

  lemma FourIsScalar(a: Byte, b: Byte, d: Byte, e: Byte) returns (c: nat)
    requires Four(a, b) && Tail(d) && Tail(e)
    ensures IsScalar(c) && Utf8Of(c) == [a, b, d, e]
  {
    var top := Glued(a - 0xF0, b);
    var high := Glued(top, d);
    c := Glued(high, e);
    GluedParts(a - 0xF0, b);
    GluedParts(top, d);
    GluedParts(high, e);
    assert c / 4096 == high / 64 && c / 262144 == top / 64;
  }

  lemma StartsWithScalar(s: Bytes) returns (c: nat)
    requires Scalar(s) > 0
    ensures IsScalar(c) && Utf8Of(c) == s[..Scalar(s)]
  {
    if Scalar(s) == 1 {
      c := s[0];
    } else if Scalar(s) == 2 {
      c := TwoIsScalar(s[0], s[1]);
    } else if Scalar(s) == 3 {
      c := ThreeIsScalar(s[0], s[1], s[2]);
    } else {
      c := FourIsScalar(s[0], s[1], s[2], s[3]);
    }
  }

  lemma ThreeOfScalar(c: nat)
    requires IsScalar(c) && 0x800 <= c < 0x10000
    ensures Three(0xE0 + c / 4096, 0x80 + c / 64 % 64)
  {
    var high := c / 64;
    assert c / 4096 == high / 64;
  }

  lemma FourOfScalar(c: nat)
    requires 0x10000 <= c < 0x110000
    ensures Four(0xF0 + c / 262144, 0x80 + c / 4096 % 64)
  {
    var top := c / 4096;
    assert c / 262144 == top / 64;
  }

  lemma ScalarOfUtf8(c: nat, rest: Bytes)
    requires IsScalar(c)
    ensures Scalar(Utf8Of(c) + rest) == |Utf8Of(c)|
  {
    if 0x10000 <= c {
      FourOfScalar(c);
    } else if 0x800 <= c {
      ThreeOfScalar(c);
    }
  }

  /** Well-formed texts are the encodings of sequences of Unicode scalar values. */
  lemma {:induction false} Utf8IsText(s: Bytes) returns (text: seq<nat>)
    requires Utf8(s)
    ensures forall i :: 0 <= i < |text| ==> IsScalar(text[i])
    ensures Utf8OfAll(text) == s
  {
    text := [];
    if s != [] {
      var c := StartsWithScalar(s);
      var rest := Utf8IsText(s[Scalar(s)..]);
      text := [c] + rest;
      assert text[1..] == rest;
    }
  }

  lemma {:induction false} TextIsUtf8(text: seq<nat>)
    requires forall i :: 0 <= i < |text| ==> IsScalar(text[i])
    ensures Utf8(Utf8OfAll(text))
  {
    if text != [] {
      TextIsUtf8(text[1..]);
      ScalarOfUtf8(text[0], Utf8OfAll(text[1..]));
      assert Utf8OfAll(text)[|Utf8Of(text[0])|..] == Utf8OfAll(text[1..]);
    }
  }

  lemma ScalarLocal(a: Bytes, b: Bytes)
    requires Scalar(a) > 0
    ensures Scalar(a + b) == Scalar(a) <= |a|
  {
  }

  lemma {:induction false} Utf8Concat(a: Bytes, b: Bytes)
    requires Utf8(a) && Utf8(b)
    ensures Utf8(a + b)
  {
    if a == [] {
      assert a + b == b;
    } else {
      ScalarLocal(a, b);
      assert (a + b)[Scalar(a)..] == a[Scalar(a)..] + b;
      Utf8Concat(a[Scalar(a)..], b);
    }
  }

  predicate Ascii(s: Bytes)
  {
    forall i :: 0 <= i < |s| ==> s[i] < 0x80
  }

  lemma {:induction false} AsciiIsUtf8(s: Bytes)
    requires Ascii(s)
    ensures Utf8(s)
  {
    if s != [] {
      assert s[0] < 0x80;
      AsciiIsUtf8(s[1..]);
    }
  }

  // ---- splitting ----

  predicate DotFree(s: Bytes)
  {
    forall i :: 0 <= i < |s| ==> s[i] != DOT
  }

  /** `split('.')`: always at least one part. */
  function Split(s: Bytes): (r: seq<Bytes>)
    ensures r != []
  {
    if s == [] then [[]]
    else
      var rest := Split(s[1..]);
      if s[0] == DOT then [[]] + rest else [[s[0]] + rest[0]] + rest[1..]
  }

  function Join(parts: seq<Bytes>): Bytes
    requires parts != []
  {
    if |parts| == 1 then parts[0] else parts[0] + [DOT] + Join(parts[1..])
  }

  lemma {:induction false} JoinSplit(s: Bytes)
    ensures Join(Split(s)) == s
    ensures forall i :: 0 <= i < |Split(s)| ==> DotFree(Split(s)[i])
  {
    if s != [] {
      JoinSplit(s[1..]);
      var r, rest := Split(s), Split(s[1..]);
      if s[0] == DOT {
        assert r[1..] == rest;
        assert Join(r) == [] + [DOT] + s[1..];
      } else {
        assert r[1..] == rest[1..];
        assert DotFree(rest[0]);
        if |rest| == 1 {
          assert Join(r) == [s[0]] + rest[0];
        } else {
          assert Join(rest) == rest[0] + [DOT] + Join(rest[1..]);
          assert Join(r) == [s[0]] + (rest[0] + [DOT] + Join(rest[1..]));
        }
      }
    }
  }

  lemma {:induction false} SplitDotFree(s: Bytes)
    requires DotFree(s)
    ensures Split(s) == [s]
  {
    if s != [] {
      SplitDotFree(s[1..]);
      assert s == [s[0]] + s[1..];
    }
  }

  lemma {:induction false} SplitHead(a: Bytes, rest: Bytes)
    requires DotFree(a)
    ensures Split(a + [DOT] + rest) == [a] + Split(rest)
  {
    var s := a + [DOT] + rest;
    if a == [] {
      assert s[1..] == rest;
    } else {
      assert s[1..] == a[1..] + [DOT] + rest;
      SplitHead(a[1..], rest);
      assert a == [a[0]] + a[1..];
      assert ([a[1..]] + Split(rest))[1..] == Split(rest);
    }
  }

  function Dots(s: Bytes): nat
  {
    if s == [] then 0 else (if s[0] == DOT then 1 else 0) + Dots(s[1..])
  }

  lemma {:induction false} SplitCounts(s: Bytes)
    ensures |Split(s)| == Dots(s) + 1
    ensures Dots(s) == 0 <==> DotFree(s)
  {
    if s != [] {
      SplitCounts(s[1..]);
      assert DotFree(s) <==> s[0] != DOT && DotFree(s[1..]);
    }
  }

  lemma {:induction false} DotsConcat(a: Bytes, b: Bytes)
    ensures Dots(a + b) == Dots(a) + Dots(b)
  {
    if a == [] {
      assert a + b == b;
    } else {
      assert (a + b)[1..] == a[1..] + b;
      DotsConcat(a[1..], b);
    }
  }

  // ---- the token ----

  datatype TokenError = Encoding | Format | KeyVersion | SignatureEncoding | Signature

  datatype Claims = Claims(userId: Bytes, deviceId: Bytes, keyVersion: nat)

  /** The keyed hash, as an arbitrary function of secret and message. */
  type Mac = (Bytes, Bytes) -> Bytes

  function Payload(userId: Bytes, deviceId: Bytes, kv: Bytes): Bytes
  {
    userId + [DOT] + (deviceId + [DOT] + kv)
  }

  function Raw(payload: Bytes, mac: Bytes): Bytes
  {
    payload + [DOT] + Encode(mac)
  }

  function Generate(mac: Mac, secret: Bytes, userId: Bytes, deviceId: Bytes, keyVersion: nat): Bytes
  {
    var payload := Payload(userId, deviceId, Digits(keyVersion));
    Encode(Raw(payload, mac(secret, payload)))
  }

  function Parse(mac: Mac, secret: Bytes, token: Bytes): Result<Claims, TokenError>
  {
    var raw := Decode(token);
    if raw.None? || !Utf8(raw.value) then Err(Encoding)
    else
      var parts := Split(raw.value);
      if |parts| != 4 then Err(Format)
      else
        var kv := ParseU32(parts[2]);
        if kv.None? || kv.value < 1 then Err(KeyVersion)
        else
          var sig := Decode(parts[3]);
          if sig.None? then Err(SignatureEncoding)
          else if sig.value != mac(secret, Payload(parts[0], parts[1], parts[2])) then Err(Signature)
          else Ok(Claims(parts[0], parts[1], kv.value))
  }

  lemma {:induction false} SymsArePlain(q: seq<Sextet>)
    ensures Ascii(Syms(q)) && DotFree(Syms(q))
  {
    if q != [] { SymsArePlain(q[1..]); }
  }

  lemma EncodeIsPlain(s: Bytes)
    ensures Ascii(Encode(s)) && DotFree(Encode(s))
  {
    SymsArePlain(Pack(s));
  }

  lemma DigitsArePlain(n: nat)
    ensures Ascii(Digits(n)) && DotFree(Digits(n))
  {
    DigitsFacts(n);
    forall i | 0 <= i < |Digits(n)| ensures Digits(n)[i] < 0x80 && Digits(n)[i] != DOT {
      assert IsDigit(Digits(n)[i]);
    }
  }

  lemma RawIsUtf8(userId: Bytes, deviceId: Bytes, kv: Bytes, mac: Bytes)
    requires Utf8(userId) && Utf8(deviceId) && Ascii(kv)
    ensures Utf8(Raw(Payload(userId, deviceId, kv), mac))
  {
    EncodeIsPlain(mac);
    AsciiIsUtf8(kv);
    AsciiIsUtf8([DOT]);
    AsciiIsUtf8(Encode(mac));
    Utf8Concat(deviceId, [DOT]);
    Utf8Concat(deviceId + [DOT], kv);
    Utf8Concat(userId, [DOT]);
    Utf8Concat(userId + [DOT], deviceId + [DOT] + kv);
    Utf8Concat(Payload(userId, deviceId, kv), [DOT]);
    Utf8Concat(Payload(userId, deviceId, kv) + [DOT], Encode(mac));
  }

  lemma RawSplits(userId: Bytes, deviceId: Bytes, kv: Bytes, mac: Bytes)
    requires DotFree(userId) && DotFree(deviceId) && DotFree(kv)
    ensures Split(Raw(Payload(userId, deviceId, kv), mac)) == [userId, deviceId, kv, Encode(mac)]
  {
    EncodeIsPlain(mac);
    SplitDotFree(Encode(mac));
    SplitHead(kv, Encode(mac));
    SplitHead(deviceId, kv + [DOT] + Encode(mac));
    SplitHead(userId, deviceId + [DOT] + (kv + [DOT] + Encode(mac)));
    assert Raw(Payload(userId, deviceId, kv), mac)
        == userId + [DOT] + (deviceId + [DOT] + (kv + [DOT] + Encode(mac)));
  }

  lemma RawDots(userId: Bytes, deviceId: Bytes, kv: Bytes, mac: Bytes)
    requires DotFree(kv)
    ensures |Split(Raw(Payload(userId, deviceId, kv), mac))| == 4 + Dots(userId) + Dots(deviceId)
  {
    EncodeIsPlain(mac);
    SplitCounts(kv);
    SplitCounts(Encode(mac));
    DotsConcat(deviceId, [DOT]);
    DotsConcat(deviceId + [DOT], kv);
    DotsConcat(userId, [DOT]);
    DotsConcat(userId + [DOT], deviceId + [DOT] + kv);
    DotsConcat(Payload(userId, deviceId, kv), [DOT]);
    DotsConcat(Payload(userId, deviceId, kv) + [DOT], Encode(mac));
    assert Dots([DOT]) == 1;
    SplitCounts(Raw(Payload(userId, deviceId, kv), mac));
  }

  /** Parsing what was generated returns exactly what went in if and only if neither id holds a
      dot; with one, every such token is rejected as malformed. */
  lemma RoundTripIffDotFree(mac: Mac, secret: Bytes, userId: Bytes, deviceId: Bytes, keyVersion: nat)
    requires Utf8(userId) && Utf8(deviceId) && 1 <= keyVersion <= U32_MAX
    ensures Parse(mac, secret, Generate(mac, secret, userId, deviceId, keyVersion))
         == if DotFree(userId) && DotFree(deviceId) then Ok(Claims(userId, deviceId, keyVersion)) else Err(Format)
  {
    var kv := Digits(keyVersion);
    var payload := Payload(userId, deviceId, kv);
    var tag := mac(secret, payload);
    DigitsArePlain(keyVersion);
    ParsePrinted(keyVersion);
    DecodeEncode(Raw(payload, tag));
    DecodeEncode(tag);
    RawIsUtf8(userId, deviceId, kv, tag);
    RawDots(userId, deviceId, kv, tag);
    SplitCounts(userId);
    SplitCounts(deviceId);
    if DotFree(userId) && DotFree(deviceId) { RawSplits(userId, deviceId, kv, tag); }
  }

  /** Different claims get different tokens. */
  lemma GenerateInjective(mac: Mac, secret: Bytes, a: Claims, b: Claims)
    requires Utf8(a.userId) && Utf8(a.deviceId) && DotFree(a.userId) && DotFree(a.deviceId)
    requires Utf8(b.userId) && Utf8(b.deviceId) && DotFree(b.userId) && DotFree(b.deviceId)
    requires 1 <= a.keyVersion <= U32_MAX && 1 <= b.keyVersion <= U32_MAX
    requires Generate(mac, secret, a.userId, a.deviceId, a.keyVersion)
          == Generate(mac, secret, b.userId, b.deviceId, b.keyVersion)
    ensures a == b
  {
    RoundTripIffDotFree(mac, secret, a.userId, a.deviceId, a.keyVersion);
    RoundTripIffDotFree(mac, secret, b.userId, b.deviceId, b.keyVersion);
  }

  /** The text that carries these claims with `kv` as its version segment, properly tagged. */
  function Tagged(mac: Mac, secret: Bytes, userId: Bytes, deviceId: Bytes, kv: Bytes): Bytes
  {
    var payload := Payload(userId, deviceId, kv);
    Encode(Raw(payload, mac(secret, payload)))
  }

  /** Parsing accepts nothing but properly tagged texts: the accepted token is the encoding of
      its own claims, of a version text that denotes its version, and of their tag. */
  lemma AcceptedIsTagged(mac: Mac, secret: Bytes, token: Bytes) returns (kv: Bytes)
    requires Parse(mac, secret, token).Ok?
    ensures var c := Parse(mac, secret, token).value;
            && token == Tagged(mac, secret, c.userId, c.deviceId, kv)
            && DotFree(c.userId) && DotFree(c.deviceId) && DotFree(kv)
            && ParseU32(kv) == Some(c.keyVersion) && 1 <= c.keyVersion <= U32_MAX
  {
    var raw := Decode(token).value;
    EncodeDecode(token);
    JoinSplit(raw);
    var parts := Split(raw);
    kv := parts[2];
    EncodeDecode(parts[3]);
    assert DotFree(parts[0]) && DotFree(parts[1]) && DotFree(parts[2]);
    JoinOfFour(parts);
    assert raw == Raw(Payload(parts[0], parts[1], kv), Decode(parts[3]).value);
  }

  lemma JoinOfFour(p: seq<Bytes>)
    requires |p| == 4
    ensures Join(p) == p[0] + [DOT] + (p[1] + [DOT] + p[2]) + [DOT] + p[3]
  {
    assert Join(p[1..]) == p[1] + [DOT] + Join(p[1..][1..]);
    assert p[1..][1..] == [p[2], p[3]];
    assert [p[2], p[3]][1..] == [p[3]];
    assert Join([p[2], p[3]]) == p[2] + [DOT] + p[3];
  }

  /** A text with three dots whose ids hold none, under any tag: the version is judged first,
      then the tag; a properly tagged one is accepted even when its version is not printed
      canonically. */
  lemma TaggedIsAccepted(mac: Mac, secret: Bytes, userId: Bytes, deviceId: Bytes, kv: Bytes, tag: Bytes)
    requires Utf8(userId) && Utf8(deviceId) && DotFree(userId) && DotFree(deviceId) && DotFree(kv) && Ascii(kv)
    ensures var payload := userId + [46] + (deviceId + [46] + kv);
            var version := ParseU32(kv);
            var parsed := Parse(mac, secret, Encode(payload + [46] + Encode(tag)));
            parsed == if version.None? || version.value == 0 then Err(KeyVersion)
                      else if tag != mac(secret, payload) then Err(Signature)
                      else Ok(Claims(userId, deviceId, version.value))
  {
    var payload := Payload(userId, deviceId, kv);
    DecodeEncode(Raw(payload, tag));
    DecodeEncode(tag);
    RawIsUtf8(userId, deviceId, kv, tag);
    RawSplits(userId, deviceId, kv, tag);
  }

  /** The wire format: user, device and version separated by dots, then the tag of just that. */
  lemma WireFormat(mac: Mac, secret: Bytes, userId: Bytes, deviceId: Bytes, keyVersion: nat)
    ensures var payload := userId + [46] + deviceId + [46] + Digits(keyVersion);
            var tag := mac(secret, payload);
            Generate(mac, secret, userId, deviceId, keyVersion) == Encode(payload + [46] + Encode(tag))
  {
    assert userId + [46] + deviceId + [46] + Digits(keyVersion)
        == Payload(userId, deviceId, Digits(keyVersion));
  }
}
