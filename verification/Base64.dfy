// Unpadded URL-safe base64 (RFC 4648, sections 3.2 and 5) on byte sequences.
module Base64 {
  import opened Tokens

  newtype Byte = x: int | 0 <= x < 256

  type Text = seq<Byte>

  const DOT: Byte := 46
  const STAR: Byte := 42
  const GREATER: Byte := 62
  const SLASH: Byte := 47

  /** The alphabet: A-Z, a-z, 0-9, '-', '_'. */
  function Digit(v: int): Byte
    requires 0 <= v < 64
  {
    if v < 26 then (v + 65) as Byte
    else if v < 52 then (v + 71) as Byte
    else if v < 62 then (v - 4) as Byte
    else if v == 62 then 45
    else 95
  }

  function DigitValue(c: Byte): (r: Option<int>)
    ensures r.Some? ==> 0 <= r.value < 64 && Digit(r.value) == c
  {
    if 65 <= c <= 90 then Some(c as int - 65)
    else if 97 <= c <= 122 then Some(c as int - 71)
    else if 48 <= c <= 57 then Some(c as int + 4)
    else if c == 45 then Some(62)
    else if c == 95 then Some(63)
    else None
  }

  predicate InAlphabet(c: Byte) { DigitValue(c).Some? }

  function Encode(src: Text): Text {
    if src == [] then []
    else
      var a := src[0] as int;
      if |src| == 1 then [Digit(a / 4), Digit(a % 4 * 16)]
      else
        var b := src[1] as int;
        if |src| == 2 then [Digit(a / 4), Digit(a % 4 * 16 + b / 16), Digit(b % 16 * 4)]
        else
          var c := src[2] as int;
          [Digit(a / 4), Digit(a % 4 * 16 + b / 16), Digit(b % 16 * 4 + c / 64), Digit(c % 64)] + Encode(src[3..])
  }

  /** Line breaks are skipped wherever they stand. */
  function SkipBreaks(s: Text): Text {
    if s == [] then []
    else (if s[0] == 10 || s[0] == 13 then [] else [s[0]]) + SkipBreaks(s[1..])
  }

  /** Four digits make three bytes; two or three at the end make one or two, and what they
      leave over is ignored; one digit alone, or a character that is no digit, is an error. */
  function DecodeDigits(s: Text): Option<Text> {
    if s == [] then Some([])
    else if |s| == 1 then None
    else match (DigitValue(s[0]), DigitValue(s[1]))
      case (Some(a), Some(b)) =>
        var x := (a * 4 + b / 16) as Byte;
        if |s| == 2 then Some([x])
        else (match DigitValue(s[2])
          case None => None
          case Some(c) =>
            var y := (b % 16 * 16 + c / 4) as Byte;
            if |s| == 3 then Some([x, y])
            else (match (DigitValue(s[3]), DecodeDigits(s[4..]))
              case (Some(d), Some(rest)) => Some([x, y, (c % 4 * 64 + d) as Byte] + rest)
              case _ => None))
      case _ => None
  }

  function Decode(s: Text): Option<Text> { DecodeDigits(SkipBreaks(s)) }

  function EncodedLen(n: nat): nat { n / 3 * 4 + (n % 3 * 8 + 5) / 6 }

  function DecodedLen(n: nat): nat { n * 6 / 8 }

  // Round trip

  lemma DigitInverse(v: int)
    requires 0 <= v < 64
    ensures DigitValue(Digit(v)) == Some(v)
  {
  }

  lemma {:induction false} EncodeAlphabet(src: Text)
    ensures forall i :: 0 <= i < |Encode(src)| ==> InAlphabet(Encode(src)[i])
    ensures |Encode(src)| == EncodedLen(|src|)
  {
    if |src| >= 3 {
      EncodeAlphabet(src[3..]);
      var rest := Encode(src[3..]);
      assert Encode(src)[4..] == rest;
      forall i | 0 <= i < |Encode(src)| ensures InAlphabet(Encode(src)[i]) {
        if i >= 4 { assert Encode(src)[i] == rest[i - 4]; }
      }
    }
  }

  lemma {:induction false} NoBreaks(s: Text)
    requires forall i :: 0 <= i < |s| ==> InAlphabet(s[i])
    ensures SkipBreaks(s) == s
  {
    if s != [] {
      NoBreaks(s[1..]);
    }
  }

  /** Bytes are put together again from the sixes of bits they were cut into. */
  lemma Reassemble(a: Byte, b: Byte, c: Byte)
    ensures var d0, d1 := a as int / 4, a as int % 4 * 16 + b as int / 16;
      var d2, d3 := b as int % 16 * 4 + c as int / 64, c as int % 64;
      && 0 <= d0 < 64 && 0 <= d1 < 64 && 0 <= d2 < 64 && 0 <= d3 < 64
      && d0 * 4 + d1 / 16 == a as int && d1 % 16 * 16 + d2 / 4 == b as int && d2 % 4 * 64 + d3 == c as int
  {
  }

  lemma DecodeOne(a: Byte)
    ensures DecodeDigits(Encode([a])) == Some([a])
  {
    hide Digit, DigitValue;
    Reassemble(a, 0, 0);
    DigitInverse(a as int / 4);
    DigitInverse(a as int % 4 * 16);
  }

  lemma DecodeTwo(a: Byte, b: Byte)
    ensures DecodeDigits(Encode([a, b])) == Some([a, b])
  {
    hide Digit, DigitValue;
    Reassemble(a, b, 0);
    DigitInverse(a as int / 4);
    DigitInverse(a as int % 4 * 16 + b as int / 16);
    DigitInverse(b as int % 16 * 4);
  }

  lemma DecodeThree(a: Byte, b: Byte, c: Byte, digits: Text, rest: Text)
    requires DecodeDigits(digits) == Some(rest)
    ensures var i, j, k := a as int, b as int, c as int;
      var four := [Digit(i / 4), Digit(i % 4 * 16 + j / 16), Digit(j % 16 * 4 + k / 64), Digit(k % 64)];
      DecodeDigits(four + digits) == Some([a, b, c] + rest)
  {
    hide Digit, DigitValue;
    var i, j, k := a as int, b as int, c as int;
    Reassemble(a, b, c);
    DigitInverse(i / 4);
    DigitInverse(i % 4 * 16 + j / 16);
    DigitInverse(j % 16 * 4 + k / 64);
    DigitInverse(k % 64);
    var four := [Digit(i / 4), Digit(i % 4 * 16 + j / 16), Digit(j % 16 * 4 + k / 64), Digit(k % 64)];
    assert (four + digits)[4..] == digits;
  }

  lemma {:induction false} DecodeEncoded(src: Text)
    ensures DecodeDigits(Encode(src)) == Some(src)
  {
    hide Digit, DigitValue, DecodeDigits;
    if src == [] {
      DecodeNone();
    } else if |src| == 1 {
      DecodeOne(src[0]);
      assert src == [src[0]];
    } else if |src| == 2 {
      DecodeTwo(src[0], src[1]);
      assert src == [src[0], src[1]];
    } else {
      DecodeEncoded(src[3..]);
      DecodeThree(src[0], src[1], src[2], Encode(src[3..]), src[3..]);
      assert src == [src[0], src[1], src[2]] + src[3..];
    }
  }

  lemma DecodeNone()
    ensures DecodeDigits(Encode([])) == Some([])
  {
  }

  /** Decoding undoes encoding on every byte sequence. */
  lemma RoundTrip(src: Text)
    ensures Decode(Encode(src)) == Some(src)
  {
    EncodeAlphabet(src);
    NoBreaks(Encode(src));
    DecodeEncoded(src);
  }

  lemma EncodeInjective(a: Text, b: Text)
    requires Encode(a) == Encode(b)
    ensures a == b
  {
    RoundTrip(a);
    RoundTrip(b);
  }

  /** The buffer sizes that callers allocate are exact for encoded data. */
  lemma LengthsExact(n: nat)
    ensures DecodedLen(EncodedLen(n)) == n
  {
  }

  lemma {:induction false} SkipShortens(s: Text)
    ensures |SkipBreaks(s)| <= |s|
  {
    if s != [] {
      SkipShortens(s[1..]);
    }
  }

  lemma {:induction false} DigitsLength(s: Text)
    requires DecodeDigits(s).Some?
    ensures |DecodeDigits(s).value| == DecodedLen(|s|)
  {
    if |s| >= 4 {
      DigitsLength(s[4..]);
    }
  }

  /** Decoded data never outgrows the buffer allocated for it. */
  lemma DecodeFits(s: Text)
    requires Decode(s).Some?
    ensures |Decode(s).value| <= DecodedLen(|s|)
  {
    SkipShortens(s);
    DigitsLength(SkipBreaks(s));
  }

  /** An encoding is never a separator or a wildcard, and holds no separator. */
  lemma EncodedWord(src: Text)
    ensures DOT !in Encode(src) && Encode(src) != [STAR] && Encode(src) != [GREATER]
  {
    EncodeAlphabet(src);
    var e := Encode(src);
    assert e != [] ==> InAlphabet(e[0]);
    assert !InAlphabet(STAR) && !InAlphabet(GREATER);
  }

  // The encoding, bit by bit

  const UPPER := "ABCDEFGHIJKLMNOPQRSTUVWXYZ"
  const LOWER := "abcdefghijklmnopqrstuvwxyz"
  const OTHER := "0123456789-_"

  /** Table 2 of RFC 4648, the URL-safe alphabet. */
  const ALPHABET := UPPER + LOWER + OTHER

  lemma DigitInTable(v: int)
    requires 0 <= v < 64
    ensures |ALPHABET| == 64 && Digit(v) as int == ALPHABET[v] as int
  {
    if v < 26 {
      assert ALPHABET[v] == UPPER[v];
    } else if v < 52 {
      assert ALPHABET[v] == LOWER[v - 26];
    } else {
      assert ALPHABET[v] == OTHER[v - 52];
    }
  }

  /** A character's value is its place in the table; others have none. */
  lemma DigitExactly(c: Byte)
    ensures |ALPHABET| == 64
    ensures match DigitValue(c)
      case Some(v) => ALPHABET[v] as int == c as int
      case None => forall v :: 0 <= v < 64 ==> ALPHABET[v] as int != c as int
  {
    if DigitValue(c).Some? { DigitInTable(DigitValue(c).value); }
    forall v | 0 <= v < 64 ensures ALPHABET[v] as int == Digit(v) as int && DigitValue(Digit(v)) == Some(v) {
      DigitInTable(v);
      DigitInverse(v);
    }
  }

  function Halved(a: int, n: nat): int
    decreases n
  {
    if n == 0 then a else Halved(a, n - 1) / 2
  }

  /** Bit `k` of a text, counted from the most significant bit of its first byte; zero after
      its end. */
  function Bit(src: Text, k: nat): int { Halved(ByteAt(src, k / 8), 7 - k % 8) % 2 }

  /** The byte at `i`, or zero after the end. */
  function ByteAt(src: Text, i: nat): int { if i < |src| then src[i] as int else 0 }

  /** The number that six bits make. */
  function Six(src: Text, k: nat): int {
    32 * Bit(src, k) + 16 * Bit(src, k + 1) + 8 * Bit(src, k + 2)
    + 4 * Bit(src, k + 3) + 2 * Bit(src, k + 4) + Bit(src, k + 5)
  }

  lemma BitAt(src: Text, i: nat, j: nat)
    requires j < 8
    ensures Bit(src, 8 * i + j) == Halved(ByteAt(src, i), 7 - j) % 2
  {
  }

  lemma Halves(a: int)
    ensures forall n :: 0 <= n < 7 ==> Halved(a, n) == 2 * Halved(a, n + 1) + Halved(a, n) % 2
    ensures Halved(a, 0) == a && Halved(a, 2) == a / 4 && Halved(a, 4) == a / 16 && Halved(a, 6) == a / 64
  {
    assert Halved(a, 1) == a / 2;
    assert Halved(a, 3) == a / 4 / 2;
    assert Halved(a, 5) == a / 16 / 2;
  }

  lemma NoneLeft(a: int)
    requires 0 <= a < 256
    ensures Halved(a, 7) % 2 == Halved(a, 7)
  {
    Halves(a);
  }

  lemma BitsAt(src: Text, i: nat)
    ensures var a, k := ByteAt(src, i), 8 * i;
      && 32 * Bit(src, k) + 16 * Bit(src, k + 1) + 8 * Bit(src, k + 2) + 4 * Bit(src, k + 3)
         + 2 * Bit(src, k + 4) + Bit(src, k + 5) == a / 4
      && 32 * Bit(src, k + 6) + 16 * Bit(src, k + 7) == a % 4 * 16
      && 8 * Bit(src, k) + 4 * Bit(src, k + 1) + 2 * Bit(src, k + 2) + Bit(src, k + 3) == a / 16
      && 32 * Bit(src, k + 4) + 16 * Bit(src, k + 5) + 8 * Bit(src, k + 6) + 4 * Bit(src, k + 7) == a % 16 * 4
      && 2 * Bit(src, k) + Bit(src, k + 1) == a / 64
      && 32 * Bit(src, k + 2) + 16 * Bit(src, k + 3) + 8 * Bit(src, k + 4) + 4 * Bit(src, k + 5)
         + 2 * Bit(src, k + 6) + Bit(src, k + 7) == a % 64
  {
    hide Bit, Halved;
    var a := ByteAt(src, i);
    BitAt(src, i, 0);
    BitAt(src, i, 1);
    BitAt(src, i, 2);
    BitAt(src, i, 3);
    BitAt(src, i, 4);
    BitAt(src, i, 5);
    BitAt(src, i, 6);
    BitAt(src, i, 7);
    Halves(a);
    NoneLeft(a);
  }

  /** The sixes of bits of a group of three bytes; missing bytes count as zero. */
  lemma GroupBits(src: Text)
    ensures var a, b, c := ByteAt(src, 0), ByteAt(src, 1), ByteAt(src, 2);
      && Six(src, 0) == a / 4 && Six(src, 6) == a % 4 * 16 + b / 16
      && Six(src, 12) == b % 16 * 4 + c / 64 && Six(src, 18) == c % 64
  {
    hide Bit, ByteAt;
    BitsAt(src, 0);
    BitsAt(src, 1);
    BitsAt(src, 2);
  }

  lemma LaterBit(src: Text, k: nat)
    requires |src| >= 3
    ensures Bit(src[3..], k) == Bit(src, k + 24)
  {
    hide Halved;
    assert (k + 24) / 8 == k / 8 + 3 && (k + 24) % 8 == k % 8;
    assert ByteAt(src[3..], k / 8) == ByteAt(src, k / 8 + 3);
  }

  lemma LaterBits(src: Text, k: nat)
    requires |src| >= 3
    ensures Six(src[3..], k) == Six(src, k + 24)
  {
    hide Bit;
    forall j: nat ensures Bit(src[3..], j) == Bit(src, j + 24) { LaterBit(src, j); }
  }

  /** Character i of an encoding is the entry of the table at bits 6i to 6i + 5 of the text,
      filled with zeros at its end. */
  lemma {:induction false} EncodeExactly(src: Text, i: nat)
    requires i < |Encode(src)|
    ensures 0 <= Six(src, 6 * i) < 64 == |ALPHABET|
    ensures Encode(src)[i] as int == ALPHABET[Six(src, 6 * i)] as int
  {
    hide Digit, Six, ALPHABET;
    GroupBits(src);
    if |src| >= 3 && i >= 4 {
      EncodeExactly(src[3..], i - 4);
      LaterBits(src, 6 * (i - 4));
    } else {
      DigitInTable(Six(src, 6 * i));
    }
  }

  /** How many bits of the last digit are left over. */
  function LeftOver(n: nat): nat { if n % 4 == 2 then 16 else if n % 4 == 3 then 4 else 1 }

  function Value(c: Byte): (r: int)
    requires InAlphabet(c)
    ensures 0 <= r < 64 && Digit(r) == c && DigitValue(c) == Some(r)
  {
    DigitValue(c).value
  }

  /** Digits with the left-over bits of the last one set to zero. */
  function Cleared(s: Text): Text
    requires forall i :: 0 <= i < |s| ==> InAlphabet(s[i])
  {
    var last := |s| - 1;
    if s == [] then s else s[last := Digit(Value(s[last]) / LeftOver(|s|) * LeftOver(|s|))]
  }

  lemma {:induction false} DecodesExactly(s: Text)
    ensures DecodeDigits(s).Some? <==> |s| % 4 != 1 && forall i :: 0 <= i < |s| ==> InAlphabet(s[i])
  {
    hide Digit, DigitValue;
    if |s| >= 4 {
      DecodesExactly(s[4..]);
      assert forall i :: 4 <= i < |s| ==> s[i] == s[4..][i - 4];
      assert forall i :: 0 <= i < |s| - 4 ==> s[4..][i] == s[i + 4];
    }
  }

  /** Four sixes of bits, put together to three bytes and cut again. */
  lemma CutAgain(a: int, b: int, c: int, d: int)
    requires 0 <= a < 64 && 0 <= b < 64 && 0 <= c < 64 && 0 <= d < 64
    ensures var x, y, z := a * 4 + b / 16, b % 16 * 16 + c / 4, c % 4 * 64 + d;
      && 0 <= x < 256 && 0 <= y < 256 && 0 <= z < 256
      && x / 4 == a && x % 4 * 16 + y / 16 == b && y % 16 * 4 + z / 64 == c && z % 64 == d
  {
  }

  lemma EncodeThree(x: Byte, y: Byte, z: Byte, rest: Text)
    ensures var a, b, c := x as int, y as int, z as int;
      Encode([x, y, z] + rest)
      == [Digit(a / 4), Digit(a % 4 * 16 + b / 16), Digit(b % 16 * 4 + c / 64), Digit(c % 64)] + Encode(rest)
  {
    hide Digit;
    assert ([x, y, z] + rest)[3..] == rest;
  }

  lemma DecodeFour(s: Text)
    requires |s| >= 4 && (forall i :: 0 <= i < 4 ==> InAlphabet(s[i])) && DecodeDigits(s[4..]).Some?
    ensures var a, b, c, d := Value(s[0]), Value(s[1]), Value(s[2]), Value(s[3]);
      DecodeDigits(s)
      == Some([(a * 4 + b / 16) as Byte, (b % 16 * 16 + c / 4) as Byte, (c % 4 * 64 + d) as Byte]
              + DecodeDigits(s[4..]).value)
  {
    hide Digit, DigitValue, InAlphabet;
  }

  lemma FourAgain(s: Text)
    requires |s| >= 4 && forall i :: 0 <= i < 4 ==> InAlphabet(s[i])
    requires DecodeDigits(s[4..]).Some?
    ensures DecodeDigits(s).Some?
    ensures Encode(DecodeDigits(s).value) == s[..4] + Encode(DecodeDigits(s[4..]).value)
  {
    hide Digit, DigitValue, InAlphabet, DecodeDigits, Encode;
    var a, b, c, d := Value(s[0]), Value(s[1]), Value(s[2]), Value(s[3]);
    CutAgain(a, b, c, d);
    DecodeFour(s);
    EncodeThree((a * 4 + b / 16) as Byte, (b % 16 * 16 + c / 4) as Byte, (c % 4 * 64 + d) as Byte,
      DecodeDigits(s[4..]).value);
  }

  lemma TwoAgain(s: Text)
    requires |s| == 2 && InAlphabet(s[0]) && InAlphabet(s[1])
    ensures DecodeDigits(s).Some? && Encode(DecodeDigits(s).value) == Cleared(s)
  {
    hide Digit, DigitValue, InAlphabet;
    var a, b := Value(s[0]), Value(s[1]);
    CutAgain(a, b, 0, 0);
    assert DecodeDigits(s) == Some([(a * 4 + b / 16) as Byte]);
    assert Encode([(a * 4 + b / 16) as Byte]) == [Digit(a), Digit(b / 16 * 16)];
  }

  lemma ThreeAgain(s: Text)
    requires |s| == 3 && InAlphabet(s[0]) && InAlphabet(s[1]) && InAlphabet(s[2])
    ensures DecodeDigits(s).Some? && Encode(DecodeDigits(s).value) == Cleared(s)
  {
    hide Digit, DigitValue, InAlphabet;
    var a, b, c := Value(s[0]), Value(s[1]), Value(s[2]);
    CutAgain(a, b, c, 0);
    var two := [(a * 4 + b / 16) as Byte, (b % 16 * 16 + c / 4) as Byte];
    assert DecodeDigits(s) == Some(two);
    assert Encode(two) == [Digit(a), Digit(b), Digit(c / 4 * 4)];
  }

  lemma ClearedTail(s: Text)
    requires |s| >= 4 && |s| % 4 != 1 && forall i :: 0 <= i < |s| ==> InAlphabet(s[i])
    ensures s[..4] + Cleared(s[4..]) == Cleared(s)
  {
    hide Digit, DigitValue, InAlphabet;
    if |s| == 4 { assert Value(s[3]) / 1 * 1 == Value(s[3]); }
  }

  /** Digits can be decoded exactly when all of them are in the alphabet and there is not one
      too many, and then they are, up to left-over bits, the encoding of what comes out. */
  lemma {:induction false} DecodeExactly(s: Text)
    ensures DecodeDigits(s).Some? <==> |s| % 4 != 1 && forall i :: 0 <= i < |s| ==> InAlphabet(s[i])
    ensures DecodeDigits(s).Some? ==> Encode(DecodeDigits(s).value) == Cleared(s)
  {
    hide Digit, DigitValue, InAlphabet, DecodeDigits, Cleared, Encode;
    DecodesExactly(s);
    if DecodeDigits(s).Some? && s != [] {
      if |s| < 4 {
        if |s| == 2 { TwoAgain(s); } else { ThreeAgain(s); }
      } else {
        assert forall i :: 0 <= i < |s[4..]| ==> s[4..][i] == s[i + 4];
        DecodesExactly(s[4..]);
        DecodeExactly(s[4..]);
        FourAgain(s);
        ClearedTail(s);
      }
    } else if s == [] {
      NothingCleared();
    }
  }

  lemma NothingCleared()
    ensures DecodeDigits([]) == Some([]) && Encode([]) == [] && Cleared([]) == []
  {
  }

  /** Line breaks are left out, and nothing else. */
  lemma {:induction false} SkipExactly(a: Text, b: Text, c: Byte)
    ensures SkipBreaks(a + b) == SkipBreaks(a) + SkipBreaks(b)
    ensures SkipBreaks([c]) == if c as int in {'\n' as int, '\r' as int} then [] else [c]
  {
    assert [c][1..] == [] && SkipBreaks([c][1..]) == [];
    if a == [] {
      assert a + b == b;
    } else {
      SkipExactly(a[1..], b, c);
      assert (a + b)[1..] == a[1..] + b;
      assert (a + b)[0] == a[0];
      var first := if a[0] == 10 || a[0] == 13 then [] else [a[0]];
      assert SkipBreaks(a + b) == first + SkipBreaks(a[1..] + b);
      assert SkipBreaks(a) == first + SkipBreaks(a[1..]);
    }
  }

  /** The separators and wildcards of keys. */
  lemma Separators()
    ensures DOT as int == '.' as int && STAR as int == '*' as int
    ensures GREATER as int == '>' as int && SLASH as int == '/' as int
  {
  }
}
