/** UTF-8: bytes are characters below 256, text is code points. The decoder is that of the WHATWG Encoding Standard. */
module Utf8 {
  import opened Strings

  const REPLACEMENT := '\U{FFFD}'

  function Byte(n: int): char
    requires 0 <= n < 256
  {
    n as char
  }

  function EncodeChar(c: char): (r: string)
    ensures r != ""
    ensures forall b :: b in r ==> b < '\U{100}'
    ensures c < '\U{80}' ==> r == [c]
    ensures c >= '\U{80}' ==> forall b :: b in r ==> b >= '\U{80}'
  {
    var n := c as int;
    if n < 0x80 then [c]
    else if n < 0x800 then [Byte(0xC0 + n / 64), Byte(0x80 + n % 64)]
    else if n < 0x1_0000 then [Byte(0xE0 + n / 4096), Byte(0x80 + n / 64 % 64), Byte(0x80 + n % 64)]
    else [Byte(0xF0 + n / 0x4_0000), Byte(0x80 + n / 4096 % 64), Byte(0x80 + n / 64 % 64), Byte(0x80 + n % 64)]
  }

  function Encode(text: string): string
  {
    if text == "" then "" else EncodeChar(text[0]) + Encode(text[1..])
  }

  /** The bytes still to come complete a scalar value: `cp` is what the bytes before them gave. */
  predicate Open(needed: nat, cp: nat, lower: int, upper: int)
  {
    && 0x80 <= lower && upper <= 0xBF
    && match needed
       case 1 => 2 <= cp < 0x4400 && !(0x360 <= cp < 0x380)
       case 2 => cp < 0x110 && (cp == 0 ==> lower >= 0xA0) && (cp == 0xD ==> upper <= 0x9F)
       case 3 => cp <= 4 && (cp == 0 ==> lower >= 0x90) && (cp == 4 ==> upper <= 0x8F)
       case _ => false
  }

  /** At the start of a code point. */
  function Decode(bytes: string): string
    decreases |bytes|, 0
  {
    if bytes == "" then ""
    else
      var b, rest := bytes[0] as int, bytes[1..];
      if b < 0x80 then [bytes[0]] + Decode(rest)
      else if 0xC2 <= b <= 0xDF then Continue(1, b - 0xC0, 0x80, 0xBF, rest)
      else if 0xE0 <= b <= 0xEF then
        Continue(2, b - 0xE0, if b == 0xE0 then 0xA0 else 0x80, if b == 0xED then 0x9F else 0xBF, rest)
      else if 0xF0 <= b <= 0xF4 then
        Continue(3, b - 0xF0, if b == 0xF0 then 0x90 else 0x80, if b == 0xF4 then 0x8F else 0xBF, rest)
      else [REPLACEMENT] + Decode(rest)
  }

  /** Inside a code point; a byte that does not fit is read again as the start of one. */
  function Continue(needed: nat, cp: nat, lower: int, upper: int, bytes: string): string
    requires Open(needed, cp, lower, upper)
    decreases |bytes|, 1
  {
    if bytes == "" then [REPLACEMENT]
    else if !(lower <= bytes[0] as int <= upper) then [REPLACEMENT] + Decode(bytes)
    else
      var cp' := cp * 64 + (bytes[0] as int - 0x80);
      if needed == 1 then [cp' as char] + Decode(bytes[1..]) else Continue(needed - 1, cp', 0x80, 0xBF, bytes[1..])
  }

  /** utf8.ValidString. */
  predicate WellFormed(bytes: string)
  {
    Encode(Decode(bytes)) == bytes
  }

  lemma DecodeTwo(c: char, rest: string)
    requires '\U{80}' <= c < '\U{800}'
    ensures Decode(EncodeChar(c) + rest) == [c] + Decode(rest)
  {
    var e := EncodeChar(c);
    assert (e + rest)[1..] == e[1..] + rest && (e[1..] + rest)[1..] == rest;
    assert Decode(e + rest) == Continue(1, c as int / 64, 0x80, 0xBF, e[1..] + rest);
  }

  lemma DecodeThree(c: char, rest: string)
    requires '\U{800}' <= c < '\U{10000}'
    ensures Decode(EncodeChar(c) + rest) == [c] + Decode(rest)
  {
    var e, n := EncodeChar(c), c as int;
    var lower, upper := if n < 0x1000 then 0xA0 else 0x80, if n / 4096 == 0xD then 0x9F else 0xBF;
    assert (e + rest)[1..] == e[1..] + rest && (e[1..] + rest)[1..] == e[2..] + rest && (e[2..] + rest)[1..] == rest;
    assert Decode(e + rest) == Continue(2, n / 4096, lower, upper, e[1..] + rest);
    assert n / 64 == n / 4096 * 64 + n / 64 % 64;
    assert Continue(2, n / 4096, lower, upper, e[1..] + rest) == Continue(1, n / 64, 0x80, 0xBF, e[2..] + rest);
  }

  lemma DecodeFour(c: char, rest: string)
    requires c >= '\U{10000}'
    ensures Decode(EncodeChar(c) + rest) == [c] + Decode(rest)
  {
    var e, n := EncodeChar(c), c as int;
    var lower, upper := if n < 0x4_0000 then 0x90 else 0x80, if n / 0x4_0000 == 4 then 0x8F else 0xBF;
    assert (e + rest)[1..] == e[1..] + rest && (e[1..] + rest)[1..] == e[2..] + rest;
    assert (e[2..] + rest)[1..] == e[3..] + rest && (e[3..] + rest)[1..] == rest;
    assert Decode(e + rest) == Continue(3, n / 0x4_0000, lower, upper, e[1..] + rest);
    assert n / 4096 == n / 0x4_0000 * 64 + n / 4096 % 64;
    assert Continue(3, n / 0x4_0000, lower, upper, e[1..] + rest) == Continue(2, n / 4096, 0x80, 0xBF, e[2..] + rest);
    assert n / 64 == n / 4096 * 64 + n / 64 % 64;
    assert Continue(2, n / 4096, 0x80, 0xBF, e[2..] + rest) == Continue(1, n / 64, 0x80, 0xBF, e[3..] + rest);
  }

  lemma DecodeOne(c: char, rest: string)
    ensures Decode(EncodeChar(c) + rest) == [c] + Decode(rest)
  {
    if c < '\U{80}' {
      assert ([c] + rest)[1..] == rest;
    } else if c < '\U{800}' {
      DecodeTwo(c, rest);
    } else if c < '\U{10000}' {
      DecodeThree(c, rest);
    } else {
      DecodeFour(c, rest);
    }
  }

  /** Decoding gives back every text. */
  lemma {:induction false} DecodeOfEncode(text: string)
    ensures Decode(Encode(text)) == text
  {
    if text != "" {
      DecodeOne(text[0], Encode(text[1..]));
      DecodeOfEncode(text[1..]);
      assert text == [text[0]] + text[1..];
    }
  }

  /** So the well-formed byte strings are exactly the encodings. */
  lemma WellFormedIff(bytes: string)
    ensures WellFormed(bytes) <==> exists text :: Encode(text) == bytes
  {
    if text :| Encode(text) == bytes {
      DecodeOfEncode(text);
    }
  }

  lemma FaultIsMarked(needed: nat, cp: nat, lower: int, upper: int, bytes: string)
    requires Open(needed, cp, lower, upper) && (bytes == "" || !(lower <= bytes[0] as int <= upper))
    ensures REPLACEMENT in Continue(needed, cp, lower, upper, bytes)
  {
    assert Continue(needed, cp, lower, upper, bytes)[0] == REPLACEMENT;
  }

  /** Without a replacement, the next byte fits. */
  lemma NextFits(needed: nat, cp: nat, lower: int, upper: int, bytes: string)
    requires Open(needed, cp, lower, upper) && REPLACEMENT !in Continue(needed, cp, lower, upper, bytes)
    ensures bytes != "" && lower <= bytes[0] as int <= upper
    ensures var cp' := cp * 64 + (bytes[0] as int - 0x80);
      if needed == 1
      then Continue(needed, cp, lower, upper, bytes) == [cp' as char] + Decode(bytes[1..])
      else Continue(needed, cp, lower, upper, bytes) == Continue(needed - 1, cp', 0x80, 0xBF, bytes[1..])
  {
    if bytes == "" || !(lower <= bytes[0] as int <= upper) {
      FaultIsMarked(needed, cp, lower, upper, bytes);
    }
  }

  lemma DivMod64(a: nat, x: nat)
    requires x < 64
    ensures (a * 64 + x) / 64 == a && (a * 64 + x) % 64 == x
  {
  }

  lemma EncodedTwo(a: nat, x: nat)
    requires 2 <= a < 32 && x < 64
    ensures EncodeChar((a * 64 + x) as char) == [Byte(0xC0 + a), Byte(0x80 + x)]
  {
  }

  lemma EncodedThree(a: nat, x: nat, y: nat, c: char)
    requires a < 16 && x < 64 && y < 64 && (a == 0 ==> x >= 0x20) && c as int == (a * 64 + x) * 64 + y
    ensures EncodeChar(c) == [Byte(0xE0 + a), Byte(0x80 + x), Byte(0x80 + y)]
  {
    DivMod64(a * 64 + x, y);
    DivMod64(a, x);
  }

  lemma EncodedFour(a: nat, x: nat, y: nat, z: nat, c: char)
    requires a <= 4 && x < 64 && y < 64 && z < 64 && (a == 0 ==> x >= 0x10)
    requires c as int == ((a * 64 + x) * 64 + y) * 64 + z
    ensures EncodeChar(c) == [Byte(0xF0 + a), Byte(0x80 + x), Byte(0x80 + y), Byte(0x80 + z)]
  {
    DivMod64((a * 64 + x) * 64 + y, z);
    DivMod64(a * 64 + x, y);
    DivMod64(a, x);
  }

  lemma BackTwo(b: int, rest: string, text: string)
    requires 0xC2 <= b <= 0xDF && REPLACEMENT !in text && text == Continue(1, b - 0xC0, 0x80, 0xBF, rest)
    ensures |rest| >= 1 && text != ""
    ensures text[1..] == Decode(rest[1..]) && EncodeChar(text[0]) == [Byte(b)] + rest[..1]
  {
    NextFits(1, b - 0xC0, 0x80, 0xBF, rest);
    EncodedTwo(b - 0xC0, rest[0] as int - 0x80);
  }

  lemma TwoMore(a: nat, lower: int, upper: int, rest: string) returns (x: nat, y: nat, c: char)
    requires Open(2, a, lower, upper) && REPLACEMENT !in Continue(2, a, lower, upper, rest)
    ensures |rest| >= 2 && x < 64 && y < 64 && lower <= 0x80 + x <= upper
    ensures rest[..2] == [Byte(0x80 + x), Byte(0x80 + y)] && Open(1, a * 64 + x, 0x80, 0xBF)
    ensures Continue(2, a, lower, upper, rest) == [c] + Decode(rest[2..]) && c as int == (a * 64 + x) * 64 + y
  {
    NextFits(2, a, lower, upper, rest);
    x := rest[0] as int - 0x80;
    NextFits(1, a * 64 + x, 0x80, 0xBF, rest[1..]);
    y := rest[1] as int - 0x80;
    assert rest[1..][1..] == rest[2..];
    c := ((a * 64 + x) * 64 + y) as char;
  }

  lemma ThreeMore(a: nat, lower: int, upper: int, rest: string) returns (x: nat, y: nat, z: nat, c: char)
    requires Open(3, a, lower, upper) && REPLACEMENT !in Continue(3, a, lower, upper, rest)
    ensures |rest| >= 3 && x < 64 && y < 64 && z < 64 && lower <= 0x80 + x <= upper
    ensures rest[..3] == [Byte(0x80 + x), Byte(0x80 + y), Byte(0x80 + z)]
    ensures Open(2, a * 64 + x, 0x80, 0xBF) && Open(1, (a * 64 + x) * 64 + y, 0x80, 0xBF)
    ensures Continue(3, a, lower, upper, rest) == [c] + Decode(rest[3..])
    ensures c as int == ((a * 64 + x) * 64 + y) * 64 + z
  {
    NextFits(3, a, lower, upper, rest);
    x := rest[0] as int - 0x80;
    y, z, c := TwoMore(a * 64 + x, 0x80, 0xBF, rest[1..]);
    assert rest[1..][2..] == rest[3..];
    assert rest[..3] == [rest[0]] + rest[1..][..2];
  }

  lemma BackThree(b: int, rest: string, text: string)
    requires 0xE0 <= b <= 0xEF && REPLACEMENT !in text
    requires text == Continue(2, b - 0xE0, if b == 0xE0 then 0xA0 else 0x80, if b == 0xED then 0x9F else 0xBF, rest)
    ensures |rest| >= 2 && text != ""
    ensures text[1..] == Decode(rest[2..]) && EncodeChar(text[0]) == [Byte(b)] + rest[..2]
  {
    var a := b - 0xE0;
    var x, y, c := TwoMore(a, if a == 0 then 0xA0 else 0x80, if a == 0xD then 0x9F else 0xBF, rest);
    EncodedThree(a, x, y, c);
  }

  lemma BackFour(b: int, rest: string, text: string)
    requires 0xF0 <= b <= 0xF4 && REPLACEMENT !in text
    requires text == Continue(3, b - 0xF0, if b == 0xF0 then 0x90 else 0x80, if b == 0xF4 then 0x8F else 0xBF, rest)
    ensures |rest| >= 3 && text != ""
    ensures text[1..] == Decode(rest[3..]) && EncodeChar(text[0]) == [Byte(b)] + rest[..3]
  {
    var a := b - 0xF0;
    var x, y, z, c := ThreeMore(a, if a == 0 then 0x90 else 0x80, if a == 4 then 0x8F else 0xBF, rest);
    EncodedFour(a, x, y, z, c);
  }

  /** The decoder marks every fault: bytes that are decoded without a replacement are well-formed. */
  lemma {:induction false} FaultsAreMarked(bytes: string)
    requires REPLACEMENT !in Decode(bytes)
    ensures WellFormed(bytes)
  {
    if bytes != "" {
      var size := SizeOfFirst(bytes);
      FaultsAreMarked(bytes[size..]);
      var text := Decode(bytes);
      assert bytes == bytes[..size] + bytes[size..];
      assert Encode(text) == EncodeChar(text[0]) + Encode(text[1..]);
    }
  }

  lemma LeadIsMarked(bytes: string)
    requires bytes != ""
    requires var b := bytes[0] as int; b >= 0x80 && !(0xC2 <= b <= 0xDF || 0xE0 <= b <= 0xEF || 0xF0 <= b <= 0xF4)
    ensures REPLACEMENT in Decode(bytes)
  {
    assert Decode(bytes)[0] == REPLACEMENT;
  }

  lemma FirstBytes(bytes: string, size: nat)
    requires 0 < size <= |bytes|
    ensures bytes[..size] == [bytes[0]] + bytes[1..][..size - 1] && bytes[1..][size - 1..] == bytes[size..]
  {
  }

  lemma SizeOfFirst(bytes: string) returns (size: nat)
    requires bytes != "" && REPLACEMENT !in Decode(bytes)
    ensures 0 < size <= |bytes| && Decode(bytes) != "" && Decode(bytes)[1..] == Decode(bytes[size..])
    ensures EncodeChar(Decode(bytes)[0]) == bytes[..size]
  {
    var b := bytes[0] as int;
    if 0xC2 <= b <= 0xDF {
      size := 2;
      BackTwo(b, bytes[1..], Decode(bytes));
      FirstBytes(bytes, size);
    } else if 0xE0 <= b <= 0xEF {
      size := 3;
      BackThree(b, bytes[1..], Decode(bytes));
      FirstBytes(bytes, size);
    } else if 0xF0 <= b <= 0xF4 {
      size := 4;
      BackFour(b, bytes[1..], Decode(bytes));
      FirstBytes(bytes, size);
    } else {
      size := 1;
      if b >= 0x80 {
        LeadIsMarked(bytes);
      }
    }
  }

  /** The bytes of a text start with one that cannot continue a code point. */
  lemma LeadDoesNotContinue(text: string)
    requires text != ""
    ensures Encode(text) != "" && !(0x80 <= Encode(text)[0] as int <= 0xBF)
  {
    assert EncodeChar(text[0]) != "" && Encode(text)[0] == EncodeChar(text[0])[0];
  }

  /** No fault spreads: whatever bytes come before it, a text is decoded as itself. */
  lemma FaultsDoNotSpread(bytes: string, text: string)
    ensures Decode(bytes + Encode(text)) == Decode(bytes) + text
  {
    DecodeOfEncode(text);
    if text != "" {
      LeadDoesNotContinue(text);
    }
    DecodeAgain(bytes, Encode(text));
  }

  /** Bytes that start afresh are decoded by themselves. */
  ghost predicate StartsAfresh(e: string)
  {
    e != "" ==> !(0x80 <= e[0] as int <= 0xBF)
  }

  lemma {:induction false} DecodeAgain(bytes: string, e: string)
    requires StartsAfresh(e)
    ensures Decode(bytes + e) == Decode(bytes) + Decode(e)
    decreases |bytes|, 0
  {
    if bytes == "" {
      assert bytes + e == e;
    } else {
      var b, rest := bytes[0] as int, bytes[1..];
      assert (bytes + e)[0] == bytes[0] && (bytes + e)[1..] == rest + e;
      if 0xC2 <= b <= 0xDF {
        ContinueAgain(1, b - 0xC0, 0x80, 0xBF, rest, e);
      } else if 0xE0 <= b <= 0xEF {
        ContinueAgain(2, b - 0xE0, if b == 0xE0 then 0xA0 else 0x80, if b == 0xED then 0x9F else 0xBF, rest, e);
      } else if 0xF0 <= b <= 0xF4 {
        ContinueAgain(3, b - 0xF0, if b == 0xF0 then 0x90 else 0x80, if b == 0xF4 then 0x8F else 0xBF, rest, e);
      } else {
        DecodeAgain(rest, e);
      }
    }
  }

  lemma {:induction false} ContinueAgain(needed: nat, cp: nat, lower: int, upper: int, bytes: string, e: string)
    requires Open(needed, cp, lower, upper) && StartsAfresh(e)
    ensures Continue(needed, cp, lower, upper, bytes + e) == Continue(needed, cp, lower, upper, bytes) + Decode(e)
    decreases |bytes|, 1
  {
    if bytes == "" {
      assert bytes + e == e;
    } else {
      assert (bytes + e)[0] == bytes[0] && (bytes + e)[1..] == bytes[1..] + e;
      if !(lower <= bytes[0] as int <= upper) {
        DecodeAgain(bytes, e);
      } else if needed == 1 {
        DecodeAgain(bytes[1..], e);
      } else {
        ContinueAgain(needed - 1, cp * 64 + (bytes[0] as int - 0x80), 0x80, 0xBF, bytes[1..], e);
      }
    }
  }

  lemma {:induction false} EncodeConcat(a: string, b: string)
    ensures Encode(a + b) == Encode(a) + Encode(b)
  {
    if a == "" {
      assert a + b == b;
    } else {
      assert (a + b)[1..] == a[1..] + b;
      EncodeConcat(a[1..], b);
      ConcatAssoc(EncodeChar(a[0]), Encode(a[1..]), Encode(b));
    }
  }

  lemma {:induction false} EncodeAscii(text: string)
    requires forall i :: 0 <= i < |text| ==> text[i] < '\U{80}'
    ensures Encode(text) == text
  {
    if text != "" {
      EncodeAscii(text[1..]);
      assert text == [text[0]] + text[1..];
    }
  }

  /** An ASCII character is in the bytes exactly if it is in the text. */
  lemma {:induction false} AsciiInEncode(text: string, c: char)
    requires c < '\U{80}'
    ensures c in Encode(text) <==> c in text
    ensures Encode(text) == "" <==> text == ""
  {
    if text != "" {
      AsciiInEncode(text[1..], c);
      assert text == [text[0]] + text[1..];
    }
  }

  /** Part by part, the second is the encoding of the first. */
  ghost predicate AreEncodings(parts: seq<string>, bytes: seq<string>)
  {
    |bytes| == |parts| && forall i :: 0 <= i < |parts| ==> bytes[i] == Encode(parts[i])
  }

  lemma EncodedPushFront(c: char, parts: seq<string>, bytes: seq<string>)
    requires |parts| >= 1 && AreEncodings(parts, bytes)
    ensures AreEncodings(PushFront(c, parts), [EncodeChar(c) + bytes[0]] + bytes[1..])
  {
    assert ([c] + parts[0])[1..] == parts[0];
    assert Encode([c] + parts[0]) == EncodeChar(c) + Encode(parts[0]);
  }

  /** Newlines are where they were: splitting and encoding commute. */
  lemma {:induction false} SplitOfEncode(text: string)
    ensures AreEncodings(Split(text), Split(Encode(text)))
  {
    if text != "" {
      var c, rest := text[0], text[1..];
      SplitOfEncode(rest);
      if c == NL {
        assert (EncodeChar(c) + Encode(rest))[1..] == Encode(rest);
      } else {
        SplitPrefix(EncodeChar(c), Encode(rest));
        EncodedPushFront(c, Split(rest), Split(Encode(rest)));
      }
    }
  }

  lemma {:induction false} SplitPrefix(a: string, b: string)
    requires NL !in a
    ensures Split(a + b) == [a + Split(b)[0]] + Split(b)[1..]
  {
    if a == "" {
      assert a + b == b && a + Split(b)[0] == Split(b)[0];
    } else {
      assert (a + b)[1..] == a[1..] + b;
      SplitPrefix(a[1..], b);
      assert [a[0]] + (a[1..] + Split(b)[0]) == a + Split(b)[0];
    }
  }
}
