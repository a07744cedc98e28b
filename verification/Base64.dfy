/** Unpadded base64url (section 5 of RFC 4648), as Go's base64.RawURLEncoding. Bytes are characters below 256. */
module Base64 {
  import opened Text

  type Byte = c: char | c as int < 256 witness 'a'

  function Letter(v: int): (c: char)
    requires 0 <= v < 64
    ensures Bits(c) == v
  {
    if v < 26 then ('A' as int + v) as char
    else if v < 52 then ('a' as int + v - 26) as char
    else if v < 62 then ('0' as int + v - 52) as char
    else if v == 62 then '-' else '_'
  }

  /** The six bits a letter stands for, or -1. */
  function Bits(c: char): (v: int)
    ensures -1 <= v < 64
  {
    if 'A' <= c <= 'Z' then c as int - 'A' as int
    else if 'a' <= c <= 'z' then c as int - 'a' as int + 26
    else if '0' <= c <= '9' then c as int - '0' as int + 52
    else if c == '-' then 62 else if c == '_' then 63 else -1
  }

  function Code(c: Byte): nat { c as int }

  function First(a: Byte): char { Letter(Code(a) / 4) }
  function Second(a: Byte, b: int): char
    requires 0 <= b < 256
  {
    Letter(Code(a) % 4 * 16 + b / 16)
  }
  function Third(b: Byte, c: int): char
    requires 0 <= c < 256
  {
    Letter(Code(b) % 16 * 4 + c / 64)
  }
  function Fourth(c: Byte): char { Letter(Code(c) % 64) }

  function Encode(s: seq<Byte>): string {
    if |s| == 0 then ""
    else if |s| == 1 then [First(s[0]), Second(s[0], 0)]
    else if |s| == 2 then [First(s[0]), Second(s[0], Code(s[1])), Third(s[1], 0)]
    else [First(s[0]), Second(s[0], Code(s[1])), Third(s[1], Code(s[2])), Fourth(s[2])] + Encode(s[3..])
  }

  function Byte0(a: int, b: int): Byte
    requires 0 <= a < 64 && 0 <= b < 64
  {
    (a * 4 + b / 16) as char
  }
  function Byte1(b: int, c: int): Byte
    requires 0 <= b < 64 && 0 <= c < 64
  {
    (b % 16 * 16 + c / 4) as char
  }
  function Byte2(c: int, d: int): Byte
    requires 0 <= c < 64 && 0 <= d < 64
  {
    (c % 4 * 64 + d) as char
  }

  /** Go's decoder skips line breaks. */
  function Strip(s: string): string {
    if s == [] then [] else (if s[0] == '\r' || s[0] == '\n' then [] else [s[0]]) + Strip(s[1..])
  }

  predicate AllLetters(s: string) { forall i :: 0 <= i < |s| ==> Bits(s[i]) >= 0 }

  /** Groups of four letters; a last group of two or three gives one or two bytes, of one is an error. */
  function DecodeLetters(s: string): Parse<seq<Byte>>
    requires AllLetters(s)
  {
    if |s| == 0 then Got([])
    else if |s| == 1 then Bad
    else if |s| == 2 then Got([Byte0(Bits(s[0]), Bits(s[1]))])
    else if |s| == 3 then Got([Byte0(Bits(s[0]), Bits(s[1])), Byte1(Bits(s[1]), Bits(s[2]))])
    else
      var rest := DecodeLetters(s[4..]);
      if rest.Bad? then Bad
      else Got([Byte0(Bits(s[0]), Bits(s[1])), Byte1(Bits(s[1]), Bits(s[2])), Byte2(Bits(s[2]), Bits(s[3]))]
        + rest.value)
  }

  function Decode(s: string): Parse<seq<Byte>> {
    var t := Strip(s);
    if AllLetters(t) then DecodeLetters(t) else Bad
  }

  // ---------------------------------------------------------------- round trip

  lemma FirstBack(a: Byte, b: int)
    requires 0 <= b < 256
    ensures Byte0(Bits(First(a)), Bits(Second(a, b))) == a
  {
  }

  lemma LowBits(hi: nat, lo: nat, k: nat)
    requires k == 4 || k == 16
    requires lo < k
    ensures (hi * k + lo) % k == lo && (hi * k + lo) / k == hi
  {
  }

  lemma SecondBack(a: Byte, b: Byte, c: int)
    requires 0 <= c < 256
    ensures Byte1(Bits(Second(a, Code(b))), Bits(Third(b, c))) == b
  {
    var q, r := Bits(Second(a, Code(b))), Bits(Third(b, c));
    LowBits(Code(a) % 4, Code(b) / 16, 16);
    LowBits(Code(b) % 16, c / 64, 4);
    assert q % 16 == Code(b) / 16 && r / 4 == Code(b) % 16;
  }

  lemma ThirdBack(b: Byte, c: Byte)
    ensures Byte2(Bits(Third(b, Code(c))), Bits(Fourth(c))) == c
  {
    LowBits(Code(b) % 16, Code(c) / 64, 4);
    assert Bits(Third(b, Code(c))) % 4 == Code(c) / 64;
  }

  lemma {:induction false} StripLetters(s: string)
    requires AllLetters(s)
    ensures Strip(s) == s
  {
    if s != [] {
      assert Bits(s[0]) >= 0;
      StripLetters(s[1..]);
    }
  }

  predicate Back(e: string, s: seq<Byte>) { AllLetters(e) && DecodeLetters(e) == Got(s) }

  lemma TwoLetters(p: char, q: char, a: Byte)
    requires Bits(p) >= 0 && Bits(q) >= 0 && Byte0(Bits(p), Bits(q)) == a
    ensures Back([p, q], [a])
  {
  }

  lemma ThreeLetters(p: char, q: char, r: char, a: Byte, b: Byte)
    requires Bits(p) >= 0 && Bits(q) >= 0 && Bits(r) >= 0
    requires Byte0(Bits(p), Bits(q)) == a && Byte1(Bits(q), Bits(r)) == b
    ensures Back([p, q, r], [a, b])
  {
  }

  lemma FourLetters(p: char, q: char, r: char, t: char, e: string, a: Byte, b: Byte, c: Byte, s: seq<Byte>)
    requires Bits(p) >= 0 && Bits(q) >= 0 && Bits(r) >= 0 && Bits(t) >= 0 && Back(e, s)
    requires Byte0(Bits(p), Bits(q)) == a && Byte1(Bits(q), Bits(r)) == b && Byte2(Bits(r), Bits(t)) == c
    ensures Back([p, q, r, t] + e, [a, b, c] + s)
  {
    assert ([p, q, r, t] + e)[4..] == e;
  }

  lemma GroupOfOne(a: Byte)
    ensures Back([First(a), Second(a, 0)], [a])
  {
    FirstBack(a, 0);
    TwoLetters(First(a), Second(a, 0), a);
  }

  lemma GroupOfTwo(a: Byte, b: Byte)
    ensures Back([First(a), Second(a, Code(b)), Third(b, 0)], [a, b])
  {
    FirstBack(a, Code(b));
    SecondBack(a, b, 0);
    ThreeLetters(First(a), Second(a, Code(b)), Third(b, 0), a, b);
  }

  lemma GroupOfThree(a: Byte, b: Byte, c: Byte, e: string, s: seq<Byte>)
    requires Back(e, s)
    ensures Back([First(a), Second(a, Code(b)), Third(b, Code(c)), Fourth(c)] + e, [a, b, c] + s)
  {
    FirstBack(a, Code(b));
    SecondBack(a, b, Code(c));
    ThirdBack(b, c);
    FourLetters(First(a), Second(a, Code(b)), Third(b, Code(c)), Fourth(c), e, a, b, c, s);
  }

  lemma {:induction false} LettersBack(s: seq<Byte>)
    ensures Back(Encode(s), s)
  {
    if |s| == 1 {
      GroupOfOne(s[0]);
      assert s == [s[0]];
    } else if |s| == 2 {
      GroupOfTwo(s[0], s[1]);
      assert s == [s[0], s[1]];
    } else if |s| >= 3 {
      LettersBack(s[3..]);
      GroupOfThree(s[0], s[1], s[2], Encode(s[3..]), s[3..]);
      assert s == [s[0], s[1], s[2]] + s[3..];
    }
  }

  /** Every byte string survives encoding and decoding. */
  lemma RoundTrip(s: seq<Byte>)
    ensures Decode(Encode(s)) == Got(s)
  {
    LettersBack(s);
    StripLetters(Encode(s));
  }

  /** The test vectors of section 10 of RFC 4648, without padding, and the two letters of section 5. */
  lemma TestVectors()
    ensures Encode("") == "" && Encode("f") == "Zg" && Encode("fo") == "Zm8" && Encode("foo") == "Zm9v"
    ensures Encode("foob") == "Zm9vYg" && Encode([251 as char, 255 as char]) == "-_8"
  {
    assert "foo"[3..] == "" && "foob"[3..] == "b";
    assert Encode("foo") == "Zm9v" + Encode("");
    assert Encode("foob") == "Zm9v" + Encode("b");
  }
}
