/** The paging cursor: base64url of "<RFC3339Nano instant>|<posting id>". */
module Cursor {
  import opened Int64
  import opened Text
  import opened Calendar
  import opened Keyset
  import Base64

  /** What an empty cursor stands for: 9999-01-01T00:00:00Z and the largest id. */
  function Sentinel(): Key { Key(Midnight(Date(9999, 1, 1)), TWO_63 - 1) }

  predicate Ascii(s: string) { forall i :: 0 <= i < |s| ==> s[i] as int < 128 }

  lemma {:induction false} DecimalAscii(n: int)
    ensures Ascii(Decimal(n))
  {
    DecimalValue(if n < 0 then -n else n);
  }

  lemma YearAscii(y: int)
    ensures Ascii(FormatYear(y))
  {
    if y < 0 {
      DecimalAscii(-y);
    } else {
      DecimalAscii(y);
    }
  }

  lemma TailAscii(ns: nat)
    requires ns < SECOND
    ensures Ascii(FormatTail(ns))
  {
    if ns > 0 {
      Powers();
      var k := TrimmedValue(ns, 9);
      assert forall i :: 0 <= i < k ==> IsDigit(Trimmed(ns, 9)[i]);
    }
  }

  lemma FormatAscii(t: int)
    ensures Ascii(Format(t))
  {
    var d, c := DateOf(t / DAY), TimeOf(t % DAY);
    YearAscii(d.year);
    TailAscii(c.ns);
    AsciiConcat(FormatYear(d.year), Stamp(d.month, d.day, c));
    AsciiConcat(FormatYear(d.year) + Stamp(d.month, d.day, c), FormatTail(c.ns));
  }

  lemma AsciiConcat(a: string, b: string)
    requires Ascii(a) && Ascii(b)
    ensures Ascii(a + b)
  {
  }

  /** The text inside the cursor. */
  function Plain(k: Key): (s: seq<Base64.Byte>)
    ensures s == Format(k.at) + ("|" + Decimal(k.id))
  {
    FormatAscii(k.at);
    DecimalAscii(k.id);
    AsciiConcat("|", Decimal(k.id));
    AsciiConcat(Format(k.at), "|" + Decimal(k.id));
    var text := Format(k.at) + ("|" + Decimal(k.id));
    assert forall i :: 0 <= i < |text| ==> text[i] as int < 128;
    text
  }

  function Encode(k: Key): string { Base64.Encode(Plain(k)) }

  /** The index of the first '|', or the length of the text. */
  function FirstBar(s: string): (i: nat)
    ensures i <= |s| && (i < |s| ==> s[i] == '|') && '|' !in s[..i]
  {
    if s == [] || s[0] == '|' then 0
    else
      var i := FirstBar(s[1..]);
      assert s[..i + 1] == [s[0]] + s[1..][..i];
      i + 1
  }

  /** The text after base64: an instant, a bar, an id. */
  function DecodePlain(s: string): Parse<Key> {
    var i := FirstBar(s);
    if i == |s| then Bad
    else
      var at, id := ParseInstant(s[..i]), ParseInt(s[i + 1..]);
      if at.Bad? || id.Bad? then Bad else Got(Key(at.value, id.value))
  }

  function Decode(s: string): Parse<Key> {
    if s == "" then Got(Sentinel())
    else
      var raw := Base64.Decode(s);
      if raw.Bad? then Bad else DecodePlain(raw.value)
  }

  lemma {:induction false} FirstBarAt(a: string, b: string)
    requires '|' !in a
    ensures FirstBar(a + ("|" + b)) == |a|
  {
    if a == [] {
      assert a + ("|" + b) == "|" + b;
    } else {
      assert a[0] in a;
      assert (a + ("|" + b))[1..] == a[1..] + ("|" + b);
      FirstBarAt(a[1..], b);
    }
  }

  lemma SplitBack(a: string, b: string)
    requires '|' !in a
    ensures DecodePlain(a + ("|" + b)) ==
      var at, id := ParseInstant(a), ParseInt(b);
      if at.Bad? || id.Bad? then Bad else Got(Key(at.value, id.value))
  {
    var s := a + ("|" + b);
    FirstBarAt(a, b);
    assert s[..|a|] == a;
    assert s[|a| + 1..] == b;
  }

  lemma DecodeEncode(k: Key)
    ensures Encode(k) != "" && Decode(Encode(k)) == DecodePlain(Plain(k))
  {
    Base64.RoundTrip(Plain(k));
    assert |Plain(k)| > 0;
  }

  /**
   * A cursor decodes to the pair it was made from exactly when its instant lies in the years
   * 0 to 9999 (UTC), for every posting id; any other cursor is refused.
   */
  lemma RoundTrip(k: Key)
    ensures Decode(Encode(k)) == if 0 <= Year(k.at) < 10_000 then Got(k) else Bad
  {
    DecodeEncode(k);
    NoBar(k.at);
    SplitBack(Format(k.at), Decimal(k.id));
    ParseDecimal(k.id);
    if 0 <= Year(k.at) < 10_000 {
      InstantRoundTrip(k.at);
    } else {
      OtherYearsUnreadable(k.at);
    }
  }

  /** An entry before the sentinel is at most of year 9999. */
  lemma BeforeSentinel(k: Key)
    requires Less(k, Sentinel())
    ensures Year(k.at) < 10_000
  {
    var n := k.at / DAY;
    var d := DateOf(n);
    var first := Date(9999, 1, 1);
    assert ValidDate(first);
    assert n <= DayOf(first);
    if d.year >= 10_000 {
      DayOfIncreases(first, d);
    }
  }

  /** The first-page sentinel is the largest id at the first instant of 9999: what lies below it. */
  lemma BelowSentinelIff(k: Key)
    ensures Less(k, Sentinel()) <==>
      k.at < Midnight(Date(9999, 1, 1)) || (k.at == Midnight(Date(9999, 1, 1)) && k.id < 0x7FFF_FFFF_FFFF_FFFF)
    ensures Year(k.at) < 9999 ==> Less(k, Sentinel())
    ensures Year(k.at) > 9999 ==> !Less(k, Sentinel())
  {
    YearBefore(k.at, 9999);
    YearBefore(k.at, 10_000);
    YearsIncrease(9999, 10_000);
  }

  lemma {:induction false} NoBarFound(s: string)
    requires '|' !in s
    ensures FirstBar(s) == |s|
  {
    if s != [] {
      assert s[0] in s;
      NoBarFound(s[1..]);
    }
  }

  /** Text without a separator is refused. */
  lemma NoBarRefused(s: seq<Base64.Byte>)
    requires s != [] && '|' !in s
    ensures Decode(Base64.Encode(s)) == Bad
  {
    Base64.RoundTrip(s);
    NoBarFound(s);
  }

  /** What is not base64url is refused. */
  lemma NotBase64Refused(c: char, s: string)
    requires c != '\r' && c != '\n' && Base64.Bits(c) < 0
    ensures Decode([c] + s) == Bad
  {
    assert ([c] + s)[0] == c;
    assert Base64.Strip([c] + s)[0] == c;
  }
}
