/**
  The G.711 codecs.  Samples are 16-bit integers and octets are 0..255; masks,
  shifts and complements are written as the arithmetic they perform on these.
 */
module G711 {
  type Sample = x: int | -32768 <= x <= 32767
  type Octet = x: int | 0 <= x <= 255

  const BIAS := 0x84
  const CLIP := 32635

  /** Negation of an i16, which wraps at the minimum. */
  function Negate(x: Sample): Sample {
    if x == -32768 then -32768 else -x
  }

  /** The magnitude both encoders work on, after the clip. */
  function Magnitude(x: Sample): (m: nat)
    ensures m <= CLIP
  {
    var a := if x == -32768 then 32767 else if x < 0 then -x else x;
    if a > CLIP then CLIP else a
  }

  /** The segment a biased magnitude falls in: the position of its highest bit above bit 7. */
  function Segment(m: nat): (e: nat)
    requires m < 0x8000
    ensures e <= 7
  {
    if m >= 0x4000 then 7
    else if m >= 0x2000 then 6
    else if m >= 0x1000 then 5
    else if m >= 0x800 then 4
    else if m >= 0x400 then 3
    else if m >= 0x200 then 2
    else if m >= 0x100 then 1
    else 0
  }

  /** 2 to the power of `e`. */
  function Scale(e: nat): (s: nat)
    requires e <= 7
    ensures s > 0
  {
    [1, 2, 4, 8, 16, 32, 64, 128][e]
  }

  /** The loop of both encoders: walk the mask down to the highest set bit. */
  method FindSegment(m: nat) returns (exponent: nat)
    requires m < 0x8000
    ensures exponent == Segment(m)
  {
    exponent := 7;
    var mask := 0x4000;
    while exponent > 0 && m / mask % 2 == 0
      invariant 0 <= exponent <= 7 && mask == 0x80 * Scale(exponent)
      invariant m < 2 * mask
    {
      assert m / mask < 2;
      exponent := exponent - 1;
      mask := mask / 2;
    }
    if exponent > 0 {
      assert m / mask == 1;
    }
  }

  // ----- mu-law --------------------------------------------------------------

  /** Packing sign, exponent and mantissa into an octet, and taking them out again. */
  function Pack(high: bool, e: nat, mantissa: nat): Octet
    requires e <= 7 && mantissa <= 15
  {
    (if high then 128 else 0) + 16 * e + mantissa
  }

  lemma FieldsOf(high: bool, e: nat, mantissa: nat)
    requires e <= 7 && mantissa <= 15
    ensures var u := Pack(high, e, mantissa);
            (u >= 128) == high && u / 16 % 8 == e && u % 16 == mantissa
  {
    var u := Pack(high, e, mantissa);
    assert u / 16 == (if high then 8 else 0) + e;
  }

  lemma PackFields(u: Octet)
    ensures Pack(u >= 128, u / 16 % 8, u % 16) == u
  {
    assert u / 16 % 8 == u / 16 - if u >= 128 then 8 else 0;
  }

  function UlawCode(negative: bool, e: nat, mantissa: nat): Octet
    requires e <= 7 && mantissa <= 15
  {
    255 - Pack(negative, e, mantissa)
  }

  function EncodeUlaw(x: Sample): Octet {
    var m := Magnitude(x) + BIAS;
    var e := Segment(m);
    UlawCode(x < 0, e, m / (8 * Scale(e)) % 16)
  }

  /** What the fields of a code stand for. */
  function UlawValue(negative: bool, e: nat, mantissa: nat): Sample
    requires e <= 7 && mantissa <= 15
  {
    UlawBound(e, mantissa);
    var sample := (8 * mantissa + BIAS) * Scale(e) - BIAS;
    if negative then -sample else sample
  }

  function DecodeUlaw(b: Octet): Sample {
    var u := 255 - b;
    UlawValue(u >= 128, u / 16 % 8, u % 16)
  }

  lemma UlawFields(negative: bool, e: nat, mantissa: nat)
    requires e <= 7 && mantissa <= 15
    ensures DecodeUlaw(UlawCode(negative, e, mantissa)) == UlawValue(negative, e, mantissa)
  {
    FieldsOf(negative, e, mantissa);
  }

  lemma UlawBound(e: nat, mantissa: nat)
    requires e <= 7 && mantissa <= 15
    ensures 0 <= (8 * mantissa + BIAS) * Scale(e) - BIAS <= 32124
  {
  }

  method LinearToUlaw(x: Sample) returns (b: Octet)
    ensures b == EncodeUlaw(x)
  {
    var pcm := x;
    var negative := pcm < 0;
    if negative {
      pcm := Negate(pcm);
      if pcm < 0 {
        pcm := 32767;
      }
    }
    if pcm > CLIP {
      pcm := CLIP;
    }
    pcm := pcm + BIAS;
    var exponent := FindSegment(pcm);
    var mantissa := pcm / (8 * Scale(exponent)) % 16;
    b := UlawCode(negative, exponent, mantissa);
  }

  /** A magnitude inside a segment: which one, and which of its sixteen steps. */
  lemma InSegment(e: nat, mantissa: nat, rest: nat)
    requires e <= 7 && mantissa <= 15 && rest < 8 * Scale(e)
    ensures var m := (128 + 8 * mantissa) * Scale(e) + rest;
            m < 0x8000 && Segment(m) == e && m / (8 * Scale(e)) % 16 == mantissa
  {
    var s := Scale(e);
    var m := (128 + 8 * mantissa) * s + rest;
    assert m == (16 + mantissa) * (8 * s) + rest;
    assert m / (8 * s) == 16 + mantissa;
  }

  lemma UlawValueEncodes(negative: bool, e: nat, mantissa: nat)
    requires e <= 7 && mantissa <= 15
    ensures EncodeUlaw(UlawValue(negative, e, mantissa)) ==
            UlawCode(negative && !(e == 0 && mantissa == 0), e, mantissa)
  {
    var s, x := Scale(e), UlawValue(negative, e, mantissa);
    UlawBound(e, mantissa);
    assert Magnitude(x) + BIAS == (128 + 8 * mantissa) * s + 4 * s;
    InSegment(e, mantissa, 4 * s);
    assert x < 0 <==> negative && !(e == 0 && mantissa == 0);
  }

  /** Every octet but negative zero survives decoding and encoding. */
  lemma UlawRoundTrip(b: Octet)
    ensures EncodeUlaw(DecodeUlaw(b)) == if b == 0x7F then 0xFF else b
  {
    var u := 255 - b;
    PackFields(u);
    FieldsOf(true, 0, 0);
    UlawValueEncodes(u >= 128, u / 16 % 8, u % 16);
  }

  /** The samples of a segment step lie around the value the step decodes to. */
  lemma StepOf(m: nat) returns (e: nat, mantissa: nat, rest: nat)
    requires 128 <= m < 0x8000
    ensures e == Segment(m) && mantissa == m / (8 * Scale(e)) % 16
    ensures mantissa <= 15 && rest < 8 * Scale(e) && m == (128 + 8 * mantissa) * Scale(e) + rest
  {
    e := Segment(m);
    mantissa := m / (8 * Scale(e)) % 16;
    rest := m % (8 * Scale(e));
    assert m / (8 * Scale(e)) < 32 && m / (8 * Scale(e)) >= 16;
  }

  /** The clipped sample, with its sign. */
  function Clipped(x: Sample): Sample {
    var m: int := Magnitude(x);
    if x < 0 then -m else m
  }

  /** Encoding loses at most half a step of the segment of the clipped sample. */
  lemma UlawHalfStep(x: Sample)
    ensures var s := Scale(Segment(Magnitude(x) + BIAS));
            -4 * s <= DecodeUlaw(EncodeUlaw(x)) - Clipped(x) <= 4 * s
  {
    var e, mantissa, rest := StepOf(Magnitude(x) + BIAS);
    UlawFields(x < 0, e, mantissa);
    assert (8 * mantissa + BIAS) * Scale(e) == (128 + 8 * mantissa) * Scale(e) + 4 * Scale(e);
  }

  // ----- A-law ---------------------------------------------------------------

  /** `n ^ 0x5` on four bits. */
  function ToggleNibble(n: nat): (r: nat)
    requires n <= 15
    ensures r <= 15
  {
    n + (if n % 2 == 0 then 1 else -1) + if n / 4 % 2 == 0 then 4 else -4
  }

  lemma NibbleTwice(n: nat)
    requires n <= 15
    ensures ToggleNibble(ToggleNibble(n)) == n
  {
  }

  /** `b ^ 0x55` */
  function Toggle(b: Octet): Octet {
    16 * ToggleNibble(b / 16) + ToggleNibble(b % 16)
  }

  lemma ToggleTwice(b: Octet)
    ensures Toggle(Toggle(b)) == b
  {
    NibbleTwice(b / 16);
    NibbleTwice(b % 16);
    var hi, lo := ToggleNibble(b / 16), ToggleNibble(b % 16);
    assert (16 * hi + lo) / 16 == hi && (16 * hi + lo) % 16 == lo;
  }

  function AlawSegment(m: nat): (e: nat)
    requires m < 0x8000
    ensures e <= 7
  {
    if m < 256 then 0 else Segment(m)
  }

  /** The width of the steps of a segment. */
  function AlawStep(e: nat): (s: nat)
    requires e <= 7
    ensures s > 0
  {
    if e == 0 then 16 else 8 * Scale(e)
  }

  /** Which of the sixteen steps of its segment a magnitude falls in. */
  function AlawMantissa(m: nat): (mantissa: nat)
    requires m < 0x8000
    ensures mantissa <= 15
  {
    m / AlawStep(AlawSegment(m)) % 16
  }

  function EncodeAlaw(x: Sample): Octet {
    var m := Magnitude(x);
    Toggle(Pack(x >= 0, AlawSegment(m), AlawMantissa(m)))
  }

  /** What the fields of a code stand for. */
  function AlawValue(positive: bool, e: nat, mantissa: nat): Sample
    requires e <= 7 && mantissa <= 15
  {
    AlawBound(e, mantissa);
    var magnitude: int := AlawMagnitude(e, mantissa);
    if positive then magnitude else -magnitude
  }

  function AlawMagnitude(e: nat, mantissa: nat): nat
    requires e <= 7 && mantissa <= 15
  {
    if e == 0 then 16 * mantissa + 8 else (16 * mantissa + 0x108) * Scale(e - 1)
  }

  lemma AlawBound(e: nat, mantissa: nat)
    requires e <= 7 && mantissa <= 15
    ensures 8 <= AlawMagnitude(e, mantissa) <= 32256
    ensures e > 0 ==> AlawMagnitude(e, mantissa) == (128 + 8 * mantissa) * Scale(e) + 4 * Scale(e)
  {
    if e > 0 {
      assert Scale(e) == 2 * Scale(e - 1);
    }
  }

  function DecodeAlaw(b: Octet): Sample {
    var a := Toggle(b);
    AlawValue(a >= 128, a / 16 % 8, a % 16)
  }

  method LinearToAlaw(x: Sample) returns (b: Octet)
    ensures b == EncodeAlaw(x)
  {
    var pcm := x;
    var positive := pcm >= 0;
    if !positive {
      pcm := if pcm == -32768 then 32767 else -pcm;
    }
    if pcm > CLIP {
      pcm := CLIP;
    }
    if pcm < 256 {
      b := Toggle(Pack(positive, 0, pcm / 16 % 16));
    } else {
      var exponent := FindSegment(pcm);
      b := Toggle(Pack(positive, exponent, pcm / (8 * Scale(exponent)) % 16));
    }
  }

  lemma AlawFields(positive: bool, e: nat, mantissa: nat)
    requires e <= 7 && mantissa <= 15
    ensures DecodeAlaw(Toggle(Pack(positive, e, mantissa))) == AlawValue(positive, e, mantissa)
  {
    ToggleTwice(Pack(positive, e, mantissa));
    FieldsOf(positive, e, mantissa);
  }

  lemma AlawMagnitudeIndex(e: nat, mantissa: nat)
    requires e <= 7 && mantissa <= 15
    ensures var m := AlawMagnitude(e, mantissa);
            m < 0x8000 && AlawSegment(m) == e && AlawMantissa(m) == mantissa
  {
    AlawBound(e, mantissa);
    var m := AlawMagnitude(e, mantissa);
    if e == 0 {
      assert m / 16 == mantissa;
    } else {
      InSegment(e, mantissa, 4 * Scale(e));
    }
  }

  lemma AlawValueEncodes(positive: bool, e: nat, mantissa: nat)
    requires e <= 7 && mantissa <= 15
    ensures EncodeAlaw(AlawValue(positive, e, mantissa)) == Toggle(Pack(positive, e, mantissa))
  {
    AlawBound(e, mantissa);
    AlawMagnitudeIndex(e, mantissa);
    assert Magnitude(AlawValue(positive, e, mantissa)) == AlawMagnitude(e, mantissa);
  }

  /** Every octet survives decoding and encoding. */
  lemma AlawRoundTrip(b: Octet)
    ensures EncodeAlaw(DecodeAlaw(b)) == b
  {
    var a := Toggle(b);
    ToggleTwice(b);
    PackFields(a);
    AlawValueEncodes(a >= 128, a / 16 % 8, a % 16);
  }

  lemma AlawNear(m: nat)
    requires m < 0x8000
    ensures var s: int := AlawStep(AlawSegment(m));
            -s <= 2 * (AlawMagnitude(AlawSegment(m), AlawMantissa(m)) - m) <= s
  {
    var e, mantissa := AlawSegment(m), AlawMantissa(m);
    AlawBound(e, mantissa);
    if e == 0 {
      assert m == 16 * (m / 16) + m % 16;
    } else {
      var e', mantissa', rest := StepOf(m);
    }
  }

  /** Encoding loses at most half a step of the segment of the clipped sample. */
  lemma AlawHalfStep(x: Sample)
    ensures var s: int := AlawStep(AlawSegment(Magnitude(x)));
            -s <= 2 * (DecodeAlaw(EncodeAlaw(x)) - Clipped(x)) <= s
  {
    var m := Magnitude(x);
    AlawFields(x >= 0, AlawSegment(m), AlawMantissa(m));
    AlawNear(m);
  }

  // ----- Buffers -------------------------------------------------------------

  datatype Codec = Pcmu | Pcma

  function Encode(c: Codec, x: Sample): Octet {
    if c == Pcmu then EncodeUlaw(x) else EncodeAlaw(x)
  }

  function Decode(c: Codec, b: Octet): Sample {
    if c == Pcmu then DecodeUlaw(b) else DecodeAlaw(b)
  }

  function EncodeAll(c: Codec, pcm: seq<Sample>): (r: seq<Octet>)
    ensures |r| == |pcm|
  {
    seq(|pcm|, i requires 0 <= i < |pcm| => Encode(c, pcm[i]))
  }

  function DecodeAll(c: Codec, payload: seq<Octet>): (r: seq<Sample>)
    ensures |r| == |payload|
  {
    seq(|payload|, i requires 0 <= i < |payload| => Decode(c, payload[i]))
  }

  /** The octet a decoded octet is encoded to: itself, but mu-law has two zeros. */
  function Canonical(c: Codec, b: Octet): Octet {
    if c == Pcmu && b == 0x7F then 0xFF else b
  }

  lemma CodecRoundTrip(c: Codec, b: Octet)
    ensures Encode(c, Decode(c, b)) == Canonical(c, b)
  {
    if c == Pcmu { UlawRoundTrip(b); } else { AlawRoundTrip(b); }
  }

  /** The octet for a zero sample. */
  function Silence(c: Codec): Octet {
    if c == Pcmu then 0xFF else 0xD5
  }

  lemma SilenceIsZero(c: Codec)
    ensures Encode(c, 0) == Silence(c)
  {
    if c == Pcma {
      assert EncodeAlaw(0) == Toggle(Pack(true, 0, 0));
    }
  }
}
