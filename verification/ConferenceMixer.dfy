/**
  The conference mixer: frame sizing on receipt, the per-receiver mix with its
  32-bit accumulators, and one tick that sends every participant its packet.
 */
module ConferenceMixer {
  import opened Options
  import opened G711
  import opened Rtp

  const FRAME: nat := 160

  /** A decoded payload cut or padded with silence to one frame. */
  function FrameOf(c: Codec, payload: seq<Octet>): (f: seq<Sample>)
    ensures |f| == FRAME
  {
    var pcm := DecodeAll(c, payload);
    if |pcm| >= FRAME then pcm[..FRAME] else pcm + seq(FRAME - |pcm|, _ => 0)
  }

  /** What each participant contributes to a tick, in snapshot order. */
  type Frames = seq<Option<seq<Sample>>>

  function Wrap32(x: int): int {
    (x + 0x8000_0000) % 0x1_0000_0000 - 0x8000_0000
  }

  /** The participant at `i` is heard by `receiver` at sample `k`. */
  predicate Heard(frames: Frames, receiver: int, k: nat, i: nat)
    requires i < |frames|
  {
    i != receiver && frames[i].Some? && k < |frames[i].value|
  }

  /** The accumulator of sample `k`, as i32 additions leave it. */
  function Accumulated(frames: Frames, receiver: int, k: nat): int {
    if frames == [] then 0
    else
      var n := |frames| - 1;
      var a := Accumulated(frames[..n], receiver, k);
      if Heard(frames, receiver, k, n) then Wrap32(a + frames[n].value[k]) else a
  }

  /** The mathematical sum of what `receiver` should hear. */
  function Sum(frames: Frames, receiver: int, k: nat): int {
    if frames == [] then 0
    else
      var n := |frames| - 1;
      Sum(frames[..n], receiver, k) + if Heard(frames, receiver, k, n) then frames[n].value[k] else 0
  }

  function Talkers(frames: Frames, receiver: int, k: nat): nat {
    if frames == [] then 0
    else
      var n := |frames| - 1;
      Talkers(frames[..n], receiver, k) + if Heard(frames, receiver, k, n) then 1 else 0
  }

  function Clamp(x: int): Sample {
    if x < -32768 then -32768 else if x > 32767 then 32767 else x
  }

  function Mixed(frames: Frames, receiver: int): (r: seq<Sample>)
    ensures |r| == FRAME
  {
    seq(FRAME, k requires 0 <= k < FRAME => Clamp(Accumulated(frames, receiver, k)))
  }

  method MixForReceiver(frames: Frames, receiver: int) returns (r: seq<Sample>)
    ensures r == Mixed(frames, receiver)
  {
    var acc := new int[FRAME](_ => 0);
    var i := 0;
    while i < |frames|
      invariant 0 <= i <= |frames|
      invariant forall k :: 0 <= k < FRAME ==> acc[k] == Accumulated(frames[..i], receiver, k)
    {
      assert frames[..i + 1][..i] == frames[..i];
      if i != receiver && frames[i].Some? {
        var f := frames[i].value;
        var k := 0;
        while k < FRAME && k < |f|
          invariant 0 <= k <= FRAME && k <= |f|
          invariant forall j :: 0 <= j < k ==> acc[j] == Accumulated(frames[..i + 1], receiver, j)
          invariant forall j :: k <= j < FRAME ==> acc[j] == Accumulated(frames[..i], receiver, j)
        {
          acc[k] := Wrap32(acc[k] + f[k]);
          k := k + 1;
        }
      }
      i := i + 1;
    }
    assert frames[..i] == frames;
    r := [];
    var k := 0;
    while k < FRAME
      invariant 0 <= k <= FRAME && |r| == k
      invariant forall j :: 0 <= j < k ==> r[j] == Clamp(Accumulated(frames, receiver, j))
      invariant forall j :: 0 <= j < FRAME ==> acc[j] == Accumulated(frames, receiver, j)
    {
      r := r + [Clamp(acc[k])];
      k := k + 1;
    }
  }

  // ----- The accumulator cannot overflow -------------------------------------

  lemma {:induction false} SumBounds(frames: Frames, receiver: int, k: nat)
    ensures -32768 * Talkers(frames, receiver, k) <= Sum(frames, receiver, k) <= 32767 * Talkers(frames, receiver, k)
  {
    if frames != [] {
      SumBounds(frames[..|frames| - 1], receiver, k);
    }
  }

  /** Up to 65536 talkers every i32 addition is exact. */
  lemma {:induction false} NoOverflow(frames: Frames, receiver: int, k: nat)
    requires Talkers(frames, receiver, k) <= 65536
    ensures Accumulated(frames, receiver, k) == Sum(frames, receiver, k)
  {
    if frames != [] {
      NoOverflow(frames[..|frames| - 1], receiver, k);
      SumBounds(frames, receiver, k);
    }
  }

  /** `n` participants at the loudest negative sample. */
  function Loudest(n: nat): (f: Frames)
    ensures |f| == n
  {
    seq(n, _ => Some(seq(FRAME, _ => -32768)))
  }

  lemma {:induction false} LoudestSum(n: nat, k: nat)
    requires k < FRAME
    ensures Talkers(Loudest(n), -1, k) == n && Sum(Loudest(n), -1, k) == -32768 * n
  {
    if n > 0 {
      assert Loudest(n)[..n - 1] == Loudest(n - 1);
      LoudestSum(n - 1, k);
    }
  }

  /** One talker more can overflow: the mix flips to the other extreme. */
  lemma OverflowBeyond(k: nat)
    requires k < FRAME
    ensures Talkers(Loudest(65537), -1, k) == 65537
    ensures Clamp(Sum(Loudest(65537), -1, k)) == -32768
    ensures Clamp(Accumulated(Loudest(65537), -1, k)) == 32767
  {
    LoudestSum(65537, k);
    LoudestSum(65536, k);
    NoOverflow(Loudest(65536), -1, k);
    assert Loudest(65537)[..65536] == Loudest(65536);
  }

  /** What a receiver is sent decodes to the clamped sum, up to half a codec step. */
  lemma SentIsNearSum(c: Codec, frames: Frames, receiver: int, k: nat)
    requires k < FRAME && Talkers(frames, receiver, k) <= 65536
    ensures var x := Clamp(Sum(frames, receiver, k));
            var step: int := if c == Pcmu then 8 * Scale(Segment(Magnitude(x) + BIAS))
                             else AlawStep(AlawSegment(Magnitude(x)));
            -step <= 2 * (Decode(c, EncodeAll(c, Mixed(frames, receiver))[k]) - Clipped(x)) <= step
  {
    NoOverflow(frames, receiver, k);
    var x := Clamp(Sum(frames, receiver, k));
    assert Mixed(frames, receiver)[k] == x;
    if c == Pcmu { UlawHalfStep(x); } else { AlawHalfStep(x); }
  }

  // ----- One talker ----------------------------------------------------------

  /** The payload cut to a frame or padded with the codec's silence. */
  function Fit(c: Codec, payload: seq<Octet>): seq<Octet> {
    seq(FRAME, k requires 0 <= k < FRAME => if k < |payload| then Canonical(c, payload[k]) else Silence(c))
  }

  lemma FrameEncodes(c: Codec, payload: seq<Octet>, k: nat)
    requires k < FRAME
    ensures Encode(c, FrameOf(c, payload)[k]) == Fit(c, payload)[k]
  {
    if k < |payload| {
      CodecRoundTrip(c, payload[k]);
    } else {
      SilenceIsZero(c);
    }
  }

  lemma {:induction false} SumOfOne(frames: Frames, receiver: int, talker: nat, k: nat)
    requires talker < |frames| && Heard(frames, receiver, k, talker)
    requires forall i :: 0 <= i < |frames| && i != talker ==> !Heard(frames, receiver, k, i)
    ensures Accumulated(frames, receiver, k) == frames[talker].value[k]
  {
    var n := |frames| - 1;
    assert forall i :: 0 <= i < n ==> Heard(frames[..n], receiver, k, i) == Heard(frames, receiver, k, i);
    if talker == n {
      SumOfNone(frames[..n], receiver, k);
    } else {
      SumOfOne(frames[..n], receiver, talker, k);
    }
  }

  lemma {:induction false} SumOfNone(frames: Frames, receiver: int, k: nat)
    requires forall i :: 0 <= i < |frames| ==> !Heard(frames, receiver, k, i)
    ensures Accumulated(frames, receiver, k) == 0
  {
    if frames != [] {
      var n := |frames| - 1;
      assert forall i :: 0 <= i < n ==> Heard(frames[..n], receiver, k, i) == Heard(frames, receiver, k, i);
      SumOfNone(frames[..n], receiver, k);
    }
  }

  /**
    With one other talker on the same codec the receiver is sent the talker's
    latest payload octet for octet, cut or padded to a frame.
   */
  lemma OneTalkerVerbatim(c: Codec, frames: Frames, receiver: int, talker: nat, payload: seq<Octet>)
    requires talker < |frames| && talker != receiver && frames[talker] == Some(FrameOf(c, payload))
    requires forall i :: 0 <= i < |frames| && i != talker && i != receiver ==> frames[i] == None
    ensures EncodeAll(c, Mixed(frames, receiver)) == Fit(c, payload)
  {
    forall k | 0 <= k < FRAME ensures EncodeAll(c, Mixed(frames, receiver))[k] == Fit(c, payload)[k] {
      SumOfOne(frames, receiver, talker, k);
      FrameEncodes(c, payload, k);
    }
  }
}
