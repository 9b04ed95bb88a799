/** RTP packets as octets, written and read as both RTP endpoints do. */
module Rtp {
  import opened Options
  import opened G711

  const HEADER := 12

  function U16(n: nat): seq<Octet>
    requires n < 0x1_0000
  {
    [n / 256, n % 256]
  }

  function U32(n: nat): seq<Octet>
    requires n < 0x1_0000_0000
  {
    U16(n / 0x1_0000) + U16(n % 0x1_0000)
  }

  function ReadU16(b: seq<Octet>): nat
    requires |b| == 2
  {
    256 * (b[0] as int) + b[1]
  }

  function ReadU32(b: seq<Octet>): nat
    requires |b| == 4
  {
    0x1_0000 * ReadU16(b[..2]) + ReadU16(b[2..])
  }

  lemma ReadBack(n: nat)
    ensures n < 0x1_0000 ==> ReadU16(U16(n)) == n
    ensures n < 0x1_0000_0000 ==> ReadU32(U32(n)) == n
  {
    if n < 0x1_0000_0000 {
      assert U32(n)[..2] == U16(n / 0x1_0000) && U32(n)[2..] == U16(n % 0x1_0000);
    }
  }

  datatype Packet = Packet(pt: nat, seqNo: nat, ts: nat, ssrc: nat, payload: seq<Octet>)
  {
    predicate Valid() { seqNo < 0x1_0000 && ts < 0x1_0000_0000 && ssrc < 0x1_0000_0000 }
  }

  /** build_rtp_packet: version 2, no padding, extension or CSRC. */
  function Build(p: Packet): seq<Octet>
    requires p.Valid()
  {
    [0x80, p.pt % 128] + U16(p.seqNo) + U32(p.ts) + U32(p.ssrc) + p.payload
  }

  /** A header extension: its profile word and its data, whole words. */
  datatype Extension = Extension(profile: nat, data: seq<Octet>) {
    predicate Valid() { profile < 0x1_0000 && |data| % 4 == 0 && |data| / 4 < 0x1_0000 }
  }

  /** A general packet: any CSRC list and an optional extension. */
  function General(p: Packet, csrcs: seq<Octet>, ext: Option<Extension>): seq<Octet>
    requires p.Valid() && |csrcs| % 4 == 0 && |csrcs| / 4 <= 15
    requires ext.Some? ==> ext.value.Valid()
  {
    [0x80 + (if ext.Some? then 0x10 else 0) + |csrcs| / 4, p.pt % 128]
    + U16(p.seqNo) + U32(p.ts) + U32(p.ssrc)
    + csrcs
    + (if ext.Some? then U16(ext.value.profile) + U16(|ext.value.data| / 4) + ext.value.data else [])
    + p.payload
  }

  /** The voicemail endpoint: refuses anything that is not a complete version 2 header. */
  function PayloadOffset(packet: seq<Octet>): (r: Option<nat>)
    ensures r.Some? ==> HEADER <= r.value <= |packet|
  {
    if |packet| < HEADER || packet[0] / 64 != 2 then None
    else
      var offset := HEADER + 4 * (packet[0] % 16);
      if |packet| < offset then None
      else if packet[0] / 16 % 2 == 0 then Some(offset)
      else if |packet| < offset + 4 then None
      else
        var end := offset + 4 + 4 * ReadU16(packet[offset + 2..offset + 4]);
        if |packet| < end then None else Some(end)
  }

  /** The conference endpoint: checks less; its caller compares the result with the length. */
  function ConferenceOffset(packet: seq<Octet>): nat
    requires |packet| >= HEADER
  {
    var offset := HEADER + 4 * (packet[0] % 16);
    if packet[0] / 16 % 2 == 1 && |packet| >= offset + 4
    then offset + 4 + 4 * ReadU16(packet[offset + 2..offset + 4])
    else offset
  }

  /** The two endpoints agree on every packet the stricter one accepts. */
  lemma OffsetsAgree(packet: seq<Octet>)
    requires PayloadOffset(packet).Some?
    ensures ConferenceOffset(packet) == PayloadOffset(packet).value
  {
  }

  /** The header fields of a general packet are read back. */
  lemma HeaderFound(p: Packet, csrcs: seq<Octet>, ext: Option<Extension>)
    requires p.Valid() && |csrcs| % 4 == 0 && |csrcs| / 4 <= 15
    requires ext.Some? ==> ext.value.Valid()
    ensures var b := General(p, csrcs, ext);
            && |b| >= HEADER && b[1] % 128 == p.pt % 128
            && ReadU16(b[2..4]) == p.seqNo && ReadU32(b[4..8]) == p.ts && ReadU32(b[8..12]) == p.ssrc
  {
    var b := General(p, csrcs, ext);
    assert b[2..4] == U16(p.seqNo) && b[4..8] == U32(p.ts) && b[8..12] == U32(p.ssrc);
    ReadBack(p.seqNo);
    ReadBack(p.ts);
    ReadBack(p.ssrc);
  }

  lemma FirstOctet(n: nat, extended: bool)
    requires n <= 15
    ensures var head := 0x80 + (if extended then 0x10 else 0) + n;
            head / 64 == 2 && head % 16 == n && head / 16 % 2 == if extended then 1 else 0
  {
  }

  /** Whatever CSRCs and extension precede it, the payload is found. */
  lemma PayloadFound(p: Packet, csrcs: seq<Octet>, ext: Option<Extension>)
    requires p.Valid() && |csrcs| % 4 == 0 && |csrcs| / 4 <= 15
    requires ext.Some? ==> ext.value.Valid()
    ensures var b := General(p, csrcs, ext);
            PayloadOffset(b).Some? && b[PayloadOffset(b).value..] == p.payload
  {
    var b := General(p, csrcs, ext);
    FirstOctet(|csrcs| / 4, ext.Some?);
    var o := HEADER + |csrcs|;
    if ext.Some? {
      assert b[o + 2..o + 4] == U16(|ext.value.data| / 4);
      ReadBack(|ext.value.data| / 4);
      assert b[o + 4 + |ext.value.data|..] == p.payload;
    } else {
      assert b[o..] == p.payload;
    }
  }

  /** What this server sends is a general packet without CSRCs and extension. */
  lemma BuildIsGeneral(p: Packet)
    requires p.Valid()
    ensures Build(p) == General(p, [], None)
  {
  }
}
