/** Conference participants as objects: their fields, and one tick of the room's mixer. */
module ConferenceRoom {
  import opened Options
  import opened G711
  import opened Rtp
  import opened ConferenceMixer
  import Dtmf

  class Participant {
    const codec: Codec
    const audioPt: nat
    const ssrc: nat
    var muted: bool
    var hasPeer: bool
    var latestFrame: seq<Sample>
    var outSeq: nat
    var outTs: nat
    var lastDigit: Option<(nat, nat)>
    var lastEventTs: Option<nat>

    constructor (codec: Codec, audioPt: nat, ssrc: nat, outSeq: nat, outTs: nat)
      ensures this.codec == codec && this.audioPt == audioPt && this.ssrc == ssrc
      ensures this.outSeq == outSeq && this.outTs == outTs && !hasPeer && latestFrame == []
      ensures DtmfState() == Dtmf.Joined(false)
    {
      this.codec, this.audioPt, this.ssrc, this.outSeq, this.outTs := codec, audioPt, ssrc, outSeq, outTs;
      muted, hasPeer, latestFrame, lastDigit, lastEventTs := false, false, [], None, None;
    }

    predicate Valid()
      reads this
    {
      ssrc < 0x1_0000_0000 && outSeq < 0x1_0000 && outTs < 0x1_0000_0000
    }

    function DtmfState(): (s: Dtmf.State)
      reads this
    {
      Dtmf.State(muted, lastDigit, lastEventTs)
    }

    /** An audio packet with this payload from the participant's endpoint. */
    method ReceiveAudio(payload: seq<Octet>)
      modifies this`hasPeer, this`latestFrame
      ensures hasPeer
      ensures latestFrame == if payload == [] then old(latestFrame) else FrameOf(codec, payload)
    {
      hasPeer := true;
      var pcm := DecodeAll(codec, payload);
      if pcm == [] {
        return;
      }
      var frame := pcm;
      if |frame| > FRAME {
        frame := frame[..FRAME];
      } else if |frame| < FRAME {
        frame := frame + seq(FRAME - |frame|, _ => 0);
      }
      latestFrame := frame;
    }

    method RecordDtmf(event: nat, now: nat) returns (toggled: Option<bool>)
      modifies this`muted, this`lastDigit
      ensures DtmfState() == Dtmf.RecordDtmf(old(DtmfState()), event, now)
      ensures toggled == if muted == old(muted) then None else Some(muted)
    {
      var prev := lastDigit;
      lastDigit := Some((event, now));
      if prev.Some? && Dtmf.Arms(prev.value, now) && event == Dtmf.SIX {
        lastDigit := None;
        muted := !muted;
        return Some(muted);
      }
      toggled := None;
    }

    method HandleDtmfPacket(payload: seq<Octet>, rtpTs: nat, now: nat)
      modifies this`muted, this`lastDigit, this`lastEventTs
      ensures DtmfState() == match Dtmf.ParseEvent(payload)
                             case None => old(DtmfState())
                             case Some((event, end)) => Dtmf.Step(old(DtmfState()), Dtmf.Packet(event, end, rtpTs, now))
    {
      if |payload| < 4 {
        return;
      }
      var event, endMarker := payload[0] % 16, payload[1] >= 128;
      var alreadyHandled := lastEventTs == Some(rtpTs);
      if !endMarker || alreadyHandled {
        return;
      }
      lastEventTs := Some(rtpTs);
      var toggled := RecordDtmf(event, now);
    }
  }

  /** What participant `p` contributes to a tick; `locked` frames cannot be read this time. */
  function Contribution(p: Participant, locked: set<Participant>): Option<seq<Sample>>
    reads p
  {
    if p.muted || p in locked || p.latestFrame == [] then None else Some(p.latestFrame)
  }

  function Snapshot(ps: seq<Participant>, locked: set<Participant>): (f: Frames)
    reads ps
    ensures |f| == |ps|
    ensures forall i :: 0 <= i < |ps| ==> f[i] == Contribution(ps[i], locked)
  {
    if ps == [] then [] else Snapshot(ps[..|ps| - 1], locked) + [Contribution(ps[|ps| - 1], locked)]
  }

  predicate Distinct(ps: seq<Participant>) {
    forall i, j :: 0 <= i < j < |ps| ==> ps[i] != ps[j]
  }

  /** The packet receiver `i` is due in a tick with these frames, if its endpoint is known. */
  function PacketFor(p: Participant, frames: Frames, i: nat): Option<Packet>
    reads p
  {
    if !p.hasPeer then None
    else Some(Packet(p.audioPt, p.outSeq, p.outTs, p.ssrc, EncodeAll(p.codec, Mixed(frames, i))))
  }

  method TakeSnapshot(ps: seq<Participant>, locked: set<Participant>) returns (frames: Frames)
    ensures frames == Snapshot(ps, locked)
  {
    frames := [];
    var i := 0;
    while i < |ps|
      invariant 0 <= i <= |ps| && frames == Snapshot(ps[..i], locked)
    {
      assert ps[..i + 1][..i] == ps[..i];
      var p := ps[i];
      frames := frames + [if p.muted || p in locked || p.latestFrame == [] then None else Some(p.latestFrame)];
      i := i + 1;
    }
    assert ps[..i] == ps;
  }

  /** The counters of `p` moved on by one packet, or stayed if it was sent none. */
  twostate predicate Moved(p: Participant)
    reads p
  {
    && p.outSeq == (old(p.outSeq) + if p.hasPeer then 1 else 0) % 0x1_0000
    && p.outTs == (old(p.outTs) + if p.hasPeer then FRAME else 0) % 0x1_0000_0000
  }

  method Emit(p: Participant, frames: Frames, i: nat) returns (sent: Option<Packet>)
    requires p.Valid()
    modifies p`outSeq, p`outTs
    ensures sent == old(PacketFor(p, frames, i))
    ensures Moved(p) && p.Valid()
  {
    if !p.hasPeer {
      return None;
    }
    var mixed := MixForReceiver(frames, i);
    sent := Some(Packet(p.audioPt, p.outSeq, p.outTs, p.ssrc, EncodeAll(p.codec, mixed)));
    p.outSeq := (p.outSeq + 1) % 0x1_0000;
    p.outTs := (p.outTs + FRAME) % 0x1_0000_0000;
  }

  /**
    One tick: every participant whose endpoint is known is sent the mix of the
    others, with its own sequence number and timestamp, which then move on.
   */
  method Tick(ps: seq<Participant>, locked: set<Participant>) returns (sent: seq<Option<Packet>>, frames: Frames)
    requires Distinct(ps) && forall i :: 0 <= i < |ps| ==> ps[i].Valid()
    modifies (set p | p in ps)`outSeq, (set p | p in ps)`outTs
    ensures frames == old(Snapshot(ps, locked)) && |sent| == |ps|
    ensures forall i :: 0 <= i < |ps| ==> sent[i] == old(PacketFor(ps[i], frames, i))
    ensures forall i :: 0 <= i < |ps| ==> Moved(ps[i]) && ps[i].Valid()
  {
    frames := TakeSnapshot(ps, locked);
    sent := [];
    var i := 0;
    while i < |ps|
      invariant 0 <= i <= |ps| && |sent| == i
      invariant forall j :: 0 <= j < i ==> sent[j] == old(PacketFor(ps[j], frames, j))
      invariant forall j :: 0 <= j < i ==> Moved(ps[j]) && ps[j].Valid()
      invariant forall j :: i <= j < |ps| ==> ps[j].outSeq == old(ps[j].outSeq) && ps[j].outTs == old(ps[j].outTs)
    {
      assert PacketFor(ps[i], frames, i) == old(PacketFor(ps[i], frames, i));
      var packet := Emit(ps[i], frames, i);
      sent := sent + [packet];
      i := i + 1;
    }
  }
}
