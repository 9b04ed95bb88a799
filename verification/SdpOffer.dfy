/**
  Answering an audio offer.  The conference and the voicemail endpoint scan the
  first audio section alike and differ in which payload type they choose.
 */
module SdpOffer {
  import opened Options
  import opened Text
  import opened G711

  datatype RtpMap = RtpMap(pt: nat, name: string, clock: nat)

  /** What the loop over the lines has found. */
  datatype Scan = Scan(inAudio: bool, profileOk: bool, pts: seq<nat>, maps: seq<RtpMap>)

  datatype Negotiation = Negotiation(codec: Codec, audioPt: nat, eventPt: Option<nat>)

  datatype Outcome = Agreed(n: Negotiation) | NoAudioSection | WrongProfile | NoCodec

  // ----- Scanning ----------------------------------------------------------------------

  function PtsOf(parts: seq<string>): seq<nat> {
    if parts == [] then []
    else
      var pt := ParseUint(parts[0], 255);
      if pt == None then PtsOf(parts[1..]) else [pt.value] + PtsOf(parts[1..])
  }

  function Part(parts: seq<string>, i: nat): string {
    if i < |parts| then parts[i] else ""
  }

  function OpenSection(s: Scan, fields: string): Scan {
    var parts := Tokens(fields);
    if Part(parts, 0) != "audio" then s
    else Scan(true, Part(parts, 2) == "RTP/AVP", s.pts + (if |parts| > 3 then PtsOf(parts[3..]) else []), s.maps)
  }

  function MapOf(fields: string): seq<RtpMap> {
    var parts := Tokens(fields);
    var pt := ParseUint(Part(parts, 0), 255);
    if pt == None then []
    else
      var (name, rest) := Cut(Part(parts, 1), '/');
      var clock := if rest == None then None else ParseUint(Cut(rest.value, '/').0, 0xFFFF_FFFF);
      [RtpMap(pt.value, Upper(name), if clock == None then 0 else clock.value)]
  }

  const MAP_TAG := "a=rtpmap:"

  function ScanFrom(s: Scan, lines: seq<string>): Scan
    decreases |lines|
  {
    if lines == [] then s
    else
      var line := Trim(lines[0]);
      if StartsWith(line, "m=") then
        if s.inAudio then s else ScanFrom(OpenSection(s, line[2..]), lines[1..])
      else if s.inAudio && StartsWith(line, MAP_TAG) then
        ScanFrom(s.(maps := s.maps + MapOf(line[|MAP_TAG|..])), lines[1..])
      else ScanFrom(s, lines[1..])
  }

  const NOTHING := Scan(false, false, [], [])

  method ScanOffer(sdp: string) returns (s: Scan)
    ensures s == ScanFrom(NOTHING, Lines(sdp))
  {
    var lines := Lines(sdp);
    s := NOTHING;
    for i := 0 to |lines|
      invariant ScanFrom(s, lines[i..]) == ScanFrom(NOTHING, lines)
    {
      var line := Trim(lines[i]);
      assert lines[i..][0] == lines[i] && lines[i..][1..] == lines[i + 1..];
      if StartsWith(line, "m=") {
        if s.inAudio {
          break;
        }
        s := OpenSection(s, line[2..]);
      } else if s.inAudio && StartsWith(line, MAP_TAG) {
        s := s.(maps := s.maps + MapOf(line[|MAP_TAG|..]));
      }
    }
  }

  // ----- Resolving payload types ----------------------------------------------------------

  /** What a payload type can be used for; the clock must be 8000. */
  datatype Use = Audio(codec: Codec) | Event | Unusable

  function UseOfName(name: string, clock: nat): Use {
    if clock != 8000 then Unusable
    else if name == "PCMU" then Audio(Pcmu)
    else if name == "PCMA" then Audio(Pcma)
    else if name == "TELEPHONE-EVENT" then Event
    else Unusable
  }

  /** The first map for a payload type counts; 0 and 8 need none. */
  function Resolve(maps: seq<RtpMap>, pt: nat): Use {
    if maps == [] then
      if pt == 0 then Audio(Pcmu) else if pt == 8 then Audio(Pcma) else Unusable
    else if maps[0].pt == pt then UseOfName(maps[0].name, maps[0].clock)
    else Resolve(maps[1..], pt)
  }

  /** The first payload type with use `u`. */
  function First(maps: seq<RtpMap>, pts: seq<nat>, u: Use): Option<nat> {
    if pts == [] then None
    else if Resolve(maps, pts[0]) == u then Some(pts[0])
    else First(maps, pts[1..], u)
  }

  function FirstAudio(maps: seq<RtpMap>, pts: seq<nat>): Option<(Codec, nat)> {
    if pts == [] then None
    else if Resolve(maps, pts[0]).Audio? then Some((Resolve(maps, pts[0]).codec, pts[0]))
    else FirstAudio(maps, pts[1..])
  }

  function Last(maps: seq<RtpMap>, pts: seq<nat>, u: Use): Option<nat> {
    if pts == [] then None
    else if Resolve(maps, pts[|pts| - 1]) == u then Some(pts[|pts| - 1])
    else Last(maps, pts[..|pts| - 1], u)
  }

  /** The conference takes the first audio payload type it knows. */
  function ConferenceChoice(s: Scan): Option<(Codec, nat)> {
    FirstAudio(s.maps, s.pts)
  }

  /** Voicemail prefers PCMU, the last one offered, and falls back to the first PCMA. */
  function VoicemailChoice(s: Scan): Option<(Codec, nat)> {
    var pcmu, pcma := Last(s.maps, s.pts, Audio(Pcmu)), First(s.maps, s.pts, Audio(Pcma));
    if pcmu.Some? then Some((Pcmu, pcmu.value)) else if pcma.Some? then Some((Pcma, pcma.value)) else None
  }

  function Conclude(s: Scan, choice: Option<(Codec, nat)>): Outcome {
    if !s.inAudio then NoAudioSection
    else if !s.profileOk then WrongProfile
    else if choice == None then NoCodec
    else Agreed(Negotiation(choice.value.0, choice.value.1, First(s.maps, s.pts, Event)))
  }

  function ConferenceOutcome(sdp: string): Outcome {
    var s := ScanFrom(NOTHING, Lines(sdp));
    Conclude(s, ConferenceChoice(s))
  }

  function VoicemailOutcome(sdp: string): Outcome {
    var s := ScanFrom(NOTHING, Lines(sdp));
    Conclude(s, VoicemailChoice(s))
  }

  lemma {:induction false} FirstSnoc(maps: seq<RtpMap>, pts: seq<nat>, pt: nat, u: Use)
    ensures First(maps, pts + [pt], u)
         == if First(maps, pts, u).Some? then First(maps, pts, u) else if Resolve(maps, pt) == u then Some(pt) else None
  {
    var all := pts + [pt];
    if pts == [] {
      assert all == [pt];
    } else {
      assert all[0] == pts[0] && all[1..] == pts[1..] + [pt];
      FirstSnoc(maps, pts[1..], pt, u);
    }
  }

  lemma {:induction false} FirstAudioSnoc(maps: seq<RtpMap>, pts: seq<nat>, pt: nat)
    ensures FirstAudio(maps, pts + [pt])
         == if FirstAudio(maps, pts).Some? then FirstAudio(maps, pts)
            else if Resolve(maps, pt).Audio? then Some((Resolve(maps, pt).codec, pt)) else None
  {
    var all := pts + [pt];
    if pts == [] {
      assert all == [pt];
    } else {
      assert all[0] == pts[0] && all[1..] == pts[1..] + [pt];
      FirstAudioSnoc(maps, pts[1..], pt);
    }
  }

  method ConferenceNegotiate(sdp: string) returns (r: Outcome)
    ensures r == ConferenceOutcome(sdp)
  {
    var s := ScanOffer(sdp);
    if !s.inAudio {
      return NoAudioSection;
    }
    if !s.profileOk {
      return WrongProfile;
    }
    var chosen: Option<(Codec, nat)>, eventPt: Option<nat> := None, None;
    for i := 0 to |s.pts|
      invariant chosen == FirstAudio(s.maps, s.pts[..i]) && eventPt == First(s.maps, s.pts[..i], Event)
    {
      var pt := s.pts[i];
      assert s.pts[..i + 1] == s.pts[..i] + [pt];
      FirstAudioSnoc(s.maps, s.pts[..i], pt);
      FirstSnoc(s.maps, s.pts[..i], pt, Event);
      match Resolve(s.maps, pt) {
        case Audio(codec) => if chosen == None { chosen := Some((codec, pt)); }
        case Event => if eventPt == None { eventPt := Some(pt); }
        case Unusable =>
      }
    }
    assert s.pts[..|s.pts|] == s.pts;
    if chosen == None {
      return NoCodec;
    }
    r := Agreed(Negotiation(chosen.value.0, chosen.value.1, eventPt));
  }

  method VoicemailNegotiate(sdp: string) returns (r: Outcome)
    ensures r == VoicemailOutcome(sdp)
  {
    var s := ScanOffer(sdp);
    if !s.inAudio {
      return NoAudioSection;
    }
    if !s.profileOk {
      return WrongProfile;
    }
    var pcmu: Option<nat>, pcma: Option<nat>, eventPt: Option<nat> := None, None, None;
    for i := 0 to |s.pts|
      invariant pcmu == Last(s.maps, s.pts[..i], Audio(Pcmu))
      invariant pcma == First(s.maps, s.pts[..i], Audio(Pcma)) && eventPt == First(s.maps, s.pts[..i], Event)
    {
      var pt := s.pts[i];
      assert s.pts[..i + 1] == s.pts[..i] + [pt] && s.pts[..i + 1][..i] == s.pts[..i];
      FirstSnoc(s.maps, s.pts[..i], pt, Audio(Pcma));
      FirstSnoc(s.maps, s.pts[..i], pt, Event);
      match Resolve(s.maps, pt) {
        case Audio(Pcmu) => pcmu := Some(pt);
        case Audio(Pcma) => if pcma == None { pcma := Some(pt); }
        case Event => if eventPt == None { eventPt := Some(pt); }
        case Unusable =>
      }
    }
    assert s.pts[..|s.pts|] == s.pts;
    if pcmu.Some? {
      r := Agreed(Negotiation(Pcmu, pcmu.value, eventPt));
    } else if pcma.Some? {
      r := Agreed(Negotiation(Pcma, pcma.value, eventPt));
    } else {
      r := NoCodec;
    }
  }
}
