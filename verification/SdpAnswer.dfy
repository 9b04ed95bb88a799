/**
  What is agreed on, and the answer that says so: negotiating the printed answer
  gives the same agreement.
 */
module SdpAnswer {
  import opened Options
  import opened Text
  import opened G711
  import opened SdpOffer

  datatype Endpoint = Conference | Voicemail

  function Outcome(endpoint: Endpoint, sdp: string): SdpOffer.Outcome {
    if endpoint == Conference then ConferenceOutcome(sdp) else VoicemailOutcome(sdp)
  }

  function Choice(endpoint: Endpoint, s: Scan): Option<(Codec, nat)> {
    if endpoint == Conference then ConferenceChoice(s) else VoicemailChoice(s)
  }

  // ----- What is agreed on -------------------------------------------------------------------

  lemma {:induction false} FirstIs(maps: seq<RtpMap>, pts: seq<nat>, u: Use)
    ensures var f := First(maps, pts, u);
            && (f.Some? ==> f.value in pts && Resolve(maps, f.value) == u)
            && (f == None ==> forall pt :: pt in pts ==> Resolve(maps, pt) != u)
  {
    if pts != [] {
      FirstIs(maps, pts[1..], u);
      assert forall pt :: pt in pts ==> pt == pts[0] || pt in pts[1..];
    }
  }

  lemma {:induction false} LastIs(maps: seq<RtpMap>, pts: seq<nat>, u: Use)
    ensures var f := Last(maps, pts, u);
            && (f.Some? ==> f.value in pts && Resolve(maps, f.value) == u)
            && (f == None ==> forall pt :: pt in pts ==> Resolve(maps, pt) != u)
  {
    if pts != [] {
      var n := |pts| - 1;
      LastIs(maps, pts[..n], u);
      assert forall pt :: pt in pts ==> pt == pts[n] || pt in pts[..n];
    }
  }

  lemma {:induction false} FirstAudioIs(maps: seq<RtpMap>, pts: seq<nat>)
    ensures var f := FirstAudio(maps, pts);
            && (f.Some? ==> f.value.1 in pts && Resolve(maps, f.value.1) == Audio(f.value.0))
            && (f == None ==> forall pt :: pt in pts ==> !Resolve(maps, pt).Audio?)
  {
    if pts != [] {
      FirstAudioIs(maps, pts[1..]);
      assert forall pt :: pt in pts ==> pt == pts[0] || pt in pts[1..];
    }
  }

  lemma ChoiceIs(endpoint: Endpoint, s: Scan)
    ensures var c := Choice(endpoint, s);
            && (c.Some? ==> c.value.1 in s.pts && Resolve(s.maps, c.value.1) == Audio(c.value.0))
            && (c == None <==> forall pt :: pt in s.pts ==> !Resolve(s.maps, pt).Audio?)
  {
    FirstAudioIs(s.maps, s.pts);
    LastIs(s.maps, s.pts, Audio(Pcmu));
    FirstIs(s.maps, s.pts, Audio(Pcma));
    forall pt | pt in s.pts && Resolve(s.maps, pt).Audio? ensures Choice(endpoint, s).Some? {
      var codec := Resolve(s.maps, pt).codec;
      assert Resolve(s.maps, pt) == Audio(codec) && (codec == Pcmu || codec == Pcma);
    }
  }

  /** An offer is accepted exactly when its first audio section is plain RTP and has a payload type for G.711. */
  lemma AcceptedExactly(endpoint: Endpoint, sdp: string)
    ensures var s := ScanFrom(NOTHING, Lines(sdp));
            Outcome(endpoint, sdp).Agreed? <==>
            s.inAudio && s.profileOk && exists pt :: pt in s.pts && Resolve(s.maps, pt).Audio?
  {
    ChoiceIs(endpoint, ScanFrom(NOTHING, Lines(sdp)));
  }

  /**
    The audio and telephone-event payload types of an agreement are two
    different members of the offered list, used as the offer maps them; an
    event payload type is left out only if none was offered.
   */
  lemma AgreedFromOffer(endpoint: Endpoint, sdp: string)
    requires Outcome(endpoint, sdp).Agreed?
    ensures var s := ScanFrom(NOTHING, Lines(sdp));
            var n := Outcome(endpoint, sdp).n;
            && n.audioPt in s.pts && Resolve(s.maps, n.audioPt) == Audio(n.codec)
            && (n.eventPt.Some? ==> n.eventPt.value in s.pts && Resolve(s.maps, n.eventPt.value) == Event)
            && n.eventPt != Some(n.audioPt)
            && (n.eventPt == None ==> forall pt :: pt in s.pts ==> Resolve(s.maps, pt) != Event)
  {
    var s := ScanFrom(NOTHING, Lines(sdp));
    ChoiceIs(endpoint, s);
    FirstIs(s.maps, s.pts, Event);
  }

  /** Voicemail agrees on PCMU whenever it is offered. */
  lemma VoicemailPrefersPcmu(sdp: string)
    requires Outcome(Voicemail, sdp).Agreed?
    ensures var s := ScanFrom(NOTHING, Lines(sdp));
            Outcome(Voicemail, sdp).n.codec == Pcmu <==> exists pt :: pt in s.pts && Resolve(s.maps, pt) == Audio(Pcmu)
  {
    var s := ScanFrom(NOTHING, Lines(sdp));
    LastIs(s.maps, s.pts, Audio(Pcmu));
  }

  /** The conference takes the caller's first usable payload type. */
  lemma {:induction false} ConferenceTakesFirst(maps: seq<RtpMap>, pts: seq<nat>) returns (i: nat)
    requires FirstAudio(maps, pts).Some?
    ensures i < |pts| && FirstAudio(maps, pts).value.1 == pts[i]
    ensures forall j :: 0 <= j < i ==> !Resolve(maps, pts[j]).Audio?
  {
    if Resolve(maps, pts[0]).Audio? {
      i := 0;
    } else {
      var k := ConferenceTakesFirst(maps, pts[1..]);
      i := k + 1;
      forall j | 0 <= j < i ensures !Resolve(maps, pts[j]).Audio? {
        assert j > 0 ==> pts[j] == pts[1..][j - 1];
      }
    }
  }

  ghost predicate Octets(pts: seq<nat>) {
    forall i :: 0 <= i < |pts| ==> pts[i] <= 255
  }

  lemma {:induction false} PtsAreOctets(parts: seq<string>)
    ensures Octets(PtsOf(parts))
  {
    if parts != [] {
      PtsAreOctets(parts[1..]);
    }
  }

  lemma {:induction false} ScannedOctets(s: Scan, lines: seq<string>)
    requires Octets(s.pts)
    ensures Octets(ScanFrom(s, lines).pts)
    decreases |lines|
  {
    if lines != [] {
      var line := Trim(lines[0]);
      if StartsWith(line, "m=") {
        if !s.inAudio {
          var parts := Tokens(line[2..]);
          if |parts| > 3 {
            PtsAreOctets(parts[3..]);
          }
          ScannedOctets(OpenSection(s, line[2..]), lines[1..]);
        }
      } else if s.inAudio && StartsWith(line, MAP_TAG) {
        ScannedOctets(s.(maps := s.maps + MapOf(line[|MAP_TAG|..])), lines[1..]);
      } else {
        ScannedOctets(s, lines[1..]);
      }
    }
  }

  // ----- The answer ---------------------------------------------------------------------------

  function CodecName(codec: Codec): string {
    if codec == Pcmu then "PCMU" else "PCMA"
  }

  function Title(endpoint: Endpoint): string {
    if endpoint == Conference then "s=SIP3 Conference" else "s=SIP3 Voicemail"
  }

  function PtList(n: Negotiation): string {
    if n.eventPt == None then Dec(n.audioPt) else Dec(n.audioPt) + " " + Dec(n.eventPt.value)
  }

  function MediaLine(port: nat, n: Negotiation): string {
    "m=" + MediaFields(Dec(port), PtList(n))
  }

  function MediaFields(port: string, pts: string): string {
    "audio" + " " + (port + " " + ("RTP/AVP" + " " + pts))
  }

  function MapLine(pt: nat, name: string): string {
    MAP_TAG + Dec(pt) + " " + name + "/8000"
  }

  function FmtpLine(pt: nat): string {
    "a=fmtp:" + Dec(pt) + " 0-15"
  }

  function Preamble(endpoint: Endpoint, ip: string, session: nat): seq<string> {
    ["v=0", "o=sip3 " + Dec(session) + " " + Dec(session) + " IN IP4 " + ip, Title(endpoint), "c=IN IP4 " + ip, "t=0 0"]
  }

  function EventLines(n: Negotiation): seq<string> {
    if n.eventPt == None then []
    else [MapLine(n.eventPt.value, "telephone-event"), FmtpLine(n.eventPt.value)]
  }

  const ENDING := ["a=ptime:20", "a=sendrecv"]

  function AnswerLines(endpoint: Endpoint, ip: string, port: nat, n: Negotiation, session: nat): seq<string> {
    Preamble(endpoint, ip, session) + ([MediaLine(port, n), MapLine(n.audioPt, CodecName(n.codec))]
    + (EventLines(n) + ENDING))
  }

  function PrintLines(ls: seq<string>): string {
    if ls == [] then "" else ls[0] + "\r\n" + PrintLines(ls[1..])
  }

  function Answer(endpoint: Endpoint, ip: string, port: nat, n: Negotiation, session: nat): string {
    PrintLines(AnswerLines(endpoint, ip, port, n, session))
  }

  lemma {:induction false} PrintLinesSnoc(ls: seq<string>, l: string)
    ensures PrintLines(ls + [l]) == PrintLines(ls) + (l + "\r\n")
  {
    var all := ls + [l];
    if ls == [] {
      assert all == [l] && all[1..] == [];
    } else {
      assert all[1..] == ls[1..] + [l];
      PrintLinesSnoc(ls[1..], l);
      Assoc(ls[0] + "\r\n", PrintLines(ls[1..]), l + "\r\n");
    }
  }

  method Push(sdp: string, ghost ls: seq<string>, line: string) returns (more: string)
    requires sdp == PrintLines(ls)
    ensures more == PrintLines(ls + [line])
  {
    PrintLinesSnoc(ls, line);
    more := sdp + (line + "\r\n");
  }

  lemma MediaText(port: string, pts: string)
    ensures "m=audio " + port + " RTP/AVP " + pts == "m=" + MediaFields(port, pts)
  {
    var tail := "RTP/AVP" + " " + pts;
    assert " RTP/AVP " + pts == " " + tail;
    assert "m=audio " + port + " RTP/AVP " + pts == "m=audio " + port + (" " + tail);
    assert "m=audio " == "m=" + ("audio" + " ");
  }

  method PushPreamble(endpoint: Endpoint, ip: string, session: nat) returns (sdp: string)
    ensures sdp == PrintLines(Preamble(endpoint, ip, session))
  {
    var origin := "o=sip3 " + Dec(session) + " " + Dec(session) + " IN IP4 " + ip;
    sdp := Push("", [], "v=0");
    sdp := Push(sdp, ["v=0"], origin);
    ghost var ls := ["v=0"] + [origin];
    sdp := Push(sdp, ls, Title(endpoint));
    ls := ls + [Title(endpoint)];
    sdp := Push(sdp, ls, "c=IN IP4 " + ip);
    ls := ls + ["c=IN IP4 " + ip];
    sdp := Push(sdp, ls, "t=0 0");
    assert ls + ["t=0 0"] == Preamble(endpoint, ip, session);
  }

  method BuildAnswer(endpoint: Endpoint, ip: string, port: nat, n: Negotiation, session: nat) returns (sdp: string)
    ensures sdp == Answer(endpoint, ip, port, n, session)
  {
    var pts := Dec(n.audioPt);
    if n.eventPt.Some? {
      pts := pts + " " + Dec(n.eventPt.value);
    }
    sdp := PushPreamble(endpoint, ip, session);
    ghost var ls := Preamble(endpoint, ip, session);
    MediaText(Dec(port), pts);
    sdp := Push(sdp, ls, "m=audio " + Dec(port) + " RTP/AVP " + pts);
    sdp := PushAttributes(sdp, ls + [MediaLine(port, n)], n);
    AnswerParts(ls, MediaLine(port, n), MapLine(n.audioPt, CodecName(n.codec)), EventLines(n) + ENDING);
  }

  lemma AnswerParts<T>(ls: seq<T>, a: T, b: T, rest: seq<T>)
    ensures ls + [a] + ([b] + rest) == ls + ([a, b] + rest)
  {
  }

  method PushAttributes(sdp: string, ghost ls: seq<string>, n: Negotiation) returns (more: string)
    requires sdp == PrintLines(ls)
    ensures more == PrintLines(ls + ([MapLine(n.audioPt, CodecName(n.codec))] + (EventLines(n) + ENDING)))
  {
    ghost var out := ls;
    more := Push(sdp, out, MapLine(n.audioPt, CodecName(n.codec)));
    out := out + [MapLine(n.audioPt, CodecName(n.codec))];
    if n.eventPt.Some? {
      more := Push(more, out, MapLine(n.eventPt.value, "telephone-event"));
      out := out + [MapLine(n.eventPt.value, "telephone-event")];
      more := Push(more, out, FmtpLine(n.eventPt.value));
      out := out + [FmtpLine(n.eventPt.value)];
    }
    more := Push(more, out, "a=ptime:20");
    more := Push(more, out + ["a=ptime:20"], "a=sendrecv");
    assert out + ["a=ptime:20"] + ["a=sendrecv"]
        == ls + ([MapLine(n.audioPt, CodecName(n.codec))] + (EventLines(n) + ENDING));
  }

  // ----- Reading the answer ---------------------------------------------------------------------

  lemma {:induction false} LinesPrinted(ls: seq<string>)
    requires AllOneLine(ls)
    ensures Lines(PrintLines(ls)) == ls
  {
    if ls != [] {
      assert OneLine(ls[0]);
      LinesPrinted(ls[1..]);
      LinesCons(ls[0], PrintLines(ls[1..]));
    }
  }

  lemma ScanStep(s: Scan, line: string, rest: seq<string>)
    ensures ScanFrom(s, [line] + rest)
         == var l := Trim(line);
            if StartsWith(l, "m=") then (if s.inAudio then s else ScanFrom(OpenSection(s, l[2..]), rest))
            else if s.inAudio && StartsWith(l, MAP_TAG) then ScanFrom(s.(maps := s.maps + MapOf(l[|MAP_TAG|..])), rest)
            else ScanFrom(s, rest)
  {
    assert ([line] + rest)[1..] == rest;
  }

  /** Before the audio section only m= lines matter. */
  lemma SkipBefore(s: Scan, line: string, rest: seq<string>)
    requires !s.inAudio && line != "" && !IsWhite(line[0]) && line[0] != 'm'
    ensures ScanFrom(s, [line] + rest) == ScanFrom(s, rest)
  {
    TrimHead(line);
    ScanStep(s, line, rest);
    assert "m="[0] == 'm';
  }

  /** Inside it, an attribute that is no rtpmap does not. */
  lemma SkipInside(s: Scan, line: string, rest: seq<string>)
    requires Trimmed(line) && |line| >= 3 && line[0] == 'a' && line[2] != 'r'
    ensures ScanFrom(s, [line] + rest) == ScanFrom(s, rest)
  {
    TrimNothing(line);
    ScanStep(s, line, rest);
    assert "m="[0] == 'm' && MAP_TAG[2] == 'r';
    assert StartsWith(line, MAP_TAG) ==> line[..9][2] == 'r';
  }

  lemma PreambleSkipped(endpoint: Endpoint, ip: string, session: nat, rest: seq<string>)
    ensures ScanFrom(NOTHING, Preamble(endpoint, ip, session) + rest) == ScanFrom(NOTHING, rest)
  {
    var p := Preamble(endpoint, ip, session);
    assert p[0][0] == 'v' && p[1][0] == 'o' && p[2][0] == 's' && p[3][0] == 'c' && p[4][0] == 't';
    SkipAll(p, rest);
  }

  lemma {:induction false} SkipAll(ls: seq<string>, rest: seq<string>)
    requires forall i :: 0 <= i < |ls| ==> ls[i] != "" && !IsWhite(ls[i][0]) && ls[i][0] != 'm'
    ensures ScanFrom(NOTHING, ls + rest) == ScanFrom(NOTHING, rest)
  {
    if ls == [] {
      assert ls + rest == rest;
    } else {
      assert ls + rest == [ls[0]] + (ls[1..] + rest);
      SkipBefore(NOTHING, ls[0], ls[1..] + rest);
      SkipAll(ls[1..], rest);
    }
  }

  function AnswerPts(n: Negotiation): seq<nat> {
    if n.eventPt == None then [n.audioPt] else [n.audioPt, n.eventPt.value]
  }

  predicate Printable(n: Negotiation) {
    n.audioPt <= 255 && (n.eventPt.Some? ==> n.eventPt.value <= 255)
  }

  lemma PtTokens(n: Negotiation)
    requires Printable(n)
    ensures PtsOf(Tokens(PtList(n))) == AnswerPts(n)
  {
    DecIsWord(n.audioPt);
    ParseDec(n.audioPt, 255);
    TokensWord(Dec(n.audioPt), "");
    if n.eventPt.Some? {
      var e := n.eventPt.value;
      DecIsWord(e);
      ParseDec(e, 255);
      TokensWord(Dec(e), "");
      TokensWord(Dec(n.audioPt), Dec(e));
      TwoPts(Dec(n.audioPt), Dec(e));
    } else {
      OnePt(Dec(n.audioPt));
    }
  }

  lemma OnePt(a: string)
    requires ParseUint(a, 255).Some?
    ensures PtsOf([a]) == [ParseUint(a, 255).value]
  {
    assert [a][1..] == [];
  }

  lemma TwoPts(a: string, b: string)
    requires ParseUint(a, 255).Some? && ParseUint(b, 255).Some?
    ensures PtsOf([a] + [b]) == [ParseUint(a, 255).value, ParseUint(b, 255).value]
  {
    assert ([a] + [b])[1..] == [b];
    OnePt(b);
  }

  lemma Triple<T>(a: T, b: T, c: T, rest: seq<T>)
    ensures [a] + ([b] + ([c] + rest)) == [a, b, c] + rest
  {
  }

  lemma ThreeWords(a: string, b: string, c: string, rest: string)
    requires Word(a) && Word(b) && Word(c)
    ensures Tokens(a + " " + (b + " " + (c + " " + rest))) == [a, b, c] + Tokens(rest)
  {
    var second, third := b + " " + (c + " " + rest), c + " " + rest;
    assert Tokens(third) == [c] + Tokens(rest) by { TokensWord(c, rest); }
    assert Tokens(second) == [b] + Tokens(third) by { TokensWord(b, third); }
    assert Tokens(a + " " + second) == [a] + Tokens(second) by { TokensWord(a, second); }
    Triple(a, b, c, Tokens(rest));
  }

  lemma OpenWith(fields: string, port: string, pts: seq<string>)
    requires Tokens(fields) == ["audio", port, "RTP/AVP"] + pts
    ensures OpenSection(NOTHING, fields) == Scan(true, true, PtsOf(pts), [])
  {
    var parts := Tokens(fields);
    assert parts[3..] == pts;
    assert [] + PtsOf(pts) == PtsOf(pts);
  }

  lemma MediaOpens(port: nat, n: Negotiation)
    requires Printable(n)
    ensures OpenSection(NOTHING, MediaFields(Dec(port), PtList(n))) == Scan(true, true, AnswerPts(n), [])
  {
    DecIsWord(port);
    ThreeWords("audio", Dec(port), "RTP/AVP", PtList(n));
    OpenWith(MediaFields(Dec(port), PtList(n)), Dec(port), Tokens(PtList(n)));
    PtTokens(n);
  }

  lemma PtListEnds(n: Negotiation)
    ensures PtList(n) != "" && IsDigit(PtList(n)[|PtList(n)| - 1])
  {
    DecIsWord(n.audioPt);
    if n.eventPt.Some? {
      DecIsWord(n.eventPt.value);
      var d := Dec(n.eventPt.value);
      assert PtList(n)[|PtList(n)| - 1] == d[|d| - 1];
    }
  }

  lemma ScanMedia(port: nat, n: Negotiation, rest: seq<string>)
    requires Printable(n)
    ensures ScanFrom(NOTHING, [MediaLine(port, n)] + rest) == ScanFrom(Scan(true, true, AnswerPts(n), []), rest)
  {
    var fields := MediaFields(Dec(port), PtList(n));
    var line := MediaLine(port, n);
    assert line[..2] == "m=" && line[2..] == fields;
    assert Trimmed(line) by {
      PtListEnds(n);
      assert line[0] == 'm' && line[|line| - 1] == PtList(n)[|PtList(n)| - 1];
    }
    TrimNothing(line);
    ScanStep(NOTHING, line, rest);
    MediaOpens(port, n);
  }

  lemma Clock()
    ensures ParseUint("8000", 0xFFFF_FFFF) == Some(8000) && Cut("8000", '/') == ("8000", None)
  {
    assert Dec(8) == "8" && Dec(80) == "80" && Dec(800) == "800" && Dec(8000) == "8000";
    ParseDec(8000, 0xFFFF_FFFF);
    CutNone("8000", '/');
  }

  lemma MapTokens(pt: nat, encoding: string)
    requires Word(encoding)
    ensures Tokens(Dec(pt) + " " + encoding) == [Dec(pt), encoding]
  {
    DecIsWord(pt);
    TokensWord(Dec(pt), encoding);
    TokensWord(encoding, "");
  }

  lemma MapRead(pt: nat, name: string)
    requires pt <= 255 && Word(name) && '/' !in name
    ensures MapOf(Dec(pt) + " " + (name + "/8000")) == [RtpMap(pt, Upper(name), 8000)]
  {
    var encoding := name + "/8000";
    assert Word(encoding);
    MapTokens(pt, encoding);
    assert Cut(encoding, '/') == (name, Some("8000")) by {
      assert encoding == name + ['/'] + "8000";
      CutAt(name, '/', "8000");
    }
    ParseDec(pt, 255);
    Clock();
  }

  lemma ScanMap(s: Scan, pt: nat, name: string, rest: seq<string>)
    requires s.inAudio && pt <= 255 && Word(name) && '/' !in name
    ensures ScanFrom(s, [MapLine(pt, name)] + rest)
         == ScanFrom(s.(maps := s.maps + [RtpMap(pt, Upper(name), 8000)]), rest)
  {
    var line := MapLine(pt, name);
    var fields := Dec(pt) + " " + (name + "/8000");
    assert line == MAP_TAG + fields by {
      assert MAP_TAG + Dec(pt) + " " + name + "/8000" == MAP_TAG + (Dec(pt) + " " + (name + "/8000"));
    }
    assert line[..9] == MAP_TAG && line[9..] == fields;
    assert Trimmed(line) by {
      assert line[0] == 'a' && line[|line| - 1] == '0';
    }
    TrimNothing(line);
    ScanStep(s, line, rest);
    assert "m="[0] == 'm' && line[..2][0] == 'a';
    MapRead(pt, name);
  }

  lemma CodecNames(codec: Codec)
    ensures var name := CodecName(codec); Upper(name) == name && Word(name) && '/' !in name
  {
    assert Upper("PCMU") == "PCMU" && Upper("PCMA") == "PCMA";
  }

  lemma EventNameUpper()
    ensures Upper("telephone-event") == "TELEPHONE-EVENT"
  {
  }

  lemma EventName()
    ensures Word("telephone-event") && '/' !in "telephone-event"
  {
  }

  function AnswerMaps(n: Negotiation): seq<RtpMap> {
    var audio := RtpMap(n.audioPt, CodecName(n.codec), 8000);
    if n.eventPt == None then [audio] else [audio, RtpMap(n.eventPt.value, "TELEPHONE-EVENT", 8000)]
  }

  lemma ScanFmtp(s: Scan, pt: nat)
    ensures ScanFrom(s, [FmtpLine(pt)] + ENDING) == s
  {
    var fmtp := FmtpLine(pt);
    assert fmtp[0] == 'a' && fmtp[2] == 'f' && fmtp[|fmtp| - 1] == '5';
    SkipInside(s, fmtp, ENDING);
    ScanEnd(s);
  }

  lemma ScanEvent(s: Scan, e: nat, line: string, fmtp: string)
    requires s.inAudio && e <= 255 && line == MapLine(e, "telephone-event") && fmtp == FmtpLine(e)
    ensures ScanFrom(s, [line, fmtp] + ENDING) == s.(maps := s.maps + [RtpMap(e, "TELEPHONE-EVENT", 8000)])
  {
    assert [line, fmtp] + ENDING == [line] + ([fmtp] + ENDING);
    EventNameUpper();
    EventName();
    ScanMap(s, e, "telephone-event", [fmtp] + ENDING);
    ScanFmtp(s.(maps := s.maps + [RtpMap(e, "TELEPHONE-EVENT", 8000)]), e);
  }

  lemma ScanAttributes(n: Negotiation, pts: seq<nat>)
    requires Printable(n)
    ensures ScanFrom(Scan(true, true, pts, []),
                     [MapLine(n.audioPt, CodecName(n.codec))] + (EventLines(n) + ENDING))
         == Scan(true, true, pts, AnswerMaps(n))
  {
    var s := Scan(true, true, pts, []);
    var audio := RtpMap(n.audioPt, CodecName(n.codec), 8000);
    CodecNames(n.codec);
    ScanMap(s, n.audioPt, CodecName(n.codec), EventLines(n) + ENDING);
    assert [] + [audio] == [audio];
    if n.eventPt == None {
      assert EventLines(n) + ENDING == ENDING;
      ScanEnd(s.(maps := [audio]));
    } else {
      var e := n.eventPt.value;
      ScanEvent(s.(maps := [audio]), e, MapLine(e, "telephone-event"), FmtpLine(e));
    }
  }

  lemma ScanEnd(s: Scan)
    ensures ScanFrom(s, ENDING) == s
  {
    SkipInside(s, "a=ptime:20", ["a=sendrecv"]);
    assert ["a=ptime:20"] + ["a=sendrecv"] == ["a=ptime:20", "a=sendrecv"];
    SkipInside(s, "a=sendrecv", []);
    assert ["a=sendrecv"] + [] == ["a=sendrecv"];
  }

  lemma MapLineOneLine(pt: nat, name: string)
    requires OneLine(name)
    ensures OneLine(MapLine(pt, name)) && OneLine(FmtpLine(pt))
  {
    DecIsWord(pt);
  }

  lemma MediaLineOneLine(port: nat, n: Negotiation)
    ensures OneLine(MediaLine(port, n))
  {
    DecIsWord(port);
    DecIsWord(n.audioPt);
    if n.eventPt.Some? {
      DecIsWord(n.eventPt.value);
    }
    assert OneLine(PtList(n));
  }

  lemma PreambleOneLine(endpoint: Endpoint, ip: string, session: nat)
    requires OneLine(ip)
    ensures AllOneLine(Preamble(endpoint, ip, session))
  {
    var p, d := Preamble(endpoint, ip, session), Dec(session);
    DecIsWord(session);
    assert OneLine(p[0]) && OneLine(p[2]) && OneLine(p[4]);
    assert OneLine(p[1]) && OneLine(p[3]);
  }

  lemma OneLines(a: seq<string>, b: seq<string>)
    requires AllOneLine(a) && AllOneLine(b)
    ensures AllOneLine(a + b)
  {
  }

  lemma AnswerOneLine(endpoint: Endpoint, ip: string, port: nat, n: Negotiation, session: nat)
    requires OneLine(ip)
    ensures AllOneLine(AnswerLines(endpoint, ip, port, n, session))
  {
    PreambleOneLine(endpoint, ip, session);
    MediaLineOneLine(port, n);
    MapLineOneLine(n.audioPt, CodecName(n.codec));
    if n.eventPt.Some? {
      MapLineOneLine(n.eventPt.value, "telephone-event");
    }
    var media := [MediaLine(port, n), MapLine(n.audioPt, CodecName(n.codec))];
    OneLines(EventLines(n), ENDING);
    OneLines(media, EventLines(n) + ENDING);
    OneLines(Preamble(endpoint, ip, session), media + (EventLines(n) + ENDING));
  }

  /** The answer is scanned as one section with the agreed payload types and their maps. */
  lemma AnswerScanned(endpoint: Endpoint, ip: string, port: nat, n: Negotiation, session: nat)
    requires OneLine(ip) && Printable(n)
    ensures ScanFrom(NOTHING, Lines(Answer(endpoint, ip, port, n, session)))
         == Scan(true, true, AnswerPts(n), AnswerMaps(n))
  {
    var tail := [MapLine(n.audioPt, CodecName(n.codec))] + (EventLines(n) + ENDING);
    AnswerOneLine(endpoint, ip, port, n, session);
    LinesPrinted(AnswerLines(endpoint, ip, port, n, session));
    assert AnswerLines(endpoint, ip, port, n, session)
        == Preamble(endpoint, ip, session) + ([MediaLine(port, n)] + tail);
    PreambleSkipped(endpoint, ip, session, [MediaLine(port, n)] + tail);
    ScanMedia(port, n, tail);
    ScanAttributes(n, AnswerPts(n));
  }

  lemma AnswerUses(n: Negotiation)
    ensures Resolve(AnswerMaps(n), n.audioPt) == Audio(n.codec)
    ensures n.eventPt.Some? && n.eventPt.value != n.audioPt ==> Resolve(AnswerMaps(n), n.eventPt.value) == Event
  {
    var maps := AnswerMaps(n);
    assert "PCMA"[3] == 'A' && "PCMU"[3] == 'U';
    if n.eventPt.Some? && n.eventPt.value != n.audioPt {
      assert maps[1..][0] == RtpMap(n.eventPt.value, "TELEPHONE-EVENT", 8000);
      assert |"TELEPHONE-EVENT"| == 15;
    }
  }

  lemma ChoiceOfOne(endpoint: Endpoint, maps: seq<RtpMap>, a: nat, codec: Codec)
    requires Resolve(maps, a) == Audio(codec)
    ensures Choice(endpoint, Scan(true, true, [a], maps)) == Some((codec, a)) && First(maps, [a], Event) == None
  {
    var pts := [a];
    assert pts[1..] == [] && pts[..0] == [];
    assert Last(maps, pts, Audio(Pcmu)) == if codec == Pcmu then Some(a) else None;
    assert First(maps, pts, Audio(Pcma)) == if codec == Pcma then Some(a) else None;
  }

  lemma ChoiceOfTwo(endpoint: Endpoint, maps: seq<RtpMap>, a: nat, e: nat, codec: Codec)
    requires Resolve(maps, a) == Audio(codec) && (e != a ==> Resolve(maps, e) == Event)
    ensures Choice(endpoint, Scan(true, true, [a, e], maps)) == Some((codec, a))
    ensures First(maps, [a, e], Event) == if e == a then None else Some(e)
  {
    var pts := [a, e];
    assert pts[1..] == [e] && pts[..1] == [a] && [e][1..] == [] && [a][..0] == [];
    assert First(maps, [e], Event) == if e == a then None else Some(e);
    assert Last(maps, [a], Audio(Pcmu)) == if codec == Pcmu then Some(a) else None;
    assert Last(maps, pts, Audio(Pcmu)) == if codec == Pcmu then Some(a) else None;
    assert First(maps, pts, Audio(Pcma)) == if codec == Pcma then Some(a) else First(maps, [e], Audio(Pcma));
  }

  /** The answer's agreement: the same, but for an event payload type that is also the audio one. */
  lemma AnswerChoice(endpoint: Endpoint, n: Negotiation)
    ensures var s := Scan(true, true, AnswerPts(n), AnswerMaps(n));
            && Choice(endpoint, s) == Some((n.codec, n.audioPt))
            && First(s.maps, s.pts, Event) == if n.eventPt == Some(n.audioPt) then None else n.eventPt
  {
    AnswerUses(n);
    if n.eventPt == None {
      ChoiceOfOne(endpoint, AnswerMaps(n), n.audioPt, n.codec);
    } else {
      ChoiceOfTwo(endpoint, AnswerMaps(n), n.audioPt, n.eventPt.value, n.codec);
    }
  }

  /**
    Negotiating the printed answer gives the agreement it was printed from,
    exactly when the event payload type is not also the audio one.
   */
  lemma AnswerFixedPoint(endpoint: Endpoint, ip: string, port: nat, n: Negotiation, session: nat)
    requires OneLine(ip) && Printable(n)
    ensures Outcome(endpoint, Answer(endpoint, ip, port, n, session)) == Agreed(n) <==> n.eventPt != Some(n.audioPt)
  {
    AnswerScanned(endpoint, ip, port, n, session);
    AnswerChoice(endpoint, n);
  }

  /** So it does for every accepted offer. */
  lemma OfferAnswered(endpoint: Endpoint, sdp: string, ip: string, port: nat, session: nat)
    requires OneLine(ip) && Outcome(endpoint, sdp).Agreed?
    ensures Outcome(endpoint, Answer(endpoint, ip, port, Outcome(endpoint, sdp).n, session)) == Outcome(endpoint, sdp)
  {
    var n := Outcome(endpoint, sdp).n;
    AgreedFromOffer(endpoint, sdp);
    ScannedOctets(NOTHING, Lines(sdp));
    AnswerFixedPoint(endpoint, ip, port, n, session);
  }
}
