/**
  The media sections of a session description and the rewriting that puts the
  media relay in their place: relayed sections get a relay port, and connection
  lines get the relay's address where that does not disturb media the relay
  cannot carry.
 */
module SdpRewrite {
  import opened Options
  import opened Text
  import opened SdpLine
  import opened RelaySessions

  // ----- Media sections ----------------------------------------------------------

  function KindOf(token: string): Option<Kind> {
    if token == "m=audio" then Some(Audio) else if token == "m=video" then Some(Video) else None
  }

  function MakeSection(kind: Option<Kind>, port: nat, index: nat): seq<Descriptor> {
    if kind == None then [] else [Descriptor(kind.value, index, port, port != 0)]
  }

  /** The section an m= line opens, when it is one the relay supports. */
  function SectionOf(line: string, index: nat): seq<Descriptor> {
    if LinePort(line) == None then [] else MakeSection(KindOf(Tokens(line)[0]), LinePort(line).value, index)
  }

  function Sections(lines: seq<string>, next: nat): seq<Descriptor> {
    if lines == [] then []
    else if IsMedia(lines[0]) then SectionOf(lines[0], next) + Sections(lines[1..], next + 1)
    else Sections(lines[1..], next)
  }

  method ParseSdpMediaSections(sdp: string) returns (media: seq<Descriptor>)
    ensures media == Sections(Lines(sdp), 0)
  {
    media := [];
    var mediaIndex := 0;
    var lines := Lines(sdp);
    for i := 0 to |lines|
      invariant media + Sections(lines[i..], mediaIndex) == Sections(lines, 0)
    {
      var trimmed := TrimStart(lines[i]);
      assert lines[i..][1..] == lines[i + 1..];
      if !StartsWith(trimmed, "m=") {
        continue;
      }
      TokensTrim(lines[i]);
      var parts := Tokens(trimmed);
      ghost var before := media;
      if |parts| >= 2 && KindOf(parts[0]).Some? && MediaPort(parts[1]).Some? {
        var port := MediaPort(parts[1]).value;
        media := media + [Descriptor(KindOf(parts[0]).value, mediaIndex, port, port != 0)];
      }
      assert media == before + SectionOf(lines[i], mediaIndex);
      Assoc(before, SectionOf(lines[i], mediaIndex), Sections(lines[i + 1..], mediaIndex + 1));
      mediaIndex := mediaIndex + 1;
    }
  }

  // ----- Rewriting -----------------------------------------------------------------

  /** Relay ports keyed by section index; of two entries for one section the later counts. */
  function PortMap(ports: seq<(nat, nat)>): map<nat, nat> {
    if ports == [] then map[]
    else
      var (index, port) := ports[|ports| - 1];
      PortMap(ports[..|ports| - 1])[index := port]
  }

  /** A section's port is that of its last entry in the list; other sections have none. */
  lemma {:induction false} LastPortCounts(ports: seq<(nat, nat)>, k: nat)
    requires k < |ports| && forall j :: k < j < |ports| ==> ports[j].0 != ports[k].0
    ensures ports[k].0 in PortMap(ports) && PortMap(ports)[ports[k].0] == ports[k].1
  {
    if k < |ports| - 1 {
      LastPortCounts(ports[..|ports| - 1], k);
    }
  }

  lemma {:induction false} OnlyListedPorts(ports: seq<(nat, nat)>, index: nat)
    requires index in PortMap(ports)
    ensures exists k :: 0 <= k < |ports| && ports[k].0 == index
  {
    var n := |ports| - 1;
    if ports[n].0 != index {
      OnlyListedPorts(ports[..n], index);
      var k :| 0 <= k < n && ports[..n][k].0 == index;
      assert ports[k].0 == index;
    }
  }

  predicate HasUnsupported(lines: seq<string>) {
    lines != [] && ((IsMedia(lines[0]) && !IsSupported(lines[0])) || HasUnsupported(lines[1..]))
  }

  /** Sections with an IPv4 connection line of their own. */
  function ConnSections(lines: seq<string>, next: nat): set<nat> {
    if lines == [] then {}
    else if IsMedia(lines[0]) then ConnSections(lines[1..], next + 1)
    else if IsIp4(lines[0]) && next > 0 then {next - 1} + ConnSections(lines[1..], next)
    else ConnSections(lines[1..], next)
  }

  /** What the rewriting of each line depends on. */
  datatype Plan = Plan(ip: string, ports: map<nat, nat>, unsupported: bool, withConn: set<nat>)

  function PlanFor(lines: seq<string>, ip: string, ports: map<nat, nat>): Plan {
    Plan(ip, ports, HasUnsupported(lines), ConnSections(lines, 0))
  }

  function IpLine(ip: string): string {
    "c=IN IP4 " + ip
  }

  predicate Relayed(line: string, index: nat, ports: map<nat, nat>) {
    IsMedia(line) && index in ports && LinePort(line).Some? && LinePort(line) != Some(0)
  }

  /** The connection lines of section `section` (-1 for the session part) are replaced. */
  predicate Covers(plan: Plan, section: int) {
    !plan.unsupported || (section >= 0 && section in plan.ports)
  }

  function RewriteLine(plan: Plan, line: string, next: nat): seq<string> {
    if Relayed(line, next, plan.ports) then
      var out := RewritePort(line, plan.ports[next]);
      if plan.unsupported && next !in plan.withConn then [out, IpLine(plan.ip)] else [out]
    else if !IsMedia(line) && IsIp4(line) && Covers(plan, next - 1) then [IpLine(plan.ip)]
    else [line]
  }

  function IndexAfter(line: string, next: nat): nat {
    if IsMedia(line) then next + 1 else next
  }

  function RewriteFrom(plan: Plan, lines: seq<string>, next: nat): seq<string> {
    if lines == [] then []
    else RewriteLine(plan, lines[0], next) + RewriteFrom(plan, lines[1..], IndexAfter(lines[0], next))
  }

  function RewriteLines(lines: seq<string>, ip: string, ports: map<nat, nat>): seq<string> {
    RewriteFrom(PlanFor(lines, ip, ports), lines, 0)
  }

  method SectionsWithConnection(lines: seq<string>) returns (withConn: set<nat>)
    ensures withConn == ConnSections(lines, 0)
  {
    withConn := {};
    var current: Option<nat>, next := None, 0;
    for i := 0 to |lines|
      invariant current == if next == 0 then None else Some(next - 1)
      invariant withConn + ConnSections(lines[i..], next) == ConnSections(lines, 0)
    {
      assert lines[i..][1..] == lines[i + 1..];
      if IsMedia(lines[i]) {
        current := Some(next);
        next := next + 1;
      } else if IsIp4(lines[i]) && current.Some? {
        withConn := withConn + {current.value};
      }
    }
  }

  method CollectPorts(ports: seq<(nat, nat)>) returns (portByMedia: map<nat, nat>)
    ensures portByMedia == PortMap(ports)
  {
    portByMedia := map[];
    for i := 0 to |ports|
      invariant portByMedia == PortMap(ports[..i])
    {
      assert ports[..i + 1][..i] == ports[..i];
      portByMedia := portByMedia[ports[i].0 := ports[i].1];
    }
    assert ports[..|ports|] == ports;
  }

  lemma RewriteStep(plan: Plan, lines: seq<string>, i: nat, next: nat, out: seq<string>)
    requires i < |lines|
    ensures out + RewriteFrom(plan, lines[i..], next)
         == out + RewriteLine(plan, lines[i], next) + RewriteFrom(plan, lines[i + 1..], IndexAfter(lines[i], next))
  {
    assert lines[i..][1..] == lines[i + 1..];
    Assoc(out, RewriteLine(plan, lines[i], next), RewriteFrom(plan, lines[i + 1..], IndexAfter(lines[i], next)));
  }

  predicate Follows(current: Option<nat>, next: nat) {
    current == if next == 0 then None else Some(next - 1)
  }

  /** One turn of the loop: the lines to write, and the section counters after this line. */
  method RewriteTurn(plan: Plan, line: string, current: Option<nat>, next: nat)
    returns (piece: seq<string>, current': Option<nat>, next': nat)
    requires Follows(current, next)
    ensures piece == RewriteLine(plan, line, next) && next' == IndexAfter(line, next) && Follows(current', next')
  {
    piece, current', next' := [line], current, next;
    if IsMedia(line) {
      current', next' := Some(next), next + 1;
      if next in plan.ports && LinePort(line).Some? && LinePort(line) != Some(0) {
        piece := [RewritePort(line, plan.ports[next])];
        if plan.unsupported && next !in plan.withConn {
          piece := [piece[0], IpLine(plan.ip)];
        }
      }
    } else if IsIp4(line) && (!plan.unsupported || (current.Some? && current.value in plan.ports)) {
      piece := [IpLine(plan.ip)];
    }
  }

  method RewriteSdpMedia(sdp: string, ip: string, ports: seq<(nat, nat)>) returns (text: string)
    ensures text == JoinCrlf(RewriteLines(Lines(sdp), ip, PortMap(ports)))
  {
    var lines := Lines(sdp);
    var portByMedia := CollectPorts(ports);
    var withConn := SectionsWithConnection(lines);
    var plan := Plan(ip, portByMedia, HasUnsupported(lines), withConn);
    var out: seq<string> := [];
    var current: Option<nat>, next := None, 0;
    assert lines[0..] == lines;
    for i := 0 to |lines|
      invariant Follows(current, next)
      invariant out + RewriteFrom(plan, lines[i..], next) == RewriteFrom(plan, lines, 0)
    {
      RewriteStep(plan, lines, i, next, out);
      var piece;
      piece, current, next := RewriteTurn(plan, lines[i], current, next);
      out := out + piece;
    }
    assert lines[|lines|..] == [] && out + [] == out;
    text := JoinCrlf(out);
  }
}
