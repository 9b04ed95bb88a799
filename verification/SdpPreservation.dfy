/**
  What rewriting a session description keeps: the sections it describes, every
  other line, and, outside the relayed sections, the addresses media is sent to.
 */
module SdpPreservation {
  import opened Options
  import opened Text
  import opened SdpLine
  import opened RelaySessions
  import opened SdpRewrite

  predicate ValidPorts(ports: map<nat, nat>) {
    forall i :: i in ports ==> 0 < ports[i] <= 65535
  }

  /** Every m= line that gets a relay port is regular. */
  predicate RegularFrom(lines: seq<string>, next: nat, ports: map<nat, nat>) {
    lines == [] || ((Relayed(lines[0], next, ports) ==> Regular(lines[0]))
                    && RegularFrom(lines[1..], IndexAfter(lines[0], next), ports))
  }

  // ----- One line ------------------------------------------------------------------

  lemma IpLineIs(ip: string)
    ensures !IsMedia(IpLine(ip)) && IsIp4(IpLine(ip)) && TrimStart(IpLine(ip)) == IpLine(ip)
  {
    var l := IpLine(ip);
    assert l[0] == 'c' && l[..9] == "c=IN IP4 ";
    assert TrimStart(l) == l;
    assert l[..2][0] == 'c' && "m="[0] == 'm';
  }

  /** What a line becomes: `first`, and after it an address line if `added`. */
  predicate Became(plan: Plan, line: string, next: nat, first: string, added: bool) {
    && RewriteLine(plan, line, next) == (if added then [first, IpLine(plan.ip)] else [first])
    && added == (Relayed(line, next, plan.ports) && plan.unsupported && next !in plan.withConn)
    && IsMedia(first) == IsMedia(line)
    && if Relayed(line, next, plan.ports) then MovedTo(line, first, plan.ports[next])
       else if !IsMedia(line) && IsIp4(line) && Covers(plan, next - 1) then first == IpLine(plan.ip)
       else first == line
  }

  lemma PieceOf(plan: Plan, line: string, next: nat) returns (first: string, added: bool)
    requires ValidPorts(plan.ports) && (Relayed(line, next, plan.ports) ==> Regular(line))
    ensures Became(plan, line, next, first, added)
  {
    first := RewriteLine(plan, line, next)[0];
    added := Relayed(line, next, plan.ports) && plan.unsupported && next !in plan.withConn;
    IpLineIs(plan.ip);
    if Relayed(line, next, plan.ports) {
      RewrittenLine(line, plan.ports[next]);
    }
  }

  // ----- Sections --------------------------------------------------------------------

  function Move(d: Descriptor, ports: map<nat, nat>): Descriptor {
    if d.active && d.mediaIndex in ports then d.(port := ports[d.mediaIndex]) else d
  }

  function MoveAll(ds: seq<Descriptor>, ports: map<nat, nat>): seq<Descriptor> {
    seq(|ds|, i requires 0 <= i < |ds| => Move(ds[i], ports))
  }

  lemma SectionMoved(line: string, out: string, next: nat, ports: map<nat, nat>)
    requires ValidPorts(ports) && Relayed(line, next, ports) && MovedTo(line, out, ports[next])
    ensures SectionOf(out, next) == MoveAll(SectionOf(line, next), ports)
  {
  }

  lemma SectionKept(line: string, next: nat, ports: map<nat, nat>)
    requires IsMedia(line) && !Relayed(line, next, ports)
    ensures SectionOf(line, next) == MoveAll(SectionOf(line, next), ports)
  {
  }

  lemma SectionsAdd(line: string, rest: seq<string>, next: nat)
    ensures Sections([line] + rest, next)
         == (if IsMedia(line) then SectionOf(line, next) else []) + Sections(rest, IndexAfter(line, next))
  {
    assert ([line] + rest)[1..] == rest;
  }

  lemma MoveConcat(a: seq<Descriptor>, b: seq<Descriptor>, ports: map<nat, nat>)
    ensures MoveAll(a + b, ports) == MoveAll(a, ports) + MoveAll(b, ports)
  {
  }

  lemma SectionsPair(first: string, ip: string, rest: seq<string>, next: nat)
    ensures Sections([first, IpLine(ip)] + rest, next) == Sections([first] + rest, next)
  {
    IpLineIs(ip);
    assert [first, IpLine(ip)] + rest == [first] + ([IpLine(ip)] + rest);
    SectionsAdd(first, rest, next);
    SectionsAdd(first, [IpLine(ip)] + rest, next);
    SectionsAdd(IpLine(ip), rest, IndexAfter(first, next));
  }

  lemma SectionsPiece(plan: Plan, line: string, next: nat, rest: seq<string>)
    requires ValidPorts(plan.ports) && (Relayed(line, next, plan.ports) ==> Regular(line))
    ensures Sections(RewriteLine(plan, line, next) + rest, next)
         == MoveAll(if IsMedia(line) then SectionOf(line, next) else [], plan.ports)
            + Sections(rest, IndexAfter(line, next))
  {
    var first, added := PieceOf(plan, line, next);
    SectionsPair(first, plan.ip, rest, next);
    SectionsAdd(first, rest, next);
    if Relayed(line, next, plan.ports) {
      SectionMoved(line, first, next, plan.ports);
    } else if IsMedia(line) {
      SectionKept(line, next, plan.ports);
    }
  }

  lemma {:induction false} SectionsMoved(plan: Plan, lines: seq<string>, next: nat)
    requires ValidPorts(plan.ports) && RegularFrom(lines, next, plan.ports)
    ensures Sections(RewriteFrom(plan, lines, next), next) == MoveAll(Sections(lines, next), plan.ports)
  {
    if lines != [] {
      var after := IndexAfter(lines[0], next);
      SectionsMoved(plan, lines[1..], after);
      SectionsPiece(plan, lines[0], next, RewriteFrom(plan, lines[1..], after));
      var section := if IsMedia(lines[0]) then SectionOf(lines[0], next) else [];
      MoveConcat(section, Sections(lines[1..], after), plan.ports);
      assert Sections(lines, next) == section + Sections(lines[1..], after);
    }
  }

  // ----- All other lines ----------------------------------------------------------------

  /**
    The lines without their IPv4 connection lines, and with the port taken out
    of the tokens of the relayed m= lines.
   */
  datatype Kept = Line(text: string) | RelayedLine(before: string, count: string, after: seq<string>)

  function KeptOf(line: string, index: nat, ports: map<nat, nat>): seq<Kept> {
    if Relayed(line, index, ports) then
      var ts := Tokens(line);
      [RelayedLine(ts[0], CountSuffix(ts[1]), ts[2..])]
    else if !IsMedia(line) && IsIp4(line) then []
    else [Line(line)]
  }

  function KeptFrom(lines: seq<string>, next: nat, ports: map<nat, nat>): seq<Kept> {
    if lines == [] then []
    else KeptOf(lines[0], next, ports) + KeptFrom(lines[1..], IndexAfter(lines[0], next), ports)
  }

  lemma KeptAdd(line: string, rest: seq<string>, next: nat, ports: map<nat, nat>)
    ensures KeptFrom([line] + rest, next, ports)
         == KeptOf(line, next, ports) + KeptFrom(rest, IndexAfter(line, next), ports)
  {
    assert ([line] + rest)[1..] == rest;
  }

  lemma KeptMoved(line: string, next: nat, ports: map<nat, nat>)
    requires ValidPorts(ports) && Relayed(line, next, ports) && Regular(line)
    ensures KeptOf(RewritePort(line, ports[next]), next, ports) == KeptOf(line, next, ports)
  {
    var out, port := RewritePort(line, ports[next]), ports[next];
    RewrittenLine(line, port);
    RegularRelocates(line, port);
    var ts := Tokens(line);
    FieldParts(ts[1]);
    DecIsWord(port);
    SuffixOf(Dec(port), CountSuffix(ts[1]));
    assert Tokens(out)[2..] == ts[2..];
  }

  lemma KeptFirst(plan: Plan, line: string, next: nat, first: string, added: bool)
    requires ValidPorts(plan.ports) && (Relayed(line, next, plan.ports) ==> Regular(line))
    requires Became(plan, line, next, first, added)
    ensures KeptOf(first, next, plan.ports) == KeptOf(line, next, plan.ports)
  {
    if Relayed(line, next, plan.ports) {
      assert first == RewritePort(line, plan.ports[next]);
      KeptMoved(line, next, plan.ports);
    } else if first != line {
      IpLineIs(plan.ip);
    }
  }

  lemma KeptPair(first: string, ip: string, rest: seq<string>, next: nat, ports: map<nat, nat>)
    ensures KeptFrom([first, IpLine(ip)] + rest, next, ports)
         == KeptOf(first, next, ports) + KeptFrom(rest, IndexAfter(first, next), ports)
  {
    IpLineIs(ip);
    assert [first, IpLine(ip)] + rest == [first] + ([IpLine(ip)] + rest);
    KeptAdd(first, [IpLine(ip)] + rest, next, ports);
    KeptAdd(IpLine(ip), rest, IndexAfter(first, next), ports);
  }

  lemma KeptPiece(plan: Plan, line: string, next: nat, rest: seq<string>)
    requires ValidPorts(plan.ports) && (Relayed(line, next, plan.ports) ==> Regular(line))
    ensures KeptFrom(RewriteLine(plan, line, next) + rest, next, plan.ports)
         == KeptOf(line, next, plan.ports) + KeptFrom(rest, IndexAfter(line, next), plan.ports)
  {
    var first, added := PieceOf(plan, line, next);
    KeptFirst(plan, line, next, first, added);
    if added {
      KeptPair(first, plan.ip, rest, next, plan.ports);
    } else {
      KeptAdd(first, rest, next, plan.ports);
    }
  }

  lemma {:induction false} LinesKept(plan: Plan, lines: seq<string>, next: nat)
    requires ValidPorts(plan.ports) && RegularFrom(lines, next, plan.ports)
    ensures KeptFrom(RewriteFrom(plan, lines, next), next, plan.ports) == KeptFrom(lines, next, plan.ports)
  {
    if lines != [] {
      var after := IndexAfter(lines[0], next);
      LinesKept(plan, lines[1..], after);
      KeptPiece(plan, lines[0], next, RewriteFrom(plan, lines[1..], after));
    }
  }

  // ----- Rewriting again ------------------------------------------------------------------

  lemma UnsupportedAdd(line: string, rest: seq<string>)
    ensures HasUnsupported([line] + rest) == ((IsMedia(line) && !IsSupported(line)) || HasUnsupported(rest))
  {
    assert ([line] + rest)[1..] == rest;
  }

  lemma UnsupportedPair(first: string, ip: string, rest: seq<string>)
    ensures HasUnsupported([first, IpLine(ip)] + rest) == HasUnsupported([first] + rest)
  {
    IpLineIs(ip);
    assert [first, IpLine(ip)] + rest == [first] + ([IpLine(ip)] + rest);
    UnsupportedAdd(first, rest);
    UnsupportedAdd(first, [IpLine(ip)] + rest);
    UnsupportedAdd(IpLine(ip), rest);
  }

  lemma UnsupportedPiece(plan: Plan, line: string, next: nat, rest: seq<string>)
    requires ValidPorts(plan.ports) && (Relayed(line, next, plan.ports) ==> Regular(line))
    ensures HasUnsupported(RewriteLine(plan, line, next) + rest)
         == ((IsMedia(line) && !IsSupported(line)) || HasUnsupported(rest))
  {
    var first, added := PieceOf(plan, line, next);
    UnsupportedPair(first, plan.ip, rest);
    UnsupportedAdd(first, rest);
  }

  lemma {:induction false} UnsupportedKept(plan: Plan, lines: seq<string>, next: nat)
    requires ValidPorts(plan.ports) && RegularFrom(lines, next, plan.ports)
    ensures HasUnsupported(RewriteFrom(plan, lines, next)) == HasUnsupported(lines)
  {
    if lines != [] {
      var after := IndexAfter(lines[0], next);
      UnsupportedKept(plan, lines[1..], after);
      UnsupportedPiece(plan, lines[0], next, RewriteFrom(plan, lines[1..], after));
    }
  }

  function ConnOf(line: string, next: nat): set<nat> {
    if !IsMedia(line) && IsIp4(line) && next > 0 then {next - 1} else {}
  }

  lemma ConnAdd(line: string, rest: seq<string>, next: nat)
    ensures ConnSections([line] + rest, next) == ConnOf(line, next) + ConnSections(rest, IndexAfter(line, next))
  {
    assert ([line] + rest)[1..] == rest;
  }

  lemma ConnPair(first: string, ip: string, rest: seq<string>, next: nat)
    requires IsMedia(first)
    ensures ConnSections([first, IpLine(ip)] + rest, next) == {next} + ConnSections([first] + rest, next)
  {
    IpLineIs(ip);
    assert [first, IpLine(ip)] + rest == [first] + ([IpLine(ip)] + rest);
    ConnAdd(first, rest, next);
    ConnAdd(first, [IpLine(ip)] + rest, next);
    ConnAdd(IpLine(ip), rest, next + 1);
  }

  lemma ConnFirst(plan: Plan, line: string, next: nat, first: string, added: bool)
    requires Became(plan, line, next, first, added)
    ensures ConnOf(first, next) == ConnOf(line, next) && (added ==> IsMedia(first))
  {
    IpLineIs(plan.ip);
  }

  lemma ConnPiece(plan: Plan, line: string, next: nat, rest: seq<string>)
    requires ValidPorts(plan.ports) && (Relayed(line, next, plan.ports) ==> Regular(line))
    ensures ConnSections(RewriteLine(plan, line, next) + rest, next)
         == ConnOf(line, next) + ConnSections(rest, IndexAfter(line, next))
            + (if Relayed(line, next, plan.ports) && plan.unsupported && next !in plan.withConn then {next} else {})
  {
    var first, added := PieceOf(plan, line, next);
    ConnFirst(plan, line, next, first, added);
    ConnAdd(first, rest, next);
    if added {
      ConnPair(first, plan.ip, rest, next);
    }
  }

  /** No section loses its connection line. */
  lemma {:induction false} ConnKept(plan: Plan, lines: seq<string>, next: nat)
    requires ValidPorts(plan.ports) && RegularFrom(lines, next, plan.ports)
    ensures ConnSections(lines, next) <= ConnSections(RewriteFrom(plan, lines, next), next)
  {
    if lines != [] {
      var after := IndexAfter(lines[0], next);
      ConnKept(plan, lines[1..], after);
      ConnPiece(plan, lines[0], next, RewriteFrom(plan, lines[1..], after));
    }
  }

  /** The plan of a second rewriting. */
  predicate Succeeds(plan: Plan, second: Plan) {
    second.ip == plan.ip && second.ports == plan.ports && second.unsupported == plan.unsupported
    && plan.withConn <= second.withConn
  }

  lemma StableLine(plan: Plan, second: Plan, line: string, next: nat, first: string, added: bool)
    requires ValidPorts(plan.ports) && Succeeds(plan, second)
    requires Became(plan, line, next, first, added) && (added ==> next in second.withConn)
    ensures RewriteLine(second, first, next) == [first]
    ensures RewriteLine(second, IpLine(plan.ip), next + 1) == [IpLine(plan.ip)]
  {
    IpLineIs(plan.ip);
    if Relayed(line, next, plan.ports) {
      assert first == RewritePort(line, plan.ports[next]);
      RewriteTwice(line, plan.ports[next]);
      assert Relayed(first, next, plan.ports);
    }
  }

  lemma RewriteAdd(plan: Plan, line: string, rest: seq<string>, next: nat)
    ensures RewriteFrom(plan, [line] + rest, next)
         == RewriteLine(plan, line, next) + RewriteFrom(plan, rest, IndexAfter(line, next))
  {
    assert ([line] + rest)[1..] == rest;
  }

  lemma RewritePair(plan: Plan, first: string, rest: seq<string>, next: nat)
    requires IsMedia(first)
    ensures RewriteFrom(plan, [first, IpLine(plan.ip)] + rest, next)
         == RewriteLine(plan, first, next)
            + (RewriteLine(plan, IpLine(plan.ip), next + 1) + RewriteFrom(plan, rest, next + 1))
  {
    var address := IpLine(plan.ip);
    IpLineIs(plan.ip);
    assert [first, address] + rest == [first] + ([address] + rest);
    RewriteAdd(plan, first, [address] + rest, next);
    RewriteAdd(plan, address, rest, next + 1);
  }

  lemma StableStep(plan: Plan, second: Plan, line: string, next: nat, rest: seq<string>)
    requires ValidPorts(plan.ports) && (Relayed(line, next, plan.ports) ==> Regular(line)) && Succeeds(plan, second)
    requires Relayed(line, next, plan.ports) && plan.unsupported && next !in plan.withConn ==> next in second.withConn
    requires RewriteFrom(second, rest, IndexAfter(line, next)) == rest
    ensures RewriteFrom(second, RewriteLine(plan, line, next) + rest, next) == RewriteLine(plan, line, next) + rest
  {
    var first, added := PieceOf(plan, line, next);
    StableLine(plan, second, line, next, first, added);
    if added {
      RewritePair(second, first, rest, next);
      Pair(first, IpLine(plan.ip), rest);
    } else {
      RewriteAdd(second, first, rest, next);
    }
  }

  lemma {:induction false} RewriteStable(plan: Plan, second: Plan, lines: seq<string>, next: nat)
    requires ValidPorts(plan.ports) && RegularFrom(lines, next, plan.ports) && Succeeds(plan, second)
    requires ConnSections(RewriteFrom(plan, lines, next), next) <= second.withConn
    ensures RewriteFrom(second, RewriteFrom(plan, lines, next), next) == RewriteFrom(plan, lines, next)
  {
    if lines != [] {
      var after := IndexAfter(lines[0], next);
      var rest := RewriteFrom(plan, lines[1..], after);
      ConnPiece(plan, lines[0], next, rest);
      RewriteStable(plan, second, lines[1..], after);
      StableStep(plan, second, lines[0], next, rest);
    }
  }

  /** Rewriting twice is rewriting once, line for line. */
  lemma RewriteIdempotent(lines: seq<string>, ip: string, ports: map<nat, nat>)
    requires ValidPorts(ports) && RegularFrom(lines, 0, ports)
    ensures RewriteLines(RewriteLines(lines, ip, ports), ip, ports) == RewriteLines(lines, ip, ports)
  {
    var plan := PlanFor(lines, ip, ports);
    var out := RewriteFrom(plan, lines, 0);
    UnsupportedKept(plan, lines, 0);
    ConnKept(plan, lines, 0);
    RewriteStable(plan, PlanFor(out, ip, ports), lines, 0);
  }

  // ----- The texts ---------------------------------------------------------------------------

  function RewriteText(sdp: string, ip: string, ports: map<nat, nat>): string {
    JoinCrlf(RewriteLines(Lines(sdp), ip, ports))
  }

  lemma {:induction false} RewrittenOneLine(plan: Plan, lines: seq<string>, next: nat)
    requires OneLine(plan.ip) && AllOneLine(lines)
    ensures AllOneLine(RewriteFrom(plan, lines, next))
  {
    if lines != [] {
      RewrittenOneLine(plan, lines[1..], IndexAfter(lines[0], next));
      if Relayed(lines[0], next, plan.ports) {
        RewriteOneLine(lines[0], plan.ports[next]);
      }
      assert OneLine(IpLine(plan.ip));
    }
  }

  /** The lines of the rewritten text: the rewritten lines, but for an empty last one. */
  lemma RewrittenLines(sdp: string, ip: string, ports: map<nat, nat>)
    requires OneLine(ip)
    ensures Lines(RewriteText(sdp, ip, ports)) == DropBlankEnd(RewriteLines(Lines(sdp), ip, ports))
  {
    LinesAreOneLine(sdp);
    RewrittenOneLine(PlanFor(Lines(sdp), ip, ports), Lines(sdp), 0);
    LinesJoin(RewriteLines(Lines(sdp), ip, ports));
  }

  lemma {:induction false} SectionsDrop(lines: seq<string>, next: nat)
    ensures Sections(DropBlankEnd(lines), next) == Sections(lines, next)
  {
    if |lines| == 1 {
      assert TrimStart("") == "";
    } else if |lines| > 1 {
      SectionsDrop(lines[1..], IndexAfter(lines[0], next));
      assert DropBlankEnd(lines)[1..] == DropBlankEnd(lines[1..]);
    }
  }

  /**
    Reading the sections of a rewritten description gives the sections of the
    original, in order, with only the ports of the active relayed ones replaced.
   */
  lemma RewrittenSections(sdp: string, ip: string, ports: map<nat, nat>)
    requires OneLine(ip) && ValidPorts(ports) && RegularFrom(Lines(sdp), 0, ports)
    ensures Sections(Lines(RewriteText(sdp, ip, ports)), 0) == MoveAll(Sections(Lines(sdp), 0), ports)
  {
    var lines := Lines(sdp);
    RewrittenLines(sdp, ip, ports);
    SectionsDrop(RewriteLines(lines, ip, ports), 0);
    SectionsMoved(PlanFor(lines, ip, ports), lines, 0);
  }

  lemma {:induction false} RewriteBlank(plan: Plan, lines: seq<string>, next: nat)
    ensures RewriteFrom(plan, lines + [""], next) == RewriteFrom(plan, lines, next) + [""]
  {
    var all := lines + [""];
    if lines == [] {
      assert TrimStart("") == "";
      assert all == [""];
    } else {
      assert all[1..] == lines[1..] + [""];
      RewriteBlank(plan, lines[1..], IndexAfter(lines[0], next));
    }
  }

  lemma {:induction false} PlanBlank(lines: seq<string>, next: nat)
    ensures HasUnsupported(lines + [""]) == HasUnsupported(lines)
    ensures ConnSections(lines + [""], next) == ConnSections(lines, next)
  {
    var all := lines + [""];
    if lines == [] {
      assert TrimStart("") == "";
      assert all == [""];
    } else {
      assert all[1..] == lines[1..] + [""];
      PlanBlank(lines[1..], IndexAfter(lines[0], next));
    }
  }

  lemma RewriteLinesBlank(lines: seq<string>, ip: string, ports: map<nat, nat>)
    ensures RewriteLines(lines + [""], ip, ports) == RewriteLines(lines, ip, ports) + [""]
  {
    PlanBlank(lines, 0);
    RewriteBlank(PlanFor(lines, ip, ports), lines, 0);
  }

  lemma {:induction false} LastNotBlank(plan: Plan, lines: seq<string>, next: nat)
    requires lines != [] && !EndsBlank(lines)
    ensures var out := RewriteFrom(plan, lines, next); out != [] && !EndsBlank(out)
  {
    if |lines| > 1 {
      LastNotBlank(plan, lines[1..], IndexAfter(lines[0], next));
    } else {
      assert IpLine(plan.ip) != "";
      assert RewriteFrom(plan, lines, next) == RewriteLine(plan, lines[0], next);
    }
  }

  lemma DropStable(out: seq<string>, ip: string, ports: map<nat, nat>)
    requires RewriteLines(out, ip, ports) == out
    ensures RewriteLines(DropBlankEnd(out), ip, ports) == DropBlankEnd(out)
  {
    if EndsBlank(out) {
      var front := DropBlankEnd(out);
      assert out == front + [""];
      RewriteLinesBlank(front, ip, ports);
      assert (RewriteLines(front, ip, ports) + [""])[..|front|] == front;
    }
  }

  lemma BlankEndKept(lines: seq<string>, ip: string, ports: map<nat, nat>)
    ensures var out := RewriteLines(lines, ip, ports);
            |out| >= 2 && EndsBlank(out) <==> |lines| >= 2 && EndsBlank(lines)
  {
    var plan := PlanFor(lines, ip, ports);
    if !EndsBlank(lines) {
      if lines != [] {
        LastNotBlank(plan, lines, 0);
      }
    } else {
      var front := lines[..|lines| - 1];
      assert lines == front + [""];
      RewriteBlank(plan, front, 0);
    }
  }

  /**
    As texts, rewriting twice is rewriting once exactly when the description
    does not end in a blank line after other lines: each rewriting drops one.
   */
  lemma RewriteTextTwice(sdp: string, ip: string, ports: map<nat, nat>)
    requires OneLine(ip) && ValidPorts(ports) && RegularFrom(Lines(sdp), 0, ports)
    ensures RewriteText(RewriteText(sdp, ip, ports), ip, ports) == RewriteText(sdp, ip, ports)
       <==> !(|Lines(sdp)| >= 2 && EndsBlank(Lines(sdp)))
  {
    var lines := Lines(sdp);
    var out := RewriteLines(lines, ip, ports);
    RewrittenLines(sdp, ip, ports);
    RewriteIdempotent(lines, ip, ports);
    DropStable(out, ip, ports);
    BlankEndKept(lines, ip, ports);
    JoinDrops(out);
  }

  /** A description that ends in a blank line is not the same after a second rewriting. */
  lemma BlankEndDropped(ip: string)
    requires OneLine(ip)
    ensures RewriteText(RewriteText("v=0\r\n\r\n", ip, map[]), ip, map[]) != RewriteText("v=0\r\n\r\n", ip, map[])
  {
    var sdp := "v=0" + "\r\n" + ("" + "\r\n" + "");
    assert sdp == "v=0\r\n\r\n";
    LinesCons("", "");
    LinesCons("v=0", "" + "\r\n" + "");
    assert Lines(sdp) == ["v=0", ""];
    assert ["v=0", ""][1..] == [""] && [""][1..] == [];
    assert RegularFrom(Lines(sdp), 0, map[]);
    RewriteTextTwice(sdp, ip, map[]);
  }
}
