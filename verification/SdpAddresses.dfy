/**
  Where media is sent after rewriting.  A section's connection lines are its own
  or, if it has none, those of the session (section 5.7 of RFC 4566).
 */
module SdpAddresses {
  import opened Options
  import opened Text
  import opened SdpLine
  import opened RelaySessions
  import opened SdpRewrite
  import opened SdpPreservation

  /** A connection line of any network and address type. */
  predicate IsConn(line: string) {
    StartsWith(TrimStart(line), "c=")
  }

  function ConnLineOf(line: string, next: nat, section: int): seq<string> {
    if !IsMedia(line) && IsConn(line) && next - 1 == section then [TrimStart(line)] else []
  }

  /** The connection lines of one section; section -1 is the session part. */
  function ConnsIn(lines: seq<string>, next: nat, section: int): seq<string> {
    if lines == [] then []
    else ConnLineOf(lines[0], next, section) + ConnsIn(lines[1..], IndexAfter(lines[0], next), section)
  }

  /** The connection lines in force for a section. */
  function Effective(lines: seq<string>, section: nat): seq<string> {
    var own := ConnsIn(lines, 0, section);
    if own != [] then own else ConnsIn(lines, 0, -1)
  }

  function Swap(ip: string, conn: string): string {
    if IsIp4(conn) then IpLine(ip) else conn
  }

  function SwapAll(ip: string, conns: seq<string>): seq<string> {
    seq(|conns|, i requires 0 <= i < |conns| => Swap(ip, conns[i]))
  }

  /** Section `section` starts at or after line index `next` and gets a relay port. */
  predicate RelayedAt(lines: seq<string>, next: nat, section: int, ports: map<nat, nat>) {
    lines != [] && (if IsMedia(lines[0]) && next == section then Relayed(lines[0], next, ports)
                    else RelayedAt(lines[1..], IndexAfter(lines[0], next), section, ports))
  }

  /** The section gets an address line of its own that it did not have. */
  predicate Inserted(plan: Plan, lines: seq<string>, next: nat, section: int) {
    plan.unsupported && RelayedAt(lines, next, section, plan.ports) && section !in plan.withConn
  }

  lemma {:induction false} PastSections(lines: seq<string>, next: nat, section: int, ports: map<nat, nat>)
    requires section < next
    ensures !RelayedAt(lines, next, section, ports)
  {
    if lines != [] {
      PastSections(lines[1..], IndexAfter(lines[0], next), section, ports);
    }
  }

  lemma {:induction false} TrimTwice(s: string)
    ensures TrimStart(TrimStart(s)) == TrimStart(s)
  {
    if s != "" && IsWhite(s[0]) {
      TrimTwice(s[1..]);
    }
  }

  lemma Ip4IsConn(line: string)
    requires IsIp4(line)
    ensures IsConn(line) && !IsMedia(line)
  {
    var t := TrimStart(line);
    assert "c=IN IP4 "[..2] == "c=";
    assert t[..2] == t[..9][..2];
    assert t[..2][0] == 'c' && "m="[0] == 'm';
  }

  // ----- One line --------------------------------------------------------------------

  lemma ConnsAdd(line: string, rest: seq<string>, next: nat, section: int)
    ensures ConnsIn([line] + rest, next, section)
         == ConnLineOf(line, next, section) + ConnsIn(rest, IndexAfter(line, next), section)
  {
    assert ([line] + rest)[1..] == rest;
  }

  lemma ConnFirstLine(plan: Plan, line: string, next: nat, first: string, added: bool, section: int)
    requires Became(plan, line, next, first, added)
    ensures ConnLineOf(first, next, section)
         == if Covers(plan, section) then SwapAll(plan.ip, ConnLineOf(line, next, section))
            else ConnLineOf(line, next, section)
  {
    TrimTwice(line);
    IpLineIs(plan.ip);
    Ip4IsConn(IpLine(plan.ip));
    if IsIp4(line) {
      Ip4IsConn(line);
    }
  }

  lemma ConnsPair(first: string, ip: string, rest: seq<string>, next: nat, section: int)
    requires IsMedia(first)
    ensures ConnsIn([first, IpLine(ip)] + rest, next, section)
         == (if section == next then [IpLine(ip)] else []) + ConnsIn(rest, next + 1, section)
  {
    IpLineIs(ip);
    Ip4IsConn(IpLine(ip));
    assert [first, IpLine(ip)] + rest == [first] + ([IpLine(ip)] + rest);
    ConnsAdd(first, [IpLine(ip)] + rest, next, section);
    ConnsAdd(IpLine(ip), rest, next + 1, section);
  }

  lemma ConnsPiece(plan: Plan, line: string, next: nat, rest: seq<string>, section: int)
    requires ValidPorts(plan.ports) && (Relayed(line, next, plan.ports) ==> Regular(line))
    ensures ConnsIn(RewriteLine(plan, line, next) + rest, next, section)
         == (if Relayed(line, next, plan.ports) && plan.unsupported && next !in plan.withConn && section == next
             then [IpLine(plan.ip)]
             else if Covers(plan, section) then SwapAll(plan.ip, ConnLineOf(line, next, section))
             else ConnLineOf(line, next, section))
            + ConnsIn(rest, IndexAfter(line, next), section)
  {
    var first, added := PieceOf(plan, line, next);
    if added {
      ConnsPair(first, plan.ip, rest, next, section);
    } else {
      ConnFirstLine(plan, line, next, first, added, section);
      ConnsAdd(first, rest, next, section);
    }
  }

  // ----- A whole description ------------------------------------------------------------

  lemma {:induction false} ConnsOutside(plan: Plan, lines: seq<string>, next: nat, section: int)
    requires ValidPorts(plan.ports) && RegularFrom(lines, next, plan.ports) && !Covers(plan, section)
    ensures ConnsIn(RewriteFrom(plan, lines, next), next, section) == ConnsIn(lines, next, section)
  {
    if lines != [] {
      var after := IndexAfter(lines[0], next);
      ConnsOutside(plan, lines[1..], after, section);
      ConnsPiece(plan, lines[0], next, RewriteFrom(plan, lines[1..], after), section);
    }
  }

  lemma SwapConcat(ip: string, a: seq<string>, b: seq<string>)
    ensures SwapAll(ip, a + b) == SwapAll(ip, a) + SwapAll(ip, b)
  {
  }

  function Front(ip: string, inserted: bool): seq<string> {
    if inserted then [IpLine(ip)] else []
  }

  lemma FrontMoves(ip: string, own: seq<string>, rest: seq<string>)
    ensures own + (Front(ip, false) + rest) == Front(ip, false) + (own + rest)
    ensures own == [] ==> own + (Front(ip, true) + rest) == Front(ip, true) + (own + rest)
    ensures own == [] ==> [IpLine(ip)] + (Front(ip, false) + rest) == Front(ip, true) + (own + rest)
  {
  }

  lemma InsertedStep(plan: Plan, lines: seq<string>, next: nat, section: int)
    requires lines != []
    ensures var after := IndexAfter(lines[0], next);
            var here := Relayed(lines[0], next, plan.ports) && plan.unsupported
                        && next !in plan.withConn && section == next;
            && (Inserted(plan, lines, next, section) <==> here || Inserted(plan, lines[1..], after, section))
            && !(here && Inserted(plan, lines[1..], after, section))
            && (ConnLineOf(lines[0], next, section) != [] ==> !here && !Inserted(plan, lines[1..], after, section))
  {
    if section <= next && (section < next || IsMedia(lines[0])) {
      PastSections(lines[1..], IndexAfter(lines[0], next), section, plan.ports);
    }
  }

  lemma {:induction false} ConnsCovered(plan: Plan, lines: seq<string>, next: nat, section: int)
    requires ValidPorts(plan.ports) && RegularFrom(lines, next, plan.ports) && Covers(plan, section)
    ensures ConnsIn(RewriteFrom(plan, lines, next), next, section)
         == Front(plan.ip, Inserted(plan, lines, next, section)) + SwapAll(plan.ip, ConnsIn(lines, next, section))
  {
    if lines != [] {
      var after := IndexAfter(lines[0], next);
      var own := ConnLineOf(lines[0], next, section);
      ConnsCovered(plan, lines[1..], after, section);
      ConnsPiece(plan, lines[0], next, RewriteFrom(plan, lines[1..], after), section);
      InsertedStep(plan, lines, next, section);
      SwapConcat(plan.ip, own, ConnsIn(lines[1..], after, section));
      var rest := SwapAll(plan.ip, ConnsIn(lines[1..], after, section));
      assert own == [] ==> SwapAll(plan.ip, own) == [];
      FrontMoves(plan.ip, SwapAll(plan.ip, own), rest);
    }
  }

  predicate HasIp4(conns: seq<string>) {
    exists i :: 0 <= i < |conns| && IsIp4(conns[i])
  }

  /** Every IPv4 line is the relay's. */
  predicate OnlyRelay(conns: seq<string>, ip: string) {
    forall i :: 0 <= i < |conns| && IsIp4(conns[i]) ==> conns[i] == IpLine(ip)
  }

  lemma HasIp4Concat(a: seq<string>, b: seq<string>)
    ensures HasIp4(a + b) <==> HasIp4(a) || HasIp4(b)
  {
    var all := a + b;
    if HasIp4(a) {
      var i :| 0 <= i < |a| && IsIp4(a[i]);
      assert IsIp4(all[i]);
    }
    if HasIp4(b) {
      var i :| 0 <= i < |b| && IsIp4(b[i]);
      assert IsIp4(all[|a| + i]);
    }
  }

  lemma SwapAllIs(ip: string, conns: seq<string>)
    ensures OnlyRelay(SwapAll(ip, conns), ip) && (HasIp4(SwapAll(ip, conns)) <==> HasIp4(conns))
  {
    IpLineIs(ip);
    var out := SwapAll(ip, conns);
    forall i | 0 <= i < |conns|
      ensures IsIp4(out[i]) == IsIp4(conns[i]) && (IsIp4(out[i]) ==> out[i] == IpLine(ip))
    {
    }
    if HasIp4(conns) {
      var i :| 0 <= i < |conns| && IsIp4(conns[i]);
      assert IsIp4(out[i]);
    }
  }

  lemma SwapIsRelay(ip: string, conns: seq<string>, inserted: bool)
    ensures var out := Front(ip, inserted) + SwapAll(ip, conns);
            OnlyRelay(out, ip) && (HasIp4(out) <==> inserted || HasIp4(conns))
  {
    IpLineIs(ip);
    SwapAllIs(ip, conns);
    if inserted {
      assert IsIp4(Front(ip, true)[0]);
    }
    HasIp4Concat(Front(ip, inserted), SwapAll(ip, conns));
  }

  lemma {:induction false} ConnSectionsMean(lines: seq<string>, next: nat, section: nat)
    ensures section in ConnSections(lines, next) <==> HasIp4(ConnsIn(lines, next, section))
  {
    if lines != [] {
      var own := ConnLineOf(lines[0], next, section);
      var rest := ConnsIn(lines[1..], IndexAfter(lines[0], next), section);
      ConnSectionsMean(lines[1..], IndexAfter(lines[0], next), section);
      TrimTwice(lines[0]);
      if IsIp4(lines[0]) {
        Ip4IsConn(lines[0]);
      }
      HasIp4Concat(own, rest);
      assert own != [] ==> IsIp4(own[0]) == IsIp4(lines[0]);
    }
  }

  /**
    Media of a relayed section that was sent to IPv4 addresses is sent to the
    relay: some line in force is IPv4, and all of those are the relay's.
   */
  lemma RelayedAddress(lines: seq<string>, section: nat, ip: string, ports: map<nat, nat>)
    requires ValidPorts(ports) && RegularFrom(lines, 0, ports)
    requires RelayedAt(lines, 0, section, ports) && HasIp4(Effective(lines, section))
    ensures var conns := Effective(RewriteLines(lines, ip, ports), section);
            HasIp4(conns) && OnlyRelay(conns, ip)
  {
    var plan := PlanFor(lines, ip, ports);
    RelayedInPorts(lines, 0, section, ports);
    ConnsCovered(plan, lines, 0, section);
    ConnSectionsMean(lines, 0, section);
    SwapIsRelay(ip, ConnsIn(lines, 0, section), Inserted(plan, lines, 0, section));
    if !plan.unsupported {
      ConnsCovered(plan, lines, 0, -1);
      SwapIsRelay(ip, ConnsIn(lines, 0, -1), false);
    }
  }

  lemma {:induction false} RelayedInPorts(lines: seq<string>, next: nat, section: nat, ports: map<nat, nat>)
    requires RelayedAt(lines, next, section, ports)
    ensures section in ports
  {
    if !(IsMedia(lines[0]) && next == section) {
      RelayedInPorts(lines[1..], IndexAfter(lines[0], next), section, ports);
    }
  }

  /** The active sections among those with a relay port are the relayed ones. */
  lemma {:induction false} ActiveIsRelayed(lines: seq<string>, next: nat, d: Descriptor, ports: map<nat, nat>)
    requires d in Sections(lines, next) && d.active && d.mediaIndex in ports
    ensures d.mediaIndex >= next && RelayedAt(lines, next, d.mediaIndex, ports)
  {
    if !IsMedia(lines[0]) || d !in SectionOf(lines[0], next) {
      ActiveIsRelayed(lines[1..], IndexAfter(lines[0], next), d, ports);
    }
  }

  /** With media the relay cannot carry, sections without a relay port keep their addresses. */
  lemma OtherAddressesKept(lines: seq<string>, section: nat, ip: string, ports: map<nat, nat>)
    requires ValidPorts(ports) && RegularFrom(lines, 0, ports)
    requires HasUnsupported(lines) && section !in ports
    ensures Effective(RewriteLines(lines, ip, ports), section) == Effective(lines, section)
  {
    var plan := PlanFor(lines, ip, ports);
    ConnsOutside(plan, lines, 0, section);
    ConnsOutside(plan, lines, 0, -1);
  }
}
