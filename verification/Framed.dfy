/** The messages the server itself builds are ones a stream reader gives back. */
module Framed {
  import opened Options
  import opened Text
  import opened SipMessages
  import opened Forwarding
  import opened Framing

  lemma {:induction false} CleanIsSendable(hs: seq<Header>)
    requires CleanHeaders(hs) && NoLengthName(hs)
    ensures OneLineHeaders(hs) && NoLength(hs)
  {
    if hs != [] {
      StoredNameNoLength(hs[0]);
      CleanIsSendable(hs[1..]);
    }
  }

  predicate NoLengthName(hs: seq<Header>) {
    hs == [] || (NormalizeName(hs[0].0) != "content-length" && NoLengthName(hs[1..]))
  }

  /** The names are exactly those under which values are read. */
  lemma {:induction false} NoValuesNoName(hs: seq<Header>)
    requires Values(hs, "content-length") == []
    ensures NoLengthName(hs)
  {
    if hs != [] {
      assert ValueOf(hs[0], "content-length") == [] && Values(hs[1..], "content-length") == [];
      NoValuesNoName(hs[1..]);
    }
  }

  lemma InviteLineIs(target: string)
    requires OneLine(target)
    ensures GoodStart(StartLine(target))
  {
    var start := StartLine(target);
    InvitePrefix(target + " SIP/2.0");
    assert start[0] == 'I' && TrimStart(start) == start;
    TrimNotEmpty(start);
    var lower := Lower(start);
    assert lower[0] == 'i' && "content-length:"[0] == 'c' && "l:"[0] == 'l';
  }

  /** The headers of a forwarded INVITE in front of its Content-Length. */
  function HeadersBeforeLength(headers: Headers, order: seq<string>, maxForwards: nat, domain: string, branch: string)
    : seq<Header>
  {
    OwnHeaders(Get(headers, "via"), maxForwards, domain, branch) + KeptHeaders(headers, order)
  }

  /**
    A forwarded INVITE is a message that the stream reader returns whole,
    wherever in a stream it stands.
   */
  lemma ForwardedIsSendable(gap: nat, headers: Headers, order: seq<string>, target: string, maxForwards: nat,
                            domain: string, branch: string, body: string)
    requires WellFormed(headers) && IsOrder(order, headers)
    requires OneLine(target) && OneLine(domain) && OneLine(branch) && Utf8Size(body) <= USIZE_MAX
    ensures var hs := HeadersBeforeLength(headers, order, maxForwards, domain, branch);
            var m := Outgoing(gap, StartLine(target), hs, body);
            && Sendable(m)
            && TextOf(m) == PrintMessage(StartLine(target),
                                         ForwardedHeaders(headers, order, maxForwards, domain, branch, body), body)
  {
    var vias := Get(headers, "via");
    var own, kept := OwnHeaders(vias, maxForwards, domain, branch), KeptHeaders(headers, order);
    assert AllOneLine(vias);
    OwnHeadersRead(vias, maxForwards, domain, branch, "content-length");
    KeptRead(headers, order, "content-length");
    RolesDiffer("content-length");
    CleanConcat(own, kept);
    ValuesConcat(own, kept, "content-length");
    NoValuesNoName(own + kept);
    CleanIsSendable(own + kept);
    InviteLineIs(target);
  }

  /** A built response is one as well, if its headers are on one line each and none is a length. */
  lemma ResponseIsSendable(gap: nat, code: nat, reason: string, hs: seq<Header>, body: string)
    requires OneLine(reason) && CleanHeaders(hs) && NoLengthName(hs) && Utf8Size(body) <= USIZE_MAX
    ensures Sendable(Outgoing(gap, StatusLine(code, reason), hs, body))
  {
    StatusLineIs(code, reason);
    CleanIsSendable(hs);
  }

  lemma StatusLineCut(code: nat, reason: string)
    ensures var start := StatusLine(code, reason);
            && ' ' in start && StartsWith(start, "SIP/2.0")
            && Cut(start, ' ').1.Some? && Cut(Cut(start, ' ').1.value, ' ').0 == Dec(code)
  {
    var start, tail := StatusLine(code, reason), Dec(code) + [' '] + reason;
    assert start == "SIP/2.0" + [' '] + tail;
    CutAt("SIP/2.0", ' ', tail);
    DecIsWord(code);
    CutAt(Dec(code), ' ', reason);
    assert start[..7] == "SIP/2.0" && start[7] == ' ';
  }

  /** A built response is parsed as a response with its status code and all its headers, its length last. */
  lemma ResponseReadBack(code: nat, reason: string, hs: seq<Header>, body: string)
    requires code <= 65535 && OneLine(reason) && CleanHeaders(hs)
    ensures var result := ParseText(Built(StatusLine(code, reason), hs, body));
            && result.Parsed?
            && result.message.statusCode == Some(code) && result.message.verb == None
            && result.message.headers == AddHeaders(map[], hs + [LengthHeader(body)])
            && (result.message.body == body <==> CrlfText(body))
  {
    StatusLineIs(code, reason);
    StatusLineCut(code, reason);
    ParseDec(code, 65535);
    LinesKeep(body);
    LengthHeaderRead(Utf8Size(body), "via");
    CleanConcat(hs, [LengthHeader(body)]);
    ParsePrinted(StatusLine(code, reason), hs + [LengthHeader(body)], body);
  }
}
