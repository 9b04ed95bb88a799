/**
  The INVITE the proxy forwards: what is printed, for any iteration order of the
  header map, and what its receiver reads back.
 */
module Forwarding {
  import opened Options
  import opened Text
  import opened SipMessages

  /** Upper-case the first letter of each hyphen-separated word. */
  function CapitalizeWords(s: string, first: bool): string {
    if s == "" then ""
    else [if first then UpperChar(s[0]) else s[0]] + CapitalizeWords(s[1..], s[0] == '-')
  }

  function CapitalizeHeader(name: string): string {
    if name == "call-id" then "Call-ID"
    else if name == "cseq" then "CSeq"
    else if name == "www-authenticate" then "WWW-Authenticate"
    else if name == "content-type" then "Content-Type"
    else if name == "content-length" then "Content-Length"
    else if name == "user-agent" then "User-Agent"
    else CapitalizeWords(name, true)
  }

  /** The headers the proxy writes itself, and the others. */
  datatype Role = Via | MaxForwards | RecordRoute | ContentLength | Other

  function RoleOf(key: string): Role {
    if key == "via" then Via
    else if key == "max-forwards" then MaxForwards
    else if key == "content-length" then ContentLength
    else if key == "record-route" then RecordRoute
    else Other
  }

  predicate Rewritten(key: string) {
    RoleOf(key) != Other
  }

  function ProxyVia(domain: string, branch: string): string {
    "SIP/2.0/UDP " + domain + ";branch=" + branch + ";rport"
  }

  function RouteTo(domain: string): string {
    "<sip:" + domain + ";lr>"
  }

  function Pairs(name: string, vals: seq<string>): seq<Header> {
    seq(|vals|, i requires 0 <= i < |vals| => (name, vals[i]))
  }

  function KeptPairs(headers: Headers, key: string): seq<Header> {
    if Rewritten(key) then [] else Pairs(CapitalizeHeader(key), Get(headers, key))
  }

  function KeptHeaders(headers: Headers, order: seq<string>): seq<Header> {
    if order == [] then []
    else KeptHeaders(headers, order[..|order| - 1]) + KeptPairs(headers, order[|order| - 1])
  }

  function OwnHeaders(vias: seq<string>, maxForwards: nat, domain: string, branch: string): seq<Header> {
    [("Via", ProxyVia(domain, branch))] + Pairs("Via", vias)
    + [("Max-Forwards", Dec(maxForwards)), ("Record-Route", RouteTo(domain))]
  }

  function ForwardedHeaders(headers: Headers, order: seq<string>, maxForwards: nat,
                            domain: string, branch: string, body: string): seq<Header>
  {
    OwnHeaders(Get(headers, "via"), maxForwards, domain, branch) + KeptHeaders(headers, order)
    + [("Content-Length", Dec(Utf8Size(body)))]
  }

  function StartLine(target: string): string {
    "INVITE" + [' '] + (target + " SIP/2.0")
  }

  ghost predicate Distinct(order: seq<string>) {
    forall i, j :: 0 <= i < j < |order| ==> order[i] != order[j]
  }

  /** `order` is an order in which a map with these keys can be walked. */
  ghost predicate IsOrder(order: seq<string>, headers: Headers) {
    && (forall key :: key in order <==> key in headers)
    && Distinct(order)
  }

  // ----- Building the text ---------------------------------------------------------------

  function Head(start: string, hs: seq<Header>): string {
    start + "\r\n" + PrintHeaders(hs)
  }

  method PushHeader(out: string, ghost start: string, ghost hs: seq<Header>, name: string, value: string)
    returns (more: string)
    requires out == Head(start, hs)
    ensures more == Head(start, hs + [(name, value)])
  {
    more := out + (name + ": " + value + "\r\n");
    PrintSnoc(hs, (name, value));
    Assoc(start + "\r\n", PrintHeaders(hs), HeaderLine((name, value)) + "\r\n");
  }

  method PushPairs(out: string, ghost start: string, ghost hs: seq<Header>, name: string, vals: seq<string>)
    returns (more: string)
    requires out == Head(start, hs)
    ensures more == Head(start, hs + Pairs(name, vals))
  {
    more := out;
    assert hs + Pairs(name, vals[..0]) == hs;
    for i := 0 to |vals|
      invariant more == Head(start, hs + Pairs(name, vals[..i]))
    {
      more := PushHeader(more, start, hs + Pairs(name, vals[..i]), name, vals[i]);
      assert hs + Pairs(name, vals[..i]) + [(name, vals[i])] == hs + Pairs(name, vals[..i + 1]);
    }
    assert vals[..|vals|] == vals;
  }

  method PushOwn(target: string, vias: seq<string>, maxForwards: nat, domain: string, branch: string)
    returns (out: string)
    ensures out == Head(StartLine(target), OwnHeaders(vias, maxForwards, domain, branch))
  {
    ghost var start := StartLine(target);
    out := "INVITE " + target + " SIP/2.0\r\n";
    assert out == Head(start, []) by {
      assert Head(start, []) == start + "\r\n" + "";
    }
    out := PushHeader(out, start, [], "Via", ProxyVia(domain, branch));
    ghost var hs := [("Via", ProxyVia(domain, branch))];
    assert [] + hs == hs;
    out := PushPairs(out, start, hs, "Via", vias);
    hs := hs + Pairs("Via", vias);
    out := PushHeader(out, start, hs, "Max-Forwards", Dec(maxForwards));
    out := PushHeader(out, start, hs + [("Max-Forwards", Dec(maxForwards))], "Record-Route", RouteTo(domain));
    assert hs + [("Max-Forwards", Dec(maxForwards))] + [("Record-Route", RouteTo(domain))]
        == OwnHeaders(vias, maxForwards, domain, branch);
  }

  method BuildForwardedInvite(msg: SipMessage, order: seq<string>, target: string, maxForwards: nat,
                              domain: string, branch: string, rewrittenBody: Option<string>)
    returns (text: string)
    requires IsOrder(order, msg.headers)
    ensures var body := if rewrittenBody == None then msg.body else rewrittenBody.value;
            text == PrintMessage(StartLine(target),
                                 ForwardedHeaders(msg.headers, order, maxForwards, domain, branch, body), body)
  {
    ghost var start := StartLine(target);
    ghost var hs := OwnHeaders(Get(msg.headers, "via"), maxForwards, domain, branch);
    var out := PushOwn(target, Get(msg.headers, "via"), maxForwards, domain, branch);
    var body := if rewrittenBody == None then msg.body else rewrittenBody.value;
    out := PushKept(out, start, hs, msg.headers, order);
    hs := hs + KeptHeaders(msg.headers, order);
    out := PushHeader(out, start, hs, "Content-Length", Dec(Utf8Size(body)));
    hs := hs + [("Content-Length", Dec(Utf8Size(body)))];
    text := out + "\r\n" + body;
    Assoc(start + "\r\n", PrintHeaders(hs), "\r\n" + body);
    Assoc(out, "\r\n", body);
  }

  method PushKept(out: string, ghost start: string, ghost own: seq<Header>, headers: Headers, order: seq<string>)
    returns (more: string)
    requires out == Head(start, own)
    ensures more == Head(start, own + KeptHeaders(headers, order))
  {
    more := out;
    assert own + KeptHeaders(headers, order[..0]) == own;
    for i := 0 to |order|
      invariant more == Head(start, own + KeptHeaders(headers, order[..i]))
    {
      var key := order[i];
      ghost var before := KeptHeaders(headers, order[..i]);
      assert order[..i + 1][..i] == order[..i];
      if Rewritten(key) {
        assert before + [] == before;
        continue;
      }
      more := PushPairs(more, start, own + before, CapitalizeHeader(key), Get(headers, key));
      Assoc(own, before, KeptPairs(headers, key));
    }
    assert order[..|order|] == order;
  }

  // ----- Reading it back --------------------------------------------------------------------

  function TrimAll(vals: seq<string>): seq<string> {
    seq(|vals|, i requires 0 <= i < |vals| => Trim(vals[i]))
  }

  /** `name` is `s`, some of its letters in upper case. */
  predicate CasedAs(name: string, s: string) {
    |name| == |s| && forall i :: 0 <= i < |s| ==> name[i] == s[i] || name[i] == UpperChar(s[i])
  }

  lemma {:induction false} CapitalizedIsCased(s: string, first: bool)
    ensures CasedAs(CapitalizeWords(s, first), s)
  {
    if s != "" {
      CapitalizedIsCased(s[1..], s[0] == '-');
    }
  }

  lemma CasedLower(name: string, s: string)
    requires CasedAs(name, s) && IsLower(s)
    ensures Lower(name) == s
  {
  }

  lemma WordsNormalized(key: string)
    requires Normal(key)
    ensures CleanName(CapitalizeWords(key, true)) && NormalizeName(CapitalizeWords(key, true)) == key
  {
    var name := CapitalizeWords(key, true);
    CapitalizedIsCased(key, true);
    CasedLower(name, key);
    assert Trimmed(name);
    TrimNothing(name);
  }

  predicate Spells(name: string, key: string) {
    Trimmed(name) && Lower(name) == key && ':' !in name && '\n' !in name
  }

  lemma SpelledName(name: string, key: string)
    requires Normal(key) && Spells(name, key)
    ensures CleanName(name) && NormalizeName(name) == key
  {
    TrimNothing(name);
  }

  lemma SpellCallId()
    ensures Spells("Call-ID", "call-id")
  {
    assert Lower("Call-ID") == "call-id";
  }

  lemma SpellCSeq()
    ensures Spells("CSeq", "cseq")
  {
    assert Lower("CSeq") == "cseq";
  }

  lemma SpellContentType()
    ensures Spells("Content-Type", "content-type")
  {
    assert Lower("Content-Type") == "content-type";
  }

  lemma SpellUserAgent()
    ensures Spells("User-Agent", "user-agent")
  {
    assert Lower("User-Agent") == "user-agent";
  }

  lemma SpellContentLength()
    ensures Spells("Content-Length", "content-length") && PlainName("content-length")
  {
    assert Lower("Content-Length") == "content-length";
  }

  lemma SpellAuthenticate()
    ensures Spells("WWW-Authenticate", "www-authenticate")
  {
    assert Lower("WWW-Authenticate") == "www-authenticate";
  }

  lemma SpellVia()
    ensures Spells("Via", "via") && PlainName("via")
  {
    assert Lower("Via") == "via";
  }

  lemma SpellMaxForwards()
    ensures Spells("Max-Forwards", "max-forwards") && PlainName("max-forwards")
  {
    assert Lower("Max-Forwards") == "max-forwards";
  }

  lemma SpellRecordRoute()
    ensures Spells("Record-Route", "record-route") && PlainName("record-route")
  {
    assert Lower("Record-Route") == "record-route";
  }

  lemma SpellSpecial(key: string)
    requires CapitalizeHeader(key) != CapitalizeWords(key, true)
    ensures Spells(CapitalizeHeader(key), key)
  {
    if key == "call-id" {
      SpellCallId();
    } else if key == "cseq" {
      SpellCSeq();
    } else if key == "www-authenticate" {
      SpellAuthenticate();
    } else if key == "content-type" {
      SpellContentType();
    } else if key == "content-length" {
      SpellContentLength();
    } else {
      SpellUserAgent();
    }
  }

  /** Printing a header name and reading it back gives the name it is stored under. */
  lemma NameReadBack(key: string)
    requires Normal(key)
    ensures CleanName(CapitalizeHeader(key)) && NormalizeName(CapitalizeHeader(key)) == key
  {
    var name := CapitalizeHeader(key);
    if name == CapitalizeWords(key, true) {
      WordsNormalized(key);
    } else {
      SpellSpecial(key);
      SpelledName(name, key);
    }
  }

  lemma {:induction false} ValuesConcat(a: seq<Header>, b: seq<Header>, key: string)
    ensures Values(a + b, key) == Values(a, key) + Values(b, key)
  {
    var all := a + b;
    if a == [] {
      assert all == b;
    } else {
      assert all[0] == a[0] && all[1..] == a[1..] + b;
      ValuesConcat(a[1..], b, key);
      Assoc(ValueOf(a[0], key), Values(a[1..], key), Values(b, key));
    }
  }

  lemma {:induction false} CleanConcat(a: seq<Header>, b: seq<Header>)
    requires CleanHeaders(a) && CleanHeaders(b)
    ensures CleanHeaders(a + b)
  {
    var all := a + b;
    if a == [] {
      assert all == b;
    } else {
      assert all[0] == a[0] && all[1..] == a[1..] + b;
      CleanConcat(a[1..], b);
    }
  }

  lemma {:induction false} CleanPairs(name: string, vals: seq<string>)
    requires CleanName(name) && AllOneLine(vals)
    ensures CleanHeaders(Pairs(name, vals))
  {
    if vals != [] {
      assert OneLine(vals[0]);
      assert Pairs(name, vals)[1..] == Pairs(name, vals[1..]);
      CleanPairs(name, vals[1..]);
    }
  }

  lemma ValuesCons(h: Header, rest: seq<Header>, key: string)
    ensures Values([h] + rest, key) == ValueOf(h, key) + Values(rest, key)
  {
    assert ([h] + rest)[1..] == rest;
  }

  lemma {:induction false} PairsValues(name: string, own: string, vals: seq<string>, key: string)
    requires NormalizeName(name) == own
    ensures Values(Pairs(name, vals), key) == if own == key then TrimAll(vals) else []
  {
    if vals != [] {
      var h, rest := (name, vals[0]), Pairs(name, vals[1..]);
      assert Pairs(name, vals) == [h] + rest;
      ValuesCons(h, rest, key);
      PairsValues(name, own, vals[1..], key);
      if own == key {
        assert TrimAll(vals) == [Trim(vals[0])] + TrimAll(vals[1..]);
      }
    }
  }

  lemma PairsRead(name: string, own: string, vals: seq<string>, key: string)
    requires CleanName(name) && NormalizeName(name) == own && AllOneLine(vals)
    ensures CleanHeaders(Pairs(name, vals))
    ensures Values(Pairs(name, vals), key) == if own == key then TrimAll(vals) else []
  {
    CleanPairs(name, vals);
    PairsValues(name, own, vals, key);
  }

  function KeptValues(headers: Headers, key: string): seq<string> {
    if Rewritten(key) then [] else TrimAll(Get(headers, key))
  }

  lemma KeptPairsRead(headers: Headers, own: string, key: string)
    requires WellFormed(headers) && own in headers
    ensures CleanHeaders(KeptPairs(headers, own))
    ensures Values(KeptPairs(headers, own), key) == if own == key then KeptValues(headers, key) else []
  {
    assert Normal(own) && AllOneLine(headers[own]);
    NameReadBack(own);
    PairsRead(CapitalizeHeader(own), own, headers[own], key);
  }

  /** Whatever the order, each kept header is read back with its values, under its own name only. */
  lemma {:induction false} KeptRead(headers: Headers, order: seq<string>, key: string)
    requires WellFormed(headers) && Distinct(order) && forall i :: 0 <= i < |order| ==> order[i] in headers
    ensures CleanHeaders(KeptHeaders(headers, order))
    ensures Values(KeptHeaders(headers, order), key) == if key in order then KeptValues(headers, key) else []
  {
    if order != [] {
      var n := |order| - 1;
      var before, last := order[..n], order[n];
      KeptRead(headers, before, key);
      assert key in order <==> key in before || key == last;
      assert last !in before;
      KeptPairsRead(headers, last, key);
      CleanConcat(KeptHeaders(headers, before), KeptPairs(headers, last));
      ValuesConcat(KeptHeaders(headers, before), KeptPairs(headers, last), key);
    }
  }

  lemma OneRead(name: string, value: string, key: string)
    requires CleanName(name) && OneLine(value) && Trimmed(value)
    ensures CleanHeaders([(name, value)])
    ensures Values([(name, value)], key) == if NormalizeName(name) == key then [value] else []
  {
    TrimNothing(value);
    assert [(name, value)][1..] == [];
    assert Values([], key) == [];
  }

  lemma OwnValuesAre(domain: string, branch: string, n: nat)
    requires OneLine(domain) && OneLine(branch)
    ensures OneLine(ProxyVia(domain, branch)) && Trimmed(ProxyVia(domain, branch))
    ensures OneLine(RouteTo(domain)) && Trimmed(RouteTo(domain))
    ensures OneLine(Dec(n)) && Trimmed(Dec(n))
  {
    var via, route := ProxyVia(domain, branch), RouteTo(domain);
    assert via[0] == 'S' && via[|via| - 1] == 't';
    assert route[0] == '<' && route[|route| - 1] == '>';
    DecIsWord(n);
  }

  lemma RolesDiffer(key: string)
    ensures RoleOf(key) == Via <==> key == "via"
    ensures RoleOf(key) == MaxForwards <==> key == "max-forwards"
    ensures RoleOf(key) == RecordRoute <==> key == "record-route"
    ensures RoleOf(key) == ContentLength <==> key == "content-length"
  {
    assert "max-forwards"[0] == 'm' && "record-route"[0] == 'r' && "content-length"[0] == 'c';
  }

  function OwnRead(vias: seq<string>, maxForwards: nat, domain: string, branch: string, role: Role): seq<string> {
    match role
    case Via => [ProxyVia(domain, branch)] + TrimAll(vias)
    case MaxForwards => [Dec(maxForwards)]
    case RecordRoute => [RouteTo(domain)]
    case _ => []
  }

  lemma ViasRead(proxy: string, vias: seq<string>, key: string)
    requires OneLine(proxy) && Trimmed(proxy) && AllOneLine(vias)
    ensures var hs := [("Via", proxy)] + Pairs("Via", vias);
            CleanHeaders(hs) && Values(hs, key) == if "via" == key then [proxy] + TrimAll(vias) else []
  {
    OwnNamesRead();
    OneRead("Via", proxy, key);
    PairsRead("Via", "via", vias, key);
    CleanConcat([("Via", proxy)], Pairs("Via", vias));
    ValuesConcat([("Via", proxy)], Pairs("Via", vias), key);
  }

  function Only(own: string, value: string, key: string): seq<string> {
    if own == key then [value] else []
  }

  lemma LimitsRead(max: string, route: string, key: string)
    requires OneLine(max) && Trimmed(max) && OneLine(route) && Trimmed(route)
    ensures var hs := [("Max-Forwards", max), ("Record-Route", route)];
            CleanHeaders(hs) && Values(hs, key) == Only("max-forwards", max, key) + Only("record-route", route, key)
  {
    OwnNamesRead();
    OneRead("Max-Forwards", max, key);
    OneRead("Record-Route", route, key);
    CleanConcat([("Max-Forwards", max)], [("Record-Route", route)]);
    ValuesConcat([("Max-Forwards", max)], [("Record-Route", route)], key);
    assert [("Max-Forwards", max)] + [("Record-Route", route)] == [("Max-Forwards", max), ("Record-Route", route)];
  }

  lemma OwnHeadersRead(vias: seq<string>, maxForwards: nat, domain: string, branch: string, key: string)
    requires AllOneLine(vias) && OneLine(domain) && OneLine(branch)
    ensures CleanHeaders(OwnHeaders(vias, maxForwards, domain, branch))
    ensures Values(OwnHeaders(vias, maxForwards, domain, branch), key)
         == OwnRead(vias, maxForwards, domain, branch, RoleOf(key))
  {
    var proxy, route, max := ProxyVia(domain, branch), RouteTo(domain), Dec(maxForwards);
    var front, back := [("Via", proxy)] + Pairs("Via", vias), [("Max-Forwards", max), ("Record-Route", route)];
    OwnValuesAre(domain, branch, maxForwards);
    ViasRead(proxy, vias, key);
    LimitsRead(max, route, key);
    CleanConcat(front, back);
    ValuesConcat(front, back, key);
    RolesDiffer(key);
  }

  lemma OwnNamesRead()
    ensures CleanName("Via") && NormalizeName("Via") == "via"
    ensures CleanName("Max-Forwards") && NormalizeName("Max-Forwards") == "max-forwards"
    ensures CleanName("Record-Route") && NormalizeName("Record-Route") == "record-route"
  {
    SpellVia();
    PlainIsNormal("via");
    SpelledName("Via", "via");
    SpellMaxForwards();
    PlainIsNormal("max-forwards");
    SpelledName("Max-Forwards", "max-forwards");
    SpellRecordRoute();
    PlainIsNormal("record-route");
    SpelledName("Record-Route", "record-route");
  }

  /** What the receiver reads under each header name. */
  function Received(headers: Headers, maxForwards: nat, domain: string, branch: string, body: string, key: string)
    : seq<string>
  {
    match RoleOf(key)
    case Via => [ProxyVia(domain, branch)] + TrimAll(Get(headers, "via"))
    case MaxForwards => [Dec(maxForwards)]
    case RecordRoute => [RouteTo(domain)]
    case ContentLength => [Dec(Utf8Size(body))]
    case Other => TrimAll(Get(headers, key))
  }

  function LengthRead(size: string, role: Role): seq<string> {
    if role == ContentLength then [size] else []
  }

  lemma LengthHeaderRead(size: nat, key: string)
    ensures CleanHeaders([("Content-Length", Dec(size))])
    ensures Values([("Content-Length", Dec(size))], key) == LengthRead(Dec(size), RoleOf(key))
  {
    RolesDiffer(key);
    OwnValuesAre("", "", size);
    SpellContentLength();
    PlainIsNormal("content-length");
    SpelledName("Content-Length", "content-length");
    OneRead("Content-Length", Dec(size), key);
  }

  lemma ForwardedValues(headers: Headers, order: seq<string>, maxForwards: nat, domain: string, branch: string,
                        body: string, key: string)
    requires WellFormed(headers) && IsOrder(order, headers) && OneLine(domain) && OneLine(branch)
    ensures var hs := ForwardedHeaders(headers, order, maxForwards, domain, branch, body);
            CleanHeaders(hs) && Values(hs, key) == Received(headers, maxForwards, domain, branch, body, key)
  {
    var vias := Get(headers, "via");
    var own := OwnHeaders(vias, maxForwards, domain, branch);
    var kept, length := KeptHeaders(headers, order), [("Content-Length", Dec(Utf8Size(body)))];
    assert CleanHeaders(own) && Values(own, key) == OwnRead(vias, maxForwards, domain, branch, RoleOf(key)) by {
      assert AllOneLine(vias);
      OwnHeadersRead(vias, maxForwards, domain, branch, key);
    }
    assert CleanHeaders(kept) && Values(kept, key) == KeptValues(headers, key) by {
      KeptRead(headers, order, key);
    }
    assert CleanHeaders(length) && Values(length, key) == LengthRead(Dec(Utf8Size(body)), RoleOf(key)) by {
      LengthHeaderRead(Utf8Size(body), key);
    }
    JoinParts(own, kept, length, key);
    RoleParts(headers, maxForwards, domain, branch, body, key);
  }

  lemma RoleParts(headers: Headers, maxForwards: nat, domain: string, branch: string, body: string, key: string)
    ensures OwnRead(Get(headers, "via"), maxForwards, domain, branch, RoleOf(key)) + KeptValues(headers, key)
            + LengthRead(Dec(Utf8Size(body)), RoleOf(key))
         == Received(headers, maxForwards, domain, branch, body, key)
  {
    var own := OwnRead(Get(headers, "via"), maxForwards, domain, branch, RoleOf(key));
    var kept, length := KeptValues(headers, key), LengthRead(Dec(Utf8Size(body)), RoleOf(key));
    if RoleOf(key) == Other {
      OnlyMiddle(own, kept, length);
    } else if RoleOf(key) == ContentLength {
      OnlyMiddle(own, length, kept);
    } else {
      OnlyMiddle(kept, own, length);
    }
  }

  lemma OnlyMiddle<T>(a: seq<T>, b: seq<T>, c: seq<T>)
    requires a == [] && c == []
    ensures a + b + c == b && b + a + c == b && a + c + b == b
  {
  }

  lemma JoinParts(a: seq<Header>, b: seq<Header>, c: seq<Header>, key: string)
    requires CleanHeaders(a) && CleanHeaders(b) && CleanHeaders(c)
    ensures CleanHeaders(a + b + c)
    ensures Values(a + b + c, key) == Values(a, key) + Values(b, key) + Values(c, key)
  {
    CleanConcat(a, b);
    CleanConcat(a + b, c);
    ValuesConcat(a, b, key);
    ValuesConcat(a + b, c, key);
  }

  lemma CutStartLine(target: string)
    ensures var tail := target + " SIP/2.0";
            Cut("INVITE" + [' '] + tail, ' ') == ("INVITE", Some(tail)) && Cut(tail, ' ').0 == Cut(target, ' ').0
  {
    var tail := target + " SIP/2.0";
    CutAt("INVITE", ' ', tail);
    assert tail == target + [' '] + "SIP/2.0";
    CutLonger(target, ' ', "SIP/2.0");
  }

  lemma InvitePrefix(tail: string)
    requires OneLine(tail)
    ensures var start := "INVITE" + [' '] + tail;
            OneLine(start) && ' ' in start && !StartsWith(start, "SIP/2.0")
  {
    var start := "INVITE" + [' '] + tail;
    assert start[6] == ' ' && start[0] == 'I';
    assert "SIP/2.0"[0] == 'S' && start[..7][0] == 'I';
  }

  /** The headers read are, name by name, the received ones. */
  ghost predicate ReadsAs(read: Headers, headers: Headers, maxForwards: nat,
                          domain: string, branch: string, body: string)
  {
    forall key :: Get(read, key) == Received(headers, maxForwards, domain, branch, body, key)
  }

  lemma ForwardedHeadersRead(headers: Headers, order: seq<string>, maxForwards: nat,
                             domain: string, branch: string, body: string)
    requires WellFormed(headers) && IsOrder(order, headers) && OneLine(domain) && OneLine(branch)
    ensures var hs := ForwardedHeaders(headers, order, maxForwards, domain, branch, body);
            CleanHeaders(hs) && ReadsAs(AddHeaders(map[], hs), headers, maxForwards, domain, branch, body)
  {
    var hs := ForwardedHeaders(headers, order, maxForwards, domain, branch, body);
    ForwardedValues(headers, order, maxForwards, domain, branch, body, "via");
    forall key
      ensures Get(AddHeaders(map[], hs), key) == Received(headers, maxForwards, domain, branch, body, key)
    {
      ForwardedValues(headers, order, maxForwards, domain, branch, body, key);
      AddedValues(map[], hs, key);
    }
  }

  lemma InviteParsed(target: string, hs: seq<Header>, body: string)
    requires OneLine(target) && CleanHeaders(hs)
    ensures var result := ParseText(PrintMessage(StartLine(target), hs, body));
            && result.Parsed?
            && result.message.verb == Some("INVITE")
            && result.message.requestUri == Some(Cut(target, ' ').0)
            && result.message.headers == AddHeaders(map[], hs)
            && (result.message.body == body <==> CrlfText(body))
  {
    CutStartLine(target);
    InvitePrefix(target + " SIP/2.0");
    LinesKeep(body);
    ParsePrinted(StartLine(target), hs, body);
  }

  /**
    The receiver of a forwarded INVITE reads the proxy's Via in front of the
    original ones, the proxy's own Max-Forwards, Record-Route and
    Content-Length, and every other header with its values, for every order in
    which the header map is walked.  The body is kept exactly when its line
    breaks are CRLF and it does not end in one.
   */
  lemma ForwardedReadBack(headers: Headers, order: seq<string>, target: string, maxForwards: nat,
                          domain: string, branch: string, body: string)
    requires WellFormed(headers) && IsOrder(order, headers)
    requires OneLine(target) && OneLine(domain) && OneLine(branch)
    ensures var hs := ForwardedHeaders(headers, order, maxForwards, domain, branch, body);
            var result := ParseText(PrintMessage(StartLine(target), hs, body));
            && result.Parsed?
            && result.message.verb == Some("INVITE")
            && result.message.requestUri == Some(Cut(target, ' ').0)
            && ReadsAs(result.message.headers, headers, maxForwards, domain, branch, body)
            && (result.message.body == body <==> CrlfText(body))
  {
    ForwardedHeadersRead(headers, order, maxForwards, domain, branch, body);
    InviteParsed(target, ForwardedHeaders(headers, order, maxForwards, domain, branch, body), body);
  }

  /** A header's values come through unchanged exactly when none begins or ends in whitespace. */
  lemma ValuesUnchanged(vals: seq<string>)
    ensures TrimAll(vals) == vals <==> forall i :: 0 <= i < |vals| ==> Trimmed(vals[i])
  {
    forall i | 0 <= i < |vals| ensures Trim(vals[i]) == vals[i] <==> Trimmed(vals[i]) {
      TrimIs(vals[i]);
      if Trimmed(vals[i]) {
        TrimNothing(vals[i]);
      }
    }
    if TrimAll(vals) == vals {
      assert forall i :: 0 <= i < |vals| ==> TrimAll(vals)[i] == vals[i];
    }
  }

  /** A header whose last folded line is blank: read with a space at its end, and forwarded without. */
  lemma BlankFoldShortened()
    ensures var r := ReadLines(START, [HeaderLine(("Subject", "hello"))] + [" "]);
            Get(r.headers, NormalizeName("Subject")) == ["hello "] && TrimAll(["hello "]) == ["hello"]
  {
    assert [" "][1..] == [];
    FoldedHeaderRead(START, ("Subject", "hello"), [" "]);
    TrimNothing("hello");
    assert Trim(" ") == "";
    assert Unfolded("hello", [" "]) == "hello" + " " + "" && "hello" + " " + "" == "hello ";
    assert TrimStart("hello ") == "hello " && "hello "[..5] == "hello";
    assert TrimEnd("hello ") == TrimEnd("hello") && TrimEnd("hello") == "hello";
  }
}
