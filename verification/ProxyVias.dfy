/**
  Taking the proxy's own Via out of a response before it is relayed to the
  caller: the first Via line that names the proxy's domain goes, and every other
  octet stays.
 */
module ProxyVias {
  import opened Options
  import opened Text
  import opened SipMessages
  import opened Forwarding

  /** The text up to the first CRLF, and what follows it if there is one. */
  function CutCrlf(s: string): (r: (string, Option<string>))
    ensures r.1.Some? ==> |r.1.value| < |s|
  {
    if s == "" then ("", None)
    else if |s| >= 2 && s[0] == '\r' && s[1] == '\n' then ("", Some(s[2..]))
    else
      var (head, tail) := CutCrlf(s[1..]);
      ([s[0]] + head, tail)
  }

  /** split("\r\n") */
  function SplitCrlf(s: string): (ls: seq<string>)
    ensures ls != []
    decreases |s|
  {
    var (head, tail) := CutCrlf(s);
    if tail == None then [head] else [head] + SplitCrlf(tail.value)
  }

  predicate Contains(s: string, p: string) {
    StartsWith(s, p) || (s != "" && Contains(s[1..], p))
  }

  predicate IsProxyVia(line: string, domain: string) {
    var lower := Lower(TrimStart(line));
    (StartsWith(lower, "via:") || StartsWith(lower, "v:")) && Contains(line, domain)
  }

  function DropProxyVia(lines: seq<string>, domain: string): seq<string> {
    if lines == [] then []
    else if IsProxyVia(lines[0], domain) then lines[1..]
    else [lines[0]] + DropProxyVia(lines[1..], domain)
  }

  function Stripped(raw: string, domain: string): string {
    JoinCrlf(DropProxyVia(SplitCrlf(raw), domain))
  }

  /** What the loop still has to add. */
  function Pending(parts: seq<string>, removed: bool, domain: string): seq<string> {
    if removed then parts else DropProxyVia(parts, domain)
  }

  lemma PendingStep(lines: seq<string>, parts: seq<string>, i: nat, removed: bool, domain: string)
    requires i < |parts|
    ensures !removed && IsProxyVia(parts[i], domain)
        ==> Pending(parts[i..], removed, domain) == Pending(parts[i + 1..], true, domain)
    ensures removed || !IsProxyVia(parts[i], domain) ==>
              lines + Pending(parts[i..], removed, domain)
              == lines + [parts[i]] + Pending(parts[i + 1..], removed, domain)
  {
    assert parts[i..] == [parts[i]] + parts[i + 1..];
    Assoc(lines, [parts[i]], Pending(parts[i + 1..], removed, domain));
  }

  method StripProxyVia(raw: string, domain: string) returns (text: string)
    ensures text == Stripped(raw, domain)
  {
    var removed := false;
    var lines: seq<string> := [];
    var parts := SplitCrlf(raw);
    for i := 0 to |parts|
      invariant lines + Pending(parts[i..], removed, domain) == DropProxyVia(parts, domain)
    {
      PendingStep(lines, parts, i, removed, domain);
      if !removed {
        if IsProxyVia(parts[i], domain) {
          removed := true;
          continue;
        }
      }
      lines := lines + [parts[i]];
    }
    assert parts[|parts|..] == [] && lines + [] == lines;
    text := JoinCrlf(lines);
  }

  // ----- Splitting and joining ----------------------------------------------------------

  lemma {:induction false} CutCrlfAt(line: string, rest: string)
    requires OneLine(line)
    ensures CutCrlf(line + "\r\n" + rest) == (line, Some(rest))
  {
    var s := line + "\r\n" + rest;
    if line == "" {
      assert s == "\r\n" + rest;
      assert s[2..] == rest;
    } else {
      assert s[1..] == line[1..] + "\r\n" + rest;
      assert s[1] == if |line| == 1 then '\r' else line[1];
      CutCrlfAt(line[1..], rest);
      assert [s[0]] + line[1..] == line;
    }
  }

  lemma {:induction false} CutCrlfBack(s: string)
    ensures var (head, tail) := CutCrlf(s); s == if tail == None then head else head + "\r\n" + tail.value
  {
    if s != "" && !(|s| >= 2 && s[0] == '\r' && s[1] == '\n') {
      CutCrlfBack(s[1..]);
    }
  }

  lemma {:induction false} JoinSplit(s: string)
    ensures JoinCrlf(SplitCrlf(s)) == s
    decreases |s|
  {
    CutCrlfBack(s);
    var (head, tail) := CutCrlf(s);
    if tail.Some? {
      JoinSplit(tail.value);
      JoinStep(head, SplitCrlf(tail.value));
    }
  }

  lemma SplitStep(line: string, rest: string)
    requires OneLine(line)
    ensures SplitCrlf(line + "\r\n" + rest) == [line] + SplitCrlf(rest)
  {
    CutCrlfAt(line, rest);
  }

  /** A line that is not the proxy's Via stays, and the search goes on behind it. */
  lemma StripSkip(line: string, rest: string, domain: string)
    requires OneLine(line) && !IsProxyVia(line, domain)
    requires DropProxyVia(SplitCrlf(rest), domain) != []
    ensures Stripped(line + "\r\n" + rest, domain) == line + "\r\n" + Stripped(rest, domain)
  {
    SplitStep(line, rest);
    assert ([line] + SplitCrlf(rest))[1..] == SplitCrlf(rest);
    JoinStep(line, DropProxyVia(SplitCrlf(rest), domain));
  }

  /** The proxy's Via goes, and what follows it is kept as it is. */
  lemma StripHit(line: string, rest: string, domain: string)
    requires OneLine(line) && IsProxyVia(line, domain)
    ensures Stripped(line + "\r\n" + rest, domain) == rest
    ensures DropProxyVia(SplitCrlf(line + "\r\n" + rest), domain) != []
  {
    SplitStep(line, rest);
    assert ([line] + SplitCrlf(rest))[1..] == SplitCrlf(rest);
    JoinSplit(rest);
  }

  // ----- Via lines -------------------------------------------------------------------------

  lemma LowerPrefix(t: string, p: string)
    requires StartsWith(Lower(t), p)
    ensures |p| <= |t| && Lower(t[..|p|]) == p
  {
    assert Lower(t[..|p|]) == Lower(t)[..|p|];
  }

  /** Only a header stored under "via" prints as a Via line. */
  lemma OtherHeaderLine(h: Header, domain: string)
    requires CleanHeader(h) && NormalizeName(h.0) != "via"
    ensures !IsProxyVia(HeaderLine(h), domain)
  {
    var t := TrimStart(h.0);
    var tail := ": " + h.1;
    assert HeaderLine(h) == h.0 + tail;
    TrimStartOf(h.0, tail);
    var line := TrimStart(HeaderLine(h));
    TrimStartKeeps(h.0);
    if t == "" {
      assert line == tail && Lower(line)[0] == ':';
      assert !StartsWith(Lower(line), "via:") && !StartsWith(Lower(line), "v:") by {
        assert "via:"[0] == 'v' && "v:"[0] == 'v';
      }
    } else {
      assert line == t + tail && ':' !in t;
      if StartsWith(Lower(line), "via:") {
        NamePrefix(h.0, t, tail, "via");
      } else if StartsWith(Lower(line), "v:") {
        NamePrefix(h.0, t, tail, "v");
      }
    }
  }

  lemma NamePrefix(name: string, t: string, tail: string, p: string)
    requires t == TrimStart(name) && t != "" && ':' !in t && tail != "" && tail[0] == ':'
    requires p == "via" || p == "v"
    requires StartsWith(Lower(t + tail), p + ":")
    ensures NormalizeName(name) == "via"
  {
    var all := t + tail;
    LowerPrefix(all, p + ":");
    var lower := Lower(all);
    assert lower[|p|] == (p + ":")[|p|];
    assert all[|p|] == ':';
    assert all[|t|] == ':' && lower[|t|] == ':';
    assert forall i :: 0 <= i < |p| ==> (p + ":")[i] == p[i] && p[i] != ':';
    assert |t| == |p|;
    assert Lower(t) == p by {
      assert forall i :: 0 <= i < |p| ==> Lower(t)[i] == lower[i] && lower[i] == (p + ":")[i];
    }
    assert Trimmed(t) by {
      var last := |p| - 1;
      assert LowerChar(t[last]) == p[last];
    }
    TrimNothing(t);
    assert TrimEnd(t) == t;
  }

  lemma {:induction false} ContainsMiddle(a: string, p: string, b: string)
    ensures Contains(a + p + b, p)
  {
    if a == "" {
      assert (a + p + b)[..|p|] == p;
    } else {
      assert (a + p + b)[1..] == a[1..] + p + b;
      ContainsMiddle(a[1..], p, b);
    }
  }

  lemma {:induction false} ContainsLonger(a: string, s: string, p: string)
    requires Contains(s, p)
    ensures Contains(a + s, p)
  {
    if a == "" {
      assert a + s == s;
    } else {
      assert (a + s)[1..] == a[1..] + s;
      ContainsLonger(a[1..], s, p);
    }
  }

  lemma ViaLineIs(value: string, domain: string)
    requires Contains(value, domain)
    ensures IsProxyVia(HeaderLine(("Via", value)), domain)
  {
    var line := HeaderLine(("Via", value));
    assert line == "Via: " + value;
    ContainsLonger("Via: ", value, domain);
    assert line[0] == 'V' && line[1] == 'i' && line[2] == 'a' && line[3] == ':';
    assert TrimStart(line) == line;
    assert Lower(line)[..4] == "via:";
  }

  // ----- Responses -----------------------------------------------------------------------------

  predicate NoVia(hs: seq<Header>) {
    hs == [] || (NormalizeName(hs[0].0) != "via" && NoVia(hs[1..]))
  }

  lemma {:induction false} StripHeaders(pre: seq<Header>, value: string, tail: string, domain: string)
    requires CleanHeaders(pre) && NoVia(pre) && OneLine(value) && Contains(value, domain)
    ensures var via := HeaderLine(("Via", value)) + "\r\n" + tail;
            && Stripped(PrintHeaders(pre) + via, domain) == PrintHeaders(pre) + tail
            && DropProxyVia(SplitCrlf(PrintHeaders(pre) + via), domain) != []
  {
    var line := HeaderLine(("Via", value));
    var via := line + "\r\n" + tail;
    if pre == [] {
      assert "" + via == via && "" + tail == tail;
      ViaLineIs(value, domain);
      StripHit(line, tail, domain);
    } else {
      var first, rest := HeaderLine(pre[0]), PrintHeaders(pre[1..]);
      StripHeaders(pre[1..], value, tail, domain);
      OtherHeaderLine(pre[0], domain);
      Assoc(first + "\r\n", rest, via);
      Assoc(first + "\r\n", rest, tail);
      StripSkip(first, rest + via, domain);
      SplitStep(first, rest + via);
    }
  }

  lemma StatusLineIsNoVia(start: string, domain: string)
    requires StartsWith(start, "SIP/2.0")
    ensures !IsProxyVia(start, domain)
  {
    assert start[..7][0] == 'S';
    assert TrimStart(start) == start;
    var lower := Lower(start);
    assert lower[0] == 's';
    assert "via:"[0] == 'v' && "v:"[0] == 'v';
  }

  lemma PrintConcat(a: seq<Header>, b: seq<Header>)
    ensures PrintHeaders(a + b) == PrintHeaders(a) + PrintHeaders(b)
    decreases |a|
  {
    var all := a + b;
    if a == [] {
      assert all == b;
    } else {
      assert all[0] == a[0] && all[1..] == a[1..] + b;
      PrintConcat(a[1..], b);
      Assoc(HeaderLine(a[0]) + "\r\n", PrintHeaders(a[1..]), PrintHeaders(b));
    }
  }

  /**
    A response whose first Via names the proxy comes out with that Via removed
    and nothing else changed.
   */
  lemma StripResponse(start: string, pre: seq<Header>, value: string, post: seq<Header>, body: string, domain: string)
    requires StartsWith(start, "SIP/2.0") && OneLine(start)
    requires CleanHeaders(pre) && NoVia(pre) && OneLine(value) && Contains(value, domain)
    ensures Stripped(PrintMessage(start, pre + [("Via", value)] + post, body), domain)
         == PrintMessage(start, pre + post, body)
  {
    var line := HeaderLine(("Via", value));
    var tail := PrintHeaders(post) + ("\r\n" + body);
    StatusLineIsNoVia(start, domain);
    StripHeaders(pre, value, tail, domain);
    PrintAround(pre, ("Via", value), post, "\r\n" + body);
    StripSkip(start, PrintHeaders(pre) + (line + "\r\n" + tail), domain);
  }

  lemma PrintAround(pre: seq<Header>, h: Header, post: seq<Header>, end: string)
    ensures PrintHeaders(pre + [h] + post) + end
         == PrintHeaders(pre) + (HeaderLine(h) + "\r\n" + (PrintHeaders(post) + end))
    ensures PrintHeaders(pre + post) + end == PrintHeaders(pre) + (PrintHeaders(post) + end)
  {
    PrintConcat(pre, post);
    PrintConcat(pre + [h], post);
    PrintConcat(pre, [h]);
    var p, l, q := PrintHeaders(pre), HeaderLine(h) + "\r\n", PrintHeaders(post);
    assert PrintHeaders([h]) == l by {
      assert [h][1..] == [] && l + "" == l;
    }
    Assoc(p, l, q);
    Assoc(p, l + q, end);
    Assoc(l, q, end);
    Assoc(p, q, end);
  }

  /** A response that echoes the forwarded Via list goes back with the caller's own list. */
  lemma EchoRestored(start: string, domain: string, branch: string, vias: seq<string>,
                     others: seq<Header>, body: string)
    requires StartsWith(start, "SIP/2.0") && OneLine(start) && OneLine(domain) && OneLine(branch)
    ensures Stripped(PrintMessage(start, Pairs("Via", [ProxyVia(domain, branch)] + vias) + others, body), domain)
         == PrintMessage(start, Pairs("Via", vias) + others, body)
  {
    var via := ProxyVia(domain, branch);
    assert via == "SIP/2.0/UDP " + domain + (";branch=" + branch + ";rport");
    ContainsMiddle("SIP/2.0/UDP ", domain, ";branch=" + branch + ";rport");
    var post := Pairs("Via", vias) + others;
    assert Pairs("Via", [via] + vias) + others == [] + [("Via", via)] + post;
    assert [] + post == post;
    StripResponse(start, [], via, post, body, domain);
  }

  lemma {:induction false} DropNothing(lines: seq<string>, domain: string)
    requires forall i :: 0 <= i < |lines| ==> !IsProxyVia(lines[i], domain)
    ensures DropProxyVia(lines, domain) == lines
  {
    if lines != [] {
      DropNothing(lines[1..], domain);
    }
  }

  /** A text without such a Via is relayed as it is. */
  lemma NothingStripped(raw: string, domain: string)
    requires forall i :: 0 <= i < |SplitCrlf(raw)| ==> !IsProxyVia(SplitCrlf(raw)[i], domain)
    ensures Stripped(raw, domain) == raw
  {
    DropNothing(SplitCrlf(raw), domain);
    JoinSplit(raw);
  }
}
