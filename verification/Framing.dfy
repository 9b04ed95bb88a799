/**
  Messages on a stream transport: the reader that cuts the incoming text into
  messages by blank line and Content-Length, and the builder of responses.
  The stream is UTF-8 text; Content-Length counts its octets.
 */
module Framing {
  import opened Options
  import opened Text
  import opened SipMessages

  const USIZE_MAX: nat := 0xFFFF_FFFF_FFFF_FFFF

  // ----- Reading ------------------------------------------------------------------------

  function TakeLine(s: string): (r: (string, string))
    ensures r.0 + r.1 == s && (s != "" ==> r.0 != "")
  {
    var (line, rest) := Cut(s, '\n');
    if rest == None then (s, "") else (line + ['\n'], rest.value)
  }

  predicate IsBlank(line: string) {
    line == "\r\n" || line == "\n"
  }

  /** The lines up to and including the first blank one; None if the stream ends before it. */
  function TakeHead(s: string): (r: Option<(string, string)>)
    ensures r.Some? ==> r.value.0 + r.value.1 == s && r.value.0 != ""
    decreases |s|
  {
    if s == "" then None
    else
      var (line, rest) := TakeLine(s);
      if IsBlank(line) then Some((line, rest))
      else
        var more := TakeHead(rest);
        if more == None then None else Some((line + more.value.0, more.value.1))
  }

  predicate IsLengthLine(line: string) {
    var lower := Lower(line);
    StartsWith(lower, "content-length:") || StartsWith(lower, "l:")
  }

  function LengthOf(line: string): Option<nat> {
    var value := Cut(line, ':').1;
    if IsLengthLine(line) && value.Some? then ParseUint(Trim(value.value), USIZE_MAX) else None
  }

  /** The first length that can be read, or 0. */
  function LengthIn(lines: seq<string>): nat {
    if lines == [] then 0
    else if LengthOf(lines[0]).Some? then LengthOf(lines[0]).value
    else LengthIn(lines[1..])
  }

  method ExtractContentLength(headers: string) returns (n: nat)
    ensures n == LengthIn(Lines(headers))
  {
    var lines := Lines(headers);
    for i := 0 to |lines|
      invariant LengthIn(lines) == LengthIn(lines[i..])
    {
      assert lines[i..][1..] == lines[i + 1..];
      if LengthOf(lines[i]).Some? {
        return LengthOf(lines[i]).value;
      }
    }
    n := 0;
  }

  datatype Taken = Taken(text: string, rest: string) | TooShort | InsideCharacter

  function TakeOctets(s: string, n: nat): Taken {
    if n == 0 then Taken("", s)
    else if s == "" then TooShort
    else if Utf8Width(s[0]) > n then InsideCharacter
    else
      match TakeOctets(s[1..], n - Utf8Width(s[0]))
      case Taken(text, rest) => Taken([s[0]] + text, rest)
      case other => other
  }

  datatype ReadResult =
    | Message(text: string)
    | EndOfStream
    | ShortBody          // the stream ends inside the body
    | BrokenCharacter    // the length ends inside a character; the replacement text is not modelled

  function NextMessage(s: string): (r: (ReadResult, string))
    ensures r.0.Message? ==> |r.1| < |s|
    decreases |s|
  {
    var head := TakeHead(s);
    if head == None then (EndOfStream, "")
    else if Trim(head.value.0) == "" then NextMessage(head.value.1)
    else
      match TakeOctets(head.value.1, LengthIn(Lines(head.value.0)))
      case Taken(text, rest) =>
        TakenIsShorter(head.value.1, LengthIn(Lines(head.value.0)));
        (Message(head.value.0 + text), rest)
      case TooShort => (ShortBody, "")
      case InsideCharacter => (BrokenCharacter, "")
  }

  lemma {:induction false} TakenIsShorter(s: string, n: nat)
    ensures TakeOctets(s, n).Taken? ==> |TakeOctets(s, n).rest| <= |s|
  {
    if n != 0 && s != "" && Utf8Width(s[0]) <= n {
      TakenIsShorter(s[1..], n - Utf8Width(s[0]));
    }
  }

  /** The buffered reader over one connection. */
  class SipReader {
    var input: string // what the connection has yet to deliver

    method ReadLine() returns (line: string)
      modifies this
      ensures (line, input) == TakeLine(old(input))
    {
      var r := TakeLine(input);
      line, input := r.0, r.1;
    }

    method ReadHeaders() returns (found: bool, headers: string)
      modifies this
      ensures found <==> TakeHead(old(input)).Some?
      ensures found ==> TakeHead(old(input)) == Some((headers, input))
      ensures !found ==> input == ""
    {
      headers := "";
      assert forall x: string :: "" + x == x;
      while true
        invariant TakeHead(old(input)) == if TakeHead(input) == None then None
                                          else Some((headers + TakeHead(input).value.0, TakeHead(input).value.1))
        decreases |input|
      {
        if input == "" {
          return false, headers;
        }
        ghost var before := input;
        ghost var so := headers;
        var line := ReadLine();
        headers := headers + line;
        if IsBlank(line) {
          return true, headers;
        }
        if TakeHead(input).Some? {
          Assoc(so, line, TakeHead(input).value.0);
        }
      }
    }

    method ReadNextSipMessage() returns (result: ReadResult)
      modifies this
      ensures (result, input) == NextMessage(old(input))
    {
      while true
        invariant NextMessage(input) == NextMessage(old(input))
        decreases |input|
      {
        var found, headers := ReadHeaders();
        if !found {
          return EndOfStream;
        }
        if Trim(headers) == "" {
          continue;
        }
        var length := ExtractContentLength(headers);
        match TakeOctets(input, length) {
          case Taken(text, rest) =>
            input := rest;
            return Message(headers + text);
          case TooShort =>
            input := "";
            return ShortBody;
          case InsideCharacter =>
            input := "";
            return BrokenCharacter;
        }
      }
    }
  }

  // ----- Building ---------------------------------------------------------------------------

  function LengthHeader(body: string): Header {
    ("Content-Length", Dec(Utf8Size(body)))
  }

  /** The form of every message the server sends: the length is its last header. */
  function Built(start: string, hs: seq<Header>, body: string): string {
    PrintMessage(start, hs + [LengthHeader(body)], body)
  }

  function StatusLine(code: nat, reason: string): string {
    "SIP/2.0 " + Dec(code) + " " + reason
  }

  class SipResponseBuilder {
    const statusCode: nat
    const reason: string
    var headers: seq<Header>
    var body: string

    constructor (statusCode: nat, reason: string)
      ensures this.statusCode == statusCode && this.reason == reason && headers == [] && body == ""
    {
      this.statusCode, this.reason, headers, body := statusCode, reason, [], "";
    }

    method AddHeader(name: string, value: string)
      modifies this`headers
      ensures headers == old(headers) + [(name, value)]
    {
      headers := headers + [(name, value)];
    }

    method SetBody(text: string)
      modifies this`body
      ensures body == text
    {
      body := text;
    }

    method Build() returns (text: string)
      ensures text == Built(StatusLine(statusCode, reason), headers, body)
    {
      ghost var start := StatusLine(statusCode, reason);
      text := "SIP/2.0 " + Dec(statusCode) + " " + reason + "\r\n";
      assert headers[..0] == [] && text == start + "\r\n" + PrintHeaders([]);
      for i := 0 to |headers|
        invariant text == start + "\r\n" + PrintHeaders(headers[..i])
      {
        ghost var before := headers[..i];
        text := text + (headers[i].0 + ": " + headers[i].1 + "\r\n");
        PushedHeader(start, before, headers[i]);
        assert headers[..i + 1] == before + [headers[i]];
      }
      assert headers[..|headers|] == headers;
      PushedHeader(start, headers, LengthHeader(body));
      text := text + ("Content-Length: " + Dec(Utf8Size(body)) + "\r\n");
      ghost var all := PrintHeaders(headers + [LengthHeader(body)]);
      Assoc(start + "\r\n", all, "\r\n" + body);
      Assoc(text, "\r\n", body);
      text := text + "\r\n" + body;
    }
  }

  lemma PushedHeader(start: string, hs: seq<Header>, h: Header)
    ensures start + "\r\n" + PrintHeaders(hs) + (HeaderLine(h) + "\r\n") == start + "\r\n" + PrintHeaders(hs + [h])
  {
    PrintSnoc(hs, h);
    Assoc(start + "\r\n", PrintHeaders(hs), HeaderLine(h) + "\r\n");
  }

  // ----- One message ------------------------------------------------------------------------

  lemma LineTaken(line: string, rest: string)
    requires OneLine(line)
    ensures TakeLine(line + "\r\n" + rest) == (line + "\r\n", rest)
  {
    assert line + "\r\n" + rest == (line + "\r") + ['\n'] + rest;
    CutAt(line + "\r", '\n', rest);
    assert (line + "\r") + ['\n'] == line + "\r\n";
  }

  lemma HeadStep(line: string, head: string, rest: string)
    requires OneLine(line) && line != "" && TakeHead(head + rest) == Some((head, rest))
    ensures TakeHead(line + "\r\n" + head + rest) == Some((line + "\r\n" + head, rest))
  {
    LineTaken(line, head + rest);
    Assoc(line + "\r\n", head, rest);
    assert !IsBlank(line + "\r\n") by {
      assert |line + "\r\n"| >= 3;
    }
  }

  lemma {:induction false} HeadTaken(hs: seq<Header>, rest: string)
    requires OneLineHeaders(hs)
    ensures TakeHead(PrintHeaders(hs) + "\r\n" + rest) == Some((PrintHeaders(hs) + "\r\n", rest))
  {
    if hs == [] {
      assert "" + "\r\n" == "\r\n" && "" + "\r\n" + rest == "\r\n" + rest;
      LineTaken("", rest);
    } else {
      var line, more := HeaderLine(hs[0]), PrintHeaders(hs[1..]);
      HeadTaken(hs[1..], rest);
      HeadStep(line, more + "\r\n", rest);
      Assoc(line + "\r\n", more, "\r\n");
    }
  }

  predicate OneLineHeaders(hs: seq<Header>) {
    hs == [] || (OneLine(hs[0].0) && OneLine(hs[0].1) && OneLineHeaders(hs[1..]))
  }

  /** No header line is read as a length. */
  predicate NoLength(hs: seq<Header>) {
    hs == [] || (LengthOf(HeaderLine(hs[0])) == None && NoLength(hs[1..]))
  }

  lemma {:induction false} OctetsTaken(body: string, rest: string)
    ensures TakeOctets(body + rest, Utf8Size(body)) == Taken(body, rest)
  {
    if body == "" {
      assert body + rest == rest;
    } else {
      assert (body + rest)[1..] == body[1..] + rest;
      OctetsTaken(body[1..], rest);
    }
  }

  lemma LengthRead(body: string)
    requires Utf8Size(body) <= USIZE_MAX
    ensures LengthOf(HeaderLine(LengthHeader(body))) == Some(Utf8Size(body))
  {
    var n := Utf8Size(body);
    var line := HeaderLine(LengthHeader(body));
    var digits := Dec(n);
    assert line == "Content-Length" + [':'] + (" " + digits);
    CutAt("Content-Length", ':', " " + digits);
    TrimSpaced(digits);
    DecIsWord(n);
    TrimNothing(digits);
    ParseDec(n, USIZE_MAX);
    LengthTag(" " + digits);
  }

  lemma LengthTag(value: string)
    ensures IsLengthLine("Content-Length" + [':'] + value)
  {
    var line := "Content-Length" + [':'] + value;
    assert Lower(line)[..15] == "content-length:";
  }

  /** The first length that can be read among the headers, if any. */
  function FirstLength(hs: seq<Header>): Option<nat> {
    if hs == [] then None
    else if LengthOf(HeaderLine(hs[0])).Some? then LengthOf(HeaderLine(hs[0]))
    else FirstLength(hs[1..])
  }

  lemma {:induction false} LengthInHeaders(hs: seq<Header>)
    requires OneLineHeaders(hs)
    ensures LengthIn(Lines(PrintHeaders(hs) + "\r\n")) == if FirstLength(hs) == None then 0 else FirstLength(hs).value
  {
    if hs == [] {
      LinesCons("", "");
      assert "" + "\r\n" + "" == "" + "\r\n" && [""][1..] == [];
      assert Lower("") == "" && LengthOf("") == None;
    } else {
      var line, rest := HeaderLine(hs[0]), PrintHeaders(hs[1..]);
      Assoc(line + "\r\n", rest, "\r\n");
      LengthInHeaders(hs[1..]);
      LinesCons(line, rest + "\r\n");
      assert ([line] + Lines(rest + "\r\n"))[1..] == Lines(rest + "\r\n");
    }
  }

  lemma {:induction false} FirstLengthSnoc(hs: seq<Header>, h: Header)
    ensures FirstLength(hs + [h]) == if FirstLength(hs).Some? then FirstLength(hs) else LengthOf(HeaderLine(h))
  {
    var all := hs + [h];
    if hs == [] {
      assert all == [h] && all[1..] == [];
    } else {
      assert all[0] == hs[0] && all[1..] == hs[1..] + [h];
      FirstLengthSnoc(hs[1..], h);
    }
  }

  lemma {:induction false} NoLengthNone(hs: seq<Header>)
    ensures NoLength(hs) <==> FirstLength(hs) == None
  {
    if hs != [] {
      NoLengthNone(hs[1..]);
    }
  }

  lemma LengthHeaderOneLine(body: string)
    ensures OneLine(HeaderLine(LengthHeader(body)))
    ensures OneLineHeaders([LengthHeader(body)])
  {
    DecIsWord(Utf8Size(body));
    assert [LengthHeader(body)][1..] == [];
  }

  lemma {:induction false} OneLineConcat(a: seq<Header>, b: seq<Header>)
    requires OneLineHeaders(a) && OneLineHeaders(b)
    ensures OneLineHeaders(a + b)
  {
    var all := a + b;
    if a == [] {
      assert all == b;
    } else {
      assert all[0] == a[0] && all[1..] == a[1..] + b;
      OneLineConcat(a[1..], b);
    }
  }

  lemma TrimNotEmpty(s: string)
    requires TrimStart(s) != ""
    ensures Trim(s) != ""
  {
    TrimEndHead(TrimStart(s));
  }

  // ----- A whole stream ---------------------------------------------------------------------

  /** A message to send, and how many empty lines (keep-alives) precede it. */
  datatype Outgoing = Outgoing(gap: nat, start: string, headers: seq<Header>, body: string)

  predicate Sendable(m: Outgoing) {
    && GoodStart(m.start)
    && OneLineHeaders(m.headers) && NoLength(m.headers)
    && Utf8Size(m.body) <= USIZE_MAX
  }

  predicate AllSendable(ms: seq<Outgoing>) {
    ms == [] || (Sendable(ms[0]) && AllSendable(ms[1..]))
  }

  function TextOf(m: Outgoing): string {
    Built(m.start, m.headers, m.body)
  }

  function Texts(ms: seq<Outgoing>): seq<string> {
    seq(|ms|, i requires 0 <= i < |ms| => TextOf(ms[i]))
  }

  function Crlfs(n: nat): string {
    if n == 0 then "" else "\r\n" + Crlfs(n - 1)
  }

  /** The messages in order, each after its gap, and a last gap. */
  function StreamOf(ms: seq<Outgoing>, last: nat): string {
    if ms == [] then Crlfs(last) else Crlfs(ms[0].gap) + (TextOf(ms[0]) + StreamOf(ms[1..], last))
  }

  function ReadAll(s: string): (seq<string>, ReadResult)
    decreases |s|
  {
    var (result, rest) := NextMessage(s);
    if !result.Message? then ([], result)
    else var (more, end) := ReadAll(rest); ([result.text] + more, end)
  }

  /** What the reader makes of a head and of the octets behind it. */
  function Delivered(head: string, taken: Taken): (ReadResult, string) {
    match taken
    case Taken(text, rest) => (Message(head + text), rest)
    case TooShort => (ShortBody, "")
    case InsideCharacter => (BrokenCharacter, "")
  }

  function HeadOf(start: string, hs: seq<Header>): string {
    start + "\r\n" + (PrintHeaders(hs) + "\r\n")
  }

  predicate GoodStart(start: string) {
    OneLine(start) && Trim(start) != "" && LengthOf(start) == None
  }

  lemma MessageParts(start: string, hs: seq<Header>, body: string)
    ensures PrintMessage(start, hs, body) == HeadOf(start, hs) + body
  {
    Assoc(PrintHeaders(hs), "\r\n", body);
    Assoc(start + "\r\n", PrintHeaders(hs) + "\r\n", body);
  }

  /** A printed message is cut where its first readable length says, or behind its head. */
  lemma HeadRead(start: string, hs: seq<Header>, rest: string)
    requires GoodStart(start) && OneLineHeaders(hs)
    ensures var n := if FirstLength(hs) == None then 0 else FirstLength(hs).value;
            NextMessage(HeadOf(start, hs) + rest) == Delivered(HeadOf(start, hs), TakeOctets(rest, n))
  {
    var headers := PrintHeaders(hs) + "\r\n";
    var head := HeadOf(start, hs);
    assert TakeHead(head + rest) == Some((head, rest)) by {
      HeadTaken(hs, rest);
      HeadStep(start, headers, rest);
    }
    assert Trim(head) != "" by {
      TrimStartOf(start, "\r\n" + headers);
      Assoc(start, "\r\n", headers);
      TrimNotEmpty(head);
    }
    assert LengthIn(Lines(head)) == if FirstLength(hs) == None then 0 else FirstLength(hs).value by {
      LengthInHeaders(hs);
      LinesCons(start, headers);
      assert ([start] + Lines(headers))[1..] == Lines(headers);
    }
  }

  lemma MessageRead(m: Outgoing, rest: string)
    requires Sendable(m)
    ensures NextMessage(TextOf(m) + rest) == (Message(TextOf(m)), rest)
  {
    var hs := m.headers + [LengthHeader(m.body)];
    LengthHeaderOneLine(m.body);
    OneLineConcat(m.headers, [LengthHeader(m.body)]);
    NoLengthNone(m.headers);
    LengthRead(m.body);
    FirstLengthSnoc(m.headers, LengthHeader(m.body));
    MessageParts(m.start, hs, m.body);
    Assoc(HeadOf(m.start, hs), m.body, rest);
    HeadRead(m.start, hs, m.body + rest);
    OctetsTaken(m.body, rest);
  }

  lemma BlankSkipped(s: string)
    ensures NextMessage("\r\n" + s) == NextMessage(s)
  {
    assert "" + "\r\n" + s == "\r\n" + s && "" + "\r\n" == "\r\n";
    LineTaken("", s);
    assert TakeHead("\r\n" + s) == Some(("\r\n", s));
    assert TrimStart("\r\n") == "";
  }

  lemma {:induction false} GapsSkipped<T>(f: string -> T, n: nat, rest: string)
    requires forall s :: f("\r\n" + s) == f(s)
    ensures f(Crlfs(n) + rest) == f(rest)
  {
    if n == 0 {
      assert Crlfs(n) + rest == rest;
    } else {
      assert Crlfs(n) + rest == "\r\n" + (Crlfs(n - 1) + rest);
      GapsSkipped(f, n - 1, rest);
    }
  }

  lemma GapSkipped(n: nat, rest: string)
    ensures NextMessage(Crlfs(n) + rest) == NextMessage(rest)
  {
    forall s ensures NextMessage("\r\n" + s) == NextMessage(s) {
      BlankSkipped(s);
    }
    GapsSkipped(NextMessage, n, rest);
  }

  lemma ReadAllStep(s: string, text: string, rest: string)
    requires NextMessage(s) == (Message(text), rest)
    ensures ReadAll(s) == ([text] + ReadAll(rest).0, ReadAll(rest).1)
  {
  }

  lemma NothingLeft()
    ensures NextMessage("") == (EndOfStream, "")
  {
  }

  lemma ReadAllEnd(s: string)
    requires NextMessage(s) == (EndOfStream, "")
    ensures ReadAll(s) == ([], EndOfStream)
  {
  }

  lemma FirstRead(ms: seq<Outgoing>, last: nat)
    requires ms != [] && Sendable(ms[0])
    ensures ReadAll(StreamOf(ms, last))
         == ([TextOf(ms[0])] + ReadAll(StreamOf(ms[1..], last)).0, ReadAll(StreamOf(ms[1..], last)).1)
  {
    var s, rest := StreamOf(ms, last), StreamOf(ms[1..], last);
    assert NextMessage(s) == (Message(TextOf(ms[0])), rest) by {
      GapSkipped(ms[0].gap, TextOf(ms[0]) + rest);
      MessageRead(ms[0], rest);
    }
    ReadAllStep(s, TextOf(ms[0]), rest);
  }

  lemma TextsStep(ms: seq<Outgoing>)
    requires ms != []
    ensures Texts(ms) == [TextOf(ms[0])] + Texts(ms[1..])
  {
  }

  lemma LastGapRead(last: nat)
    ensures ReadAll(Crlfs(last)) == ([], EndOfStream)
  {
    GapSkipped(last, "");
    assert Crlfs(last) + "" == Crlfs(last);
    NothingLeft();
    ReadAllEnd(Crlfs(last));
  }

  /** What is sent over a stream is read as exactly those messages, in order, and then the end. */
  lemma {:induction false} StreamReadBack(ms: seq<Outgoing>, last: nat)
    requires AllSendable(ms)
    ensures ReadAll(StreamOf(ms, last)) == (Texts(ms), EndOfStream)
  {
    if ms == [] {
      LastGapRead(last);
      assert Texts(ms) == [] && StreamOf(ms, last) == Crlfs(last);
    } else {
      FirstRead(ms, last);
      StreamReadBack(ms[1..], last);
      TextsStep(ms);
    }
  }

  // ----- Which headers are read as a length -----------------------------------------------------

  /** A header whose name is neither Content-Length nor l, in any case, is not read as a length. */
  lemma OtherNameNoLength(h: Header)
    requires ':' !in h.0 && Lower(h.0) != "content-length" && Lower(h.0) != "l"
    ensures LengthOf(HeaderLine(h)) == None
  {
    var line := HeaderLine(h);
    var tail := ": " + h.1;
    assert line == h.0 + tail;
    if IsLengthLine(line) {
      if StartsWith(Lower(line), "content-length:") {
        ColonAt(h.0, tail, "content-length");
      } else {
        ColonAt(h.0, tail, "l");
      }
    }
  }

  lemma ColonAt(name: string, tail: string, p: string)
    requires ':' !in name && tail != "" && tail[0] == ':' && ':' !in p
    requires StartsWith(Lower(name + tail), p + [':'])
    ensures Lower(name) == p
  {
    var all := name + tail;
    var lower := Lower(all);
    assert forall i :: 0 <= i <= |p| ==> lower[i] == lower[..|p| + 1][i] && lower[i] == (p + [':'])[i];
    assert lower[|p|] == ':' && all[|p|] == ':';
    assert lower[|name|] == ':';
    assert forall i :: 0 <= i < |name| ==> all[i] == name[i] && name[i] != ':';
    assert forall i :: 0 <= i < |p| ==> (p + [':'])[i] == p[i] && p[i] != ':';
    assert forall i :: 0 <= i < |p| ==> Lower(name)[i] == lower[i] && (p + [':'])[i] == p[i];
  }

  lemma StoredNameNoLength(h: Header)
    requires ':' !in h.0 && NormalizeName(h.0) != "content-length"
    ensures LengthOf(HeaderLine(h)) == None
  {
    var name := h.0;
    if Lower(name) == "content-length" || Lower(name) == "l" {
      assert Trimmed(name) by {
        var lower, last := Lower(name), |name| - 1;
        assert lower[0] == LowerChar(name[0]) && lower[last] == LowerChar(name[last]);
        assert lower[0] in ['c', 'l'] && lower[last] in ['h', 'l'];
      }
      TrimNothing(name);
    } else {
      OtherNameNoLength(h);
    }
  }

  /** A status line is never taken for a header or a gap. */
  lemma StatusLineIs(code: nat, reason: string)
    requires OneLine(reason)
    ensures GoodStart(StatusLine(code, reason))
  {
    var start := StatusLine(code, reason);
    DecIsWord(code);
    assert start[0] == 'S' && TrimStart(start) == start;
    TrimNotEmpty(start);
    var lower := Lower(start);
    assert lower[0] == 's' && "content-length:"[0] == 'c' && "l:"[0] == 'l';
  }
}
