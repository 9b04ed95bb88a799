/**
  Reading a SIP message from its text: the start line, the headers with their
  compact forms and folded lines, and the body.
 */
module SipMessages {
  import opened Options
  import opened Text

  type Headers = map<string, seq<string>>

  datatype SipMessage = SipMessage(
    verb: Option<string>,
    requestUri: Option<string>,
    statusCode: Option<nat>,
    headers: Headers,
    body: string,
    raw: string)

  datatype ParseResult = Parsed(message: SipMessage) | EmptyMessage | InvalidFirstLine(line: string)

  /** The long form of a compact header name. */
  function LongName(name: string): string {
    if |name| != 1 then name
    else
      match name[0]
      case 'f' => "from"
      case 't' => "to"
      case 'v' => "via"
      case 'c' => "content-type"
      case 'l' => "content-length"
      case 'i' => "call-id"
      case 'm' => "contact"
      case 'e' => "content-encoding"
      case _ => name
  }

  function NormalizeName(name: string): string {
    LongName(Lower(Trim(name)))
  }

  function Get(headers: Headers, key: string): seq<string> {
    if key in headers then headers[key] else []
  }

  // ----- Reading -------------------------------------------------------------------

  /** How far the loop over the lines has come. */
  datatype Reading = Reading(headers: Headers, inHeaders: bool, body: seq<string>, lastKey: Option<string>)

  function AddHeader(headers: Headers, name: string, value: string): Headers {
    var key := NormalizeName(name);
    headers[key := Get(headers, key) + [Trim(value)]]
  }

  /** A folded line continues the last value of the last header. */
  function Unfold(headers: Headers, lastKey: Option<string>, line: string): Headers {
    if lastKey == None || Get(headers, lastKey.value) == [] then headers
    else
      var vals := Get(headers, lastKey.value);
      headers[lastKey.value := vals[|vals| - 1 := vals[|vals| - 1] + " " + Trim(line)]]
  }

  function ReadLine(r: Reading, line: string): Reading {
    if !r.inHeaders then r.(body := r.body + [line])
    else if line == "" then r.(inHeaders := false)
    else if line[0] == ' ' || line[0] == '\t' then r.(headers := Unfold(r.headers, r.lastKey, line))
    else
      var (name, value) := Cut(line, ':');
      if value == None then r
      else r.(headers := AddHeader(r.headers, name, value.value), lastKey := Some(NormalizeName(name)))
  }

  function ReadLines(r: Reading, lines: seq<string>): Reading
    decreases |lines|
  {
    if lines == [] then r else ReadLines(ReadLine(r, lines[0]), lines[1..])
  }

  const START: Reading := Reading(map[], true, [], None)

  function ParseText(raw: string): ParseResult {
    var lines := Lines(raw);
    if lines == [] then EmptyMessage
    else
      var (first, second) := Cut(lines[0], ' ');
      if second == None then InvalidFirstLine(lines[0])
      else
        var r := ReadLines(START, lines[1..]);
        var part := Cut(second.value, ' ').0;
        var body := JoinCrlf(r.body);
        Parsed(if StartsWith(lines[0], "SIP/2.0")
               then SipMessage(None, None, ParseUint(part, 65535), r.headers, body, raw)
               else SipMessage(Some(first), Some(part), None, r.headers, body, raw))
  }

  method Parse(raw: string) returns (result: ParseResult)
    ensures result == ParseText(raw)
  {
    var lines := Lines(raw);
    if lines == [] {
      return EmptyMessage;
    }
    var firstLine := lines[0];
    var (first, second) := Cut(firstLine, ' ');
    if second == None {
      return InvalidFirstLine(firstLine);
    }
    var verb: Option<string>, requestUri: Option<string>, statusCode: Option<nat> := None, None, None;
    var part := Cut(second.value, ' ').0;
    if StartsWith(firstLine, "SIP/2.0") {
      statusCode := ParseUint(part, 65535);
    } else {
      verb, requestUri := Some(first), Some(part);
    }
    var headers: Headers, inHeaders, bodyLines := map[], true, [];
    var lastKey: Option<string> := None;
    for i := 1 to |lines|
      invariant ReadLines(Reading(headers, inHeaders, bodyLines, lastKey), lines[i..]) == ReadLines(START, lines[1..])
    {
      var line := lines[i];
      assert lines[i..][0] == line && lines[i..][1..] == lines[i + 1..];
      if !inHeaders {
        bodyLines := bodyLines + [line];
      } else if line == "" {
        inHeaders := false;
      } else if line[0] == ' ' || line[0] == '\t' {
        headers := Unfold(headers, lastKey, line);
      } else {
        var (name, value) := Cut(line, ':');
        if value.Some? {
          headers := AddHeader(headers, name, value.value);
          lastKey := Some(NormalizeName(name));
        }
      }
    }
    assert lines[|lines|..] == [];
    result := Parsed(SipMessage(verb, requestUri, statusCode, headers, JoinCrlf(bodyLines), raw));
  }

  // ----- Printing --------------------------------------------------------------------

  type Header = (string, string)

  function HeaderLine(h: Header): string {
    h.0 + ": " + h.1
  }

  function HeaderLines(hs: seq<Header>): seq<string> {
    seq(|hs|, i requires 0 <= i < |hs| => HeaderLine(hs[i]))
  }

  function PrintHeaders(hs: seq<Header>): string {
    if hs == [] then "" else HeaderLine(hs[0]) + "\r\n" + PrintHeaders(hs[1..])
  }

  lemma {:induction false} PrintSnoc(hs: seq<Header>, h: Header)
    ensures PrintHeaders(hs + [h]) == PrintHeaders(hs) + (HeaderLine(h) + "\r\n")
  {
    var all := hs + [h];
    if hs == [] {
      assert all == [h] && all[1..] == [];
    } else {
      assert all[1..] == hs[1..] + [h];
      PrintSnoc(hs[1..], h);
      Assoc(HeaderLine(hs[0]) + "\r\n", PrintHeaders(hs[1..]), HeaderLine(h) + "\r\n");
    }
  }

  /** The form of every message the server builds. */
  function PrintMessage(start: string, hs: seq<Header>, body: string): string {
    start + "\r\n" + (PrintHeaders(hs) + ("\r\n" + body))
  }

  /** A header name that is read back: no colon, no line break, no leading blank. */
  predicate CleanName(name: string) {
    ':' !in name && '\n' !in name && (name != "" ==> name[0] != ' ' && name[0] != '\t')
  }

  predicate CleanHeader(h: Header) {
    CleanName(h.0) && OneLine(h.1)
  }

  predicate CleanHeaders(hs: seq<Header>) {
    hs == [] || (CleanHeader(hs[0]) && CleanHeaders(hs[1..]))
  }

  lemma {:induction false} PrintedLines(hs: seq<Header>, tail: string)
    requires CleanHeaders(hs)
    ensures Lines(PrintHeaders(hs) + tail) == HeaderLines(hs) + Lines(tail)
  {
    if hs == [] {
      assert "" + tail == tail;
      assert HeaderLines(hs) + Lines(tail) == Lines(tail);
    } else {
      var line := HeaderLine(hs[0]);
      var rest := PrintHeaders(hs[1..]);
      assert line + "\r\n" + rest + tail == line + "\r\n" + (rest + tail);
      LinesCons(line, rest + tail);
      PrintedLines(hs[1..], tail);
      assert HeaderLines(hs) == [line] + HeaderLines(hs[1..]);
      Assoc([line], HeaderLines(hs[1..]), Lines(tail));
    }
  }

  function ValueOf(h: Header, key: string): seq<string> {
    if NormalizeName(h.0) == key then [Trim(h.1)] else []
  }

  /** The values printed under a header name, in any of its forms. */
  function Values(hs: seq<Header>, key: string): seq<string> {
    if hs == [] then [] else ValueOf(hs[0], key) + Values(hs[1..], key)
  }

  function AddHeaders(headers: Headers, hs: seq<Header>): Headers
    decreases |hs|
  {
    if hs == [] then headers else AddHeaders(AddHeader(headers, hs[0].0, hs[0].1), hs[1..])
  }

  lemma AddedValue(headers: Headers, h: Header, key: string)
    ensures var added := AddHeader(headers, h.0, h.1);
            Get(added, key) == Get(headers, key) + ValueOf(h, key)
            && (key in added <==> key in headers || ValueOf(h, key) != [])
  {
  }

  lemma {:induction false} AddedValues(headers: Headers, hs: seq<Header>, key: string)
    ensures Get(AddHeaders(headers, hs), key) == Get(headers, key) + Values(hs, key)
    ensures key in AddHeaders(headers, hs) <==> key in headers || Values(hs, key) != []
    decreases |hs|
  {
    if hs != [] {
      AddedValue(headers, hs[0], key);
      AddedValues(AddHeader(headers, hs[0].0, hs[0].1), hs[1..], key);
      Assoc(Get(headers, key), ValueOf(hs[0], key), Values(hs[1..], key));
    }
  }

  lemma TrimSpaced(s: string)
    ensures Trim(" " + s) == Trim(s)
  {
    assert (" " + s)[1..] == s;
  }

  lemma ReadHeaderLine(r: Reading, h: Header)
    requires r.inHeaders && CleanHeader(h)
    ensures ReadLine(r, HeaderLine(h))
         == r.(headers := AddHeader(r.headers, h.0, h.1), lastKey := Some(NormalizeName(h.0)))
  {
    var line := HeaderLine(h);
    assert line == h.0 + [':'] + (" " + h.1);
    CutAt(h.0, ':', " " + h.1);
    TrimSpaced(h.1);
    assert line[0] == if h.0 == "" then ':' else h.0[0];
  }

  lemma {:induction false} ReadHeaderLines(r: Reading, hs: seq<Header>, rest: seq<string>) returns (key: Option<string>)
    requires r.inHeaders && CleanHeaders(hs)
    ensures ReadLines(r, HeaderLines(hs) + rest)
         == ReadLines(r.(headers := AddHeaders(r.headers, hs), lastKey := key), rest)
    decreases |hs|
  {
    var lines := HeaderLines(hs) + rest;
    if hs == [] {
      key := r.lastKey;
      assert lines == rest;
    } else {
      assert lines[0] == HeaderLine(hs[0]) && lines[1..] == HeaderLines(hs[1..]) + rest;
      ReadHeaderLine(r, hs[0]);
      key := ReadHeaderLines(ReadLine(r, lines[0]), hs[1..], rest);
    }
  }

  lemma {:induction false} ReadBody(r: Reading, lines: seq<string>)
    requires !r.inHeaders
    ensures ReadLines(r, lines) == r.(body := r.body + lines)
    decreases |lines|
  {
    if lines == [] {
      assert r.body + [] == r.body;
    } else {
      ReadBody(ReadLine(r, lines[0]), lines[1..]);
      assert r.body + [lines[0]] + lines[1..] == r.body + lines;
    }
  }

  /** The headers and body lines read from a printed message. */
  lemma ReadPrinted(hs: seq<Header>, body: string)
    requires CleanHeaders(hs)
    ensures var r := ReadLines(START, Lines(PrintHeaders(hs) + ("\r\n" + body)));
            r.headers == AddHeaders(map[], hs) && r.body == Lines(body)
  {
    PrintedLines(hs, "\r\n" + body);
    LinesCons("", body);
    assert "" + "\r\n" + body == "\r\n" + body;
    var tail := [""] + Lines(body);
    var key := ReadHeaderLines(START, hs, tail);
    var r := START.(headers := AddHeaders(map[], hs), lastKey := key);
    assert tail[1..] == Lines(body);
    ReadBody(r.(inHeaders := false), Lines(body));
    assert [] + Lines(body) == Lines(body);
  }

  /** Reading a printed message gives each header its values in order, trimmed, and the body's lines. */
  lemma ParsePrinted(start: string, hs: seq<Header>, body: string)
    requires OneLine(start) && ' ' in start && CleanHeaders(hs)
    ensures var result := ParseText(PrintMessage(start, hs, body));
            && result.Parsed?
            && result.message.headers == AddHeaders(map[], hs)
            && result.message.body == JoinCrlf(Lines(body))
            && (StartsWith(start, "SIP/2.0") ==>
                  && result.message.verb == None
                  && result.message.statusCode == ParseUint(Cut(Cut(start, ' ').1.value, ' ').0, 65535))
            && (!StartsWith(start, "SIP/2.0") ==>
                  && result.message.verb == Some(Cut(start, ' ').0)
                  && result.message.requestUri == Some(Cut(Cut(start, ' ').1.value, ' ').0))
  {
    LinesCons(start, PrintHeaders(hs) + ("\r\n" + body));
    ReadPrinted(hs, body);
  }

  // ----- What every parsed message satisfies -------------------------------------------

  predicate IsLower(s: string) {
    forall i :: 0 <= i < |s| ==> !('A' <= s[i] <= 'Z')
  }

  /** A header name in the form the map is keyed by. */
  predicate Normal(key: string) {
    Trimmed(key) && IsLower(key) && LongName(key) == key && ':' !in key && '\n' !in key
  }

  ghost predicate WellFormed(headers: Headers) {
    forall key :: key in headers ==> Normal(key) && headers[key] != [] && AllOneLine(headers[key])
  }

  /** Lower-case letters and hyphens. */
  predicate PlainName(s: string) {
    |s| >= 2 && forall i :: 0 <= i < |s| ==> 'a' <= s[i] <= 'z' || s[i] == '-'
  }

  lemma PlainIsNormal(name: string)
    requires PlainName(name)
    ensures Normal(name)
  {
  }

  lemma LongNameIsNormal(name: string)
    requires Trimmed(name) && IsLower(name) && ':' !in name && '\n' !in name
    ensures Normal(LongName(name))
  {
    var long := LongName(name);
    if long != name {
      assert PlainName(long);
      PlainIsNormal(long);
    }
  }

  lemma NormalizedIsNormal(name: string)
    requires ':' !in name && '\n' !in name
    ensures Normal(NormalizeName(name))
  {
    TrimIs(name);
    var t := Trim(name);
    var lower := Lower(t);
    assert forall i :: 0 <= i < |t| ==> lower[i] == LowerChar(t[i]) && t[i] != ':' && t[i] != '\n';
    assert Trimmed(lower) && IsLower(lower) && ':' !in lower && '\n' !in lower;
    LongNameIsNormal(lower);
  }

  lemma UnfoldKeeps(headers: Headers, key: string, line: string)
    requires WellFormed(headers) && key in headers && OneLine(line)
    ensures WellFormed(Unfold(headers, Some(key), line))
  {
    var vals := headers[key];
    TrimIs(line);
    assert OneLine(vals[|vals| - 1]);
    assert OneLine(vals[|vals| - 1] + " " + Trim(line));
  }

  lemma AddKeeps(headers: Headers, name: string, value: string)
    requires WellFormed(headers) && ':' !in name && OneLine(name) && OneLine(value)
    ensures WellFormed(AddHeader(headers, name, value))
  {
    NormalizedIsNormal(name);
    TrimIs(value);
    assert OneLine(Trim(value));
  }

  lemma ReadLineKeeps(r: Reading, line: string)
    requires WellFormed(r.headers) && OneLine(line)
    ensures WellFormed(ReadLine(r, line).headers)
  {
    if r.inHeaders && line != "" {
      if line[0] == ' ' || line[0] == '\t' {
        if r.lastKey.Some? && r.lastKey.value in r.headers {
          UnfoldKeeps(r.headers, r.lastKey.value, line);
        }
      } else {
        var (name, value) := Cut(line, ':');
        if value.Some? {
          assert OneLine(name) && OneLine(value.value);
          AddKeeps(r.headers, name, value.value);
        }
      }
    }
  }

  lemma {:induction false} ReadLinesKeep(r: Reading, lines: seq<string>)
    requires WellFormed(r.headers) && AllOneLine(lines)
    ensures WellFormed(ReadLines(r, lines).headers)
    decreases |lines|
  {
    if lines != [] {
      assert OneLine(lines[0]);
      ReadLineKeeps(r, lines[0]);
      ReadLinesKeep(ReadLine(r, lines[0]), lines[1..]);
    }
  }

  /** Every parsed message has normal header names, each with values, all on one line. */
  lemma ParsedWellFormed(raw: string)
    requires ParseText(raw).Parsed?
    ensures WellFormed(ParseText(raw).message.headers)
  {
    LinesAreOneLine(raw);
    ReadLinesKeep(START, Lines(raw)[1..]);
  }

  // ----- Folded headers ------------------------------------------------------------------

  predicate IsFold(line: string) {
    line != "" && (line[0] == ' ' || line[0] == '\t')
  }

  predicate AllFolds(lines: seq<string>) {
    lines == [] || (IsFold(lines[0]) && AllFolds(lines[1..]))
  }

  /** A value continued over folded lines: the pieces with one space between them. */
  function Unfolded(value: string, folds: seq<string>): string
    decreases |folds|
  {
    if folds == [] then value else Unfolded(value + " " + Trim(folds[0]), folds[1..])
  }

  lemma FoldStep(r: Reading, key: string, before: seq<string>, value: string, fold: string)
    requires r.inHeaders && r.lastKey == Some(key) && Get(r.headers, key) == before + [value] && IsFold(fold)
    ensures ReadLine(r, fold) == r.(headers := r.headers[key := before + [value + " " + Trim(fold)]])
  {
    var vals := before + [value];
    assert vals[|vals| - 1 := value + " " + Trim(fold)] == before + [value + " " + Trim(fold)];
  }

  lemma {:induction false} FoldsRead(r: Reading, key: string, before: seq<string>, value: string, folds: seq<string>)
    requires r.inHeaders && r.lastKey == Some(key) && Get(r.headers, key) == before + [value] && AllFolds(folds)
    ensures ReadLines(r, folds) == r.(headers := r.headers[key := before + [Unfolded(value, folds)]])
    decreases |folds|
  {
    if folds == [] {
      assert key in r.headers && r.headers[key := r.headers[key]] == r.headers;
    } else {
      FoldStep(r, key, before, value, folds[0]);
      var next := ReadLine(r, folds[0]);
      FoldsRead(next, key, before, value + " " + Trim(folds[0]), folds[1..]);
    }
  }

  /** A header folded over several lines is read as one value, added under its name. */
  lemma FoldedHeaderRead(r: Reading, h: Header, folds: seq<string>)
    requires r.inHeaders && CleanHeader(h) && AllFolds(folds)
    ensures ReadLines(r, [HeaderLine(h)] + folds).headers
         == r.headers[NormalizeName(h.0) := Get(r.headers, NormalizeName(h.0)) + [Unfolded(Trim(h.1), folds)]]
  {
    var key := NormalizeName(h.0);
    assert ([HeaderLine(h)] + folds)[1..] == folds;
    ReadHeaderLine(r, h);
    var next := ReadLine(r, HeaderLine(h));
    FoldsRead(next, key, Get(r.headers, key), Trim(h.1), folds);
  }
}
