/**
  A relayed answer whose body was replaced: its length header is rewritten in the
  text, and whether a stream reader then finds the whole message.
 */
module RelayedLength {
  import opened Options
  import opened Text
  import opened SipMessages
  import opened ProxyVias
  import opened Framing

  /** The text up to the first `p`, and what follows it if it occurs. */
  function CutOn(s: string, p: string): (string, Option<string>) {
    if StartsWith(s, p) then ("", Some(s[|p|..]))
    else if s == "" then ("", None)
    else
      var (head, tail) := CutOn(s[1..], p);
      ([s[0]] + head, tail)
  }

  function SplitLf(s: string): seq<string>
    decreases |s|
  {
    var (head, tail) := Cut(s, '\n');
    if tail == None then [head] else [head] + SplitLf(tail.value)
  }

  function JoinWith(ls: seq<string>, separator: string): string {
    if ls == [] then "" else if |ls| == 1 then ls[0] else ls[0] + separator + JoinWith(ls[1..], separator)
  }

  predicate IsLongLength(line: string) {
    StartsWith(Lower(line), "content-length:")
  }

  /** All lines but blank ones and the lengths in long form. */
  function KeepLines(lines: seq<string>): seq<string> {
    if lines == [] then []
    else if lines[0] == "" || IsLongLength(lines[0]) then KeepLines(lines[1..])
    else [lines[0]] + KeepLines(lines[1..])
  }

  function Rebuilt(lines: seq<string>, separator: string, body: string): string {
    JoinWith(lines, separator) + separator + "Content-Length: " + Dec(Utf8Size(body)) + (separator + separator) + body
  }

  function RewriteContentLength(raw: string, body: string): string {
    var (head, tail) := CutOn(raw, "\r\n\r\n");
    if tail.Some? then Rebuilt(KeepLines(SplitCrlf(head)), "\r\n", body)
    else
      var (head', tail') := CutOn(raw, "\n\n");
      if tail' == None then raw else Rebuilt(KeepLines(SplitLf(head')), "\n", body)
  }

  // ----- On a printed message ----------------------------------------------------------

  const BLANK := "\r\n\r\n"

  predicate Filled(ls: seq<string>) {
    ls == [] || (OneLine(ls[0]) && ls[0] != "" && Filled(ls[1..]))
  }

  lemma NotBlank(s: string)
    requires |s| < 4 || s[0] != '\r' || s[1] != '\n' || s[3] != '\n'
    ensures !StartsWith(s, BLANK)
  {
    if |s| >= 4 {
      assert s[..4][0] == s[0] && s[..4][1] == s[1] && s[..4][3] == s[3];
    }
  }

  lemma CutPast(c: char, s: string)
    requires !StartsWith([c] + s, BLANK)
    ensures CutOn([c] + s, BLANK) == ([c] + CutOn(s, BLANK).0, CutOn(s, BLANK).1)
  {
    assert ([c] + s)[1..] == s;
  }

  lemma {:induction false} CutPastLine(line: string, tail: string)
    requires OneLine(line) && tail != "" && tail[0] == '\r'
    ensures CutOn(line + tail, BLANK) == (line + CutOn(tail, BLANK).0, CutOn(tail, BLANK).1)
  {
    if line == "" {
      assert line + tail == tail && "" + CutOn(tail, BLANK).0 == CutOn(tail, BLANK).0;
    } else {
      var s := line[1..] + tail;
      assert line + tail == [line[0]] + s;
      assert s[0] == if |line| == 1 then tail[0] else line[1];
      NotBlank([line[0]] + s);
      CutPast(line[0], s);
      CutPastLine(line[1..], tail);
      assert [line[0]] + line[1..] == line;
      Assoc([line[0]], line[1..], CutOn(tail, BLANK).0);
    }
  }

  lemma CutPastBreak(next: string, tail: string)
    requires OneLine(next) && next != "" && tail != "" && tail[0] == '\r'
    ensures var s := next + tail;
            CutOn("\r\n" + s, BLANK) == ("\r\n" + CutOn(s, BLANK).0, CutOn(s, BLANK).1)
  {
    var s := next + tail;
    assert s[0] == next[0] && s[1] == if |next| == 1 then tail[0] else next[1];
    assert "\r\n" + s == ['\r'] + (['\n'] + s);
    NotBlank(['\r'] + (['\n'] + s));
    NotBlank(['\n'] + s);
    CutPast('\n', s);
    CutPast('\r', ['\n'] + s);
    assert ['\r'] + (['\n'] + CutOn(s, BLANK).0) == "\r\n" + CutOn(s, BLANK).0;
  }

  lemma {:induction false} CutAtBlank(lines: seq<string>, body: string)
    requires lines != [] && Filled(lines)
    ensures CutOn(JoinCrlf(lines) + (BLANK + body), BLANK) == (JoinCrlf(lines), Some(body))
  {
    var end := BLANK + body;
    if |lines| == 1 {
      assert end[..4] == BLANK && end[4..] == body;
      CutPastLine(lines[0], end);
      assert lines[0] + "" == lines[0];
    } else {
      var more := JoinCrlf(lines[1..]);
      CutAtBlank(lines[1..], body);
      NextLine(lines[1..], end);
      var next, tail := lines[1], (more + end)[|lines[1]|..];
      CutPastBreak(next, tail);
      CutPastLine(lines[0], "\r\n" + (more + end));
      assert lines[0] + "\r\n" + more + end == lines[0] + ("\r\n" + (more + end));
      Assoc(lines[0], "\r\n", more);
    }
  }

  lemma NextLine(lines: seq<string>, end: string)
    requires lines != [] && end != "" && end[0] == '\r'
    ensures var s := JoinCrlf(lines) + end;
            |lines[0]| < |s| && s == lines[0] + s[|lines[0]|..] && s[|lines[0]|] == '\r'
  {
    if |lines| > 1 {
      assert JoinCrlf(lines)[|lines[0]|] == '\r';
    }
  }

  lemma {:induction false} NoBreakInside(line: string)
    requires OneLine(line)
    ensures CutCrlf(line) == (line, None)
  {
    if line != "" {
      assert |line| >= 2 ==> line[1] != '\n';
      NoBreakInside(line[1..]);
      assert [line[0]] + line[1..] == line;
    }
  }

  lemma {:induction false} SplitJoined(lines: seq<string>)
    requires lines != [] && Filled(lines)
    ensures SplitCrlf(JoinCrlf(lines)) == lines
  {
    if |lines| == 1 {
      NoBreakInside(lines[0]);
    } else {
      SplitStep(lines[0], JoinCrlf(lines[1..]));
      SplitJoined(lines[1..]);
    }
  }

  lemma {:induction false} JoinWithCrlf(ls: seq<string>)
    ensures JoinWith(ls, "\r\n") == JoinCrlf(ls)
  {
    if |ls| > 1 {
      JoinWithCrlf(ls[1..]);
    }
  }

  /** The headers that the rewriting keeps. */
  function KeepHeaders(hs: seq<Header>): seq<Header> {
    if hs == [] then []
    else if IsLongLength(HeaderLine(hs[0])) then KeepHeaders(hs[1..])
    else [hs[0]] + KeepHeaders(hs[1..])
  }

  lemma HeaderLinesAdd(h: Header, rest: seq<Header>)
    ensures HeaderLines([h] + rest) == [HeaderLine(h)] + HeaderLines(rest)
  {
  }

  lemma {:induction false} KeptLines(hs: seq<Header>)
    ensures KeepLines(HeaderLines(hs)) == HeaderLines(KeepHeaders(hs))
  {
    if hs != [] {
      assert hs == [hs[0]] + hs[1..];
      HeaderLinesAdd(hs[0], hs[1..]);
      HeaderLinesAdd(hs[0], KeepHeaders(hs[1..]));
      KeptLines(hs[1..]);
      assert HeaderLines(hs)[1..] == HeaderLines(hs[1..]);
    }
  }

  lemma {:induction false} FilledHeaders(hs: seq<Header>)
    requires OneLineHeaders(hs)
    ensures Filled(HeaderLines(hs)) && OneLineHeaders(KeepHeaders(hs))
  {
    if hs != [] {
      assert HeaderLines(hs)[1..] == HeaderLines(hs[1..]);
      FilledHeaders(hs[1..]);
    }
  }

  lemma {:induction false} PrintedIsJoined(start: string, hs: seq<Header>)
    ensures start + "\r\n" + PrintHeaders(hs) == JoinCrlf([start] + HeaderLines(hs)) + "\r\n"
    decreases |hs|
  {
    if hs == [] {
      assert [start] + HeaderLines(hs) == [start];
      assert start + "\r\n" + "" == start + "\r\n";
    } else {
      var line, rest := HeaderLine(hs[0]), PrintHeaders(hs[1..]);
      PrintedIsJoined(line, hs[1..]);
      assert HeaderLines(hs) == [line] + HeaderLines(hs[1..]);
      JoinStep(start, [line] + HeaderLines(hs[1..]));
      Assoc(start + "\r\n", JoinCrlf([line] + HeaderLines(hs[1..])), "\r\n");
    }
  }

  lemma RebuiltIsPrinted(start: string, hs: seq<Header>, body: string)
    ensures Rebuilt([start] + HeaderLines(hs), "\r\n", body) == Built(start, hs, body)
  {
    var joined, length := JoinCrlf([start] + HeaderLines(hs)), HeaderLine(LengthHeader(body));
    JoinWithCrlf([start] + HeaderLines(hs));
    PrintedIsJoined(start, hs);
    PrintSnoc(hs, LengthHeader(body));
    var text := Rebuilt([start] + HeaderLines(hs), "\r\n", body);
    assert text == joined + "\r\n" + (length + "\r\n") + ("\r\n" + body) by {
      assert "Content-Length: " + Dec(Utf8Size(body)) == length;
      assert joined + "\r\n" + "Content-Length: " + Dec(Utf8Size(body)) == joined + "\r\n" + length;
      assert ("\r\n" + "\r\n") + body == "\r\n" + ("\r\n" + body);
    }
    Assoc(start + "\r\n", PrintHeaders(hs), length + "\r\n");
    Assoc(start + "\r\n", PrintHeaders(hs + [LengthHeader(body)]), "\r\n" + body);
  }

  /** Rewriting a printed message: the long lengths go, the new one comes last, the body is replaced. */
  lemma RewrittenMessage(start: string, hs: seq<Header>, before: string, body: string)
    requires OneLine(start) && start != "" && !IsLongLength(start) && OneLineHeaders(hs)
    ensures RewriteContentLength(PrintMessage(start, hs, before), body) == Built(start, KeepHeaders(hs), body)
  {
    var lines := [start] + HeaderLines(hs);
    FilledHeaders(hs);
    assert lines[1..] == HeaderLines(hs);
    assert PrintMessage(start, hs, before) == JoinCrlf(lines) + (BLANK + before) by {
      PrintedIsJoined(start, hs);
      Assoc(start + "\r\n", PrintHeaders(hs), "\r\n" + before);
      assert JoinCrlf(lines) + "\r\n" + ("\r\n" + before) == JoinCrlf(lines) + (BLANK + before);
    }
    CutAtBlank(lines, before);
    SplitJoined(lines);
    KeptLines(hs);
    RebuiltIsPrinted(start, KeepHeaders(hs), body);
  }

  lemma {:induction false} TakenSize(s: string, n: nat)
    ensures TakeOctets(s, n).Taken? ==> Utf8Size(TakeOctets(s, n).text) == n
  {
    if n != 0 && s != "" && Utf8Width(s[0]) <= n {
      TakenSize(s[1..], n - Utf8Width(s[0]));
      var t := TakeOctets(s[1..], n - Utf8Width(s[0]));
      if t.Taken? {
        assert ([s[0]] + t.text)[1..] == t.text;
      }
    }
  }

  /**
    A stream reader returns the rewritten message whole exactly when no length
    was left in it that can be read, or the first one left happens to be right.
   */
  lemma RelayedReadBack(start: string, hs: seq<Header>, before: string, body: string, rest: string)
    requires GoodStart(start) && !IsLongLength(start) && OneLineHeaders(hs) && Utf8Size(body) <= USIZE_MAX
    ensures var text := RewriteContentLength(PrintMessage(start, hs, before), body);
            var length := FirstLength(KeepHeaders(hs));
            NextMessage(text + rest) == (Message(text), rest) <==> length == None || length == Some(Utf8Size(body))
  {
    var kept := KeepHeaders(hs);
    var all := kept + [LengthHeader(body)];
    assert start != "" by {
      assert Trim("") == "";
    }
    RewrittenMessage(start, hs, before, body);
    FilledHeaders(hs);
    LengthHeaderOneLine(body);
    OneLineConcat(kept, [LengthHeader(body)]);
    LengthRead(body);
    FirstLengthSnoc(kept, LengthHeader(body));
    MessageParts(start, all, body);
    Assoc(HeadOf(start, all), body, rest);
    HeadRead(start, all, body + rest);
    OctetsTaken(body, rest);
    TakenSize(body + rest, FirstLength(all).value);
    SameTail(HeadOf(start, all), body, TakeOctets(body + rest, FirstLength(all).value));
  }

  lemma SameTail(head: string, body: string, taken: Taken)
    ensures taken.Taken? && head + taken.text == head + body ==> taken.text == body
  {
    if taken.Taken? {
      assert (head + taken.text)[|head|..] == taken.text && (head + body)[|head|..] == body;
    }
  }

  /** What is left is a length in compact form. */
  lemma {:induction false} LeftIsCompact(hs: seq<Header>, k: nat)
    requires k < |KeepHeaders(hs)| && LengthOf(HeaderLine(KeepHeaders(hs)[k])).Some?
    ensures StartsWith(Lower(HeaderLine(KeepHeaders(hs)[k])), "l:")
  {
    if IsLongLength(HeaderLine(hs[0])) {
      LeftIsCompact(hs[1..], k);
    } else if k > 0 {
      LeftIsCompact(hs[1..], k - 1);
    }
  }

  lemma TaggedLength(tag: string, digits: string, n: nat)
    requires ':' !in tag && IsLengthLine(HeaderLine((tag, digits)))
    requires Trimmed(digits) && ParseUint(digits, USIZE_MAX) == Some(n)
    ensures LengthOf(HeaderLine((tag, digits))) == Some(n)
  {
    assert HeaderLine((tag, digits)) == tag + [':'] + (" " + digits);
    CutAt(tag, ':', " " + digits);
    TrimSpaced(digits);
    TrimNothing(digits);
  }

  lemma CompactLine(digits: string)
    ensures IsLengthLine(HeaderLine(("l", digits))) && !IsLongLength(HeaderLine(("l", digits)))
  {
    var lower := Lower(HeaderLine(("l", digits)));
    assert lower[..2] == "l:" && lower[0] == 'l' && "content-length:"[0] == 'c';
  }

  /** It does happen: a compact length stays in the text and is read first. */
  lemma CompactStays(n: nat)
    requires n <= USIZE_MAX
    ensures FirstLength(KeepHeaders([("l", Dec(n))])) == Some(n)
  {
    var h := ("l", Dec(n));
    CompactLine(Dec(n));
    DecIsWord(n);
    ParseDec(n, USIZE_MAX);
    TaggedLength("l", Dec(n), n);
    assert [h][1..] == [] && KeepHeaders([h]) == [h];
  }
}
