/**
  Strings the way the server's text handling sees them: whitespace, trimming,
  tokens, lines and decimal numbers, with the laws that relate printing to
  reading back.
 */
module Text {
  import opened Options

  /** Unicode White_Space. */
  predicate IsWhite(c: char) {
    || c == ' ' || ('\t' <= c <= '\r') || c == '\U{85}' || c == '\U{A0}' || c == '\U{1680}'
    || ('\U{2000}' <= c <= '\U{200A}') || c == '\U{2028}' || c == '\U{2029}'
    || c == '\U{202F}' || c == '\U{205F}' || c == '\U{3000}'
  }

  /** A non-empty word without whitespace. */
  predicate Word(s: string) {
    s != "" && forall i :: 0 <= i < |s| ==> !IsWhite(s[i])
  }

  predicate StartsWith(s: string, p: string) {
    |p| <= |s| && s[..|p|] == p
  }

  function TrimStart(s: string): (r: string)
    ensures |r| <= |s|
    ensures r != "" ==> !IsWhite(r[0])
  {
    if s != "" && IsWhite(s[0]) then TrimStart(s[1..]) else s
  }

  function TrimEnd(s: string): (r: string)
    ensures |r| <= |s|
  {
    if s != "" && IsWhite(s[|s| - 1]) then TrimEnd(s[..|s| - 1]) else s
  }

  function Trim(s: string): string {
    TrimEnd(TrimStart(s))
  }

  /** No whitespace at either end. */
  predicate Trimmed(s: string) {
    s == "" || (!IsWhite(s[0]) && !IsWhite(s[|s| - 1]))
  }

  lemma {:induction false} TrimEndKeeps(s: string)
    ensures TrimEnd(s) == s[..|TrimEnd(s)|]
    ensures TrimEnd(s) != "" ==> !IsWhite(TrimEnd(s)[|TrimEnd(s)| - 1])
  {
    if s != "" && IsWhite(s[|s| - 1]) {
      TrimEndKeeps(s[..|s| - 1]);
    }
  }

  lemma {:induction false} TrimStartKeeps(s: string)
    ensures TrimStart(s) == s[|s| - |TrimStart(s)|..]
  {
    if s != "" && IsWhite(s[0]) {
      TrimStartKeeps(s[1..]);
    }
  }

  /** Trimming gives a trimmed part of the text. */
  lemma TrimIs(s: string)
    ensures Trimmed(Trim(s))
    ensures forall c :: c in Trim(s) ==> c in s
  {
    TrimStartKeeps(s);
    TrimEndKeeps(TrimStart(s));
  }

  lemma TrimNothing(s: string)
    requires Trimmed(s)
    ensures Trim(s) == s
  {
  }

  lemma TrimHead(l: string)
    requires l != "" && !IsWhite(l[0])
    ensures Trim(l) != "" && Trim(l)[0] == l[0]
  {
    assert TrimStart(l) == l;
    TrimEndHead(l);
  }

  lemma {:induction false} TrimEndHead(l: string)
    requires l != "" && !IsWhite(l[0])
    ensures TrimEnd(l) != "" && TrimEnd(l)[0] == l[0]
  {
    if IsWhite(l[|l| - 1]) {
      TrimEndHead(l[..|l| - 1]);
    }
  }

  // ----- Letter case (ASCII) ----------------------------------------------------

  function LowerChar(c: char): char {
    if 'A' <= c <= 'Z' then (c as int + 32) as char else c
  }

  function UpperChar(c: char): char {
    if 'a' <= c <= 'z' then (c as int - 32) as char else c
  }

  function Lower(s: string): string {
    seq(|s|, i requires 0 <= i < |s| => LowerChar(s[i]))
  }

  function Upper(s: string): string {
    seq(|s|, i requires 0 <= i < |s| => UpperChar(s[i]))
  }

  // ----- Tokens --------------------------------------------------------------

  /** The longest prefix without whitespace. */
  function FirstWord(s: string): (w: string)
    ensures |w| <= |s| && s[..|w|] == w
    ensures forall i :: 0 <= i < |w| ==> !IsWhite(w[i])
    ensures |w| < |s| ==> IsWhite(s[|w|])
  {
    if s == "" || IsWhite(s[0]) then "" else [s[0]] + FirstWord(s[1..])
  }

  /** split_whitespace */
  function Tokens(s: string): (ts: seq<string>)
    ensures forall i :: 0 <= i < |ts| ==> Word(ts[i])
    decreases |s|
  {
    var t := TrimStart(s);
    if t == "" then [] else var w := FirstWord(t); [w] + Tokens(t[|w|..])
  }

  lemma {:induction false} TokensTrim(s: string)
    ensures Tokens(TrimStart(s)) == Tokens(s)
  {
    if s != "" && IsWhite(s[0]) {
      TokensTrim(s[1..]);
      assert TrimStart(s) == TrimStart(s[1..]);
    }
  }

  lemma {:induction false} FirstWordStops(w: string, rest: string)
    requires (forall i :: 0 <= i < |w| ==> !IsWhite(w[i])) && (rest == "" || IsWhite(rest[0]))
    ensures FirstWord(w + rest) == w
  {
    if w == "" {
      assert w + rest == rest;
    } else {
      assert (w + rest)[1..] == w[1..] + rest;
      FirstWordStops(w[1..], rest);
    }
  }

  /** A word is the first token of what begins with it and goes on with whitespace. */
  lemma TokensCons(w: string, rest: string)
    requires Word(w) && (rest == "" || IsWhite(rest[0]))
    ensures Tokens(w + rest) == [w] + Tokens(rest)
  {
    var s := w + rest;
    assert s[0] == w[0];
    assert TrimStart(s) == s;
    FirstWordStops(w, rest);
    assert s[|w|..] == rest;
  }

  lemma TokensSpace(c: char, rest: string)
    requires IsWhite(c)
    ensures Tokens([c] + rest) == Tokens(rest)
  {
    TokensTrim([c] + rest);
    TokensTrim(rest);
    assert ([c] + rest)[1..] == rest;
  }

  /** A text begins with one whitespace character or with one whole token. */
  predicate Leads(head: string, rest: string) {
    (|head| == 1 && IsWhite(head[0])) || (Word(head) && (rest == "" || IsWhite(rest[0])))
  }

  function TokenOf(head: string): seq<string> {
    if Word(head) then [head] else []
  }

  lemma TokensLead(head: string, rest: string)
    requires Leads(head, rest)
    ensures Tokens(head + rest) == TokenOf(head) + Tokens(rest)
  {
    if Word(head) {
      TokensCons(head, rest);
    } else {
      assert head == [head[0]];
      TokensSpace(head[0], rest);
    }
  }

  lemma Lead(s: string) returns (head: string, rest: string)
    requires s != ""
    ensures s == head + rest && |rest| < |s| && Leads(head, rest)
    ensures Tokens(s) == TokenOf(head) + Tokens(rest)
  {
    head := if IsWhite(s[0]) then s[..1] else FirstWord(s);
    rest := s[|head|..];
    assert s == head + rest;
    TokensLead(head, rest);
  }

  lemma Assoc<T>(a: seq<T>, b: seq<T>, c: seq<T>)
    ensures a + b + c == a + (b + c)
  {
  }

  lemma Pair<T>(a: T, b: T, rest: seq<T>)
    ensures [a] + ([b] + rest) == [a, b] + rest
  {
  }

  lemma {:induction false} TokensBreak(a: string, s: string)
    requires s != "" && IsWhite(s[0])
    ensures Tokens(a + s) == Tokens(a) + Tokens(s)
    decreases |a|
  {
    if a == "" {
      assert a + s == s;
    } else {
      var head, rest := Lead(a);
      var tail := rest + s;
      Assoc(head, rest, s);
      assert tail[0] == if rest == "" then s[0] else rest[0];
      TokensLead(head, tail);
      TokensBreak(rest, s);
      Assoc(TokenOf(head), Tokens(rest), Tokens(s));
    }
  }

  /** Whitespace separates tokens and does nothing else. */
  lemma TokensSplit(a: string, c: char, b: string)
    requires IsWhite(c)
    ensures Tokens(a + [c] + b) == Tokens(a) + Tokens(b)
  {
    assert a + [c] + b == a + ([c] + b);
    TokensBreak(a, [c] + b);
    TokensSpace(c, b);
  }

  predicate EndsInWord(s: string) {
    s != "" && !IsWhite(s[|s| - 1])
  }

  /** Joining two texts at a place without whitespace on either side loses exactly one token. */
  lemma {:induction false} TokensGlue(a: string, s: string)
    requires s != "" && !IsWhite(s[0])
    ensures |Tokens(a + s)| == |Tokens(a)| + |Tokens(s)| - (if EndsInWord(a) then 1 else 0)
    decreases |a|
  {
    if a == "" {
      assert a + s == s;
    } else {
      var head, rest := Lead(a);
      var tail := rest + s;
      Assoc(head, rest, s);
      if rest == "" && Word(head) {
        assert a == head;
        WordGlue(a, s);
      } else {
        assert tail[0] == if rest == "" then s[0] else rest[0];
        assert EndsInWord(a) <==> EndsInWord(rest) by {
          assert rest != "" ==> a[|a| - 1] == rest[|rest| - 1];
        }
        TokensLead(head, tail);
        TokensGlue(rest, s);
      }
    }
  }

  lemma WordGlue(w: string, s: string)
    requires Word(w) && s != "" && !IsWhite(s[0])
    ensures Tokens(s) != [] && Tokens(w + s) == [w + Tokens(s)[0]] + Tokens(s)[1..]
  {
    var first := FirstWord(s);
    var rest := s[|first|..];
    assert s == first + rest && w + s == (w + first) + rest;
    TokensCons(first, rest);
    TokensCons(w + first, rest);
  }

  lemma {:induction false} TrimStartOf(a: string, s: string)
    ensures TrimStart(a) != "" ==> TrimStart(a + s) == TrimStart(a) + s
    ensures TrimStart(a) == "" ==> TrimStart(a + s) == TrimStart(s)
  {
    if a == "" {
      assert a + s == s;
    } else if IsWhite(a[0]) {
      assert (a + s)[1..] == a[1..] + s;
      TrimStartOf(a[1..], s);
    }
  }

  lemma TokensOfTrimmed(a: string, s: string)
    requires Tokens(a) == []
    ensures Tokens(a + s) == Tokens(s)
  {
    TrimStartOf(a, s);
    TokensTrim(a + s);
    TokensTrim(s);
  }

  /** A single token at the end of a text, glued to what follows. */
  lemma OneTokenGlue(a: string, s: string)
    requires |Tokens(a)| == 1 && EndsInWord(a) && s != "" && !IsWhite(s[0])
    ensures Tokens(s) != [] && Tokens(a + s) == [Tokens(a)[0] + Tokens(s)[0]] + Tokens(s)[1..]
  {
    var t := TrimStart(a);
    var w := FirstWord(t);
    TrimStartEnd(a);
    assert Tokens(a) == [w] + Tokens(t[|w|..]);
    if t[|w|..] != "" {
      EndsInToken(t[|w|..]);
    }
    assert t == w;
    TrimStartOf(a, s);
    TokensTrim(a + s);
    WordGlue(w, s);
  }

  lemma {:induction false} TrimStartEnd(a: string)
    requires EndsInWord(a)
    ensures EndsInWord(TrimStart(a)) && TrimStart(a)[|TrimStart(a)| - 1] == a[|a| - 1]
  {
    if IsWhite(a[0]) {
      TrimStartEnd(a[1..]);
    }
  }

  lemma EndsInToken(a: string)
    requires EndsInWord(a)
    ensures Tokens(a) != []
  {
    TrimStartEnd(a);
  }

  /** The first token begins where the text does, unless that is whitespace. */
  lemma FirstToken(s: string)
    requires s != "" && !IsWhite(s[0])
    ensures Tokens(s) != [] && Tokens(s)[0][0] == s[0]
  {
    assert TrimStart(s) == s;
    var w := FirstWord(s);
    assert w[0] == s[..|w|][0];
  }

  /** The printing side: a word, one space, and the rest. */
  lemma TokensWord(w: string, rest: string)
    requires Word(w)
    ensures Tokens(w + " " + rest) == [w] + Tokens(rest)
    ensures Tokens(w) == [w]
  {
    assert w + " " + rest == w + (" " + rest);
    TokensCons(w, " " + rest);
    TokensSpace(' ', rest);
    TokensCons(w, "");
    assert w + "" == w;
  }

  // ----- Cutting at a separator ----------------------------------------------

  /** The part before the first `c`, and what follows it if there is one. */
  function Cut(s: string, c: char): (r: (string, Option<string>))
    ensures c !in r.0
    ensures r.1.None? ==> s == r.0
    ensures r.1.Some? ==> s == r.0 + [c] + r.1.value
  {
    if s == "" then ("", None)
    else if s[0] == c then ("", Some(s[1..]))
    else
      var (head, tail) := Cut(s[1..], c);
      ([s[0]] + head, tail)
  }

  lemma {:induction false} CutAt(head: string, c: char, tail: string)
    requires c !in head
    ensures Cut(head + [c] + tail, c) == (head, Some(tail))
  {
    var s := head + [c] + tail;
    if head == "" {
      assert s == [c] + tail;
    } else {
      assert s[1..] == head[1..] + [c] + tail;
      assert c !in head[1..] && s[0] == head[0] && head[0] != c;
      CutAt(head[1..], c, tail);
      assert [s[0]] + head[1..] == head;
    }
  }

  lemma {:induction false} CutNone(s: string, c: char)
    requires c !in s
    ensures Cut(s, c) == (s, None)
  {
    if s != "" {
      CutNone(s[1..], c);
    }
  }

  lemma {:induction false} CutLonger(s: string, c: char, tail: string)
    ensures Cut(s + [c] + tail, c).0 == Cut(s, c).0
  {
    if s == "" {
      assert s + [c] + tail == [c] + tail;
    } else if s[0] != c {
      assert (s + [c] + tail)[1..] == s[1..] + [c] + tail;
      CutLonger(s[1..], c, tail);
    }
  }

  // ----- Lines ---------------------------------------------------------------

  function StripCr(s: string): string {
    if s != "" && s[|s| - 1] == '\r' then s[..|s| - 1] else s
  }

  /** str::lines */
  function Lines(s: string): seq<string>
    decreases |s|
  {
    if s == "" then []
    else
      var (line, rest) := Cut(s, '\n');
      if rest == None then [line] else [StripCr(line)] + Lines(rest.value)
  }

  lemma LinesCons(l: string, rest: string)
    requires '\n' !in l
    ensures Lines(l + "\r\n" + rest) == [l] + Lines(rest)
  {
    CutAt(l + "\r", '\n', rest);
    assert l + "\r\n" + rest == (l + "\r") + ['\n'] + rest;
    assert StripCr(l + "\r") == l;
  }

  /** join("\r\n") */
  function JoinCrlf(ls: seq<string>): string {
    if ls == [] then "" else if |ls| == 1 then ls[0] else ls[0] + "\r\n" + JoinCrlf(ls[1..])
  }

  predicate OneLine(s: string) {
    '\n' !in s
  }

  ghost predicate AllOneLine(ls: seq<string>) {
    forall i :: 0 <= i < |ls| ==> OneLine(ls[i])
  }

  lemma {:induction false} LinesAreOneLine(s: string)
    ensures AllOneLine(Lines(s))
    decreases |s|
  {
    if s != "" {
      var (line, rest) := Cut(s, '\n');
      if rest.Some? {
        LinesAreOneLine(rest.value);
      }
    }
  }

  predicate EndsBlank(ls: seq<string>) {
    ls != [] && ls[|ls| - 1] == ""
  }

  function DropBlankEnd(ls: seq<string>): seq<string> {
    if EndsBlank(ls) then ls[..|ls| - 1] else ls
  }

  /** Joined lines are read back, but for an empty last line. */
  lemma {:induction false} LinesJoin(ls: seq<string>)
    requires AllOneLine(ls)
    ensures Lines(JoinCrlf(ls)) == DropBlankEnd(ls)
  {
    if |ls| == 1 {
      CutNone(ls[0], '\n');
    } else if |ls| > 1 {
      LinesJoin(ls[1..]);
      LinesCons(ls[0], JoinCrlf(ls[1..]));
      assert DropBlankEnd(ls) == [ls[0]] + DropBlankEnd(ls[1..]);
    }
  }

  lemma {:induction false} JoinBlank(ls: seq<string>)
    requires ls != []
    ensures JoinCrlf(ls + [""]) == JoinCrlf(ls) + "\r\n"
  {
    var all := ls + [""];
    assert all[1..] == ls[1..] + [""];
    if |ls| > 1 {
      JoinBlank(ls[1..]);
    }
  }

  lemma JoinDrops(ls: seq<string>)
    ensures JoinCrlf(DropBlankEnd(ls)) == JoinCrlf(ls) <==> !(|ls| >= 2 && EndsBlank(ls))
  {
    if EndsBlank(ls) {
      var front := DropBlankEnd(ls);
      assert ls == front + [""];
      if front == [] {
        assert ls == [""];
      } else {
        JoinBlank(front);
        assert |JoinCrlf(ls)| == |JoinCrlf(front)| + 2;
      }
    }
  }

  /** Every line break is CRLF, and the text does not end in one. */
  predicate CrlfText(s: string) {
    && (s != "" ==> s[|s| - 1] != '\n')
    && forall i :: 0 <= i < |s| && s[i] == '\n' ==> i > 0 && s[i - 1] == '\r'
  }

  lemma CrlfSplit(line: string, rest: string)
    requires '\n' !in line && rest != ""
    ensures CrlfText(line + ['\n'] + rest) <==> line != "" && line[|line| - 1] == '\r' && CrlfText(rest)
  {
    var s := line + ['\n'] + rest;
    var n := |line|;
    assert s[n] == '\n' && s[..n] == line && s[n + 1..] == rest;
    assert forall i :: 0 <= i < n ==> s[i] == line[i] && line[i] != '\n';
    if CrlfText(s) {
      assert s[n - 1] == line[n - 1];
      assert rest[|rest| - 1] == s[|s| - 1];
      forall i | 0 <= i < |rest| && rest[i] == '\n'
        ensures i > 0 && rest[i - 1] == '\r'
      {
        assert s[n + 1 + i] == '\n';
      }
    } else if line != "" && line[n - 1] == '\r' && CrlfText(rest) {
      assert s[n - 1] == '\r';
      assert s[|s| - 1] == rest[|rest| - 1];
      forall i | 0 <= i < |s| && s[i] == '\n'
        ensures i > 0 && s[i - 1] == '\r'
      {
        assert i >= n;
        if i > n {
          assert s[i] == rest[i - n - 1];
        }
      }
    }
  }

  /** Splitting a text into lines and joining them again keeps it exactly when its line breaks are CRLF. */
  lemma {:induction false} LinesKeep(s: string)
    ensures JoinCrlf(Lines(s)) == s <==> CrlfText(s)
    decreases |s|
  {
    if s != "" {
      var (line, tail) := Cut(s, '\n');
      if tail == None {
        assert s == line;
      } else {
        var rest := tail.value;
        if rest == "" {
          assert s[|s| - 1] == '\n';
          assert JoinCrlf(Lines(s)) == StripCr(line);
        } else {
          LinesKeep(rest);
          CrlfSplit(line, rest);
          JoinStep(StripCr(line), Lines(rest));
          BreakKept(line, rest, JoinCrlf(Lines(rest)));
        }
      }
    }
  }

  lemma JoinStep(line: string, ls: seq<string>)
    requires ls != []
    ensures JoinCrlf([line] + ls) == line + "\r\n" + JoinCrlf(ls)
  {
    assert ([line] + ls)[1..] == ls;
  }

  lemma BreakKept(line: string, rest: string, joined: string)
    ensures StripCr(line) + "\r\n" + joined == line + ['\n'] + rest
       <==> line != "" && line[|line| - 1] == '\r' && joined == rest
  {
    var a, b := StripCr(line) + "\r\n" + joined, line + ['\n'] + rest;
    if line != "" && line[|line| - 1] == '\r' {
      assert StripCr(line) + "\r\n" == line + ['\n'];
      assert a[|line| + 1..] == joined && b[|line| + 1..] == rest;
    } else {
      assert a[|line|] == '\r' && b[|line|] == '\n';
    }
  }

  // ----- Octets ----------------------------------------------------------------

  function Utf8Width(c: char): nat {
    if c as int < 0x80 then 1 else if c as int < 0x800 then 2 else if c as int < 0x1_0000 then 3 else 4
  }

  /** The length of a text in octets. */
  function Utf8Size(s: string): nat {
    if s == "" then 0 else Utf8Width(s[0]) + Utf8Size(s[1..])
  }

  // ----- Decimal numbers -----------------------------------------------------

  predicate IsDigit(c: char) {
    '0' <= c <= '9'
  }

  function Digit(d: nat): (c: char)
    requires d < 10
    ensures IsDigit(c)
  {
    ('0' as int + d) as char
  }

  function Dec(n: nat): (s: string)
    ensures s != "" && forall i :: 0 <= i < |s| ==> IsDigit(s[i])
  {
    if n < 10 then [Digit(n)] else Dec(n / 10) + [Digit(n % 10)]
  }

  function DigitsValue(s: string): Option<nat> {
    if s == "" then Some(0)
    else
      var head, c := DigitsValue(s[..|s| - 1]), s[|s| - 1];
      if head == None || !IsDigit(c) then None else Some(10 * head.value + (c as int - '0' as int))
  }

  /** str::parse for an unsigned integer type with maximum `max`. */
  function ParseUint(s: string, max: nat): Option<nat> {
    var digits := if s != "" && s[0] == '+' then s[1..] else s;
    var v := DigitsValue(digits);
    if digits == "" || v == None || v.value > max then None else v
  }

  lemma {:induction false} DecValue(n: nat)
    ensures DigitsValue(Dec(n)) == Some(n)
  {
    if n >= 10 {
      DecValue(n / 10);
      assert Dec(n)[..|Dec(n)| - 1] == Dec(n / 10);
    } else {
      assert Dec(n)[..0] == "";
    }
  }

  /** A printed number is read back when it fits. */
  lemma ParseDec(n: nat, max: nat)
    ensures ParseUint(Dec(n), max) == if n <= max then Some(n) else None
  {
    DecValue(n);
    assert IsDigit(Dec(n)[0]);
  }

  lemma DecIsWord(n: nat)
    ensures Word(Dec(n))
    ensures forall c :: c in Dec(n) ==> IsDigit(c)
  {
  }
}
