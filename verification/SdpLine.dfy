/**
  One line of a session description: what makes it an m= or c= line, its port,
  and the replacement of that port.  The port is read between any whitespace,
  but replaced between single spaces; `RewriteExact` says for which lines the
  two agree.
 */
module SdpLine {
  import opened Options
  import opened Text

  predicate IsMedia(line: string) {
    StartsWith(TrimStart(line), "m=")
  }

  /** An IPv4 connection line. */
  predicate IsIp4(line: string) {
    StartsWith(TrimStart(line), "c=IN IP4 ")
  }

  predicate IsSupported(line: string) {
    var t := TrimStart(line);
    StartsWith(t, "m=audio ") || StartsWith(t, "m=audio\t") || StartsWith(t, "m=video ") || StartsWith(t, "m=video\t")
  }

  function MediaPort(token: string): Option<nat> {
    ParseUint(Cut(token, '/').0, 65535)
  }

  function LinePort(line: string): Option<nat> {
    var ts := Tokens(line);
    if |ts| < 2 then None else MediaPort(ts[1])
  }

  /** The number of ports, with its slash, that may follow a port. */
  function CountSuffix(field: string): string {
    var (port, count) := Cut(field, '/');
    if count == None then "" else "/" + count.value
  }

  /** The four parts of splitn(4, ' '), the missing ones filled in. */
  datatype Fields = Fields(media: string, port: string, proto: string, formats: string)

  function SplitFields(line: string): Fields {
    var (media, afterMedia) := Cut(line, ' ');
    var (port, afterPort) := if afterMedia == None then ("0", None) else Cut(afterMedia.value, ' ');
    var (proto, afterProto) := if afterPort == None then ("", None) else Cut(afterPort.value, ' ');
    Fields(media, port, proto, if afterProto == None then "" else afterProto.value)
  }

  function PrintFields(f: Fields, port: nat): string {
    var head := f.media + " " + Dec(port) + CountSuffix(f.port) + " " + f.proto;
    if f.formats == "" then head else head + " " + f.formats
  }

  function RewritePort(line: string, port: nat): string {
    PrintFields(SplitFields(line), port)
  }

  // ----- Which lines are rewritten as they are read ----------------------------

  /** The rewritten line reads as the old one with only its port number changed. */
  predicate Relocates(line: string, port: nat) {
    var ts := Tokens(line);
    |ts| >= 2 && Tokens(RewritePort(line, port)) == [ts[0], Dec(port) + CountSuffix(ts[1])] + ts[2..]
  }

  /**
    The first space ends the media token and not more, and the field after it
    holds the port and not more (before its count, if it has one).  Section 5.14
    of RFC 4566 asks for single spaces, which meets this.
   */
  predicate Regular(line: string) {
    var f := SplitFields(line);
    var (port, count) := Cut(f.port, '/');
    ' ' in line && |Tokens(f.media)| == 1 && |Tokens(port)| == 1 && (count.Some? ==> EndsInWord(port))
  }

  /** Everything after the port field. */
  function Remainder(f: Fields): string {
    if f.formats == "" then f.proto else f.proto + " " + f.formats
  }

  lemma PrintForm(f: Fields, port: nat)
    ensures PrintFields(f, port) == f.media + [' '] + (Dec(port) + CountSuffix(f.port) + [' '] + Remainder(f))
  {
    var media, digits, suffix := f.media + [' '], Dec(port), CountSuffix(f.port);
    var field := digits + suffix;
    Assoc(media, digits, suffix);
    Assoc(media, field, [' ']);
    Assoc(media, field + [' '], f.proto);
    if f.formats != "" {
      var tail := [' '] + f.formats;
      Assoc(media + (field + [' '] + f.proto), [' '], f.formats);
      Assoc(media, field + [' '] + f.proto, tail);
      Assoc(field + [' '], f.proto, tail);
      Assoc(f.proto, [' '], f.formats);
    }
  }

  lemma PrintTokens(f: Fields, port: nat)
    ensures Tokens(PrintFields(f, port))
         == Tokens(f.media) + (Tokens(Dec(port) + CountSuffix(f.port)) + Tokens(Remainder(f)))
  {
    var field := Dec(port) + CountSuffix(f.port);
    PrintForm(f, port);
    TokensSplit(f.media, ' ', field + [' '] + Remainder(f));
    TokensSplit(field, ' ', Remainder(f));
  }

  lemma SplitTokens(line: string)
    requires ' ' in line
    ensures var f := SplitFields(line); Tokens(line) == Tokens(f.media) + (Tokens(f.port) + Tokens(Remainder(f)))
  {
    var f := SplitFields(line);
    var tail := Cut(line, ' ').1.value;
    TokensSplit(f.media, ' ', tail);
    var after := Cut(tail, ' ').1;
    if after == None {
      assert Tokens("") == [];
      assert Tokens(f.port) + [] == Tokens(f.port);
    } else {
      TokensSplit(f.port, ' ', after.value);
      var last := Cut(after.value, ' ').1;
      if last.Some? && last.value == "" {
        TokensSplit(f.proto, ' ', "");
        assert Tokens(f.proto) + [] == Tokens(f.proto);
      }
    }
  }

  lemma FieldParts(field: string)
    ensures field == Cut(field, '/').0 + CountSuffix(field)
    ensures CountSuffix(field) != "" ==> CountSuffix(field)[0] == '/'
    ensures CountSuffix(field) == "" <==> Cut(field, '/').1 == None
  {
    var (port, count) := Cut(field, '/');
    if count.Some? {
      assert port + ['/'] + count.value == port + ("/" + count.value);
    }
  }

  lemma SuffixOf(digits: string, suffix: string)
    requires '/' !in digits && (suffix != "" ==> suffix[0] == '/')
    ensures Cut(digits + suffix, '/').0 == digits && CountSuffix(digits + suffix) == suffix
  {
    if suffix == "" {
      assert digits + suffix == digits;
      CutNone(digits, '/');
    } else {
      assert suffix == ['/'] + suffix[1..];
      Assoc(digits, ['/'], suffix[1..]);
      CutAt(digits, '/', suffix[1..]);
    }
  }

  lemma PortOfDec(port: nat, suffix: string)
    requires port <= 65535 && (suffix != "" ==> suffix[0] == '/')
    ensures MediaPort(Dec(port) + suffix) == Some(port)
  {
    DecIsWord(port);
    SuffixOf(Dec(port), suffix);
    ParseDec(port, 65535);
  }

  lemma RegularField(field: string, digits: string)
    requires var (p, count) := Cut(field, '/'); |Tokens(p)| == 1 && (count.Some? ==> EndsInWord(p))
    requires Word(digits) && '/' !in digits
    ensures var ts := Tokens(field);
            ts != [] && Tokens(digits + CountSuffix(field)) == [digits + CountSuffix(ts[0])] + ts[1..]
  {
    var p := Cut(field, '/').0;
    var suffix := CountSuffix(field);
    var w := Tokens(p)[0];
    FieldParts(field);
    TokenChars(p, '/');
    if suffix == "" {
      assert p + suffix == p && digits + suffix == digits;
      TokensWord(digits, "");
      SuffixOf(w, "");
      assert w + "" == w && digits + "" == digits;
    } else {
      OneTokenGlue(p, suffix);
      WordGlue(digits, suffix);
      FirstToken(suffix);
      SuffixOf(w, Tokens(suffix)[0]);
    }
  }

  /** A token holds no character that its text does not hold. */
  lemma {:induction false} TokenChars(s: string, c: char)
    requires c !in s
    ensures forall i :: 0 <= i < |Tokens(s)| ==> c !in Tokens(s)[i]
    decreases |s|
  {
    if s != "" {
      var head, rest := Lead(s);
      TokenChars(rest, c);
    }
  }

  lemma Splice<T>(one: seq<T>, field: seq<T>, rest: seq<T>, x: T)
    requires |one| == 1 && field != []
    ensures var whole := one + (field + rest);
            |whole| >= 2 && whole[0] == one[0] && whole[1] == field[0]
            && one + (([x] + field[1..]) + rest) == [one[0], x] + whole[2..]
  {
  }

  lemma RegularRelocates(line: string, port: nat)
    requires Regular(line)
    ensures Relocates(line, port)
  {
    var f := SplitFields(line);
    SplitTokens(line);
    PrintTokens(f, port);
    DecIsWord(port);
    RegularField(f.port, Dec(port));
    Splice(Tokens(f.media), Tokens(f.port), Tokens(Remainder(f)), Dec(port) + CountSuffix(Tokens(f.port)[0]));
  }

  lemma ManyMediaTokens(line: string, port: nat)
    requires LinePort(line).Some? && LinePort(line) != Some(port) && port <= 65535
    requires |Tokens(SplitFields(line).media)| >= 2
    ensures !Relocates(line, port)
  {
    var f := SplitFields(line);
    var ts := Tokens(line);
    assert ts[1] == Tokens(f.media)[1] by {
      if ' ' in line { SplitTokens(line); }
    }
    var out := Tokens(RewritePort(line, port));
    assert out[1] == ts[1] by {
      PrintTokens(f, port);
    }
    var moved := Dec(port) + CountSuffix(ts[1]);
    assert moved != ts[1] by {
      FieldParts(ts[1]);
      PortOfDec(port, CountSuffix(ts[1]));
    }
    assert ([ts[0], moved] + ts[2..])[1] == moved;
  }

  lemma NoMediaToken(line: string, port: nat)
    requires IsMedia(line)
    requires Tokens(SplitFields(line).media) == []
    ensures !Relocates(line, port)
  {
    var f := SplitFields(line);
    var field := Dec(port) + CountSuffix(f.port);
    var out := Tokens(RewritePort(line, port));
    assert out != [] && IsDigit(out[0][0]) by {
      PrintTokens(f, port);
      DecIsWord(port);
      FirstToken(field);
      assert IsDigit(Dec(port)[0]) && field[0] == Dec(port)[0];
    }
    var ts := Tokens(line);
    assert ts != [] && ts[0][0] == 'm' by {
      MediaToken(line);
      assert "m="[0] == 'm';
    }
  }

  lemma RelocatesRegular(line: string, port: nat)
    requires IsMedia(line) && LinePort(line).Some? && LinePort(line) != Some(port) && port <= 65535
    requires Relocates(line, port)
    ensures Regular(line)
  {
    var f := SplitFields(line);
    if |Tokens(f.media)| >= 2 {
      ManyMediaTokens(line, port);
    } else if Tokens(f.media) == [] {
      NoMediaToken(line, port);
    } else {
      PrintTokens(f, port);
      SplitTokens(line);
      assert Tokens(f.port) != [] ==> Tokens(line)[1] == Tokens(f.port)[0];
      RegularCount(f.port, port);
    }
  }

  lemma NoPortDigits(p: string, suffix: string)
    requires Tokens(p) == [] && suffix != "" && suffix[0] == '/'
    ensures Tokens(p + suffix) != [] && MediaPort(Tokens(p + suffix)[0]) == None
  {
    TokensOfTrimmed(p, suffix);
    FirstToken(suffix);
    var t := Tokens(suffix)[0];
    SuffixOf("", t);
    assert "" + t == t;
  }

  lemma RegularCount(field: string, port: nat)
    requires |Tokens(Dec(port) + CountSuffix(field))| == |Tokens(field)|
    requires Tokens(field) != [] ==> MediaPort(Tokens(field)[0]).Some?
    ensures var (p, count) := Cut(field, '/'); |Tokens(p)| == 1 && (count.Some? ==> EndsInWord(p))
  {
    var (p, count) := Cut(field, '/');
    var suffix := CountSuffix(field);
    FieldParts(field);
    DecIsWord(port);
    TokensWord(Dec(port), "");
    if suffix == "" {
      assert Dec(port) + suffix == Dec(port) && p + suffix == p;
    } else {
      TokensGlue(Dec(port), suffix);
      TokensGlue(p, suffix);
      if !EndsInWord(p) {
        NoPortDigits(p, suffix);
      }
    }
  }

  lemma FirstWordPrefix(t: string, w: string)
    requires w == FirstWord(t)
    ensures StartsWith(t, "m=") <==> StartsWith(w, "m=")
  {
    assert t[..|w|] == w;
    if StartsWith(t, "m=") {
      assert t[..2][0] == 'm' && t[..2][1] == '=';
      assert |w| >= 2;
    }
    assert |w| >= 2 ==> w[..2] == t[..2];
  }

  /** An m= line is known by its first token. */
  lemma MediaToken(line: string)
    ensures IsMedia(line) <==> Tokens(line) != [] && StartsWith(Tokens(line)[0], "m=")
  {
    var t := TrimStart(line);
    if t != "" {
      var w := FirstWord(t);
      assert Tokens(line)[0] == w;
      FirstWordPrefix(t, w);
    }
  }

  /**
    Given a new port, the rewritten m= line reads as the old one with the port
    replaced exactly when the line is regular.
   */
  lemma RewriteExact(line: string, port: nat)
    requires IsMedia(line) && LinePort(line).Some? && LinePort(line) != Some(port) && port <= 65535
    ensures Relocates(line, port) <==> Regular(line)
  {
    if Relocates(line, port) {
      RelocatesRegular(line, port);
    }
    if Regular(line) {
      RegularRelocates(line, port);
    }
  }

  // ----- Lines that are not regular -----------------------------------------------

  lemma AudioLine(line: string, port: nat, more: seq<string>)
    requires Tokens(line) == ["m=audio", Dec(port)] + more && port <= 65535
    ensures IsMedia(line) && LinePort(line) == Some(port)
  {
    assert "m=audio"[..2] == "m=";
    MediaToken(line);
    PortOfDec(port, "");
    assert Dec(port) + "" == Dec(port);
  }

  lemma WordTokens(w: string, c: char, rest: string)
    requires Word(w) && IsWhite(c)
    ensures Tokens(w + [c] + rest) == [w] + Tokens(rest) && Tokens(w) == [w]
  {
    TokensSplit(w, c, rest);
    TokensWord(w, "");
  }

  lemma SpacedTokens(tag: string, digits: string, rest: string)
    requires Word(tag) && Word(digits)
    ensures Tokens(tag + [' '] + (digits + [' '] + rest)) == [tag, digits] + Tokens(rest)
  {
    WordTokens(digits, ' ', rest);
    WordTokens(tag, ' ', digits + [' '] + rest);
    Pair(tag, digits, Tokens(rest));
  }

  lemma TabbedTokens(tag: string, digits: string, rest: string)
    requires Word(tag) && Word(digits)
    ensures Tokens(tag + ['\t'] + digits) == [tag, digits]
    ensures Tokens(tag + ['\t'] + digits + [' '] + rest) == [tag, digits] + Tokens(rest)
  {
    var head := tag + ['\t'] + digits;
    assert Tokens(head) == [tag, digits] by {
      WordTokens(digits, ' ', "");
      WordTokens(tag, '\t', digits);
    }
    TokensSplit(head, ' ', rest);
  }

  lemma LeadingSpaceReads(tag: string, digits: string, rest: string)
    requires Word(tag) && Word(digits)
    ensures var line := [' '] + (tag + [' '] + (digits + [' '] + rest));
            Tokens(line) == [tag, digits] + Tokens(rest) && !Regular(line)
  {
    var tail := tag + [' '] + (digits + [' '] + rest);
    SpacedTokens(tag, digits, rest);
    TokensSpace(' ', tail);
    assert SplitFields([' '] + tail).media == "" && Tokens("") == [];
  }

  lemma TabReads(tag: string, digits: string, rest: string)
    requires Word(tag) && Word(digits)
    ensures var line := tag + ['\t'] + digits + [' '] + rest;
            Tokens(line) == [tag, digits] + Tokens(rest) && !Regular(line)
  {
    var head := tag + ['\t'] + digits;
    TabbedTokens(tag, digits, rest);
    assert ' ' !in head;
    CutAt(head, ' ', rest);
  }

  lemma TwoSpacesRead(tag: string, digits: string, rest: string)
    requires Word(tag) && Word(digits)
    ensures var line := tag + [' '] + ([' '] + (digits + [' '] + rest));
            Tokens(line) == [tag, digits] + Tokens(rest) && !Regular(line)
  {
    var field := digits + [' '] + rest;
    var line := tag + [' '] + ([' '] + field);
    assert Tokens(line) == [tag, digits] + Tokens(rest) by {
      SpacedTokens(tag, digits, rest);
      TokensSplit(tag, ' ', field);
      TokensSplit(tag, ' ', [' '] + field);
      TokensSpace(' ', field);
    }
    assert SplitFields(line).port == "" by {
      assert ' ' !in tag;
      CutAt(tag, ' ', [' '] + field);
    }
    assert Cut("", '/') == ("", None) && Tokens("") == [];
  }

  /** A space before the tag, a tab behind it or two spaces: each is read as the port, and rewritten otherwise. */
  lemma IrregularLines(port: nat, other: nat, rest: string)
    requires port <= 65535 && other <= 65535 && port != other
    ensures !Relocates([' '] + ("m=audio" + [' '] + (Dec(port) + [' '] + rest)), other)
    ensures !Relocates("m=audio" + ['\t'] + Dec(port) + [' '] + rest, other)
    ensures !Relocates("m=audio" + [' '] + ([' '] + (Dec(port) + [' '] + rest)), other)
  {
    var tag, digits := "m=audio", Dec(port);
    DecIsWord(port);
    LeadingSpaceReads(tag, digits, rest);
    NotRelocated([' '] + (tag + [' '] + (digits + [' '] + rest)), port, other, Tokens(rest));
    TabReads(tag, digits, rest);
    NotRelocated(tag + ['\t'] + digits + [' '] + rest, port, other, Tokens(rest));
    TwoSpacesRead(tag, digits, rest);
    NotRelocated(tag + [' '] + ([' '] + (digits + [' '] + rest)), port, other, Tokens(rest));
  }

  lemma NotRelocated(line: string, port: nat, other: nat, more: seq<string>)
    requires Tokens(line) == ["m=audio", Dec(port)] + more && !Regular(line)
    requires port <= 65535 && other <= 65535 && port != other
    ensures !Relocates(line, other)
  {
    AudioLine(line, port, more);
    RewriteExact(line, other);
  }

  lemma SpacedIsRegular(tag: string, digits: string, suffix: string, rest: string)
    requires Word(tag) && Word(digits) && '/' !in digits
    requires ' ' !in suffix && (suffix != "" ==> suffix[0] == '/')
    ensures Regular(tag + [' '] + (digits + suffix + [' '] + rest))
  {
    var field := digits + suffix;
    assert ' ' !in tag && ' ' !in field;
    CutAt(tag, ' ', field + [' '] + rest);
    CutAt(field, ' ', rest);
    TokensWord(tag, "");
    TokensWord(digits, "");
    SuffixOf(digits, suffix);
    FieldParts(field);
  }

  /** A line in the form of section 5.14 of RFC 4566 is regular. */
  lemma StandardIsRegular(media: string, port: nat, suffix: string, rest: string)
    requires Word(media) && ' ' !in suffix && (suffix != "" ==> suffix[0] == '/')
    ensures Regular("m=" + media + " " + Dec(port) + suffix + " " + rest)
  {
    var tag, digits := "m=" + media, Dec(port);
    assert tag + " " + digits + suffix + " " + rest == tag + [' '] + (digits + suffix + [' '] + rest);
    DecIsWord(port);
    SpacedIsRegular(tag, digits, suffix, rest);
  }

  // ----- What a rewritten line still is -----------------------------------------

  lemma SuffixChars(field: string, c: char)
    requires c !in field
    ensures c !in CountSuffix(field)
  {
    FieldParts(field);
  }

  lemma SplitPrint(f: Fields, port: nat)
    requires ' ' !in f.media && ' ' !in f.port && ' ' !in f.proto
    ensures ' ' in PrintFields(f, port)
    ensures SplitFields(PrintFields(f, port)) == f.(port := Dec(port) + CountSuffix(f.port))
  {
    var field := Dec(port) + CountSuffix(f.port);
    var rest := Remainder(f);
    var tail := field + [' '] + rest;
    SuffixChars(f.port, ' ');
    DecIsWord(port);
    PrintForm(f, port);
    CutAt(f.media, ' ', tail);
    CutAt(field, ' ', rest);
    if f.formats == "" {
      CutNone(f.proto, ' ');
    } else {
      CutAt(f.proto, ' ', f.formats);
    }
  }

  lemma FieldsHaveNoSpace(line: string)
    ensures var f := SplitFields(line); ' ' !in f.media && ' ' !in f.port && ' ' !in f.proto
  {
  }

  /** Replacing the port twice is replacing it once, on every line. */
  lemma RewriteTwice(line: string, port: nat)
    ensures RewritePort(RewritePort(line, port), port) == RewritePort(line, port)
  {
    var f := SplitFields(line);
    FieldsHaveNoSpace(line);
    SplitPrint(f, port);
    FieldParts(f.port);
    DecIsWord(port);
    SuffixOf(Dec(port), CountSuffix(f.port));
  }

  lemma PrefixIgnoresRest(w: string, x: string, y: string, p: string)
    requires ' ' !in w && forall i :: 0 <= i < |p| - 1 ==> p[i] != ' '
    ensures StartsWith(w + [' '] + x, p) <==> StartsWith(w + [' '] + y, p)
  {
    var a, b := w + [' '] + x, w + [' '] + y;
    if |p| <= |w| + 1 {
      assert a[..|p|] == b[..|p|];
    } else {
      assert a[|w|] == ' ' && b[|w|] == ' ' && p[|w|] != ' ';
      assert |p| <= |a| ==> a[..|p|][|w|] == ' ';
      assert |p| <= |b| ==> b[..|p|][|w|] == ' ';
    }
  }

  lemma {:induction false} TrimChars(s: string, c: char)
    requires c !in s
    ensures c !in TrimStart(s)
  {
    if s != "" && IsWhite(s[0]) {
      TrimChars(s[1..], c);
    }
  }

  lemma TrimSpaced(media: string, x: string)
    requires Tokens(media) != []
    ensures TrimStart(media + [' '] + x) == TrimStart(media) + [' '] + x
  {
    Assoc(media, [' '], x);
    TrimStartOf(media, [' '] + x);
    Assoc(TrimStart(media), [' '], x);
  }

  lemma SupportedKept(media: string, x: string, y: string)
    requires ' ' !in media && Tokens(media) != []
    ensures IsSupported(media + [' '] + x) == IsSupported(media + [' '] + y)
  {
    var w := TrimStart(media);
    TrimChars(media, ' ');
    TrimSpaced(media, x);
    TrimSpaced(media, y);
    PrefixIgnoresRest(w, x, y, "m=audio ");
    PrefixIgnoresRest(w, x, y, "m=audio\t");
    PrefixIgnoresRest(w, x, y, "m=video ");
    PrefixIgnoresRest(w, x, y, "m=video\t");
  }

  /** `out` is an m= line of the same kind as `line`, with its own port. */
  predicate MovedTo(line: string, out: string, port: nat) {
    && IsMedia(out) && Regular(out) && IsSupported(out) == IsSupported(line)
    && LinePort(out) == Some(port)
    && Tokens(line) != [] && Tokens(out)[0] == Tokens(line)[0]
  }

  lemma RelocatedReads(line: string, port: nat)
    requires Relocates(line, port) && port <= 65535
    ensures var out := RewritePort(line, port);
            Tokens(line) != [] && Tokens(out) != [] && Tokens(out)[0] == Tokens(line)[0] && LinePort(out) == Some(port)
  {
    var field := Tokens(line)[1];
    FieldParts(field);
    PortOfDec(port, CountSuffix(field));
  }

  lemma RewrittenLine(line: string, port: nat)
    requires IsMedia(line) && Regular(line) && port <= 65535
    ensures MovedTo(line, RewritePort(line, port), port)
  {
    RegularRelocates(line, port);
    RelocatedReads(line, port);
    MediaToken(line);
    MediaToken(RewritePort(line, port));
    StillRegular(line, port);
  }

  lemma StillRegular(line: string, port: nat)
    requires Regular(line)
    ensures var out := RewritePort(line, port); Regular(out) && IsSupported(out) == IsSupported(line)
  {
    var f := SplitFields(line);
    FieldsHaveNoSpace(line);
    SplitPrint(f, port);
    PrintForm(f, port);
    FieldParts(f.port);
    DecIsWord(port);
    SuffixOf(Dec(port), CountSuffix(f.port));
    TokensWord(Dec(port), "");
    SupportedKept(f.media, Cut(line, ' ').1.value, Dec(port) + CountSuffix(f.port) + [' '] + Remainder(f));
  }

  lemma RewriteOneLine(line: string, port: nat)
    requires OneLine(line)
    ensures OneLine(RewritePort(line, port))
  {
    var f := SplitFields(line);
    DecIsWord(port);
    FieldParts(f.port);
    var (media, afterMedia) := Cut(line, ' ');
    assert '\n' !in f.media && '\n' !in f.port && '\n' !in f.proto && '\n' !in f.formats by {
      if afterMedia.Some? {
        assert '\n' !in afterMedia.value;
        var (p, afterPort) := Cut(afterMedia.value, ' ');
        if afterPort.Some? {
          assert '\n' !in afterPort.value;
        }
      }
    }
    SuffixChars(f.port, '\n');
  }
}
