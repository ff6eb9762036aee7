/** What a message says, read off its bytes: the tokens of its request line, the parts of its field lines,
    and the number that decides how many bytes of body belong to it. */
module HttpMessages {
  import opened Options
  import opened Text
  import opened Http
  import opened HttpParsing
  import opened HttpRoundTrip

  // ---- names ----------------------------------------------------------------------------------

  const METHODS := {"GET", "POST", "PUT", "DELETE", "HEAD", "OPTIONS", "PATCH", "CONNECT", "TRACE"}
  const VERSIONS := {"HTTP/1.0", "HTTP/1.1", "HTTP/2.0"}

  /** Each method and version has its own name, letter case included, and no other text names one. */
  lemma NamesAre(s: string)
    ensures MethodFromText("GET") == GET && MethodFromText("POST") == POST && MethodFromText("PUT") == PUT
    ensures MethodFromText("DELETE") == DELETE && MethodFromText("HEAD") == HEAD
    ensures MethodFromText("OPTIONS") == OPTIONS && MethodFromText("PATCH") == PATCH
    ensures MethodFromText("CONNECT") == CONNECT && MethodFromText("TRACE") == TRACE
    ensures VersionFromText("HTTP/1.0") == HTTP_1_0 && VersionFromText("HTTP/1.1") == HTTP_1_1
    ensures VersionFromText("HTTP/2.0") == HTTP_2_0
    ensures MethodFromText(s) != INVALID <==> s in METHODS
    ensures VersionFromText(s) != UNKNOWN <==> s in VERSIONS
  {
  }

  predicate SameLetter(c: char, d: char) {
    || c == d
    || ('A' <= c <= 'Z' && d as int == c as int + 32)
    || ('A' <= d <= 'Z' && c as int == d as int + 32)
  }

  /** Two names share an entry of the header table exactly when they differ in letter case alone. */
  lemma SameNameIff(a: string, b: string)
    ensures Lower(a) == Lower(b) <==>
              |a| == |b| && forall i | 0 <= i < |a| :: SameLetter(a[i], b[i])
  {
    if Lower(a) == Lower(b) {
      forall i | 0 <= i < |a| ensures SameLetter(a[i], b[i]) {
        assert LowerChar(a[i]) == Lower(a)[i] == Lower(b)[i] == LowerChar(b[i]);
      }
    }
  }

  // ---- the request line -----------------------------------------------------------------------

  /** A line taken apart into blanks, three tokens and a rest that is not looked at. */
  datatype Tokens = Tokens(
    blanks: string, verb: string, gap1: string, target: string, gap2: string, version: string, rest: string)
  {
    predicate Valid() {
      && AllSpace(blanks) && AllSpace(gap1) && AllSpace(gap2) && gap1 != "" && gap2 != ""
      && NoSpace(verb) && NoSpace(target) && NoSpace(version)
      && verb != "" && target != "" && version != ""
      && (rest == "" || IsSpace(rest[0]))
    }

    function Line(): string {
      blanks + verb + (gap1 + target + (gap2 + version + rest))
    }
  }

  lemma TokensExtracted(t: Tokens)
    requires t.Valid()
    ensures var (verb, rest1) := Extract(t.Line());
            var (target, rest2) := Extract(rest1);
            && verb == t.verb && target == t.target && Extract(rest2) == (t.version, t.rest)
  {
    hide Extract, AllSpace, NoSpace;
    GapStarts(t.gap2, t.version + t.rest);
    GapStarts(t.gap1, t.target + (t.gap2 + t.version + t.rest));
    assert t.gap1 + (t.target + (t.gap2 + t.version + t.rest)) == t.gap1 + t.target + (t.gap2 + t.version + t.rest);
    assert t.gap2 + (t.version + t.rest) == t.gap2 + t.version + t.rest;
    ExtractToken(t.blanks, t.verb, t.gap1 + t.target + (t.gap2 + t.version + t.rest));
    ExtractToken(t.gap1, t.target, t.gap2 + t.version + t.rest);
    ExtractToken(t.gap2, t.version, t.rest);
  }

  lemma GapStarts(gap: string, s: string)
    requires AllSpace(gap) && gap != ""
    ensures IsSpace((gap + s)[0])
  {
    assert (gap + s)[0] == gap[0];
  }

  /** The request line is accepted exactly when its first three tokens are a known method, a target and a
      known version.  The target is cut at its first question mark, and without one the query stays as it
      was.  Without the method nothing is set; without the version method and target are. */
  lemma StartLineRead(t: Tokens, r: Request, path: string, query: string)
    requires t.Valid()
    requires '?' !in path && (t.target == path + ['?'] + query || (t.target == path && query == r.query))
    ensures var (ok, got) := ParseStartLine(t.Line(), r);
            && ok == (t.verb in METHODS && t.version in VERSIONS)
            && got ==
               (if t.verb !in METHODS then r
                else if !ok then r.(verb := MethodFromText(t.verb), path := path, query := query)
                else r.(verb := MethodFromText(t.verb), path := path, query := query,
                        version := VersionFromText(t.version)))
  {
    TokensExtracted(t);
    TargetCut(r.(verb := MethodFromText(t.verb)), t.target, path, query);
    NamesAre(t.verb);
    NamesAre(t.version);
    hide *;
    StartLineOf(t.Line(), r, t.verb, t.target, t.version);
  }

  lemma TargetCut(r: Request, target: string, path: string, query: string)
    requires '?' !in path && (target == path + ['?'] + query || (target == path && query == r.query))
    ensures SetTarget(r, target) == r.(path := path, query := query)
  {
    hide FindChar;
    if target == path + ['?'] + query {
      FindCharFirst(path, '?', query);
    }
  }

  lemma StartLineOf(line: string, r: Request, verb: string, target: string, version: string)
    requires var (v, rest1) := Extract(line);
             var (p, rest2) := Extract(rest1);
             v == verb && p == target && Extract(rest2).0 == version
    requires verb != "" && target != "" && version != ""
    ensures ParseStartLine(line, r) ==
            if MethodFromText(verb) == INVALID then (false, r)
            else
              var r1 := SetTarget(r.(verb := MethodFromText(verb)), target);
              if VersionFromText(version) == UNKNOWN then (false, r1)
              else (true, r1.(version := VersionFromText(version)))
  {
    hide Extract, MethodFromText, VersionFromText, SetTarget;
  }

  /** A line of fewer than three tokens is refused and sets nothing. */
  lemma ShortLineRefused(line: string, r: Request)
    requires forall t: Tokens | t.Valid() :: t.Line() != line
    ensures ParseStartLine(line, r) == (false, r)
  {
    var (verb, rest1) := Extract(line);
    var (target, rest2) := Extract(rest1);
    if verb != "" && target != "" && Extract(rest2).0 != "" {
      var t := TokensOf(line);
      assert false;
    }
  }

  lemma TokensOf(line: string) returns (t: Tokens)
    requires var (verb, rest1) := Extract(line);
             var (target, rest2) := Extract(rest1);
             verb != "" && target != "" && Extract(rest2).0 != ""
    ensures t.Valid() && t.Line() == line
  {
    var (verb, rest1) := Extract(line);
    var (target, rest2) := Extract(rest1);
    var (version, rest) := Extract(rest2);
    var blanks := TokenSplit(line);
    var gap1 := TokenSplit(rest1);
    var gap2 := TokenSplit(rest2);
    hide Extract, AllSpace, NoSpace;
    t := Tokens(blanks, verb, gap1, target, gap2, version, rest);
    assert rest1 == gap1 + target + (gap2 + version + rest);
    assert gap1 == "" ==> rest1[0] == target[0];
    assert gap2 == "" ==> rest2[0] == version[0];
    if gap1 == "" {
      FirstOfToken(target);
    }
    if gap2 == "" {
      FirstOfToken(version);
    }
  }

  lemma FirstOfToken(token: string)
    requires NoSpace(token) && token != ""
    ensures !IsSpace(token[0])
  {
  }

  lemma TokenSplit(s: string) returns (gap: string)
    ensures var (token, rest) := Extract(s);
            && AllSpace(gap) && NoSpace(token) && s == gap + token + rest
            && (rest == "" || IsSpace(rest[0]))
  {
    ExtractSplits(s);
    hide Extract, AllSpace, NoSpace;
    var (token, rest) := Extract(s);
    var skipped := |s| - |token| - |rest|;
    gap := s[..skipped];
    assert s == s[..skipped] + s[skipped..skipped + |token|] + s[skipped + |token|..];
  }

  // ---- field lines ----------------------------------------------------------------------------

  predicate Only(s: string, chars: string) {
    forall i | 0 <= i < |s| :: s[i] in chars
  }

  lemma RightTrimmed(s: string, blanks: string, chars: string)
    requires Only(blanks, chars) && (s == "" || s[|s| - 1] !in chars)
    ensures TrimRight(s + blanks, chars) == s
  {
    hide TrimRight;
    var r := TrimRight(s + blanks, chars);
    assert forall i | |s| <= i < |s + blanks| :: (s + blanks)[i] in chars;
    assert s != "" ==> (s + blanks)[|s| - 1] == s[|s| - 1];
    assert |r| == |s|;
  }

  lemma LeftTrimmed(blanks: string, s: string, chars: string)
    requires Only(blanks, chars) && (s == "" || s[0] !in chars)
    ensures TrimLeft(blanks + s, chars) == s
  {
    hide TrimLeft;
    var r := TrimLeft(blanks + s, chars);
    assert forall i | 0 <= i < |blanks| :: (blanks + s)[i] in chars;
    assert s != "" ==> (blanks + s)[|blanks|] == s[0];
    assert |r| == |s|;
  }

  /** Blanks alone are trimmed away. */
  lemma BlanksTrimmed(blanks: string, chars: string)
    requires Only(blanks, chars)
    ensures TrimRight(blanks, chars) == ""
  {
    assert "" + blanks == blanks;
    RightTrimmed("", blanks, chars);
  }

  predicate Bare(s: string, first: string, last: string) {
    s == "" || (s[0] !in first && s[|s| - 1] !in last)
  }

  /** A field line: name and value without the blanks around them.  The value may end in line ends, the
      name may not, and only the first colon counts. */
  lemma FieldRead(b1: string, name: string, b2: string, b3: string, value: string, b4: string)
    requires Only(b1, " \t") && Only(b2, " \t") && Only(b3, " \t") && Only(b4, " \t\r\n")
    requires name != "" && ':' !in name && Bare(name, " \t", " \t") && Bare(value, " \t", " \t\r\n")
    ensures ParseField((b1 + name + b2) + [':'] + (b3 + value + b4)) == Some((name, value))
  {
    NameRead(b1, name, b2);
    ValueRead(b3, value, b4);
    NoColon(b1);
    NoColon(b2);
    hide *;
    FieldOf(b1 + name + b2, b3 + value + b4);
  }

  lemma NoColon(blanks: string)
    requires Only(blanks, BLANKS)
    ensures ':' !in blanks
  {
  }

  lemma FieldOf(text: string, value: string)
    requires ':' !in text
    ensures ParseField(text + [':'] + value) ==
            if CleanName(text) == "" then None else Some((CleanName(text), CleanValue(value)))
  {
    hide FindChar, CleanName, CleanValue;
    var line := text + [':'] + value;
    FindCharFirst(text, ':', value);
    assert line[..|text|] == text && line[|text| + 1..] == value;
  }

  lemma NameRead(b1: string, name: string, b2: string)
    requires Only(b1, BLANKS) && Only(b2, BLANKS) && Bare(name, BLANKS, BLANKS) && name != ""
    ensures CleanName(b1 + name + b2) == name
  {
    hide TrimLeft, TrimRight;
    assert (b1 + name)[|b1 + name| - 1] == name[|name| - 1];
    RightTrimmed(b1 + name, b2, BLANKS);
    LeftTrimmed(b1, name, BLANKS);
  }

  lemma ValueRead(b3: string, value: string, b4: string)
    requires Only(b3, BLANKS) && Only(b4, LINE_BLANKS) && Bare(value, BLANKS, LINE_BLANKS)
    ensures CleanValue(b3 + value + b4) == value
  {
    hide TrimLeft, TrimRight;
    if value == "" {
      BlanksTrimmed(b3 + value + b4, LINE_BLANKS);
      LeftTrimmed("", "", BLANKS);
      assert "" + "" == "";
    } else {
      assert (b3 + value)[|b3 + value| - 1] == value[|value| - 1];
      RightTrimmed(b3 + value, b4, LINE_BLANKS);
      LeftTrimmed(b3, value, BLANKS);
    }
  }

  /** A field line is refused exactly when it has no colon or nothing but blanks before its first one. */
  lemma FieldRefusedIff(line: string)
    ensures ParseField(line) == None <==>
              ':' !in line || exists k: nat :: k < |line| && line[k] == ':' && Only(line[..k], " \t")
  {
    hide CleanName, CleanValue, FindChar, Only;
    if ':' in line {
      var c := FindChar(line, ':').value;
      CleanNameEmptyIff(line[..c]);
      if k: nat :| k < |line| && line[k] == ':' && Only(line[..k], " \t") {
        NoColon(line[..k]);
        assert line == line[..k] + [':'] + line[k + 1..];
        FindCharFirst(line[..k], ':', line[k + 1..]);
      }
    }
  }

  lemma CleanNameEmptyIff(text: string)
    ensures CleanName(text) == "" <==> Only(text, BLANKS)
  {
    hide TrimLeft, TrimRight;
    if Only(text, BLANKS) {
      BlanksTrimmed(text, BLANKS);
      LeftTrimmed("", "", BLANKS);
      assert "" + "" == "";
    } else {
      var t := TrimRight(text, BLANKS);
      assert t != "";
      assert t[|t| - 1] !in BLANKS;
    }
  }

  // ---- how many bytes of body -----------------------------------------------------------------

  /** What a Content-Length value of this sign and these digits announces: nothing without digits or beyond
      64 bits; behind a minus the number is taken modulo 2^64. */
  function Announced(sign: string, digits: string): nat
    requires AllDigits(digits)
  {
    if digits == "" || DigitsValue(digits) >= TWO_64 then 0
    else if sign == "-" && DigitsValue(digits) > 0 then TWO_64 - DigitsValue(digits)
    else DigitsValue(digits)
  }

  /** The table announces `n` bytes of body: none without the field, else what the sign and the digits at
      the front of its value, behind blanks, say. */
  ghost predicate Announces(h: Headers, n: nat) {
    if "content-length" !in h then n == 0
    else exists blanks, sign, digits, rest ::
      && NumberParts(blanks, sign, digits, rest)
      && h["content-length"] == blanks + (sign + (digits + rest))
      && n == Announced(sign, digits)
  }

  /** Every table announces exactly one number, and it is the one the parser goes by. */
  lemma AnnouncedIsLength(h: Headers, n: nat)
    ensures Announces(h, n) <==> ContentLength(h) == n
  {
    LengthIs(h);
    if "content-length" in h {
      var text := h["content-length"];
      var blanks, sign, digits, rest := NumberSplits(text);
      NumberRead(blanks, sign, digits, rest);
      hide ContentLength, Stoull, NumberParts, Announced, AllDigits;
      if Announces(h, n) {
        var b, s, d, r :| NumberParts(b, s, d, r) && text == b + (s + (d + r)) && n == Announced(s, d);
        NumberRead(b, s, d, r);
      }
    }
  }

  /** The number std::stoull returns, or 0 where it throws. */
  function NumberOr0(text: string): nat {
    match Stoull(text)
    case None => 0
    case Some(n) => n
  }

  lemma LengthIs(h: Headers)
    ensures ContentLength(h) == if "content-length" !in h then 0 else NumberOr0(h["content-length"])
  {
    PlainName("content-length");
    assert Stoull("") == None;
    hide Stoull, Lower;
  }

  lemma NumberRead(blanks: string, sign: string, digits: string, rest: string)
    requires NumberParts(blanks, sign, digits, rest)
    ensures NumberOr0(blanks + (sign + (digits + rest))) == Announced(sign, digits)
  {
    DigitsOf(blanks, sign, digits, rest);
    hide *;
    StoullReads(blanks, sign, digits, rest);
    SignedIs(sign, digits);
    OrNothing(blanks + (sign + (digits + rest)));
  }

  lemma DigitsOf(blanks: string, sign: string, digits: string, rest: string)
    requires NumberParts(blanks, sign, digits, rest)
    ensures AllDigits(digits) && (sign == "" || sign == "+" || sign == "-")
  {
  }

  lemma OrNothing(text: string)
    ensures NumberOr0(text) == match Stoull(text) case None => 0 case Some(n) => n
  {
    hide Stoull;
  }

  lemma SignedIs(sign: string, digits: string)
    requires AllDigits(digits)
    ensures Announced(sign, digits) == match SignedNumber(sign == "-", digits) case None => 0 case Some(n) => n
  {
    hide DigitsValue, AllDigits;
  }

  // ---- the whole message ----------------------------------------------------------------------

  predicate FieldLine(line: string) {
    line != "" && NoCrlf(line) && ParseField(line).Some?
  }

  predicate FieldLines(lines: seq<string>) {
    forall i | 0 <= i < |lines| :: FieldLine(lines[i])
  }

  function JoinLines(lines: seq<string>): string {
    if lines == [] then "" else JoinLines(lines[..|lines| - 1]) + (lines[|lines| - 1] + CRLF)
  }

  function FieldsOf(lines: seq<string>): (fields: seq<Field>)
    requires FieldLines(lines)
    ensures |fields| == |lines|
    ensures forall i | 0 <= i < |lines| :: ParseField(lines[i]) == Some(fields[i])
  {
    seq(|lines|, i requires 0 <= i < |lines| => assert FieldLine(lines[i]); ParseField(lines[i]).value)
  }

  /** The lines up to and including the empty one, and what comes behind. */
  function Message(line: string, lines: seq<string>, tail: string): string {
    line + CRLF + (JoinLines(lines) + (CRLF + tail))
  }

  /** The field lines fold into the table, one line end at a time. */
  lemma {:induction false} LinesTaken(p: Progress, h: Headers, lines: seq<string>, rest: string)
    requires FieldLines(lines)
    ensures ParseRequest(InHeaders(p, h, JoinLines(lines) + rest)) ==
            ParseRequest(InHeaders(p, AddFields(h, FieldsOf(lines)), rest))
  {
    hide ParseRequest, ParseField, AddHeader, NoCrlf, InHeaders;
    if lines == [] {
      assert JoinLines(lines) + rest == rest && FieldsOf(lines) == [];
    } else {
      var front, last := lines[..|lines| - 1], lines[|lines| - 1];
      LastLine(h, lines);
      AppendAssoc(JoinLines(front), last + CRLF, rest);
      LinesTaken(p, h, front, (last + CRLF) + rest);
      LineTaken(p, AddFields(h, FieldsOf(front)), last, rest);
    }
  }

  lemma LastLine(h: Headers, lines: seq<string>)
    requires lines != [] && FieldLines(lines)
    ensures var front, last := lines[..|lines| - 1], lines[|lines| - 1];
            && FieldLines(front) && FieldLine(last)
            && JoinLines(lines) == JoinLines(front) + (last + CRLF)
            && (var f := ParseField(last).value;
                AddFields(h, FieldsOf(lines)) == AddHeader(AddFields(h, FieldsOf(front)), f.0, f.1))
  {
    hide ParseField, AddHeader, NoCrlf;
    var front, last := lines[..|lines| - 1], lines[|lines| - 1];
    assert forall i | 0 <= i < |front| :: front[i] == lines[i];
    assert FieldLine(last);
    assert FieldsOf(lines)[..|lines| - 1] == FieldsOf(front);
  }

  lemma LineTaken(p: Progress, h: Headers, line: string, rest: string)
    requires FieldLine(line)
    ensures ParseRequest(InHeaders(p, h, (line + CRLF) + rest)) ==
            ParseRequest(InHeaders(p, AddHeader(h, ParseField(line).value.0, ParseField(line).value.1), rest))
  {
    hide ParseRequest, ParseField, AddHeader, NoCrlf;
    FieldTurn(InHeaders(p, h, (line + CRLF) + rest), line, rest);
  }

  /** Whatever its lines look like, a message with an acceptable request line and acceptable field lines
      completes exactly when as many bytes follow the empty line as its table announces; those bytes are
      the body, and the rest stays unread.  Until then the parser waits without an error. */
  lemma MessageRead(line: string, lines: seq<string>, tail: string, n: nat)
    requires NoCrlf(line) && ParseStartLine(line, EMPTY_REQUEST).0 && FieldLines(lines)
    requires Announces(AddFields(map[], FieldsOf(lines)), n)
    ensures var head := ParseStartLine(line, EMPTY_REQUEST).1.(headers := AddFields(map[], FieldsOf(lines)));
            var (q, done) := ParseRequest(Fresh(Message(line, lines, tail)));
            && !q.hasError && (done <==> |tail| >= n)
            && (done ==> q.request == head.(body := tail[..n], state := ParseComplete) && q.input == tail[n..])
            && (!done ==> q.request == head.(state := ParseBody) && q.input == tail && q.contentLength == n)
  {
    AnnouncedIsLength(AddFields(map[], FieldsOf(lines)), n);
    HeadTaken(line, lines, CRLF + tail);
    StartLineKeepsRest(line);
    var h, r := AddFields(map[], FieldsOf(lines)), ParseStartLine(line, EMPTY_REQUEST).1;
    EndOfHeaders(AfterStartLine(r, ""), h, tail);
    assert n == 0 ==> tail[..0] == "" && tail[0..] == tail;
    hide ParseRequest, ParseStartLine, ContentLength, AddFields, FieldsOf, Message, NoCrlf;
  }

  function AfterStartLine(r: Request, input: string): Progress {
    Fresh("").(request := r.(state := ParseHeaders), input := input)
  }

  lemma StartLineKeepsRest(line: string)
    ensures var r := ParseStartLine(line, EMPTY_REQUEST).1; r.headers == map[] && r.body == ""
  {
    hide Extract, FindChar, MethodFromText, VersionFromText;
  }

  lemma HeadTaken(line: string, lines: seq<string>, rest: string)
    requires NoCrlf(line) && ParseStartLine(line, EMPTY_REQUEST).0 && FieldLines(lines)
    ensures var r := ParseStartLine(line, EMPTY_REQUEST).1;
            ParseRequest(Fresh(line + CRLF + (JoinLines(lines) + rest))) ==
            ParseRequest(InHeaders(AfterStartLine(r, ""), AddFields(map[], FieldsOf(lines)), rest))
  {
    var r := ParseStartLine(line, EMPTY_REQUEST).1;
    var tail := JoinLines(lines) + rest;
    StartLineKeepsRest(line);
    FirstLineCut(line, tail);
    StartLineTaken(Fresh(line + CRLF + tail), line, tail);
    LinesTaken(AfterStartLine(r, ""), map[], lines, rest);
    hide ParseRequest, ParseStartLine, JoinLines, AddFields, FieldsOf, NoCrlf;
    assert InHeaders(AfterStartLine(r, ""), map[], tail) == AfterStartLine(r, tail);
  }

  lemma FirstLineCut(line: string, tail: string)
    requires NoCrlf(line)
    ensures var text := line + CRLF + tail;
            FindCrlf(text) == Some(|line|) && text[..|line|] == line && text[|line| + 2..] == tail
  {
    FindCrlfAfterLine(line, tail);
  }

  /** A request line that is refused ends the call in error behind that line, and so does the first field
      line that is. */
  lemma MessageRefused(line: string, lines: seq<string>, bad: string, tail: string)
    requires NoCrlf(line) && FieldLines(lines) && NoCrlf(bad) && bad != "" && ParseField(bad).None?
    ensures !ParseStartLine(line, EMPTY_REQUEST).0 ==>
              var (q, done) := ParseRequest(Fresh(line + CRLF + tail));
              q.hasError && !done && q.input == tail && q.request == ParseStartLine(line, EMPTY_REQUEST).1
    ensures ParseStartLine(line, EMPTY_REQUEST).0 ==>
              var (q, done) := ParseRequest(Fresh(line + CRLF + (JoinLines(lines) + (bad + CRLF + tail))));
              q.hasError && !done && q.input == tail && q.request.headers == AddFields(map[], FieldsOf(lines))
  {
    var r, table := ParseStartLine(line, EMPTY_REQUEST).1, AddFields(map[], FieldsOf(lines));
    FirstLineCut(line, tail);
    hide *;
    if ParseStartLine(line, EMPTY_REQUEST).0 {
      HeadTaken(line, lines, bad + CRLF + tail);
      BadLineStops(AfterStartLine(r, ""), table, bad, tail);
    } else {
      BadStartStops(line, tail);
    }
  }

  lemma BadStartStops(line: string, tail: string)
    requires NoCrlf(line) && !ParseStartLine(line, EMPTY_REQUEST).0
    ensures var (q, done) := ParseRequest(Fresh(line + CRLF + tail));
            q.hasError && !done && q.input == tail && q.request == ParseStartLine(line, EMPTY_REQUEST).1
  {
    FirstLineCut(line, tail);
    hide ParseStartLine, FindCrlf, NoCrlf;
  }

  lemma BadLineStops(p: Progress, h: Headers, bad: string, tail: string)
    requires NoCrlf(bad) && bad != "" && ParseField(bad).None?
    ensures var (q, done) := ParseRequest(InHeaders(p, h, bad + CRLF + tail));
            q.hasError && !done && q.input == tail && q.request.headers == h
  {
    FirstLineCut(bad, tail);
    hide FindCrlf, NoCrlf, ParseField, AddHeader, ContentLength;
  }

  /** A call that finds no line end where it needs a line, or too few bytes where it needs a body, changes
      nothing and asks for more; on a complete request it says so again, and on a failed one it fails. */
  lemma IdleCalls(p: Progress)
    ensures (p.request.state == ParseRequestLine || p.request.state == ParseHeaders) && NoCrlf(p.input) ==>
              ParseRequest(p) == (p, false)
    ensures p.request.state == ParseBody && |p.input| < p.contentLength ==> ParseRequest(p) == (p, false)
    ensures p.request.state == ParseComplete ==> ParseRequest(p) == (p, true)
    ensures p.request.state == ParseError ==> ParseRequest(p) == (p.(hasError := true), false)
  {
    hide StartLineTurn, HeaderLineTurn, FindCrlf;
    if (p.request.state == ParseRequestLine || p.request.state == ParseHeaders) && NoCrlf(p.input) {
      NoLineEnd(p.input);
    }
  }

  lemma NoLineEnd(s: string)
    requires NoCrlf(s)
    ensures FindCrlf(s) == None
  {
  }

  // ---- printed messages -----------------------------------------------------------------------

  /** A printed request without a Content-Length field and without a body completes at its empty line and
      leaves what follows. */
  lemma NoLengthNoBody(r: Request, order: seq<string>, rest: string)
    requires WellFormedHead(r) && IsOrder(order, r.headers) && "content-length" !in r.headers && r.body == ""
    ensures ParseRequest(Fresh(Print(r, order) + rest)) == (Progress(Parsed(r), false, 0, false, rest), true)
  {
    AnnouncedIsLength(r.headers, 0);
    hide ParseRequest, WellFormedHead, Print, ContentLength, IsOrder;
    ParserUndoesPrinter(r, order, rest);
  }

  /** Under a Content-Length of `n` it completes exactly when `n` bytes of body are there, takes those and
      leaves the rest; anything may stand behind the digits of the field. */
  lemma LengthTakesBody(r: Request, order: seq<string>, n: nat, junk: string)
    requires WellFormedHead(r) && IsOrder(order, r.headers) && "content-length" in r.headers
    requires n < 0x1_0000_0000_0000_0000
    requires r.headers["content-length"] == Decimal(n) + junk && (junk == "" || !IsDigit(junk[0]))
    ensures var (q, done) := ParseRequest(Fresh(Print(r, order)));
            && !q.hasError && (done <==> |r.body| >= n)
            && (done ==> q.request == Parsed(r.(body := r.body[..n])) && q.input == r.body[n..])
  {
    LengthIs(r.headers);
    StoullDecimal(n, junk);
    hide ParseRequest, WellFormedHead, Print, ContentLength, Stoull, IsOrder, Decimal;
    BodyTaken(r, order);
  }

  /** A Content-Length without digits, or beyond 64 bits, counts as none. */
  lemma RefusedLengthNoBody(
    r: Request, order: seq<string>, blanks: string, sign: string, digits: string, junk: string)
    requires WellFormedHead(r) && IsOrder(order, r.headers) && "content-length" in r.headers
    requires NumberParts(blanks, sign, digits, junk)
    requires digits == "" || DigitsValue(digits) >= 0x1_0000_0000_0000_0000
    requires r.headers["content-length"] == blanks + (sign + (digits + junk))
    ensures var (q, done) := ParseRequest(Fresh(Print(r, order)));
            done && !q.hasError && q.request == Parsed(r.(body := "")) && q.input == r.body
  {
    assert Announces(r.headers, 0);
    AnnouncedIsLength(r.headers, 0);
    hide ParseRequest, WellFormedHead, Print, ContentLength, Announces, IsOrder;
    BodyTaken(r, order);
    assert r.body[..0] == "" && r.body[0..] == r.body;
  }

  lemma BodyTaken(r: Request, order: seq<string>)
    requires WellFormedHead(r) && IsOrder(order, r.headers)
    ensures var n := ContentLength(r.headers);
            var (q, done) := ParseRequest(Fresh(Print(r, order)));
            && !q.hasError && (done <==> |r.body| >= n)
            && (done ==> q.request == Parsed(r.(body := r.body[..n])) && q.input == r.body[n..])
  {
    hide ParseRequest, ContentLength, Print, GoodHeaders, GoodTarget, Tidy;
    var n := ContentLength(r.headers);
    CompletesIffBodyArrived(r, order);
    if |r.body| >= n {
      var whole := r.(body := r.body[..n]);
      assert r.body[..n] + r.body[n..] == r.body && r == whole.(body := whole.body + r.body[n..]);
      PrintGrows(whole, order, r.body[n..]);
      ParserUndoesPrinter(whole, order, r.body[n..]);
    } else {
      var missing: string := seq(n - |r.body|, _ => ' ');
      assert |r.body + missing| == n && missing != "";
      assert WellFormed(r.(body := r.body + missing));
      ShortBodyWaits(r, order, missing);
    }
  }

  const SMALL := Request(GET, "/a", "b", HTTP_1_1, map["host" := "x"], "yz", ParseRequestLine, 0)

  /** What a small request looks like when it is printed. */
  lemma PrintedExample()
    ensures Print(SMALL, ["host"]) == "GET /a?b HTTP/1.1\r\nhost: x\r\n\r\nyz"
  {
    SmallLine();
    SmallTable();
    hide PrintRequestLine, PrintFields, FieldsInOrder;
  }

  lemma SmallLine()
    ensures PrintRequestLine(SMALL) == "GET /a?b HTTP/1.1"
  {
  }

  lemma SmallTable()
    ensures PrintFields(FieldsInOrder(SMALL.headers, ["host"])) == "host: x\r\n"
  {
    var fields := FieldsInOrder(SMALL.headers, ["host"]);
    assert fields == [("host", "x")] && fields[..0] == [];
    assert PrintFields(fields) == "" + ("host: x" + CRLF);
  }
}
