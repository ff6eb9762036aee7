/** Parser and printer undo each other, exactly on the well-formed requests, and so do they on a
    connection that carries many requests. */
module HttpRoundTrip {
  import opened Options
  import opened Text
  import opened Http
  import opened HttpParsing

  // ---- the requests that survive --------------------------------------------------------------

  predicate GoodTarget(path: string, query: string) {
    NoSpace(path) && NoSpace(query) && '?' !in path
  }

  predicate GoodName(k: string) {
    k != "" && k[0] !in BLANKS && k[|k| - 1] !in BLANKS && ':' !in k && NoCrlf(k) && Lower(k) == k
  }

  predicate Tidy(v: string) {
    v == "" || (v[0] !in BLANKS && v[|v| - 1] !in LINE_BLANKS)
  }

  ghost predicate GoodHeaders(h: Headers) {
    forall k | k in h :: GoodName(k) && NoCrlf(h[k])
  }

  /** What a caller can check of all but the body; an empty path is allowed before a query. */
  ghost predicate WellFormedHead(r: Request) {
    && r.verb != INVALID && r.version != UNKNOWN
    && GoodTarget(r.path, r.query) && (r.path != "" || r.query != "")
    && GoodHeaders(r.headers) && (forall k | k in r.headers :: Tidy(r.headers[k]))
  }

  /** What a caller can check before printing.  The body is as long as the Content-Length field says,
      which is nothing when that field is absent. */
  ghost predicate WellFormed(r: Request) {
    WellFormedHead(r) && |r.body| == ContentLength(r.headers)
  }

  /** The parsed form of a printed request: the stream number is not printed. */
  function Parsed(r: Request): Request {
    r.(state := ParseComplete, streamId := 0)
  }

  // ---- every request the parser completes is sound --------------------------------------------

  ghost predicate SoundHead(r: Request) {
    && r.verb != INVALID && r.version != UNKNOWN
    && GoodTarget(r.path, r.query)
    && GoodHeaders(r.headers)
    && r.streamId == 0
  }

  /** The invariant of a parser started afresh; in ParseBody the remembered length is the header's. */
  ghost predicate Sound(p: Progress) {
    match p.request.state
    case ParseRequestLine => p.request == EMPTY_REQUEST
    case ParseHeaders => SoundHead(p.request) && p.request.body == ""
    case ParseBody =>
      && SoundHead(p.request) && p.request.body == ""
      && p.contentLength == ContentLength(p.request.headers) > 0 && p.expectBody
    case ParseComplete => SoundHead(p.request) && |p.request.body| == ContentLength(p.request.headers)
    case ParseError => false
  }

  lemma ExtractedTargetIsGood(r: Request, target: string)
    requires NoSpace(target) && r.query == ""
    ensures GoodTarget(SetTarget(r, target).path, SetTarget(r, target).query)
  {
  }

  lemma LowerIsGood(s: string)
    requires s != "" && s[0] !in BLANKS && s[|s| - 1] !in BLANKS && ':' !in s && NoCrlf(s)
    ensures GoodName(Lower(s))
  {
    var t := Lower(s);
    forall i | 0 <= i < |t| ensures !CrlfAt(t, i) {
      assert !CrlfAt(s, i);
    }
  }

  /** Both trimmings cut a contiguous piece out of the text. */
  lemma CleanValuePart(s: string) returns (lo: nat, hi: nat)
    ensures lo <= hi <= |s| && CleanValue(s) == s[lo..hi]
    ensures Tidy(CleanValue(s))
  {
    hide TrimLeft, TrimRight;
    var t := TrimRight(s, LINE_BLANKS);
    var v := TrimLeft(t, BLANKS);
    CutTwice(s, t, v);
    lo, hi := |t| - |v|, |t|;
  }

  lemma CutTwice(s: string, t: string, v: string)
    requires t <= s && |v| <= |t| && v == t[|t| - |v|..]
    ensures v == s[|t| - |v|..|t|] && (v != "" ==> v[|v| - 1] == t[|t| - 1])
  {
    assert t == s[..|t|];
  }

  lemma CleanNamePart(s: string) returns (lo: nat, hi: nat)
    ensures lo <= hi <= |s| && CleanName(s) == s[lo..hi]
    ensures CleanName(s) == "" || (CleanName(s)[0] !in BLANKS && CleanName(s)[|CleanName(s)| - 1] !in BLANKS)
  {
    hide TrimLeft, TrimRight;
    var t := TrimRight(s, BLANKS);
    var v := TrimLeft(t, BLANKS);
    CutTwice(s, t, v);
    lo, hi := |t| - |v|, |t|;
  }

  lemma ParsedNameIsGood(text: string)
    requires NoCrlf(text) && ':' !in text && CleanName(text) != ""
    ensures GoodName(Lower(CleanName(text)))
  {
    var name := CleanName(text);
    var lo, hi := CleanNamePart(text);
    hide CleanName, GoodName, NoCrlf, Lower;
    NoCrlfPart(text, lo, hi);
    assert ':' !in text[lo..hi];
    LowerIsGood(name);
  }

  lemma ParsedValueIsGood(text: string)
    requires NoCrlf(text)
    ensures NoCrlf(CleanValue(text))
  {
    var lo, hi := CleanValuePart(text);
    NoCrlfPart(text, lo, hi);
  }

  lemma ParsedFieldIsGood(line: string)
    requires NoCrlf(line)
    ensures ParseField(line).Some? ==>
              GoodName(Lower(ParseField(line).value.0)) && NoCrlf(ParseField(line).value.1)
  {
    hide CleanName, CleanValue, FindChar, GoodName, NoCrlf, Lower;
    if ParseField(line).Some? {
      var c := FindChar(line, ':').value;
      NoCrlfPart(line, 0, c);
      NoCrlfPart(line, c + 1, |line|);
      assert line[..c] == line[0..c] && line[c + 1..] == line[c + 1..|line|];
      ParsedNameIsGood(line[..c]);
      ParsedValueIsGood(line[c + 1..]);
    }
  }

  lemma AddHeaderKeepsGood(h: Headers, f: Field)
    requires GoodHeaders(h) && GoodName(Lower(f.0)) && NoCrlf(f.1)
    ensures GoodHeaders(AddHeader(h, f.0, f.1))
  {
    var name := Lower(f.0);
    if name in h {
      NoCrlfJoin(h[name], ", ", f.1);
    }
  }

  lemma StartLineSound(p: Progress, line: string)
    requires Sound(p) && p.request.state == ParseRequestLine
    ensures StartLineTurn(p, line).Again? ==> Sound(StartLineTurn(p, line).next)
  {
    hide Extract, MethodFromText, VersionFromText, FindChar;
    if StartLineTurn(p, line).Again? {
      var target := Extract(Extract(line).1).0;
      ExtractedTargetIsGood(p.request.(verb := MethodFromText(Extract(line).0)), target);
    }
  }

  lemma HeaderLineSound(p: Progress, line: string)
    requires Sound(p) && NoCrlf(line) && p.request.state == ParseHeaders
    ensures match HeaderLineTurn(p, line)
            case Again(q) => Sound(q)
            case Stop(q, done) => done || !q.hasError ==> Sound(q)
  {
    hide ParseField, AddHeader, GoodHeaders, ContentLength, GoodTarget, Lower;
    if line != "" && ParseField(line).Some? {
      ParsedFieldIsGood(line);
      AddHeaderKeepsGood(p.request.headers, ParseField(line).value);
    }
  }

  lemma LineBeforeCrlf(s: string, i: nat)
    requires FindCrlf(s) == Some(i)
    ensures NoCrlf(s[..i])
  {
    forall j | 0 <= j < i ensures !CrlfAt(s[..i], j) {
      assert !CrlfAt(s, j);
    }
  }

  lemma LineTurnIs(p: Progress, i: nat)
    requires FindCrlf(p.input) == Some(i)
    ensures p.request.state == ParseRequestLine ==>
              OneTurn(p) == StartLineTurn(p.(input := p.input[i + 2..]), p.input[..i])
    ensures p.request.state == ParseHeaders ==>
              OneTurn(p) == HeaderLineTurn(p.(input := p.input[i + 2..]), p.input[..i])
  {
    hide StartLineTurn, HeaderLineTurn, FindCrlf;
  }

  lemma LineTurnSound(p: Progress, i: nat)
    requires Sound(p) && FindCrlf(p.input) == Some(i)
    requires p.request.state == ParseRequestLine || p.request.state == ParseHeaders
    ensures match OneTurn(p)
            case Again(q) => Sound(q)
            case Stop(q, done) => done || !q.hasError ==> Sound(q)
  {
    LineBeforeCrlf(p.input, i);
    LineTurnIs(p, i);
    var line, q := p.input[..i], p.(input := p.input[i + 2..]);
    assert Sound(q);
    hide *;
    if p.request.state == ParseRequestLine {
      StartLineSound(q, line);
      StartLineStops(q, line);
    } else {
      HeaderLineSound(q, line);
    }
  }

  lemma TurnSound(p: Progress)
    requires Sound(p)
    ensures match OneTurn(p)
            case Again(q) => Sound(q)
            case Stop(q, done) => done || !q.hasError ==> Sound(q)
  {
    hide StartLineTurn, HeaderLineTurn, GoodHeaders, ContentLength, GoodTarget;
    if p.request.state == ParseRequestLine || p.request.state == ParseHeaders {
      if FindCrlf(p.input).Some? {
        LineTurnSound(p, FindCrlf(p.input).value);
      }
    }
  }

  lemma StartLineStops(p: Progress, line: string)
    ensures StartLineTurn(p, line).Stop? ==> !StartLineTurn(p, line).done && StartLineTurn(p, line).last.hasError
  {
    hide ParseStartLine;
  }

  /** At every call boundary: a parser that has not failed is sound, in PARSE_BODY in particular waits for
      exactly the length its request's header announces. */
  lemma {:induction false} CallKeepsSound(p: Progress)
    requires Sound(p)
    ensures ParseRequest(p).1 || !ParseRequest(p).0.hasError ==> Sound(ParseRequest(p).0)
    decreases |p.input|
  {
    TurnSound(p);
    hide OneTurn, Sound;
    match OneTurn(p)
    case Again(q) => CallKeepsSound(q);
    case Stop(_, _) =>
  }

  /** Whatever bytes arrive, a completed request has a known method and version, a clean target, names
      and values that fit on one line, and a body of exactly the announced length. */
  lemma CompletedIsSound(p: Progress)
    requires Sound(p)
    ensures ParseRequest(p).1 ==> Sound(ParseRequest(p).0) && ParseRequest(p).0.request.state == ParseComplete
  {
    CallKeepsSound(p);
    ParseConsumes(p);
  }

  // ---- reading back what was printed ----------------------------------------------------------

  lemma StartLineTokens(verb: string, target: string, version: string)
    requires NoSpace(verb) && verb != "" && NoSpace(version) && version != "" && NoSpace(target)
    ensures var line := verb + " " + target + " " + version;
            var (v, rest1) := Extract(line);
            var (t, rest2) := Extract(rest1);
            && v == verb
            && (target != "" ==> t == target && Extract(rest2) == (version, ""))
            && (target == "" ==> t == version && Extract(rest2).0 == "")
  {
    hide Extract;
    var line := verb + " " + target + " " + version;
    var tail := " " + target + " " + version;
    assert line == "" + verb + tail;
    ExtractToken("", verb, tail);
    if target != "" {
      assert tail == " " + target + (" " + version);
      ExtractToken(" ", target, " " + version);
      assert " " + version == " " + version + "";
      ExtractToken(" ", version, "");
    } else {
      assert tail == "  " + version + "";
      ExtractToken("  ", version, "");
      NothingToExtract();
    }
  }

  lemma NothingToExtract()
    ensures Extract("") == ("", "")
  {
  }

  lemma TargetSplits(r: Request, path: string, query: string)
    requires GoodTarget(path, query) && r.query == ""
    ensures NoSpace(Target(path, query))
    ensures Target(path, query) == "" <==> path == "" && query == ""
    ensures SetTarget(r, Target(path, query)) == r.(path := path, query := query)
  {
    if query != "" {
      FindCharFirst(path, '?', query);
      assert path + "?" + query == path + ['?'] + query;
    }
  }

  lemma StartLineReadsBack(r: Request)
    requires r.verb != INVALID && r.version != UNKNOWN && GoodTarget(r.path, r.query)
    ensures var (ok, got) := ParseStartLine(PrintRequestLine(r), EMPTY_REQUEST);
            && ok == (r.path != "" || r.query != "")
            && (ok ==> got == EMPTY_REQUEST.(verb := r.verb, path := r.path, query := r.query, version := r.version))
  {
    var target := Target(r.path, r.query);
    NamesReadBack(r.verb, r.version);
    TargetSplits(EMPTY_REQUEST.(verb := r.verb), r.path, r.query);
    StartLineTokens(MethodText(r.verb), target, VersionText(r.version));
    hide MethodText, VersionText, MethodFromText, VersionFromText, Extract, Target, SetTarget, GoodTarget, NoSpace;
    var line := PrintRequestLine(r);
    assert line == MethodText(r.verb) + " " + target + " " + VersionText(r.version);
  }

  lemma StartLineIsOneLine(r: Request)
    requires GoodTarget(r.path, r.query)
    ensures NoCrlf(PrintRequestLine(r))
  {
    var verb, target, version := MethodText(r.verb), Target(r.path, r.query), VersionText(r.version);
    NamesReadBack(r.verb, r.version);
    TargetSplits(EMPTY_REQUEST, r.path, r.query);
    hide MethodText, VersionText, Target;
    assert NoCrlf(verb) && NoCrlf(target) && NoCrlf(version);
    NoCrlfJoin(verb, " ", target);
    NoCrlfJoin(verb + " " + target, " ", version);
  }

  lemma FieldReadsBack(name: string, value: string)
    requires GoodName(name) && NoCrlf(value)
    ensures NoCrlf(HeaderLine(name, value)) && HeaderLine(name, value) != ""
    ensures ParseField(HeaderLine(name, value)) == Some((name, CleanValue(" " + value)))
  {
    var line := HeaderLine(name, value);
    NoCrlfJoin(name, ": ", value);
    assert line == name + [':'] + (" " + value);
    FindCharFirst(name, ':', " " + value);
    assert line[..|name|] == name && line[|name| + 1..] == " " + value;
  }

  lemma TidyReadsBack(value: string)
    ensures CleanValue(" " + value) == value <==> Tidy(value)
  {
    var _, _ := CleanValuePart(" " + value);
    if Tidy(value) {
      var s := " " + value;
      if value == "" {
        assert s[..0] == "";
      } else {
        assert s[1..] == value;
      }
    }
  }

  function Cleaned(fields: seq<Field>): (r: seq<Field>)
    ensures |r| == |fields|
    ensures forall i | 0 <= i < |fields| :: r[i] == (fields[i].0, CleanValue(" " + fields[i].1))
  {
    seq(|fields|, i requires 0 <= i < |fields| => (fields[i].0, CleanValue(" " + fields[i].1)))
  }

  ghost predicate GoodFields(fields: seq<Field>) {
    forall i | 0 <= i < |fields| :: GoodName(fields[i].0) && NoCrlf(fields[i].1)
  }

  function InHeaders(p: Progress, h: Headers, input: string): Progress {
    p.(request := p.request.(headers := h, state := ParseHeaders), input := input)
  }

  lemma OneFieldParsed(p: Progress, h: Headers, name: string, value: string, rest: string)
    requires GoodName(name) && NoCrlf(value)
    ensures ParseRequest(InHeaders(p, h, (HeaderLine(name, value) + CRLF) + rest)) ==
            ParseRequest(InHeaders(p, AddHeader(h, name, CleanValue(" " + value)), rest))
  {
    var line := HeaderLine(name, value);
    FieldReadsBack(name, value);
    FieldTurn(InHeaders(p, h, (line + CRLF) + rest), line, rest);
  }

  lemma FieldTurn(start: Progress, line: string, rest: string)
    requires start.request.state == ParseHeaders && start.input == (line + CRLF) + rest
    requires NoCrlf(line) && line != "" && ParseField(line).Some?
    ensures var f, r := ParseField(line).value, start.request;
            ParseRequest(start) ==
            ParseRequest(start.(request := r.(headers := AddHeader(r.headers, f.0, f.1)), input := rest))
  {
    hide OneTurn, FindCrlf, ParseField, AddHeader, NoCrlf, StartLineTurn;
    FindCrlfAfterLine(line, rest);
    LineTurnIs(start, |line|);
    assert start.input[..|line|] == line && start.input[|line| + 2..] == rest;
  }

  /** The header phase consumes printed fields line by line, folding them into the table. */
  lemma {:induction false} FieldsParsed(p: Progress, h: Headers, fields: seq<Field>, rest: string)
    requires GoodFields(fields)
    ensures ParseRequest(InHeaders(p, h, PrintFields(fields) + rest)) ==
            ParseRequest(InHeaders(p, AddFields(h, Cleaned(fields)), rest))
  {
    hide ParseRequest, InHeaders, HeaderLine, CleanValue, AddHeader, GoodName, NoCrlf;
    if fields == [] {
      assert PrintFields(fields) + rest == rest && AddFields(h, Cleaned(fields)) == h;
    } else {
      var front, last := fields[..|fields| - 1], fields[|fields| - 1];
      var line := HeaderLine(last.0, last.1) + CRLF;
      LastField(h, fields);
      AppendAssoc(PrintFields(front), line, rest);
      FieldsParsed(p, h, front, line + rest);
      OneFieldParsed(p, AddFields(h, Cleaned(front)), last.0, last.1, rest);
    }
  }

  lemma LastField(h: Headers, fields: seq<Field>)
    requires fields != []
    ensures var front, last := fields[..|fields| - 1], fields[|fields| - 1];
            && PrintFields(fields) == PrintFields(front) + (HeaderLine(last.0, last.1) + CRLF)
            && AddFields(h, Cleaned(fields)) ==
               AddHeader(AddFields(h, Cleaned(front)), last.0, CleanValue(" " + last.1))
  {
    hide CleanValue, HeaderLine, AddHeader;
    assert Cleaned(fields)[..|fields| - 1] == Cleaned(fields[..|fields| - 1]);
  }

  /** Distinct lower-case names, in any order, rebuild the table they came from. */
  lemma {:induction false} DistinctFieldsRebuild(fields: seq<Field>)
    requires forall i | 0 <= i < |fields| :: Lower(fields[i].0) == fields[i].0
    requires forall i, j | 0 <= i < j < |fields| :: fields[i].0 != fields[j].0
    ensures forall k | k in AddFields(map[], fields) :: exists i | 0 <= i < |fields| :: fields[i].0 == k
    ensures forall i | 0 <= i < |fields| ::
              fields[i].0 in AddFields(map[], fields) && AddFields(map[], fields)[fields[i].0] == fields[i].1
  {
    if fields != [] {
      var front := fields[..|fields| - 1];
      DistinctFieldsRebuild(front);
      assert forall i | 0 <= i < |front| :: front[i] == fields[i];
    }
  }

  lemma PrintedFieldsAreGood(h: Headers, order: seq<string>)
    requires IsOrder(order, h) && GoodHeaders(h)
    ensures GoodFields(FieldsInOrder(h, order))
  {
    forall i | 0 <= i < |order| ensures GoodName(order[i]) && NoCrlf(h[order[i]]) {
      assert order[i] in order;
    }
    hide GoodName, NoCrlf;
  }

  lemma PrintedFieldsAreDistinct(h: Headers, order: seq<string>)
    requires IsOrder(order, h) && GoodHeaders(h)
    ensures var fields := Cleaned(FieldsInOrder(h, order));
            && (forall i | 0 <= i < |fields| :: Lower(fields[i].0) == fields[i].0)
            && (forall i, j | 0 <= i < j < |fields| :: fields[i].0 != fields[j].0)
  {
    PrintedFieldsAreGood(h, order);
    hide CleanValue, NoCrlf, Lower;
  }

  /** The table the parser rebuilds from a printed one: the same names, the values trimmed. */
  lemma TableRebuilt(h: Headers, order: seq<string>)
    requires IsOrder(order, h) && GoodHeaders(h)
    ensures var got := AddFields(map[], Cleaned(FieldsInOrder(h, order)));
            && (forall k | k in got :: k in h)
            && (forall k | k in h :: k in got && got[k] == CleanValue(" " + h[k]))
  {
    var fields := Cleaned(FieldsInOrder(h, order));
    PrintedFieldsAreDistinct(h, order);
    DistinctFieldsRebuild(fields);
    var got := AddFields(map[], fields);
    assert forall i | 0 <= i < |order| :: fields[i] == (order[i], CleanValue(" " + h[order[i]]));
    hide CleanValue, AddFields, Cleaned, FieldsInOrder, GoodHeaders, Lower;
    forall k | k in h ensures k in got && got[k] == CleanValue(" " + h[k]) {
      assert k in order;
      var i :| 0 <= i < |order| && order[i] == k;
      assert fields[i].0 in got;
    }
    forall k | k in got ensures k in h {
      var i :| 0 <= i < |fields| && fields[i].0 == k;
      assert order[i] in order;
    }
  }

  lemma EmptyLineTurn(start: Progress, tail: string)
    requires start.request.state == ParseHeaders && start.input == CRLF + tail
    ensures OneTurn(start) == HeaderLineTurn(start.(input := tail), "")
  {
    hide StartLineTurn, HeaderLineTurn, FindCrlf;
    assert start.input == "" + CRLF + tail;
    FindCrlfAfterLine("", tail);
    LineTurnIs(start, 0);
    assert start.input[..0] == "" && start.input[2..] == tail;
  }

  lemma BodyTurn(p: Progress)
    requires p.request.state == ParseBody
    ensures ParseRequest(p) ==
            if p.contentLength <= |p.input| then
              (p.(request := p.request.(body := p.input[..p.contentLength], state := ParseComplete),
                  input := p.input[p.contentLength..]), true)
            else (p, false)
  {
  }

  /** The empty line ends the header phase; the table no longer changes. */
  lemma EndOfHeaders(p: Progress, h: Headers, tail: string)
    ensures var start := InHeaders(p, h, CRLF + tail);
            var n := ContentLength(h);
            var r := start.request;
            ParseRequest(start) ==
            if n == 0 then (start.(contentLength := 0, request := r.(state := ParseComplete), input := tail), true)
            else if n <= |tail| then
              (start.(contentLength := n, expectBody := true, input := tail[n..],
                      request := r.(body := tail[..n], state := ParseComplete)), true)
            else
              (start.(contentLength := n, expectBody := true, input := tail,
                      request := r.(state := ParseBody)), false)
  {
    var start := InHeaders(p, h, CRLF + tail);
    EmptyLineTurn(start, tail);
    hide OneTurn, ContentLength;
    var n := ContentLength(h);
    if n > 0 {
      var q := start.(input := tail, contentLength := n, expectBody := true,
                      request := start.request.(state := ParseBody));
      assert OneTurn(start) == Again(q);
      BodyTurn(q);
    }
  }

  /** The state in which the header table has been read and the body is next. */
  function AtEndOfTable(r: Request, h: Headers, tail: string): Progress {
    var head := EMPTY_REQUEST.(verb := r.verb, path := r.path, query := r.query, version := r.version);
    InHeaders(Fresh("").(request := head), h, tail)
  }

  /** A printed request, up to its body, whatever follows and in whatever order its table is printed. */
  lemma PrintedHeadParsed(r: Request, order: seq<string>, rest: string)
    requires r.verb != INVALID && r.version != UNKNOWN && GoodTarget(r.path, r.query)
    requires GoodHeaders(r.headers) && IsOrder(order, r.headers)
    ensures r.path != "" || r.query != "" ==>
              ParseRequest(Fresh(Print(r, order) + rest)) ==
              ParseRequest(AtEndOfTable(r, AddFields(map[], Cleaned(FieldsInOrder(r.headers, order))),
                                        CRLF + (r.body + rest)))
    ensures r.path == "" && r.query == "" ==> !ParseRequest(Fresh(Print(r, order) + rest)).1
  {
    var line, fields := PrintRequestLine(r), FieldsInOrder(r.headers, order);
    var tail := PrintFields(fields) + (CRLF + (r.body + rest));
    var start := Fresh(Print(r, order) + rest);
    PrintSplits(r, order, rest);
    StartLineReadsBack(r);
    StartLineIsOneLine(r);
    FindCrlfAfterLine(line, tail);
    StartLineTaken(start, line, tail);
    if r.path != "" || r.query != "" {
      PrintedFieldsAreGood(r.headers, order);
      FieldsParsed(AtEndOfTable(r, map[], ""), map[], fields, CRLF + (r.body + rest));
    }
    hide *;
  }

  lemma PrintSplits(r: Request, order: seq<string>, rest: string)
    requires IsOrder(order, r.headers)
    ensures Print(r, order) + rest ==
            PrintRequestLine(r) + CRLF + (PrintFields(FieldsInOrder(r.headers, order)) + (CRLF + (r.body + rest)))
    ensures var text, line := Print(r, order) + rest, PrintRequestLine(r);
            && |line| + 2 <= |text| && text[..|line|] == line
            && text[|line| + 2..] == PrintFields(FieldsInOrder(r.headers, order)) + (CRLF + (r.body + rest))
  {
    var line, table := PrintRequestLine(r), PrintFields(FieldsInOrder(r.headers, order));
    hide PrintRequestLine, PrintFields, FieldsInOrder;
    assert Print(r, order) + rest == line + CRLF + (table + (CRLF + (r.body + rest)));
  }

  lemma StartLineTaken(start: Progress, line: string, tail: string)
    requires start.request == EMPTY_REQUEST && FindCrlf(start.input) == Some(|line|)
    requires start.input[..|line|] == line && start.input[|line| + 2..] == tail
    ensures var (ok, got) := ParseStartLine(line, EMPTY_REQUEST);
            if ok then
              ParseRequest(start) == ParseRequest(start.(request := got.(state := ParseHeaders), input := tail))
            else !ParseRequest(start).1 && ParseRequest(start).0.input == tail
  {
    hide ParseStartLine;
  }

  /** The rebuilt table is the printed one exactly when every value is tidy. */
  lemma TableUnchangedIff(h: Headers, order: seq<string>)
    requires IsOrder(order, h) && GoodHeaders(h)
    ensures AddFields(map[], Cleaned(FieldsInOrder(h, order))) == h <==> forall k | k in h :: Tidy(h[k])
  {
    var got := AddFields(map[], Cleaned(FieldsInOrder(h, order)));
    TableRebuilt(h, order);
    forall k | k in h ensures got[k] == h[k] <==> Tidy(h[k]) {
      TidyReadsBack(h[k]);
    }
    hide *;
    SameMap(got, h);
  }

  lemma SameMap<K, V>(m: map<K, V>, n: map<K, V>)
    requires forall k | k in m :: k in n
    requires forall k | k in n :: k in m
    ensures m == n <==> forall k | k in n :: m[k] == n[k]
  {
  }

  /** Parser undoes printer: for every order of the header table, and whatever bytes follow. */
  lemma ParserUndoesPrinter(r: Request, order: seq<string>, rest: string)
    requires WellFormed(r) && IsOrder(order, r.headers)
    ensures var n := ContentLength(r.headers);
            ParseRequest(Fresh(Print(r, order) + rest)) == (Progress(Parsed(r), false, n, n > 0, rest), true)
  {
    PrintedHeadParsed(r, order, rest);
    TableUnchangedIff(r.headers, order);
    EndOfHeaders(AtEndOfTable(r, r.headers, ""), r.headers, r.body + rest);
    assert (r.body + rest)[..|r.body|] == r.body && (r.body + rest)[|r.body|..] == rest;
    assert r.body == "" ==> r.body + rest == rest;
    hide ParseRequest, ContentLength, Print, AddFields, Cleaned, FieldsInOrder, GoodHeaders, IsOrder;
  }

  ghost predicate RoundTrips(r: Request, order: seq<string>)
    requires IsOrder(order, r.headers)
  {
    var (q, done) := ParseRequest(Fresh(Print(r, order)));
    done && q.request == Parsed(r) && q.input == ""
  }

  /** The well-formed requests are exactly those that survive being printed and parsed. */
  lemma RoundTripExactly(r: Request, order: seq<string>)
    requires IsOrder(order, r.headers)
    ensures RoundTrips(r, order) <==> WellFormed(r)
  {
    var text := Print(r, order);
    assert text + "" == text;
    if WellFormed(r) {
      ParserUndoesPrinter(r, order, "");
    } else if RoundTrips(r, order) {
      CompletedIsSound(Fresh(text));
      PrintedHeadParsed(r, order, "");
      TableUnchangedIff(r.headers, order);
      var h := AddFields(map[], Cleaned(FieldsInOrder(r.headers, order)));
      EndOfHeaders(AtEndOfTable(r, h, ""), h, r.body + "");
      hide ParseRequest, ContentLength, Print, AddFields, Cleaned, FieldsInOrder, GoodHeaders, IsOrder;
    }
  }

  /** No proper prefix of a printed request completes or fails: the parser asks for more input. */
  lemma NoPrefixSettles(r: Request, order: seq<string>, n: nat)
    requires WellFormed(r) && IsOrder(order, r.headers) && n < |Print(r, order)|
    ensures var (q, done) := ParseRequest(Fresh(Print(r, order)[..n])); !q.Settled(done)
  {
    var text := Print(r, order);
    assert text + "" == text && text[..n] + text[n..] == text;
    ParserUndoesPrinter(r, order, "");
    ParseExtends(Fresh(text[..n]), text[n..]);
    hide ParseRequest, Print, ContentLength, WellFormed, IsOrder;
    assert Fresh(text[..n]).Feed(text[n..]) == Fresh(text);
  }

  /** A message whose body is shorter than its Content-Length says is neither complete nor in error; the
      parser waits for the missing bytes. */
  lemma ShortBodyWaits(r: Request, order: seq<string>, missing: string)
    requires WellFormed(r.(body := r.body + missing)) && IsOrder(order, r.headers) && missing != ""
    ensures var (q, done) := ParseRequest(Fresh(Print(r, order))); !q.Settled(done)
  {
    hide ParseRequest, WellFormedHead, PrintFields, PrintRequestLine, FieldsInOrder;
    var whole := r.(body := r.body + missing);
    assert Print(whole, order) == Print(r, order) + missing by {
      hide *;
      PrintGrows(r, order, missing);
    }
    assert Print(whole, order)[..|Print(r, order)|] == Print(r, order);
    NoPrefixSettles(whole, order, |Print(r, order)|);
  }

  lemma PrintGrows(r: Request, order: seq<string>, more: string)
    requires forall k | k in order :: k in r.headers
    ensures Print(r.(body := r.body + more), order) == Print(r, order) + more
  {
    hide PrintFields, FieldsInOrder;
    var whole := r.(body := r.body + more);
    assert PrintRequestLine(whole) == PrintRequestLine(r);
    AppendAssoc(CRLF, r.body, more);
    AppendAssoc(PrintFields(FieldsInOrder(r.headers, order)), CRLF + r.body, more);
    AppendAssoc(PrintRequestLine(r) + CRLF, PrintFields(FieldsInOrder(r.headers, order)) + (CRLF + r.body), more);
  }

  /** A message completes exactly when at least as many bytes follow the header as its Content-Length
      says. */
  lemma CompletesIffBodyArrived(r: Request, order: seq<string>)
    requires WellFormedHead(r) && IsOrder(order, r.headers)
    ensures ParseRequest(Fresh(Print(r, order))).1 <==> |r.body| >= ContentLength(r.headers)
  {
    hide ParseRequest, ContentLength, Print, GoodHeaders, GoodTarget, Tidy;
    var n := ContentLength(r.headers);
    if |r.body| >= n {
      var whole := r.(body := r.body[..n]);
      assert r.body[..n] + r.body[n..] == r.body && r == whole.(body := whole.body + r.body[n..]);
      PrintGrows(whole, order, r.body[n..]);
      ParserUndoesPrinter(whole, order, r.body[n..]);
    } else {
      var missing := seq(n - |r.body|, _ => ' ');
      assert |r.body + missing| == n;
      ShortBodyWaits(r, order, missing);
    }
  }

  const POSTED := Request(
    POST, "/api/data", "", HTTP_1_1,
    map["host" := "example.com", "content-type" := "application/json", "content-length" := "18"],
    "{\"key\": \"value\"}", ParseRequestLine, 0)

  lemma PlainName(k: string)
    requires k != "" && forall i | 0 <= i < |k| :: k[i] == '-' || 'a' <= k[i] <= 'z'
    ensures GoodName(k) && Lower(k) == k
  {
  }

  lemma PlainValue(v: string)
    requires v != "" && forall i | 0 <= i < |v| :: ' ' < v[i] <= '~'
    ensures NoCrlf(v) && Tidy(v) && NoSpace(v)
  {
  }

  /** A request whose body has 16 bytes under a Content-Length of 18 does not complete. */
  lemma PostedDoesNotComplete(order: seq<string>)
    requires IsOrder(order, POSTED.headers)
    ensures !ParseRequest(Fresh(Print(POSTED, order))).1
  {
    hide *;
    PostedHeadIsGood();
    PostedLengths();
    CompletesIffBodyArrived(POSTED, order);
  }

  lemma PostedFieldIsGood(k: string)
    requires k in POSTED.headers
    ensures GoodName(k) && NoCrlf(POSTED.headers[k]) && Tidy(POSTED.headers[k])
  {
    hide GoodName, NoCrlf, Tidy, NoSpace, Lower;
    if k == "host" {
      PlainName("host");
      PlainValue("example.com");
    } else if k == "content-type" {
      PlainName("content-type");
      PlainValue("application/json");
    } else {
      PlainName("content-length");
      PlainValue("18");
    }
  }

  lemma PostedHeadIsGood()
    ensures WellFormedHead(POSTED)
  {
    hide GoodName, NoCrlf, Tidy, NoSpace;
    forall k | k in POSTED.headers
      ensures GoodName(k) && NoCrlf(POSTED.headers[k]) && Tidy(POSTED.headers[k])
    {
      PostedFieldIsGood(k);
    }
    PlainValue("/api/data");
    NothingIsPlain();
    assert '?' !in "/api/data";
  }

  lemma NothingIsPlain()
    ensures NoSpace("")
  {
  }

  lemma PostedLengths()
    ensures |POSTED.body| == 16 && ContentLength(POSTED.headers) == 18
  {
    hide Stoull;
    PlainName("content-length");
    assert Decimal(18) == Decimal(1) + "8" == "18" && "18" + "" == "18";
    StoullDecimal(18, "");
    hide Lower, Decimal;
  }

  // ---- many requests on one connection --------------------------------------------------------

  datatype Message = Message(request: Request, order: seq<string>) {
    ghost predicate Valid() {
      WellFormed(request) && IsOrder(order, request.headers)
    }
  }

  ghost predicate AllValid(ms: seq<Message>) {
    forall i | 0 <= i < |ms| :: ms[i].Valid()
  }

  function PrintAll(ms: seq<Message>): string
    requires AllValid(ms)
  {
    if ms == [] then "" else Print(ms[0].request, ms[0].order) + PrintAll(ms[1..])
  }

  function AllParsed(ms: seq<Message>): seq<Request> {
    if ms == [] then [] else [Parsed(ms[0].request)] + AllParsed(ms[1..])
  }

  lemma {:induction false} ServeReturnsMessages(ms: seq<Message>)
    requires AllValid(ms)
    ensures Serve(Fresh(PrintAll(ms))) == (AllParsed(ms), Fresh(""))
  {
    hide ParseRequest, Serve, Print, WellFormed;
    if ms == [] {
      NothingToServe();
    } else {
      assert ms[0].Valid();
      ServeStep(Fresh(PrintAll(ms)));
      ParserUndoesPrinter(ms[0].request, ms[0].order, PrintAll(ms[1..]));
      ServeReturnsMessages(ms[1..]);
    }
  }

  /** Pipelining: however the bytes of a list of requests are cut, the connection yields that list in
      order and ends with an empty buffer and a parser ready for the next request. */
  lemma PipelineReturnsMessages(ms: seq<Message>, pieces: seq<string>)
    requires AllValid(ms) && Concat(pieces) == PrintAll(ms)
    ensures ServePieces(Fresh(""), pieces) == (AllParsed(ms), Fresh(""))
  {
    hide Serve, ParseRequest, PrintAll, Print, WellFormed, Concat, AllParsed;
    ServeReturnsMessages(ms);
    FreshFed(PrintAll(ms));
    if pieces != [] {
      hide ServePieces;
      PipelineChunking(Fresh(""), pieces);
    } else {
      NoPieces();
      NothingToServe();
    }
  }

  lemma FreshFed(s: string)
    ensures Fresh("").Feed(s) == Fresh(s)
  {
    assert "" + s == s;
  }

  lemma NoPieces()
    ensures Concat([]) == ""
  {
  }

  lemma NothingToServe()
    ensures Serve(Fresh("")) == ([], Fresh(""))
  {
    ServeStep(Fresh(""));
    assert OneTurn(Fresh("")) == Stop(Fresh(""), false);
  }
}
