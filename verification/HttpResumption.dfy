/** What becomes of messages when their reader starts a new request for each call, as the server does.

    The bytes a call consumed are gone from the queue, and what they said went into the request that is
    thrown away; and a call serves one message at most, whatever else is in the queue. */
module HttpResumption {
  import opened Options
  import opened Text
  import opened Http
  import opened HttpParsing
  import opened HttpRoundTrip

  // ---- the server's calls ---------------------------------------------------------------------

  /** on_message: the queue and the parser of the call before, and a request of its own; after a complete
      message the parser is reset. */
  function OnMessage(p: Progress, piece: string): (Option<Request>, Progress) {
    var (q, done) := ParseRequest(p.(request := EMPTY_REQUEST).Feed(piece));
    if done then (Some(q.request), q.(hasError := false, contentLength := 0, expectBody := false)) else (None, q)
  }

  /** The requests served while the pieces arrive one after the other. */
  function Served(p: Progress, pieces: seq<string>): seq<Request>
    decreases |pieces|
  {
    if pieces == [] then []
    else
      var (r, q) := OnMessage(p, pieces[0]);
      (match r case Some(request) => [request] case None => []) + Served(q, pieces[1..])
  }

  /** What the parser remembers from before does not matter until it has read a header. */
  predicate Alike(p: Progress, q: Progress) {
    && p.request == q.request && p.input == q.input
    && (p.request.state == ParseBody ==> p.contentLength == q.contentLength)
  }

  lemma TurnsAlike(p: Progress, q: Progress)
    requires Alike(p, q)
    ensures match OneTurn(p)
            case Again(p') => OneTurn(q).Again? && Alike(p', OneTurn(q).next)
            case Stop(p', done) => OneTurn(q).Stop? && OneTurn(q).done == done && Alike(p', OneTurn(q).last)
  {
    hide ParseStartLine, ParseField, ContentLength, AddHeader, FindCrlf;
    if (p.request.state == ParseRequestLine || p.request.state == ParseHeaders) && FindCrlf(p.input).Some? {
      StartLineTakesNoBody(p.input[..FindCrlf(p.input).value], p.request);
    }
  }

  lemma {:induction false} CallsAlike(p: Progress, q: Progress)
    requires Alike(p, q)
    ensures ParseRequest(p).1 == ParseRequest(q).1 && Alike(ParseRequest(p).0, ParseRequest(q).0)
    decreases |p.input|
  {
    TurnsAlike(p, q);
    match OneTurn(p)
    case Again(p') => CallsAlike(p', OneTurn(q).next); hide OneTurn, Alike;
    case Stop(_, _) => hide OneTurn, Alike;
  }

  // ---- a message read here is short -----------------------------------------------------------

  /** A line that is no request line is consumed, and that is all. */
  lemma RefusedLineDropped(p: Progress, line: string, rest: string)
    requires p.request == EMPTY_REQUEST && p.input == line + CRLF + rest
    requires NoCrlf(line) && !ParseStartLine(line, EMPTY_REQUEST).0
    ensures !ParseRequest(p).1 && ParseRequest(p).0.input == rest
  {
    hide *;
    FindCrlfAfterLine(line, rest);
    LineThenRest(line, rest);
    StartLineTaken(p, line, rest);
  }

  lemma TurnTakesBody(p: Progress)
    requires p.request.body == ""
    ensures match OneTurn(p)
            case Again(q) => q.request.body == ""
            case Stop(q, done) =>
              |q.request.body| <= |p.input| && (p.request.state == ParseRequestLine ==> !done)
  {
    hide ParseStartLine, ParseField, ContentLength, AddHeader, FindCrlf;
    if FindCrlf(p.input).Some? {
      var i := FindCrlf(p.input).value;
      StartLineTakesNoBody(p.input[..i], p.request);
    }
  }

  lemma StartLineTakesNoBody(line: string, r: Request)
    ensures ParseStartLine(line, r).1.body == r.body && ParseStartLine(line, r).1.state == r.state
  {
    hide Extract, MethodFromText, VersionFromText, FindChar;
  }

  /** A body comes out of the input, and a message read from its start is longer than its body. */
  lemma {:induction false} BodyFitsInput(p: Progress)
    requires p.request.body == ""
    ensures |ParseRequest(p).0.request.body| <= |p.input|
    ensures p.request.state == ParseRequestLine && ParseRequest(p).1 ==>
              |ParseRequest(p).0.request.body| < |p.input|
    decreases |p.input|
  {
    TurnTakesBody(p);
    match OneTurn(p)
    case Again(q) => BodyFitsInput(q); hide OneTurn;
    case Stop(_, _) => hide OneTurn;
  }

  // ---- a field line is no request line --------------------------------------------------------

  lemma MethodsAreUpper(text: string)
    requires MethodFromText(text) != INVALID
    ensures text != "" && 'A' <= text[0] <= 'Z'
  {
  }

  lemma SpacesStop(s: string, i: nat, j: nat)
    requires i <= |s| && AllSpace(s[..i]) && j < |s| && !IsSpace(s[j])
    ensures i <= j
  {
    assert forall k | 0 <= k < i :: s[..i][k] == s[k];
  }

  /** The first token begins in the name or at the colon. */
  lemma FirstTokenIsLow(name: string, value: string)
    requires Lower(name) == name
    ensures var verb := Extract(HeaderLine(name, value)).0; verb != "" ==> !('A' <= verb[0] <= 'Z')
  {
    hide Extract;
    var line := HeaderLine(name, value);
    var (verb, rest) := Extract(line);
    ExtractSplits(line);
    var i := |line| - |verb| - |rest|;
    assert verb != "" ==> line[i..i + |verb|][0] == line[i] == verb[0];
    assert line[|name|] == ':' && !IsSpace(line[|name|]);
    SpacesStop(line, i, |name|);
    assert line == name + ": " + value;
    if i < |name| {
      assert line[i] == name[i] == LowerChar(name[i]);
    }
  }

  lemma FieldLineRefused(name: string, value: string)
    requires GoodName(name)
    ensures !ParseStartLine(HeaderLine(name, value), EMPTY_REQUEST).0
  {
    var verb := Extract(HeaderLine(name, value)).0;
    FirstTokenIsLow(name, value);
    if MethodFromText(verb) != INVALID {
      MethodsAreUpper(verb);
    }
    hide Extract, Lower, SetTarget, HeaderLine, GoodName, MethodFromText;
  }

  lemma EmptyLineRefused()
    ensures !ParseStartLine("", EMPTY_REQUEST).0
  {
    NothingToExtract();
    hide Extract;
  }

  // ---- where a call stops ---------------------------------------------------------------------

  lemma {:induction false} FirstField(fields: seq<Field>)
    requires fields != []
    ensures PrintFields(fields) == HeaderLine(fields[0].0, fields[0].1) + CRLF + PrintFields(fields[1..])
  {
    hide HeaderLine;
    var first, last := HeaderLine(fields[0].0, fields[0].1) + CRLF, fields[|fields| - 1];
    if |fields| == 1 {
      assert fields[..0] == [] && fields[1..] == [];
    } else {
      var front := fields[..|fields| - 1];
      FirstField(front);
      assert fields[1..][..|fields| - 2] == front[1..];
      AppendAssoc(first, PrintFields(front[1..]), HeaderLine(last.0, last.1) + CRLF);
    }
  }

  /** A printed table from its first line on, the empty line and the body behind it. */
  function Table(fields: seq<Field>, body: string): string {
    FirstLine(fields) + CRLF + if fields == [] then body else Table(fields[1..], body)
  }

  function FirstLine(fields: seq<Field>): string {
    if fields == [] then "" else HeaderLine(fields[0].0, fields[0].1)
  }

  function Remainder(fields: seq<Field>, body: string): string {
    if fields == [] then body else Table(fields[1..], body)
  }

  lemma {:induction false} TableIsPrinted(fields: seq<Field>, body: string)
    ensures PrintFields(fields) + (CRLF + body) == Table(fields, body)
  {
    hide HeaderLine;
    if fields != [] {
      FirstField(fields);
      TableIsPrinted(fields[1..], body);
      hide PrintFields, Table;
      AppendAssoc(FirstLine(fields) + CRLF, PrintFields(fields[1..]), CRLF + body);
      TableUnfolds(fields, body);
    } else {
      assert "" + (CRLF + body) == "" + CRLF + body;
    }
  }

  lemma TableUnfolds(fields: seq<Field>, body: string)
    ensures Table(fields, body) == FirstLine(fields) + CRLF + Remainder(fields, body)
  {
  }

  lemma FirstLineRefused(fields: seq<Field>)
    requires GoodFields(fields)
    ensures NoCrlf(FirstLine(fields)) && !ParseStartLine(FirstLine(fields), EMPTY_REQUEST).0
  {
    hide ParseStartLine, HeaderLine, GoodName, ParseField, CleanValue;
    EmptyLineRefused();
    if fields != [] {
      FieldReadsBack(fields[0].0, fields[0].1);
      FieldLineRefused(fields[0].0, fields[0].1);
    }
  }

  lemma NoLineYet(p: Progress, line: string, rest: string, m: nat)
    requires p.request.state == ParseRequestLine || p.request.state == ParseHeaders
    requires NoCrlf(line) && m < |line| + 2 && p.input == (line + CRLF + rest)[..m]
    ensures ParseRequest(p) == (p, false) && NoCrlf(p.input)
  {
    var whole := line + CRLF + rest;
    FindCrlfAfterLine(line, rest);
    FindCrlfExtends(whole[..m], whole[m..]);
    assert whole[..m] + whole[m..] == whole;
  }

  /** The body cut off: either the call completed, or it waits with all of what it got. */
  lemma BodyCut(p: Progress, body: string, k: nat)
    requires p.request.state == ParseHeaders && k <= |body| && p.input == CRLF + body[..k]
    requires !ParseRequest(p).1
    ensures |ParseRequest(p).0.input + body[k..]| <= |body|
  {
    hide ParseRequest, ContentLength;
    assert p == InHeaders(p, p.request.headers, CRLF + body[..k]);
    EndOfHeaders(p, p.request.headers, body[..k]);
  }

  lemma OneFieldTaken(p: Progress, f: Field, rest: string) returns (q: Progress)
    requires p.request.state == ParseHeaders && GoodName(f.0) && NoCrlf(f.1)
    requires p.input == HeaderLine(f.0, f.1) + CRLF + rest
    ensures q.request.state == ParseHeaders && q.input == rest && ParseRequest(q) == ParseRequest(p)
  {
    hide ParseRequest, HeaderLine, AddHeader, CleanValue, GoodName, NoCrlf;
    var h := p.request.headers;
    assert p == InHeaders(p, h, HeaderLine(f.0, f.1) + CRLF + rest);
    OneFieldParsed(p, h, f.0, f.1, rest);
    q := InHeaders(p, AddHeader(h, f.0, CleanValue(" " + f.1)), rest);
  }

  lemma CutPast(line: string, rest: string, m: nat)
    requires |line| + 2 <= m <= |line + CRLF + rest|
    ensures var whole, k := line + CRLF + rest, m - |line| - 2;
            && whole[..m] == line + CRLF + rest[..k]
            && whole[m..] == rest[k..]
  {
  }

  lemma Rejoin(s: string, m: nat)
    requires m <= |s|
    ensures s[..m] + s[m..] == s
  {
  }

  lemma LineThenRest(line: string, rest: string)
    ensures (line + CRLF + rest)[..|line|] == line && (line + CRLF + rest)[|line| + 2..] == rest
  {
  }

  lemma NoLineInFront(s: string)
    ensures "" + CRLF + s == CRLF + s
  {
  }

  /** Bytes from which the message with this table and body can no longer be read: they start at a line
      of the table, or there are no more of them than the body had. */
  ghost predicate Stray(s: string, fields: seq<Field>, body: string) {
    |s| <= |body| || s == Table(fields, body) || (fields != [] && Stray(s, fields[1..], body))
  }

  lemma StrayCases(s: string, fields: seq<Field>, body: string)
    ensures |s| <= |body| ==> Stray(s, fields, body)
    ensures s == Table(fields, body) ==> Stray(s, fields, body)
    ensures fields != [] && Stray(s, fields[1..], body) ==> Stray(s, fields, body)
  {
  }

  lemma TableCases(fields: seq<Field>, body: string)
    requires GoodFields(fields)
    ensures Table(fields, body) == FirstLine(fields) + CRLF + Remainder(fields, body) && |CRLF| == 2
    ensures fields == [] ==> FirstLine(fields) == "" && Remainder(fields, body) == body
    ensures fields != [] ==>
              && FirstLine(fields) == HeaderLine(fields[0].0, fields[0].1)
              && Remainder(fields, body) == Table(fields[1..], body)
              && GoodName(fields[0].0) && NoCrlf(fields[0].1) && GoodFields(fields[1..])
  {
    hide HeaderLine, GoodName, NoCrlf;
  }

  /** Cut within the next line, the call has left that line to the next one. */
  lemma CutInLine(p: Progress, fields: seq<Field>, body: string, m: nat)
    requires p.request.state == ParseHeaders && GoodFields(fields) && m < |FirstLine(fields)| + 2
    requires m <= |Table(fields, body)| && p.input == Table(fields, body)[..m]
    ensures ParseRequest(p).0.input + Table(fields, body)[m..] == Table(fields, body)
  {
    hide *;
    TableCases(fields, body);
    FirstLineRefused(fields);
    NoLineYet(p, FirstLine(fields), Remainder(fields, body), m);
    Rejoin(Table(fields, body), m);
  }

  /** The table cut off at `m`: what a call that did not complete leaves to the next ones is stray. */
  lemma {:induction false} TableCut(p: Progress, fields: seq<Field>, body: string, m: nat)
    requires p.request.state == ParseHeaders && GoodFields(fields)
    requires m <= |Table(fields, body)| && p.input == Table(fields, body)[..m]
    requires !ParseRequest(p).1
    ensures Stray(ParseRequest(p).0.input + Table(fields, body)[m..], fields, body)
    decreases |fields|
  {
    hide *;
    var line, rest := FirstLine(fields), Remainder(fields, body);
    TableCases(fields, body);
    StrayCases(ParseRequest(p).0.input + Table(fields, body)[m..], fields, body);
    if m < |line| + 2 {
      CutInLine(p, fields, body, m);
    } else {
      var k := m - |line| - 2;
      CutPast(line, rest, m);
      if fields == [] {
        NoLineInFront(body[..k]);
        BodyCut(p, body, k);
      } else {
        var q := OneFieldTaken(p, fields[0], rest[..k]);
        TableCut(q, fields[1..], body, k);
      }
    }
  }

  /** A call at a line of the table waits for the line to be complete, or drops it. */
  lemma CallInTable(p: Progress, y: string, fields: seq<Field>, body: string)
    requires p.request == EMPTY_REQUEST && GoodFields(fields) && p.input + y == Table(fields, body)
    ensures !ParseRequest(p).1 && Stray(ParseRequest(p).0.input + y, fields, body)
  {
    var line, rest := FirstLine(fields), Remainder(fields, body);
    var m := |p.input|;
    hide *;
    TableCases(fields, body);
    FirstLineRefused(fields);
    Halves(p.input, y);
    StrayCases(ParseRequest(p).0.input + y, fields, body);
    if m < |line| + 2 {
      HeadIsAtStart(p);
      NoLineYet(p, line, rest, m);
    } else {
      CutPast(line, rest, m);
      var k := m - |line| - 2;
      RefusedLineDropped(p, line, rest[..k]);
      Rejoin(rest, k);
      if fields != [] {
        StrayCases(rest, fields[1..], body);
      }
    }
  }

  lemma HeadIsAtStart(p: Progress)
    requires p.request == EMPTY_REQUEST
    ensures p.request.state == ParseRequestLine
  {
  }

  lemma Halves(a: string, b: string)
    ensures (a + b)[..|a|] == a && (a + b)[|a|..] == b
  {
  }

  /** Whatever a call serves out of stray bytes is another message, and what it leaves is stray. */
  lemma {:induction false} StrayCall(p: Progress, y: string, fields: seq<Field>, body: string)
    requires p.request == EMPTY_REQUEST && GoodFields(fields) && Stray(p.input + y, fields, body)
    ensures Stray(ParseRequest(p).0.input + y, fields, body)
    ensures ParseRequest(p).1 ==> ParseRequest(p).0.request.body != body
    decreases |fields|
  {
    hide ParseRequest, Table, GoodName, NoCrlf;
    if |p.input + y| <= |body| {
      BodyFitsInput(p);
      ParseConsumes(p);
    } else if p.input + y == Table(fields, body) {
      CallInTable(p, y, fields, body);
    } else {
      StrayCall(p, y, fields[1..], body);
    }
  }

  lemma {:induction false} StrayNeverServed(p: Progress, pieces: seq<string>, fields: seq<Field>, body: string)
    requires GoodFields(fields) && Stray(p.input + Concat(pieces), fields, body)
    ensures forall r | r in Served(p, pieces) :: r.body != body
    decreases |pieces|
  {
    hide ParseRequest, Stray, GoodFields;
    if pieces != [] {
      var (r, q) := OnMessage(p, pieces[0]);
      AppendAssoc(p.input, pieces[0], Concat(pieces[1..]));
      StrayCall(p.(request := EMPTY_REQUEST).Feed(pieces[0]), Concat(pieces[1..]), fields, body);
      StrayNeverServed(q, pieces[1..], fields, body);
    }
  }

  // ---- exactly when a message is served -------------------------------------------------------

  lemma PrintedParts(r: Request, order: seq<string>)
    requires IsOrder(order, r.headers)
    ensures Print(r, order) == PrintRequestLine(r) + CRLF + Table(FieldsInOrder(r.headers, order), r.body)
  {
    hide PrintRequestLine, PrintFields, Table;
    TableIsPrinted(FieldsInOrder(r.headers, order), r.body);
  }

  /** Parsing the first piece, once its request line is complete, goes on in the table. */
  lemma StartLineLeft(r: Request, piece: string) returns (p: Progress)
    requires WellFormed(r)
    ensures p.request.state == ParseHeaders && p.input == piece
    ensures ParseRequest(Fresh(PrintRequestLine(r) + CRLF + piece)) == ParseRequest(p)
  {
    var line := PrintRequestLine(r);
    var text := line + CRLF + piece;
    StartLineReadsBack(r);
    StartLineIsOneLine(r);
    FindCrlfAfterLine(line, piece);
    assert r.path != "" || r.query != "";
    hide *;
    LineThenRest(line, piece);
    StartLineTaken(Fresh(text), line, piece);
    p := Fresh(text).(request := ParseStartLine(line, EMPTY_REQUEST).1.(state := ParseHeaders), input := piece);
  }

  lemma CutAfterStartLine(r: Request, order: seq<string>, n: nat)
    requires WellFormed(r) && IsOrder(order, r.headers) && n < |Print(r, order)|
    requires |PrintRequestLine(r)| + 2 <= n
    ensures var fields := FieldsInOrder(r.headers, order);
            && GoodFields(fields)
            && Stray(ParseRequest(Fresh(Print(r, order)[..n])).0.input + Print(r, order)[n..], fields, r.body)
  {
    NoPrefixSettles(r, order, n);
    PrintedParts(r, order);
    PrintedFieldsAreGood(r.headers, order);
    hide *;
    var fields, line := FieldsInOrder(r.headers, order), PrintRequestLine(r);
    var table, k := Table(fields, r.body), n - |line| - 2;
    CutPast(line, table, n);
    var p := StartLineLeft(r, table[..k]);
    TableCut(p, fields, r.body, k);
  }

  /** The first line end of a printed message is that of its request line. */
  lemma LineEndIff(r: Request, order: seq<string>, n: nat)
    requires WellFormed(r) && IsOrder(order, r.headers) && n <= |Print(r, order)|
    ensures NoCrlf(Print(r, order)[..n]) <==> n < |PrintRequestLine(r)| + 2
  {
    PrintedParts(r, order);
    StartLineIsOneLine(r);
    hide *;
    CutNoCrlfIff(PrintRequestLine(r), Table(FieldsInOrder(r.headers, order), r.body), n);
  }

  lemma CutNoCrlfIff(line: string, rest: string, n: nat)
    requires NoCrlf(line) && n <= |line + CRLF + rest|
    ensures NoCrlf((line + CRLF + rest)[..n]) <==> n < |line| + 2
  {
    var whole := line + CRLF + rest;
    FindCrlfAfterLine(line, rest);
    hide FindCrlf;
    if n < |line| + 2 {
      assert forall i | 0 <= i < n :: CrlfAt(whole[..n], i) ==> CrlfAt(whole, i) && i < |line|;
    } else {
      assert CrlfAt(whole[..n], |line|);
    }
  }

  lemma NoLineNothingDone(p: Progress, piece: string)
    requires NoCrlf(p.input + piece)
    ensures OnMessage(p, piece).0 == None && OnMessage(p, piece).1.input == p.input + piece
  {
  }

  /** The call that gets the last byte of a message still whole in the queue serves it. */
  lemma WholeIsServed(p: Progress, piece: string, r: Request, order: seq<string>, rest: string)
    requires WellFormed(r) && IsOrder(order, r.headers) && p.input + piece == Print(r, order) + rest
    ensures OnMessage(p, piece).0 == Some(Parsed(r)) && OnMessage(p, piece).1.input == rest
  {
    hide ParseRequest, Print, WellFormed, IsOrder, OnMessage;
    ParserUndoesPrinter(r, order, rest);
    OnMessageAlike(p, piece);
  }

  lemma CutCallLeavesStray(p: Progress, piece: string, later: string, r: Request, order: seq<string>)
    requires WellFormed(r) && IsOrder(order, r.headers) && later != ""
    requires p.input + piece + later == Print(r, order) && !NoCrlf(p.input + piece)
    ensures OnMessage(p, piece).0 == None
    ensures var fields := FieldsInOrder(r.headers, order);
            GoodFields(fields) && Stray(OnMessage(p, piece).1.input + later, fields, r.body)
  {
    var n, text := |p.input + piece|, Print(r, order);
    hide *;
    Halves(p.input + piece, later);
    assert text[..n] == p.input + piece && text[n..] == later && n < |text|;
    LineEndIff(r, order, n);
    NoPrefixSettles(r, order, n);
    NotSettledNotDone(ParseRequest(Fresh(text[..n])));
    CutAfterStartLine(r, order, n);
    OnMessageAlike(p, piece);
  }

  lemma NotSettledNotDone(call: (Progress, bool))
    requires !call.0.Settled(call.1)
    ensures !call.1
  {
  }

  lemma OnMessageAlike(p: Progress, piece: string)
    ensures var (q, done) := ParseRequest(Fresh(p.input + piece));
            && OnMessage(p, piece).0 == (if done then Some(q.request) else None)
            && OnMessage(p, piece).1.input == q.input
  {
    hide ParseRequest;
    CallsAlike(p.(request := EMPTY_REQUEST).Feed(piece), Fresh(p.input + piece));
  }

  lemma LostOnceCut(p: Progress, r: Request, order: seq<string>, pieces: seq<string>)
    requires WellFormed(r) && IsOrder(order, r.headers) && |pieces| > 1 && Concat(pieces[1..]) != ""
    requires p.input + pieces[0] + Concat(pieces[1..]) == Print(r, order) && !NoCrlf(p.input + pieces[0])
    ensures Parsed(r) !in Served(p, pieces)
  {
    var later, fields := pieces[1..], FieldsInOrder(r.headers, order);
    hide *;
    CutCallLeavesStray(p, pieces[0], Concat(later), r, order);
    var q := OnMessage(p, pieces[0]).1;
    StrayNeverServed(q, later, fields, r.body);
    ServedStep(p, pieces);
    NothingServed(Served(q, later));
    ParsedKeepsBody(r);
  }

  lemma ParsedKeepsBody(r: Request)
    ensures Parsed(r).body == r.body
  {
  }

  lemma NothingServed(later: seq<Request>)
    ensures [] + later == later
  {
  }

  lemma ServedStep(p: Progress, pieces: seq<string>)
    requires pieces != []
    ensures var (r, q) := OnMessage(p, pieces[0]);
            Served(p, pieces) == (match r case Some(request) => [request] case None => []) + Served(q, pieces[1..])
    ensures Concat(pieces) == pieces[0] + Concat(pieces[1..])
  {
    hide OnMessage;
  }

  /** The bytes of all pieces but the last. */
  function BeforeLast(pieces: seq<string>): string
    requires pieces != []
  {
    Concat(pieces[..|pieces| - 1])
  }

  lemma BeforeLastSplits(pieces: seq<string>)
    requires |pieces| > 1
    ensures BeforeLast(pieces) == pieces[0] + BeforeLast(pieces[1..])
  {
    assert pieces[..|pieces| - 1][1..] == pieces[1..][..|pieces| - 2];
  }

  lemma {:induction false} LastIsThere(pieces: seq<string>)
    requires pieces != [] && pieces[|pieces| - 1] != ""
    ensures Concat(pieces) != ""
  {
    if |pieces| > 1 {
      LastIsThere(pieces[1..]);
    }
  }

  lemma PrefixNoCrlf(a: string, b: string)
    requires NoCrlf(a + b)
    ensures NoCrlf(a)
  {
    assert forall i | 0 <= i < |a| :: CrlfAt(a, i) ==> CrlfAt(a + b, i);
  }

  /** From any point at which the message is still whole in the queue and the pieces to come. */
  lemma {:induction false} ServedFromIff(p: Progress, r: Request, order: seq<string>, pieces: seq<string>)
    requires WellFormed(r) && IsOrder(order, r.headers) && NoCrlf(p.input)
    requires pieces != [] && pieces[|pieces| - 1] != "" && p.input + Concat(pieces) == Print(r, order)
    ensures Parsed(r) in Served(p, pieces) <==> NoCrlf(p.input + BeforeLast(pieces))
    ensures NoCrlf(p.input + BeforeLast(pieces)) ==> Served(p, pieces) == [Parsed(r)]
    decreases |pieces|
  {
    hide *;
    var first, rest := pieces[0], pieces[1..];
    ServedStep(p, pieces);
    AppendAssoc(p.input, first, Concat(rest));
    if rest == [] {
      OnlyPiece(p, r, order, pieces);
    } else {
      LastIsThere(rest);
      BeforeLastSplits(pieces);
      AppendAssoc(p.input, first, BeforeLast(rest));
      if NoCrlf(p.input + first) {
        NoLineNothingDone(p, first);
        var q := OnMessage(p, first).1;
        NothingServed(Served(q, rest));
        ServedFromIff(q, r, order, rest);
      } else {
        LostOnceCut(p, r, order, pieces);
        if NoCrlf(p.input + first + BeforeLast(rest)) {
          PrefixNoCrlf(p.input + first, BeforeLast(rest));
        }
      }
    }
  }

  lemma OnlyPiece(p: Progress, r: Request, order: seq<string>, pieces: seq<string>)
    requires WellFormed(r) && IsOrder(order, r.headers) && NoCrlf(p.input)
    requires |pieces| == 1 && p.input + Concat(pieces) == Print(r, order)
    ensures Served(p, pieces) == [Parsed(r)] && NoCrlf(p.input + BeforeLast(pieces))
  {
    var text := Print(r, order);
    hide ParseRequest, Print, WellFormed, IsOrder, NoCrlf;
    assert pieces[1..] == [] && pieces[..0] == [];
    assert Concat(pieces) == pieces[0] + "" == pieces[0] && p.input + "" == p.input && text + "" == text;
    WholeIsServed(p, pieces[0], r, order, "");
  }

  /** A well-formed message that arrives in any number of pieces is served, by a reader that starts a new
      request for each of them, exactly when the pieces before the last, joined, hold no line end; then it
      is the one request served. */
  lemma FreshRequestResumesIff(r: Request, order: seq<string>, pieces: seq<string>)
    requires WellFormed(r) && IsOrder(order, r.headers) && Concat(pieces) == Print(r, order)
    requires pieces != [] && pieces[|pieces| - 1] != ""
    ensures Parsed(r) in Served(Fresh(""), pieces) <==> NoCrlf(BeforeLast(pieces))
    ensures NoCrlf(BeforeLast(pieces)) ==> Served(Fresh(""), pieces) == [Parsed(r)]
  {
    hide ParseRequest, Print, WellFormed, Served, IsOrder, Concat;
    assert "" + Concat(pieces) == Concat(pieces) && "" + BeforeLast(pieces) == BeforeLast(pieces);
    ServedFromIff(Fresh(""), r, order, pieces);
  }

  // ---- how many messages are served -----------------------------------------------------------

  function TextOf(m: Message): string
    requires m.Valid()
  {
    Print(m.request, m.order)
  }

  /** The queue holds all of the next message. */
  predicate NextIsWhole(ms: seq<Message>, queue: string)
    requires AllValid(ms)
  {
    ms != [] && (assert ms[0].Valid(); |TextOf(ms[0])| <= |queue|)
  }

  /** How many of the messages a reader serves that makes one call for each piece: a call serves the next
      message if the queue with the new piece holds all of it, and never more than that one. */
  function CountServed(ms: seq<Message>, held: string, pieces: seq<string>): (n: nat)
    requires AllValid(ms)
    ensures n <= |ms| && n <= |pieces|
    decreases |pieces|
  {
    if pieces == [] then 0
    else
      var queue := held + pieces[0];
      if NextIsWhole(ms, queue) then 1 + CountServed(ms[1..], queue[|TextOf(ms[0])|..], pieces[1..])
      else CountServed(ms, queue, pieces[1..])
  }

  /** No call finds a line end in a message of which it does not have all. */
  predicate NeverCut(ms: seq<Message>, held: string, pieces: seq<string>)
    requires AllValid(ms)
    decreases |pieces|
  {
    pieces == [] ||
    var queue := held + pieces[0];
    if NextIsWhole(ms, queue) then NeverCut(ms[1..], queue[|TextOf(ms[0])|..], pieces[1..])
    else NoCrlf(queue) && NeverCut(ms, queue, pieces[1..])
  }

  lemma NextServed(p: Progress, piece: string, later: string, ms: seq<Message>)
    requires AllValid(ms) && NextIsWhole(ms, p.input + piece) && p.input + piece + later <= PrintAll(ms)
    ensures ms[0].Valid() && OnMessage(p, piece).0 == Some(Parsed(ms[0].request))
    ensures OnMessage(p, piece).1.input == (p.input + piece)[|TextOf(ms[0])|..]
    ensures OnMessage(p, piece).1.input + later <= PrintAll(ms[1..])
  {
    hide Print, OnMessage, WellFormed, IsOrder;
    assert ms[0].Valid();
    var text, queue, next := TextOf(ms[0]), p.input + piece, PrintAll(ms[1..]);
    PrefixParts(text, next, queue, later);
    WholeIsServed(p, piece, ms[0].request, ms[0].order, queue[|text|..]);
  }

  lemma PrefixParts(text: string, next: string, queue: string, later: string)
    requires |text| <= |queue| && queue + later <= text + next
    ensures queue == text + queue[|text|..] && queue[|text|..] + later <= next
  {
    assert forall i | 0 <= i < |text| :: queue[i] == (queue + later)[i] == (text + next)[i] == text[i];
    assert forall i | 0 <= i < |queue[|text|..] + later| ::
        (queue[|text|..] + later)[i] == (queue + later)[|text| + i] == (text + next)[|text| + i] == next[i];
  }

  /** Messages sent one after the other and cut into any pieces, of which the last may still be missing:
      if no call cuts a message behind a line end, exactly the first `CountServed` are served, in order -
      one a call, though several arrived with it. */
  lemma {:induction false} ServesOneACall(p: Progress, ms: seq<Message>, pieces: seq<string>)
    requires AllValid(ms) && p.input + Concat(pieces) <= PrintAll(ms) && NeverCut(ms, p.input, pieces)
    ensures Served(p, pieces) == AllParsed(ms[..CountServed(ms, p.input, pieces)])
    decreases |pieces|
  {
    hide OnMessage, Print, WellFormed, IsOrder, NoCrlf, TextOf, PrintAll;
    if pieces == [] {
      assert ms[..0] == [];
    } else {
      var piece, later := pieces[0], pieces[1..];
      ServedStep(p, pieces);
      AppendAssoc(p.input, piece, Concat(later));
      if NextIsWhole(ms, p.input + piece) {
        NextServed(p, piece, Concat(later), ms);
        var q := OnMessage(p, piece).1;
        ServesOneACall(q, ms[1..], later);
        assert ms[..1 + CountServed(ms[1..], q.input, later)][1..] == ms[1..][..CountServed(ms[1..], q.input, later)];
      } else {
        NoLineNothingDone(p, piece);
        ServesOneACall(OnMessage(p, piece).1, ms, later);
        NothingServed(Served(OnMessage(p, piece).1, later));
      }
    }
  }
}
