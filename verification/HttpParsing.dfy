/** What one call of the streaming parser does to the parser, the request and the input queue, and why
    it does not matter how the input was cut into pieces. */
module HttpParsing {
  import opened Options
  import opened Text
  import opened Http

  // ---- single lines ---------------------------------------------------------------------------

  /** The request line: three tokens, a known method and a known version.  The fields met before a
      failure stay set, and anything after the third token is ignored. */
  function ParseStartLine(line: string, r: Request): (bool, Request) {
    var (verb, rest1) := Extract(line);
    var (target, rest2) := Extract(rest1);
    var (version, _) := Extract(rest2);
    if verb == "" || target == "" || version == "" then (false, r)
    else if MethodFromText(verb) == INVALID then (false, r)
    else
      var r1 := SetTarget(r.(verb := MethodFromText(verb)), target);
      if VersionFromText(version) == UNKNOWN then (false, r1)
      else (true, r1.(version := VersionFromText(version)))
  }

  function SetTarget(r: Request, target: string): Request {
    match FindChar(target, '?')
    case Some(q) => r.(path := target[..q], query := target[q + 1..])
    case None => r.(path := target)
  }

  const BLANKS := " \t"
  const LINE_BLANKS := " \t\r\n"

  function CleanName(s: string): string {
    TrimLeft(TrimRight(s, BLANKS), BLANKS)
  }

  function CleanValue(s: string): string {
    TrimLeft(TrimRight(s, LINE_BLANKS), BLANKS)
  }

  /** A field line: None where the source reports an error (no colon, or an empty name). */
  function ParseField(line: string): Option<Field> {
    match FindChar(line, ':')
    case None => None
    case Some(c) =>
      var name := CleanName(line[..c]);
      if name == "" then None else Some((name, CleanValue(line[c + 1..])))
  }

  // ---- one turn of the parse loop -------------------------------------------------------------

  /** The parser's own fields, the request being built, and the unread input. */
  datatype Progress = Progress(
    request: Request,
    hasError: bool,
    contentLength: nat,
    expectBody: bool,
    input: string)
  {
    function Feed(more: string): Progress {
      this.(input := input + more)
    }

    /** reset() of both the parser and the request, as between two messages of one connection. */
    function Reset(): Progress {
      Progress(EMPTY_REQUEST, false, 0, false, input)
    }

    /** The call that produced this state told its caller to stop feeding. */
    predicate Settled(done: bool) {
      done || hasError
    }
  }

  function Fresh(input: string): Progress {
    Progress(EMPTY_REQUEST, false, 0, false, input)
  }

  datatype Turn = Again(next: Progress) | Stop(last: Progress, done: bool)

  function StartLineTurn(p: Progress, line: string): Turn {
    var (ok, r) := ParseStartLine(line, p.request);
    if ok then Again(p.(request := r.(state := ParseHeaders)))
    else Stop(p.(request := r, hasError := true), false)
  }

  function HeaderLineTurn(p: Progress, line: string): Turn {
    if line == "" then
      var n := ContentLength(p.request.headers);
      if n > 0 then
        Again(p.(contentLength := n, expectBody := true, request := p.request.(state := ParseBody)))
      else
        Stop(p.(contentLength := n, request := p.request.(state := ParseComplete)), true)
    else
      match ParseField(line)
      case None => Stop(p.(hasError := true), false)
      case Some(f) => Again(p.(request := p.request.(headers := AddHeader(p.request.headers, f.0, f.1))))
  }

  function OneTurn(p: Progress): (t: Turn)
    ensures t.Again? ==> |t.next.input| < |p.input|
  {
    match p.request.state
    case ParseRequestLine | ParseHeaders =>
      (match FindCrlf(p.input)
       case None => Stop(p, false)
       case Some(i) =>
         var line, q := p.input[..i], p.(input := p.input[i + 2..]);
         if p.request.state == ParseRequestLine then StartLineTurn(q, line) else HeaderLineTurn(q, line))
    case ParseBody =>
      if |p.input| >= p.contentLength then
        var r := p.request.(body := p.input[..p.contentLength], state := ParseComplete);
        Stop(p.(request := r, input := p.input[p.contentLength..]), true)
      else Stop(p, false)
    case ParseComplete => Stop(p, true)
    case ParseError => Stop(p.(hasError := true), false)
  }

  function ParseRequest(p: Progress): (Progress, bool)
    decreases |p.input|
  {
    match OneTurn(p)
    case Stop(q, done) => (q, done)
    case Again(q) => ParseRequest(q)
  }

  // ---- how the input is cut does not matter ---------------------------------------------------

  function FeedTurn(t: Turn, more: string): Turn {
    match t
    case Again(q) => Again(q.Feed(more))
    case Stop(q, done) => Stop(q.Feed(more), done)
  }

  lemma LineTurnsIgnoreInput(p: Progress, line: string, more: string)
    ensures StartLineTurn(p.Feed(more), line) == FeedTurn(StartLineTurn(p, line), more)
    ensures HeaderLineTurn(p.Feed(more), line) == FeedTurn(HeaderLineTurn(p, line), more)
  {
    hide ParseStartLine, ParseField, ContentLength, AddHeader;
  }

  lemma LineTurnsSettle(p: Progress, line: string)
    requires !p.hasError
    ensures match StartLineTurn(p, line) case Again(q) => !q.hasError case Stop(q, done) => q.Settled(done)
    ensures match HeaderLineTurn(p, line) case Again(q) => !q.hasError case Stop(q, done) => q.Settled(done)
  {
    hide ParseStartLine, ParseField, ContentLength, AddHeader;
  }

  /** A turn that did not run out of input does the same when more input stands behind. */
  lemma TurnExtends(p: Progress, more: string)
    requires !p.hasError
    ensures match OneTurn(p)
            case Again(q) => !q.hasError && OneTurn(p.Feed(more)) == Again(q.Feed(more))
            case Stop(q, done) =>
              if q.Settled(done) then OneTurn(p.Feed(more)) == Stop(q.Feed(more), done) else q == p
  {
    hide StartLineTurn, HeaderLineTurn;
    var input := p.input;
    match p.request.state
    case ParseRequestLine | ParseHeaders =>
      if FindCrlf(input).Some? {
        var i := FindCrlf(input).value;
        FindCrlfExtends(input, more);
        assert (input + more)[..i] == input[..i];
        assert (input + more)[i + 2..] == input[i + 2..] + more;
        var q := p.(input := input[i + 2..]);
        LineTurnsIgnoreInput(q, input[..i], more);
        LineTurnsSettle(q, input[..i]);
      }
    case ParseBody =>
      if |input| >= p.contentLength {
        assert (input + more)[..p.contentLength] == input[..p.contentLength];
        assert (input + more)[p.contentLength..] == input[p.contentLength..] + more;
      }
    case _ =>
  }

  /** A settled call gives the same verdict with more input behind it and leaves that input unread; an
      unsettled one has already done the work that one call on the longer input would begin with. */
  lemma {:induction false} ParseExtends(p: Progress, more: string)
    requires !p.hasError
    ensures var (q, done) := ParseRequest(p);
            ParseRequest(p.Feed(more)) ==
            if q.Settled(done) then (q.Feed(more), done) else ParseRequest(q.Feed(more))
    decreases |p.input|
  {
    TurnExtends(p, more);
    hide OneTurn;
    match OneTurn(p)
    case Again(q) => ParseExtends(q, more);
    case Stop(_, _) =>
  }

  lemma FeedFeed(p: Progress, a: string, b: string)
    ensures p.Feed(a).Feed(b) == p.Feed(a + b) && p.Feed("") == p
  {
    assert (p.input + a) + b == p.input + (a + b);
    assert p.input + "" == p.input;
  }

  function Concat(pieces: seq<string>): string {
    if pieces == [] then "" else pieces[0] + Concat(pieces[1..])
  }

  /** The reader's loop: append a piece, call the parser, and stop once it completes or fails; what is
      left over is the unread input and the pieces never appended. */
  function ParsePieces(p: Progress, pieces: seq<string>): (Progress, bool)
    requires pieces != []
    decreases |pieces|
  {
    var (q, done) := ParseRequest(p.Feed(pieces[0]));
    if |pieces| == 1 then (q, done)
    else if q.Settled(done) then (q.Feed(Concat(pieces[1..])), done)
    else ParsePieces(q, pieces[1..])
  }

  /** Chunking invariance: however the bytes are cut, verdict, parser, request and leftover bytes are
      those of a single call on all of them. */
  lemma {:induction false} ChunkingInvariance(p: Progress, pieces: seq<string>)
    requires !p.hasError && pieces != []
    ensures ParsePieces(p, pieces) == ParseRequest(p.Feed(Concat(pieces)))
    decreases |pieces|
  {
    var first, rest := p.Feed(pieces[0]), Concat(pieces[1..]);
    FeedFeed(p, pieces[0], rest);
    ParseExtends(first, rest);
    hide ParseRequest;
    if |pieces| == 1 {
      FeedFeed(first, "", "");
    } else {
      var (q, done) := ParseRequest(first);
      if !q.Settled(done) {
        ChunkingInvariance(q, pieces[1..]);
      }
    }
  }

  lemma {:induction false} ParseConsumes(p: Progress)
    ensures var (q, done) := ParseRequest(p);
            && |q.input| <= |p.input|
            && (done ==> q.request.state == ParseComplete)
            && (done && p.request.state.ParseRequestLine? ==> |q.input| < |p.input|)
    decreases |p.input|
  {
    hide StartLineTurn, HeaderLineTurn;
    match OneTurn(p)
    case Again(q) => ParseConsumes(q);
    case Stop(_, _) => StopConsumes(p);
  }

  lemma StopConsumes(p: Progress)
    requires OneTurn(p).Stop?
    ensures |OneTurn(p).last.input| <= |p.input|
    ensures OneTurn(p).done ==> OneTurn(p).last.request.state == ParseComplete
    ensures OneTurn(p).done && p.request.state.ParseRequestLine? ==> |OneTurn(p).last.input| < |p.input|
  {
    hide ParseStartLine, ParseField, ContentLength, AddHeader;
  }

  // ---- pipelining -----------------------------------------------------------------------------

  /** Repeated calls on one queue, resetting parser and request after each complete message, until the
      input runs out or a message is malformed. */
  function Serve(p: Progress): (seq<Request>, Progress)
    decreases |p.input|, if p.request.state.ParseRequestLine? then 0 else 1
  {
    var (q, done) := ParseRequest(p);
    if !done then ([], q)
    else
      ParseConsumes(p);
      var (more, last) := Serve(q.Reset());
      ([q.request] + more, last)
  }

  lemma ServeStep(p: Progress)
    ensures var (q, done) := ParseRequest(p);
            Serve(p) == if done then ([q.request] + Serve(q.Reset()).0, Serve(q.Reset()).1) else ([], q)
  {
    hide ParseRequest;
  }

  lemma AppendAssoc<T>(a: seq<T>, b: seq<T>, c: seq<T>)
    ensures a + (b + c) == (a + b) + c
    ensures [] + c == c
  {
  }

  lemma {:induction false} ServeExtends(p: Progress, more: string)
    requires !p.hasError
    ensures Serve(p).1.hasError ==> Serve(p.Feed(more)) == (Serve(p).0, Serve(p).1.Feed(more))
    ensures !Serve(p).1.hasError ==>
              var (later, last) := Serve(Serve(p).1.Feed(more));
              Serve(p.Feed(more)) == (Serve(p).0 + later, last)
    decreases |p.input|, if p.request.state.ParseRequestLine? then 0 else 1
  {
    ParseExtends(p, more);
    ParseConsumes(p);
    ServeStep(p);
    ServeStep(p.Feed(more));
    hide *;
    var (q, done) := ParseRequest(p);
    if done {
      var next := q.Reset();
      ResetFeed(q, more);
      ServeExtends(next, more);
      AppendAssoc([q.request], Serve(next).0, Serve(Serve(next).1.Feed(more)).0);
    } else if !q.hasError {
      ServeStep(q.Feed(more));
      AppendAssoc([], [], Serve(q.Feed(more)).0);
    }
  }

  lemma ResetFeed(q: Progress, more: string)
    ensures q.Feed(more).Reset() == q.Reset().Feed(more)
    ensures q.Feed(more).request == q.request && !q.Reset().hasError
    ensures q.Feed(more).hasError == q.hasError
    ensures q.Reset().request.state.ParseRequestLine? && q.Reset().input == q.input
  {
  }

  function ServePieces(p: Progress, pieces: seq<string>): (seq<Request>, Progress)
    decreases |pieces|
  {
    if pieces == [] then ([], p)
    else
      var (served, q) := Serve(p.Feed(pieces[0]));
      if q.hasError then (served, q.Feed(Concat(pieces[1..])))
      else
        var (more, last) := ServePieces(q, pieces[1..]);
        (served + more, last)
  }

  /** The messages served on a connection depend on the bytes received, not on how they were cut. */
  lemma {:induction false} PipelineChunking(p: Progress, pieces: seq<string>)
    requires !p.hasError && pieces != []
    ensures ServePieces(p, pieces) == Serve(p.Feed(Concat(pieces)))
    decreases |pieces|
  {
    var first, rest := p.Feed(pieces[0]), Concat(pieces[1..]);
    FeedFeed(p, pieces[0], rest);
    ServeExtends(first, rest);
    hide Serve, ParseRequest;
    var (served, q) := Serve(first);
    if |pieces| == 1 {
      FeedFeed(first, "", "");
      assert served + [] == served;
      FeedFeed(q, "", "");
    } else if !q.hasError {
      PipelineChunking(q, pieces[1..]);
    }
  }
}
