/** The streaming parser object, run on the real buffer and request objects.

    Each method is proved to do what `HttpParsing` says about the values of those objects. */
module HttpParsers {
  import opened Options
  import opened Text
  import opened Http
  import opened Buffers
  import opened HttpParsing

  class HttpParser {
    var hasError: bool
    var contentLength: nat
    var expectBody: bool

    ghost function State(buffer: Buffer, request: HttpRequest): Progress
      requires buffer.Valid()
      reads this, buffer, buffer.data, request
    {
      Progress(request.Value(), hasError, contentLength, expectBody, buffer.Contents())
    }

    constructor ()
      ensures !hasError && contentLength == 0 && !expectBody
    {
      hasError, contentLength, expectBody := false, 0, false;
    }

    method Reset()
      modifies this
      ensures !hasError && contentLength == 0 && !expectBody
    {
      hasError, contentLength, expectBody := false, 0, false;
    }

    method ParseStartLine(line: string, request: HttpRequest) returns (ok: bool)
      modifies request
      ensures (ok, request.Value()) == HttpParsing.ParseStartLine(line, old(request.Value()))
    {
      hide Extract, FindChar, MethodFromText, VersionFromText;
      var (verb, rest1) := Extract(line);
      var (target, rest2) := Extract(rest1);
      var (version, rest3) := Extract(rest2);
      if verb == "" || target == "" || version == "" {
        return false;
      }
      if MethodFromText(verb) == INVALID {
        return false;
      }
      request.verb := MethodFromText(verb);
      var queryPos := FindChar(target, '?');
      if queryPos.Some? {
        request.path := target[..queryPos.value];
        request.query := target[queryPos.value + 1..];
      } else {
        request.path := target;
      }
      if VersionFromText(version) == UNKNOWN {
        return false;
      }
      request.version := VersionFromText(version);
      return true;
    }

    method ParseHeaderLine(line: string, request: HttpRequest) returns (ok: bool)
      modifies request
      ensures ok == ParseField(line).Some?
      ensures request.Value() == match ParseField(line)
                                 case None => old(request.Value())
                                 case Some(f) =>
                                   old(request.Value()).(headers := AddHeader(old(request.headers), f.0, f.1))
    {
      hide FindChar, TrimLeft, TrimRight, AddHeader;
      var colonPos := FindChar(line, ':');
      if colonPos.None? {
        return false;
      }
      var field := line[..colonPos.value];
      var value := line[colonPos.value + 1..];
      field := TrimRight(field, BLANKS);
      field := TrimLeft(field, BLANKS);
      value := TrimRight(value, LINE_BLANKS);
      value := TrimLeft(value, BLANKS);
      if field == "" {
        return false;
      }
      request.AddHeaderField(field, value);
      return true;
    }

    method TakeLine(buffer: Buffer) returns (line: Option<string>)
      requires buffer.Valid()
      modifies buffer
      ensures buffer.Valid() && buffer.data == old(buffer.data)
      ensures match FindCrlf(old(buffer.Contents()))
              case None => line == None && buffer.Contents() == old(buffer.Contents())
              case Some(i) =>
                && line == Some(old(buffer.Contents())[..i])
                && buffer.Contents() == old(buffer.Contents())[i + 2..]
    {
      var crlf := buffer.FindLineEnd();
      if crlf.None? {
        return None;
      }
      var i := crlf.value;
      line := Some(buffer.data[buffer.readIndex..buffer.readIndex + i]);
      assert line.value == buffer.Contents()[..i];
      buffer.Retrieve(i + 2);
    }

    method TakeHeaderTurn(buffer: Buffer, request: HttpRequest) returns (result: Option<bool>)
      requires buffer.Valid() && request.parseState == ParseHeaders
      modifies this, buffer, request
      ensures buffer.Valid() && buffer.data == old(buffer.data)
      ensures OneTurn(old(State(buffer, request))) ==
              match result
              case None => Again(State(buffer, request))
              case Some(done) => Stop(State(buffer, request), done)
    {
      hide HttpParsing.ParseStartLine, ParseField, AddHeader, ContentLength;
      var crlf := TakeLine(buffer);
      if crlf.None? {
        return Some(false);
      }
      if crlf.value == "" {
        contentLength := ContentLength(request.headers);
        if contentLength > 0 {
          expectBody := true;
          request.parseState := ParseBody;
          return None;
        } else {
          request.parseState := ParseComplete;
          return Some(true);
        }
      } else {
        var ok := ParseHeaderLine(crlf.value, request);
        if !ok {
          hasError := true;
          return Some(false);
        }
        return None;
      }
    }

    /** One turn of the loop: `result` is None when the loop goes round again. */
    method TakeTurn(buffer: Buffer, request: HttpRequest) returns (result: Option<bool>)
      requires buffer.Valid()
      modifies this, buffer, request
      ensures buffer.Valid() && buffer.data == old(buffer.data)
      ensures OneTurn(old(State(buffer, request))) ==
              match result
              case None => Again(State(buffer, request))
              case Some(done) => Stop(State(buffer, request), done)
    {
      hide HttpParsing.ParseStartLine, ParseField, AddHeader, ContentLength;
      if request.parseState == ParseRequestLine {
        var crlf := TakeLine(buffer);
        if crlf.None? {
          return Some(false);
        }
        var ok := ParseStartLine(crlf.value, request);
        if !ok {
          hasError := true;
          return Some(false);
        }
        request.parseState := ParseHeaders;
        return None;
      } else if request.parseState == ParseHeaders {
        result := TakeHeaderTurn(buffer, request);
      } else if request.parseState == ParseBody {
        if buffer.ReadableBytes() >= contentLength {
          var body := buffer.RetrieveAsString(contentLength);
          request.body := body;
          request.parseState := ParseComplete;
          return Some(true);
        } else {
          return Some(false);
        }
      } else if request.parseState == ParseComplete {
        return Some(true);
      } else {
        hasError := true;
        return Some(false);
      }
    }

    method ParseRequest(buffer: Buffer, request: HttpRequest) returns (complete: bool)
      requires buffer.Valid()
      modifies this, buffer, request
      ensures buffer.Valid() && buffer.data == old(buffer.data)
      ensures (State(buffer, request), complete) == HttpParsing.ParseRequest(old(State(buffer, request)))
    {
      hide OneTurn;
      while true
        invariant buffer.Valid() && buffer.data == old(buffer.data)
        invariant HttpParsing.ParseRequest(State(buffer, request)) ==
                  HttpParsing.ParseRequest(old(State(buffer, request)))
        decreases |buffer.Contents()|
      {
        var result := TakeTurn(buffer, request);
        if result.Some? {
          return result.value;
        }
      }
    }
  }

  /** The reader's loop on real objects: append a piece, call the parser, stop once it settles.  The
      outcome is the single-call outcome on the concatenation, up to the pieces never appended. */
  method ParseInPieces(parser: HttpParser, buffer: Buffer, request: HttpRequest, pieces: seq<string>)
    returns (complete: bool, used: nat)
    requires buffer.Valid() && pieces != [] && !parser.hasError
    modifies parser, buffer, buffer.data, request
    ensures buffer.Valid() && 0 < used <= |pieces|
    ensures (parser.State(buffer, request).Feed(Concat(pieces[used..])), complete) ==
            HttpParsing.ParseRequest(old(parser.State(buffer, request)).Feed(Concat(pieces)))
  {
    hide HttpParsing.ParseRequest, OneTurn;
    ghost var start := parser.State(buffer, request);
    ChunkingInvariance(start, pieces);
    used, complete := 0, false;
    while true
      invariant buffer.Valid() && used < |pieces|
      invariant buffer.data == old(buffer.data) || fresh(buffer.data)
      invariant !parser.hasError
      invariant ParsePieces(parser.State(buffer, request), pieces[used..]) == ParsePieces(start, pieces)
      decreases |pieces| - used
    {
      ghost var before := parser.State(buffer, request);
      buffer.Append(pieces[used]);
      assert parser.State(buffer, request) == before.Feed(pieces[used]);
      complete := parser.ParseRequest(buffer, request);
      assert pieces[used..][1..] == pieces[used + 1..];
      used := used + 1;
      if complete || parser.hasError || used == |pieces| {
        FeedFeed(parser.State(buffer, request), "", "");
        return;
      }
    }
  }
}
