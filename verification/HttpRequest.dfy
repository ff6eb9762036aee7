/** The HTTP request object and its printer.

    `Request` is the value of a request; `HttpRequest` is the object the source updates in place. */
module Http {
  import opened Options
  import opened Text

  datatype Method = INVALID | GET | POST | PUT | DELETE | HEAD | OPTIONS | PATCH | CONNECT | TRACE

  datatype Version = UNKNOWN | HTTP_1_0 | HTTP_1_1 | HTTP_2_0

  datatype ParseState = ParseRequestLine | ParseHeaders | ParseBody | ParseComplete | ParseError

  type Headers = map<string, string>

  datatype Request = Request(
    verb: Method,
    path: string,
    query: string,
    version: Version,
    headers: Headers,
    body: string,
    state: ParseState,
    streamId: nat)

  const EMPTY_REQUEST := Request(INVALID, "", "", UNKNOWN, map[], "", ParseRequestLine, 0)

  // ---- names of methods and versions ----------------------------------------------------------

  function MethodText(m: Method): string {
    match m
    case GET => "GET"
    case POST => "POST"
    case PUT => "PUT"
    case DELETE => "DELETE"
    case HEAD => "HEAD"
    case OPTIONS => "OPTIONS"
    case PATCH => "PATCH"
    case CONNECT => "CONNECT"
    case TRACE => "TRACE"
    case INVALID => "UNKNOWN"
  }

  function MethodFromText(s: string): Method {
    if s == "GET" then GET
    else if s == "POST" then POST
    else if s == "PUT" then PUT
    else if s == "DELETE" then DELETE
    else if s == "HEAD" then HEAD
    else if s == "OPTIONS" then OPTIONS
    else if s == "PATCH" then PATCH
    else if s == "CONNECT" then CONNECT
    else if s == "TRACE" then TRACE
    else INVALID
  }

  function VersionText(v: Version): string {
    match v
    case HTTP_1_0 => "HTTP/1.0"
    case HTTP_1_1 => "HTTP/1.1"
    case HTTP_2_0 => "HTTP/2.0"
    case UNKNOWN => "HTTP/1.1"
  }

  function VersionFromText(s: string): Version {
    if s == "HTTP/1.0" then HTTP_1_0
    else if s == "HTTP/1.1" then HTTP_1_1
    else if s == "HTTP/2.0" then HTTP_2_0
    else UNKNOWN
  }

  lemma NamesReadBack(m: Method, v: Version)
    ensures MethodFromText(MethodText(m)) == m
    ensures v != UNKNOWN ==> VersionFromText(VersionText(v)) == v
    ensures NoSpace(MethodText(m)) && MethodText(m) != ""
    ensures NoSpace(VersionText(v)) && VersionText(v) != ""
  {
  }

  // ---- header fields --------------------------------------------------------------------------

  function AddHeader(h: Headers, field: string, value: string): Headers {
    var name := Lower(field);
    if name in h then h[name := h[name] + ", " + value] else h[name := value]
  }

  function GetHeader(h: Headers, field: string): string {
    var name := Lower(field);
    if name in h then h[name] else ""
  }

  /** get_content_length: 0 when the header is missing, empty or refused by std::stoull. */
  function ContentLength(h: Headers): nat {
    var text := GetHeader(h, "content-length");
    if text == "" then 0
    else match Stoull(text)
      case None => 0
      case Some(n) => n
  }

  type Field = (string, string)

  function AddFields(h: Headers, fields: seq<Field>): Headers {
    if fields == [] then h
    else
      var last := fields[|fields| - 1];
      AddHeader(AddFields(h, fields[..|fields| - 1]), last.0, last.1)
  }

  /** The values of every field called `name`, in the order received. */
  function ValuesOf(fields: seq<Field>, name: string): seq<string> {
    if fields == [] then []
    else
      var last := fields[|fields| - 1];
      ValuesOf(fields[..|fields| - 1], name) + if Lower(last.0) == name then [last.1] else []
  }

  function Joined(values: seq<string>): string
    requires values != []
  {
    if |values| == 1 then values[0]
    else Joined(values[..|values| - 1]) + ", " + values[|values| - 1]
  }

  /** RFC 9110, section 5.3: whatever the letter case and order of the fields received, the header
      table holds one entry for each distinct name, and it is that name's values joined by ", ". */
  lemma {:induction false} RepeatedFieldsCombine(fields: seq<Field>, name: string)
    ensures name in AddFields(map[], fields) <==> ValuesOf(fields, name) != []
    ensures ValuesOf(fields, name) != [] ==>
              AddFields(map[], fields)[name] == Joined(ValuesOf(fields, name))
  {
    if fields != [] {
      var front := fields[..|fields| - 1];
      var vs := ValuesOf(front, name);
      RepeatedFieldsCombine(front, name);
      var v := fields[|fields| - 1].1;
      assert (vs + [v])[..|vs|] == vs;
      assert ValuesOf(fields, name) == vs || ValuesOf(fields, name) == vs + [v];
      assert vs != [] ==> Joined(vs + [v]) == Joined(vs) + ", " + v;
    }
  }

  lemma {:induction false} AddFieldsSplit(h: Headers, a: seq<Field>, b: seq<Field>)
    ensures AddFields(h, a + b) == AddFields(AddFields(h, a), b)
  {
    if b == [] {
      assert a + b == a;
    } else {
      assert (a + b)[..|a + b| - 1] == a + b[..|b| - 1];
      AddFieldsSplit(h, a, b[..|b| - 1]);
    }
  }

  // ---- printing -------------------------------------------------------------------------------

  /** An order in which the header table may be iterated: every name exactly once. */
  ghost predicate IsOrder(order: seq<string>, h: Headers) {
    && (forall i, j | 0 <= i < j < |order| :: order[i] != order[j])
    && (forall k :: k in order <==> k in h)
  }

  function HeaderLine(name: string, value: string): string {
    name + ": " + value
  }

  /** The header table as the sequence of fields one iteration yields. */
  function FieldsInOrder(h: Headers, order: seq<string>): (fields: seq<Field>)
    requires forall k | k in order :: k in h
    ensures |fields| == |order|
    ensures forall i | 0 <= i < |order| :: fields[i] == (order[i], h[order[i]])
  {
    seq(|order|, i requires 0 <= i < |order| => (order[i], h[order[i]]))
  }

  function PrintFields(fields: seq<Field>): string {
    if fields == [] then ""
    else
      var last := fields[|fields| - 1];
      PrintFields(fields[..|fields| - 1]) + (HeaderLine(last.0, last.1) + CRLF)
  }

  function Target(path: string, query: string): string {
    if query != "" then path + "?" + query else path
  }

  function PrintRequestLine(r: Request): string {
    MethodText(r.verb) + " " + Target(r.path, r.query) + " " + VersionText(r.version)
  }

  function Print(r: Request, order: seq<string>): string
    requires forall k | k in order :: k in r.headers
  {
    (PrintRequestLine(r) + CRLF) + (PrintFields(FieldsInOrder(r.headers, order)) + (CRLF + r.body))
  }

  // ---- the request object ---------------------------------------------------------------------

  class HttpRequest {
    var verb: Method
    var path: string
    var query: string
    var version: Version
    var headers: Headers
    var body: string
    var parseState: ParseState
    var streamId: nat

    function Value(): Request
      reads this
    {
      Request(verb, path, query, version, headers, body, parseState, streamId)
    }

    constructor ()
      ensures Value() == EMPTY_REQUEST
    {
      verb, path, query, version := INVALID, "", "", UNKNOWN;
      headers, body, parseState, streamId := map[], "", ParseRequestLine, 0;
    }

    method AddHeaderField(field: string, value: string)
      modifies this
      ensures Value() == old(Value()).(headers := AddHeader(old(headers), field, value))
    {
      var lowerField := Lower(field);
      if lowerField in headers {
        headers := headers[lowerField := headers[lowerField] + (", " + value)];
        assert old(headers)[lowerField] + (", " + value) == old(headers)[lowerField] + ", " + value;
      } else {
        headers := headers[lowerField := value];
      }
    }

    method Reset()
      modifies this
      ensures Value() == EMPTY_REQUEST
    {
      verb, path, query, version := INVALID, "", "", UNKNOWN;
      headers, body := map[], "";
      parseState, streamId := ParseRequestLine, 0;
    }

    method StartLineText() returns (s: string)
      ensures s == PrintRequestLine(Value()) + CRLF
    {
      s := MethodText(verb) + " " + path;
      if query != "" {
        s := s + "?" + query;
      }
      assert s == MethodText(verb) + " " + Target(path, query);
      s := s + " " + VersionText(version) + CRLF;
    }

    method HeadersText(order: seq<string>) returns (s: string)
      requires IsOrder(order, headers)
      ensures s == PrintFields(FieldsInOrder(headers, order))
    {
      ghost var fields := FieldsInOrder(headers, order);
      s := "";
      for i := 0 to |order|
        invariant s == PrintFields(fields[..i])
      {
        s := s + (order[i] + ": " + headers[order[i]] + CRLF);
        assert fields[..i + 1][..i] == fields[..i];
      }
      assert fields[..|order|] == fields;
    }

    /** to_string; `order` is the order in which this run iterates the hash table. */
    method ToString(order: seq<string>) returns (s: string)
      requires IsOrder(order, headers)
      ensures s == Print(Value(), order)
    {
      var line := StartLineText();
      var table := HeadersText(order);
      hide PrintRequestLine, PrintFields, FieldsInOrder;
      s := line + table;
      s := s + CRLF;
      if body != "" {
        s := s + body;
      }
      assert s == line + (table + (CRLF + body));
    }
  }
}
