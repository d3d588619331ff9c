/** The request object and the incremental parser as written, working on the input buffer. */
module HttpContexts {
  import opened ByteBuffer
  import opened HttpSyntax

  /** First loop of addHeader: forward over leading space. */
  method SkipSpace(line: string, from: nat) returns (start: nat)
    requires from <= |line|
    ensures from <= start <= |line| && line[start..] == TrimLeft(line[from..])
  {
    start := from;
    while start < |line| && IsSpace(line[start])
      invariant from <= start <= |line|
      invariant TrimLeft(line[from..]) == TrimLeft(line[start..])
    {
      assert line[start..][1..] == line[start + 1..];
      start := start + 1;
    }
  }

  /** Second loop of addHeader: drop trailing space. */
  method DropSpace(s: string) returns (value: string)
    ensures value == TrimRight(s)
  {
    value := s;
    while value != "" && IsSpace(value[|value| - 1])
      invariant TrimRight(value) == TrimRight(s)
      decreases |value|
    {
      value := value[..|value| - 1];
    }
  }

  method FieldValue(line: string, colon: nat) returns (value: string)
    requires colon < |line|
    ensures value == FieldText(line, colon)
  {
    var start := SkipSpace(line, colon + 1);
    value := DropSpace(line[start..]);
  }

  /** The first complete line in the buffer, if there is one. */
  method NextLine(buf: Buffer) returns (crlf: int, line: string)
    requires buf.Valid()
    ensures crlf == LineEnd(buf.Content())
    ensures crlf >= 0 ==> line == buf.Content()[..crlf]
  {
    crlf := buf.FindCRLF(0);
    line := "";
    if crlf >= 0 {
      LineEndIs(buf.Content(), crlf);
      line := buf.storage[buf.reader..buf.reader + crlf];
    } else {
      NoLineEnd(buf.Content());
    }
  }

  class HttpRequest {
    var verb: Method
    var version: Version
    var path: string
    var query: string
    var headers: map<string, string>
    var body: string

    ghost function Value(): Request
      reads this
    {
      Request(verb, version, path, query, headers, body)
    }

    constructor ()
      ensures Value() == Fresh()
    {
      verb, version, path, query, headers, body := Invalid, Unknown, "", "", map[], "";
    }

    /** The source asserts that no method has been set. */
    method SetMethod(m: string) returns (ok: bool)
      requires verb.Invalid?
      modifies this`verb
      ensures verb == MethodOf(m) && ok == !verb.Invalid?
      ensures (verb == Get <==> m == "GET") && (verb == Post <==> m == "POST") && (verb == Head <==> m == "HEAD")
      ensures (verb == Put <==> m == "PUT") && (verb == Delete <==> m == "DELETE")
    {
      if m == "GET" {
        verb := Get;
      } else if m == "POST" {
        verb := Post;
      } else if m == "HEAD" {
        verb := Head;
      } else if m == "PUT" {
        verb := Put;
      } else if m == "DELETE" {
        verb := Delete;
      } else {
        verb := Invalid;
      }
      ok := verb != Invalid;
    }

    method SetHeader(name: string, value: string)
      modifies this`headers
      ensures Value() == HttpSyntax.SetHeader(old(Value()), name, value)
    {
      headers := headers[name := value];
    }

    method AddHeader(line: string, colon: nat)
      requires colon < |line|
      modifies this`headers
      ensures Value() == HttpSyntax.AddHeader(old(Value()), line, colon)
    {
      var value := FieldValue(line, colon);
      SetHeader(line[..colon], value);
    }

    function GetHeader(field: string): (value: string)
      reads this
      ensures field in headers ==> value == headers[field]
      ensures field !in headers ==> value == ""
    {
      if field in headers then headers[field] else ""
    }

    method Swap(that: HttpRequest)
      modifies this, that
      ensures Value() == old(that.Value()) && that.Value() == old(Value())
    {
      verb, that.verb := that.verb, verb;
      version, that.version := that.version, version;
      path, that.path := that.path, path;
      query, that.query := that.query, query;
      headers, that.headers := that.headers, headers;
      body, that.body := that.body, body;
    }
  }

  class HttpContext {
    var state: ParseState
    const request: HttpRequest

    ghost function Value(): Context
      reads this, request
    {
      Context(state, request.Value())
    }

    constructor ()
      ensures fresh(request) && Value() == Context(ExpectRequestLine, Fresh())
    {
      state := ExpectRequestLine;
      request := new HttpRequest();
    }

    method ProcessRequestLine(line: string) returns (succeed: bool)
      requires ' ' in line ==> request.verb.Invalid?
      modifies request
      ensures (request.Value(), succeed) == HttpSyntax.ProcessRequestLine(old(request.Value()), line)
    {
      succeed := false;
      var space := Find(line, ' ');
      if space != |line| {
        var known := request.SetMethod(line[..space]);
        if known {
          succeed := ProcessTarget(line[space + 1..]);
        }
      }
    }

    /** processRequestLine behind the method */
    method ProcessTarget(rest: string) returns (succeed: bool)
      modifies request
      ensures (request.Value(), succeed) == HttpSyntax.ProcessTarget(old(request.Value()), rest)
    {
      succeed := false;
      var space := Find(rest, ' ');
      if space != |rest| {
        var target := rest[..space];
        var question := Find(target, '?');
        if question != space {
          request.path := target[..question];
          request.query := target[question..];
        } else {
          request.path := target;
        }
        succeed := ProcessVersion(rest[space + 1..]);
      }
    }

    method ProcessVersion(version: string) returns (succeed: bool)
      modifies request`version
      ensures (request.Value(), succeed) == HttpSyntax.ProcessVersion(old(request.Value()), version)
      ensures succeed <==> version == "HTTP/1.0" || version == "HTTP/1.1"
      ensures succeed ==> request.version == if version == "HTTP/1.1" then Http11 else Http10
    {
      succeed := |version| == 8 && version[..7] == "HTTP/1.";
      if succeed {
        if version[7] == '1' {
          request.version := Http11;
        } else if version[7] == '0' {
          request.version := Http10;
        } else {
          succeed := false;
        }
      }
    }

    /** A turn in kExpectBody takes the whole buffer. */
    method TakeBody(buf: Buffer)
      requires buf.Valid() && state.ExpectBody?
      modifies this, request, buf`reader, buf`writer
      ensures buf.Valid() && buf.Content() == []
      ensures Next(old(Value()), old(buf.Content())) == Finish(request.Value()) && state.GotAll?
    {
      var body := buf.RetrieveAllAsString();
      if body != "" {
        request.body := body;
      }
      state := GotAll;
    }

    /** A turn with a complete line at hand. */
    method TakeLine(line: string) returns (ok: bool)
      requires state.ExpectRequestLine? || state.ExpectHeaders?
      requires state.ExpectRequestLine? && ' ' in line ==> request.verb.Invalid?
      modifies this, request
      ensures old(state).ExpectRequestLine? ==>
                var (r, good) := HttpSyntax.ProcessRequestLine(old(request.Value()), line);
                ok == good && Value() == Context(if ok then ExpectHeaders else ExpectRequestLine, r)
      ensures old(state).ExpectHeaders? ==>
                var colon := Find(line, ':');
                ok && Value() == if colon < |line|
                                 then Context(ExpectHeaders, AddHeader(old(request.Value()), line, colon))
                                 else Context(ExpectBody, old(request.Value()))
    {
      if state == ExpectRequestLine {
        ok := ProcessRequestLine(line);
        if ok {
          state := ExpectHeaders;
        }
      } else {
        ok := true;
        var colon := Find(line, ':');
        if colon != |line| {
          request.AddHeader(line, colon);
        } else {
          state := ExpectBody;
        }
      }
    }

    /** One turn of the loop, for a state in which the source has a branch. */
    method Turn(buf: Buffer) returns (ok: bool, hasMore: bool)
      requires buf.Valid() && !state.GotAll? && MeetsAssertion(Value(), buf.Content())
      modifies this, request, buf`reader, buf`writer
      ensures buf.Valid()
      ensures match Next(old(Value()), old(buf.Content()))
              case Wait => ok && !hasMore && Value() == old(Value()) && buf.Content() == old(buf.Content())
              case Reject(r) =>
                !ok && !hasMore && Value() == Context(old(state), r) && buf.Content() == old(buf.Content())
              case Consume(c, rest) => ok && hasMore && Value() == c && buf.Content() == rest
              case Finish(r) => ok && !hasMore && Value() == Context(GotAll, r) && buf.Content() == []
    {
      if state == ExpectBody {
        TakeBody(buf);
        return true, false;
      }
      var crlf, line := NextLine(buf);
      if crlf < 0 {
        return true, false;
      }
      ok := TakeLine(line);
      hasMore := ok;
      if ok {
        buf.Retrieve(crlf + 2);
      }
    }

    /** Parsing whatever is buffered, to the end of the loop. */
    method ParseRequest(buf: Buffer) returns (ok: bool)
      requires buf.Valid() && !state.GotAll? && MeetsAssertion(Value(), buf.Content())
      modifies this, request, buf`reader, buf`writer
      ensures buf.Valid()
      ensures Parsed(Value(), buf.Content(), ok) == Parse(old(Value()), old(buf.Content()))
    {
      ok := true;
      var hasMore := true;
      while hasMore
        invariant buf.Valid() && (hasMore ==> !state.GotAll? && ok && MeetsAssertion(Value(), buf.Content()))
        invariant Parse(old(Value()), old(buf.Content()))
                  == if hasMore then Parse(Value(), buf.Content()) else Parsed(Value(), buf.Content(), ok)
        decreases hasMore, |buf.Content()|
      {
        ok, hasMore := Turn(buf);
      }
    }

    method Reset()
      modifies this, request
      ensures Value() == Context(ExpectRequestLine, Fresh())
    {
      state := ExpectRequestLine;
      var dummy := new HttpRequest();
      request.Swap(dummy);
    }
  }
}
