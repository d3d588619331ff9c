/** The request grammar the parser accepts, the parser as a function from text to request, and
    what it promises: cutting the text into pieces changes nothing, and parsing undoes printing. */
module HttpSyntax {
  import opened ByteBuffer

  datatype Method = Invalid | Get | Post | Head | Put | Delete
  datatype Version = Unknown | Http10 | Http11

  datatype Request = Request(verb: Method, version: Version, path: string, query: string,
                             headers: map<string, string>, body: string)

  datatype ParseState = ExpectRequestLine | ExpectHeaders | ExpectBody | GotAll

  datatype Context = Context(state: ParseState, request: Request)

  datatype Parsed = Parsed(context: Context, rest: string, ok: bool)

  const CRLF: string := "\r\n"

  function Fresh(): Request {
    Request(Invalid, Unknown, "", "", map[], "")
  }

  // ---- searching ----

  /** std::find */
  function Find(s: string, c: char): (k: nat)
    ensures k <= |s| && c !in s[..k]
    ensures k < |s| ==> s[k] == c
  {
    if s == "" || s[0] == c then 0
    else
      assert s[..1 + Find(s[1..], c)] == [s[0]] + s[1..][..Find(s[1..], c)];
      1 + Find(s[1..], c)
  }

  /** Index of the first CR LF, or -1. */
  function LineEnd(s: string): (k: int)
    ensures k >= 0 ==> IsFirstCRLF(s, 0, k)
    ensures k < 0 ==> k == -1 && forall j {:trigger s[j]} :: 0 <= j < |s| - 1 ==> !(s[j] == '\r' && s[j + 1] == '\n')
  {
    if |s| < 2 then -1
    else if s[0] == '\r' && s[1] == '\n' then 0
    else
      var k := LineEnd(s[1..]);
      if k < 0 then
        assert forall j :: 1 <= j < |s| ==> s[j] == s[1..][j - 1];
        -1
      else
        assert forall j :: 1 <= j < |s| ==> s[j] == s[1..][j - 1];
        k + 1
  }

  lemma {:induction false} FindIs(s: string, c: char, k: nat)
    requires k < |s| && s[k] == c && c !in s[..k]
    ensures Find(s, c) == k
  {
    if k > 0 {
      assert s[1..][..k - 1] == s[..k][1..];
      assert s[0] == s[..k][0];
      FindIs(s[1..], c, k - 1);
    }
  }

  lemma LineEndIs(s: string, k: nat)
    requires IsFirstCRLF(s, 0, k)
    ensures LineEnd(s) == k
  {
    var e := LineEnd(s);
    assert s[k] == '\r' && s[k + 1] == '\n';
  }

  lemma NoLineEnd(s: string)
    requires forall j {:trigger s[j]} :: 0 <= j < |s| - 1 ==> !(s[j] == '\r' && s[j + 1] == '\n')
    ensures LineEnd(s) == -1
  {
  }

  /** More text behind a complete line does not change where the line ends. */
  lemma LineEndStable(a: string, b: string)
    requires LineEnd(a) >= 0
    ensures LineEnd(a + b) == LineEnd(a)
  {
    var k := LineEnd(a);
    assert IsFirstCRLF(a + b, 0, k);
    LineEndIs(a + b, k);
  }

  lemma LineEndAfter(line: string, more: string)
    requires '\r' !in line
    ensures LineEnd(line + CRLF + more) == |line|
  {
    var s := line + CRLF + more;
    assert forall j :: 0 <= j < |line| ==> s[j] == line[j] && s[j] != '\r';
    assert IsFirstCRLF(s, 0, |line|);
    LineEndIs(s, |line|);
  }

  // ---- one line ----

  function MethodOf(m: string): Method {
    if m == "GET" then Get
    else if m == "POST" then Post
    else if m == "HEAD" then Head
    else if m == "PUT" then Put
    else if m == "DELETE" then Delete
    else Invalid
  }

  /** The request as it is left, even when the line is rejected, and the verdict. */
  function ProcessRequestLine(r: Request, line: string): (Request, bool) {
    var space := Find(line, ' ');
    if space == |line| then (r, false)
    else
      var named := r.(verb := MethodOf(line[..space]));
      if named.verb.Invalid? then (named, false) else ProcessTarget(named, line[space + 1..])
  }

  /** What follows the method: the target, cut at its first '?', and the version. */
  function ProcessTarget(r: Request, rest: string): (Request, bool) {
    var space := Find(rest, ' ');
    if space == |rest| then (r, false)
    else ProcessVersion(SetTarget(r, rest[..space]), rest[space + 1..])
  }

  function SetTarget(r: Request, target: string): Request {
    var question := Find(target, '?');
    if question < |target| then r.(path := target[..question], query := target[question..])
    else r.(path := target)
  }

  function ProcessVersion(r: Request, version: string): (Request, bool) {
    if |version| == 8 && version[..7] == "HTTP/1." then
      if version[7] == '1' then (r.(version := Http11), true)
      else if version[7] == '0' then (r.(version := Http10), true)
      else (r, false)
    else (r, false)
  }

  /** isspace in the C locale */
  predicate IsSpace(c: char) {
    c == ' ' || '\t' <= c <= '\r'
  }

  /** Tab, line feed, vertical tab, form feed, carriage return and blank. */
  lemma Spaces(c: char)
    ensures IsSpace(c) <==> c as int in {9, 10, 11, 12, 13, 32}
  {
  }

  function TrimLeft(s: string): (t: string)
    ensures t == "" || !IsSpace(t[0])
    ensures exists k :: 0 <= k <= |s| && t == s[k..] && forall i :: 0 <= i < k ==> IsSpace(s[i])
  {
    if s != "" && IsSpace(s[0]) then
      var t := TrimLeft(s[1..]);
      assert t == s[|s| - |t|..];
      t
    else
      assert s == s[0..];
      s
  }

  function TrimRight(s: string): (t: string)
    ensures t == "" || !IsSpace(t[|t| - 1])
    ensures t <= s && forall i :: |t| <= i < |s| ==> IsSpace(s[i])
  {
    if s != "" && IsSpace(s[|s| - 1]) then TrimRight(s[..|s| - 1]) else s
  }

  function FieldText(line: string, colon: nat): string
    requires colon < |line|
  {
    TrimRight(TrimLeft(line[colon + 1..]))
  }

  function SetHeader(r: Request, name: string, value: string): Request {
    r.(headers := r.headers[name := value])
  }

  function AddHeader(r: Request, line: string, colon: nat): Request
    requires colon < |line|
  {
    SetHeader(r, line[..colon], FieldText(line, colon))
  }

  // ---- the whole text ----

  /** One turn of the parsing loop. */
  datatype Move =
    | Wait
    | Reject(request: Request)
    | Consume(context: Context, rest: string)
    | Finish(request: Request)

  /** What a complete line does, with rest behind it. */
  function LineMove(c: Context, line: string, rest: string): (m: Move)
    requires c.state.ExpectRequestLine? || c.state.ExpectHeaders?
    ensures m.Consume? ==> m.rest == rest && (m.context.state.ExpectHeaders? || m.context.state.ExpectBody?)
    ensures m.Reject? ==> c.state.ExpectRequestLine?
    ensures m.Reject? || m.Consume?
  {
    if c.state.ExpectRequestLine? then
      var (r, ok) := ProcessRequestLine(c.request, line);
      if ok then Consume(Context(ExpectHeaders, r), rest) else Reject(r)
    else
      var colon := Find(line, ':');
      if colon < |line| then Consume(Context(ExpectHeaders, AddHeader(c.request, line, colon)), rest)
      else Consume(c.(state := ExpectBody), rest)
  }

  function Next(c: Context, s: string): (m: Move)
    requires !c.state.GotAll?
    ensures m.Consume? ==> |m.rest| + 2 <= |s| && (m.context.state.ExpectHeaders? || m.context.state.ExpectBody?)
    ensures m.Reject? ==> c.state.ExpectRequestLine?
    ensures m.Finish? <==> c.state.ExpectBody?
  {
    if c.state.ExpectBody? then
      Finish(if s == "" then c.request else c.request.(body := s))
    else
      var k := LineEnd(s);
      if k < 0 then Wait else LineMove(c, s[..k], s[k + 2..])
  }

  /** What parseRequest makes of the buffered text s. There is no case for GotAll: the loop in the
      source would not end. */
  function Parse(c: Context, s: string): (p: Parsed)
    requires !c.state.GotAll?
    ensures p.ok && !p.context.state.GotAll? ==> !p.context.state.ExpectBody?
    ensures !p.ok ==> p.context.state.ExpectRequestLine?
    ensures p.context.state.GotAll? ==> p.ok && p.rest == ""
    decreases |s|
  {
    match Next(c, s)
    case Wait => Parsed(c, s, true)
    case Reject(r) => Parsed(c.(request := r), s, false)
    case Consume(c', rest) => Parse(c', rest)
    case Finish(r) => Parsed(Context(GotAll, r), "", true)
  }

  // ---- cutting the text into pieces ----

  /** Same verdict, same stage, and the same request up to the body. */
  predicate SameHead(a: Parsed, b: Parsed) {
    a.ok == b.ok && a.context.state == b.context.state
    && a.context.request.(body := "") == b.context.request.(body := "")
  }

  /** Parsing stops for good: a rejected line, or a complete request. */
  predicate Final(p: Parsed) {
    !p.ok || p.context.state.GotAll?
  }

  lemma SlicesOfSum(a: string, b: string, n: nat)
    requires n <= |a|
    ensures (a + b)[..n] == a[..n] && (a + b)[n..] == a[n..] + b
  {
  }

  lemma NextMore(c: Context, a: string, b: string)
    requires !c.state.GotAll?
    ensures match Next(c, a)
            case Wait => true
            case Reject(r) => Next(c, a + b) == Reject(r)
            case Consume(c', rest) => Next(c, a + b) == Consume(c', rest + b)
            case Finish(r) => Next(c, a + b).Finish? && Next(c, a + b).request.(body := "") == r.(body := "")
  {
    var k := LineEnd(a);
    if !c.state.ExpectBody? && k >= 0 {
      LineEndStable(a, b);
      SlicesOfSum(a, b, k);
      SlicesOfSum(a, b, k + 2);
    }
  }

  /** One more piece of text behind what has been parsed already. */
  lemma {:induction false} ParseMore(c: Context, a: string, b: string)
    requires !c.state.GotAll?
    ensures var p := Parse(c, a);
            if Final(p) then SameHead(Parse(c, a + b), p) else Parse(c, a + b) == Parse(p.context, p.rest + b)
    decreases |a|
  {
    NextMore(c, a, b);
    match Next(c, a)
    case Consume(c', rest) => ParseMore(c', rest, b);
    case _ =>
  }

  /** Text arriving in pieces: parse after each, until there is a verdict. */
  function Feed(c: Context, buffered: string, pieces: seq<string>): Parsed
    requires !c.state.GotAll?
    decreases |pieces|
  {
    if pieces == [] then Parse(c, buffered)
    else
      var p := Parse(c, buffered + pieces[0]);
      if Final(p) then p else Feed(p.context, p.rest, pieces[1..])
  }

  function Joined(pieces: seq<string>): string {
    if pieces == [] then "" else pieces[0] + Joined(pieces[1..])
  }

  lemma Regroup(a: string, b: string, c: string)
    ensures a + b + c == a + (b + c)
  {
  }

  /** However the text is cut, the verdict and the head of the request are those of one piece. */
  lemma {:induction false} CutsDoNotMatter(c: Context, buffered: string, pieces: seq<string>)
    requires !c.state.GotAll?
    ensures SameHead(Feed(c, buffered, pieces), Parse(c, buffered + Joined(pieces)))
    ensures !Final(Feed(c, buffered, pieces)) ==> Feed(c, buffered, pieces) == Parse(c, buffered + Joined(pieces))
    decreases |pieces|
  {
    if pieces == [] {
      assert buffered + Joined(pieces) == buffered;
    } else {
      var p := Parse(c, buffered + pieces[0]);
      ParseMore(c, buffered + pieces[0], Joined(pieces[1..]));
      Regroup(buffered, pieces[0], Joined(pieces[1..]));
      if !Final(p) {
        CutsDoNotMatter(p.context, p.rest, pieces[1..]);
      }
    }
  }

  // ---- printing and parsing ----

  datatype Field = Field(name: string, before: string, value: string, after: string) {
    /** Section 5 of RFC 9112: no whitespace belongs to the value, and no CR to any part. */
    predicate WellFormed() {
      && ':' !in name && '\r' !in name
      && Blank(before) && Blank(after) && '\r' !in before && '\r' !in after
      && '\r' !in value
      && (value != "" ==> !IsSpace(value[0]) && !IsSpace(value[|value| - 1]))
    }

    function Line(): string {
      name + [':'] + (before + value + after)
    }
  }

  predicate Blank(s: string) {
    forall i :: 0 <= i < |s| ==> IsSpace(s[i])
  }

  function VerbName(v: Method): string {
    match v
    case Get => "GET"
    case Post => "POST"
    case Head => "HEAD"
    case Put => "PUT"
    case Delete => "DELETE"
    case Invalid => "UNKNOWN"
  }

  function VersionName(v: Version): string {
    if v.Http11? then "HTTP/1.1" else "HTTP/1.0"
  }

  /** The field lines, and what comes behind them. */
  function FieldLines(fields: seq<Field>, more: string): string {
    if fields == [] then more else fields[0].Line() + CRLF + FieldLines(fields[1..], more)
  }

  /** A later field with the same name replaces an earlier one. */
  function Headers(initial: map<string, string>, fields: seq<Field>): map<string, string>
    decreases |fields|
  {
    if fields == [] then initial else Headers(initial[fields[0].name := fields[0].value], fields[1..])
  }

  /** The parser cuts the target at its first '?', and the target ends at a blank. */
  predicate CutTarget(path: string, query: string) {
    && ' ' !in path && '?' !in path && ' ' !in query && (query != "" ==> query[0] == '?')
  }

  /** Section 3 of RFC 9112: the target has no blank and no CR, and is cut at its first '?'. */
  predicate WellFormedTarget(path: string, query: string) {
    CutTarget(path, query) && '\r' !in path && '\r' !in query
  }

  function RequestLine(v: Method, path: string, query: string, version: Version): string {
    VerbName(v) + [' '] + ((path + query) + [' '] + VersionName(version))
  }

  function Render(v: Method, path: string, query: string, version: Version, fields: seq<Field>, body: string): string {
    RequestLine(v, path, query, version) + CRLF + FieldLines(fields, CRLF + body)
  }

  lemma NoCr(left: string, c: char, right: string)
    requires '\r' !in left && c != '\r' && '\r' !in right
    ensures '\r' !in left + [c] + right
  {
  }

  lemma SplitAt(left: string, c: char, right: string)
    requires c !in left
    ensures var s := left + [c] + right;
            Find(s, c) == |left| < |s| && s[..|left|] == left && s[|left| + 1..] == right
  {
    var s := left + [c] + right;
    assert s[..|left|] == left && s[|left| + 1..] == right;
    FindIs(s, c, |left|);
  }

  lemma ReadsTarget(r: Request, path: string, query: string)
    requires CutTarget(path, query)
    ensures SetTarget(r, path + query) == r.(path := path, query := if query == "" then r.query else query)
  {
    if query == "" {
      assert path + query == path;
    } else {
      assert query == ['?'] + query[1..];
      assert path + query == path + ['?'] + query[1..];
      SplitAt(path, '?', query[1..]);
      assert (path + query)[|path|..] == query;
    }
  }

  lemma ReadsVersion(r: Request, version: Version)
    requires !version.Unknown?
    ensures ProcessVersion(r, VersionName(version)) == (r.(version := version), true)
  {
    var v := VersionName(version);
    assert v[..7] == "HTTP/1.";
  }

  lemma ReadsVerb(v: Method)
    requires !v.Invalid?
    ensures MethodOf(VerbName(v)) == v && ' ' !in VerbName(v) && '\r' !in VerbName(v)
  {
  }

  lemma RequestLineHasNoCr(v: Method, path: string, query: string, version: Version)
    requires !v.Invalid? && !version.Unknown? && WellFormedTarget(path, query)
    ensures '\r' !in RequestLine(v, path, query, version)
  {
    ReadsVerb(v);
    NoCr(path + query, ' ', VersionName(version));
    NoCr(VerbName(v), ' ', (path + query) + [' '] + VersionName(version));
  }

  lemma ReadsRequestLine(r: Request, v: Method, path: string, query: string, version: Version)
    requires !v.Invalid? && !version.Unknown? && CutTarget(path, query)
    ensures ProcessRequestLine(r, RequestLine(v, path, query, version))
            == (r.(verb := v, path := path, query := if query == "" then r.query else query, version := version), true)
  {
    var named := r.(verb := v);
    var rest := (path + query) + [' '] + VersionName(version);
    ReadsVerb(v);
    SplitAt(VerbName(v), ' ', rest);
    assert ProcessRequestLine(r, VerbName(v) + [' '] + rest) == ProcessTarget(named, rest);
    ReadsRest(named, path, query, version);
  }

  lemma ReadsRest(r: Request, path: string, query: string, version: Version)
    requires !version.Unknown? && CutTarget(path, query)
    ensures ProcessTarget(r, (path + query) + [' '] + VersionName(version))
            == (r.(path := path, query := if query == "" then r.query else query, version := version), true)
  {
    SplitAt(path + query, ' ', VersionName(version));
    ReadsTarget(r, path, query);
    ReadsVersion(SetTarget(r, path + query), version);
  }

  lemma {:induction false} TrimsLeft(before: string, rest: string)
    requires Blank(before) && (rest != "" ==> !IsSpace(rest[0]))
    ensures TrimLeft(before + rest) == rest
  {
    if before == "" {
      assert before + rest == rest;
    } else {
      assert (before + rest)[1..] == before[1..] + rest;
      TrimsLeft(before[1..], rest);
    }
  }

  lemma {:induction false} TrimsRight(value: string, after: string)
    requires Blank(after) && (value != "" ==> !IsSpace(value[|value| - 1]))
    ensures TrimRight(value + after) == value
  {
    if after == "" {
      assert value + after == value;
    } else {
      var s := value + after;
      assert s[..|s| - 1] == value + after[..|after| - 1];
      TrimsRight(value, after[..|after| - 1]);
    }
  }

  /** Any whitespace around a value is taken off, and none inside. */
  lemma Trimmed(before: string, value: string, after: string)
    requires Blank(before) && Blank(after)
    requires value != "" ==> !IsSpace(value[0]) && !IsSpace(value[|value| - 1])
    ensures TrimRight(TrimLeft(before + value + after)) == value
  {
    if value == "" {
      var blank := before + after;
      assert before + value + after == blank + "";
      TrimsLeft(blank, "");
      assert TrimRight("") == "";
    } else {
      assert before + value + after == before + (value + after);
      TrimsLeft(before, value + after);
      TrimsRight(value, after);
    }
  }

  lemma FieldHasNoCr(f: Field)
    requires f.WellFormed()
    ensures '\r' !in f.Line()
  {
    assert '\r' !in f.before + f.value + f.after;
    NoCr(f.name, ':', f.before + f.value + f.after);
  }

  lemma ReadsField(r: Request, f: Field)
    requires f.WellFormed()
    ensures '\r' !in f.Line() && Find(f.Line(), ':') == |f.name| < |f.Line()|
    ensures AddHeader(r, f.Line(), |f.name|) == r.(headers := r.headers[f.name := f.value])
  {
    FieldHasNoCr(f);
    SplitAt(f.name, ':', f.before + f.value + f.after);
    Trimmed(f.before, f.value, f.after);
  }

  lemma NextIsField(r: Request, f: Field, rest: string)
    requires f.WellFormed()
    ensures Next(Context(ExpectHeaders, r), f.Line() + CRLF + rest)
            == Consume(Context(ExpectHeaders, r.(headers := r.headers[f.name := f.value])), rest)
  {
    ReadsField(r, f);
    LineEndAfter(f.Line(), rest);
    LineThen(f.Line(), rest);
  }

  lemma {:induction false} ReadsFields(r: Request, fields: seq<Field>, more: string)
    requires forall i :: 0 <= i < |fields| ==> fields[i].WellFormed()
    ensures Parse(Context(ExpectHeaders, r), FieldLines(fields, more))
            == Parse(Context(ExpectHeaders, r.(headers := Headers(r.headers, fields))), more)
    decreases |fields|
  {
    if fields != [] {
      var f := fields[0];
      NextIsField(r, f, FieldLines(fields[1..], more));
      ReadsFields(r.(headers := r.headers[f.name := f.value]), fields[1..], more);
    }
  }

  lemma LineThen(line: string, more: string)
    ensures (line + CRLF + more)[..|line|] == line && (line + CRLF + more)[|line| + 2..] == more
  {
  }

  /** The empty line ends the headers; the body is whatever is buffered behind it. */
  lemma ReadsBody(r: Request, body: string)
    ensures Parse(Context(ExpectHeaders, r), CRLF + body)
            == Parsed(Context(GotAll, if body == "" then r else r.(body := body)), "", true)
  {
    assert CRLF + body == "" + CRLF + body;
    LineEndAfter("", body);
    assert (CRLF + body)[2..] == body;
    var inBody := Context(ExpectBody, r);
    assert Parse(Context(ExpectHeaders, r), CRLF + body) == Parse(inBody, body);
  }

  lemma NextIsRequestLine(v: Method, path: string, query: string, version: Version, more: string)
    requires !v.Invalid? && !version.Unknown? && WellFormedTarget(path, query)
    ensures Next(Context(ExpectRequestLine, Fresh()), RequestLine(v, path, query, version) + CRLF + more)
            == Consume(Context(ExpectHeaders, Request(v, version, path, query, map[], "")), more)
  {
    var line := RequestLine(v, path, query, version);
    ReadsRequestLine(Fresh(), v, path, query, version);
    RequestLineHasNoCr(v, path, query, version);
    LineEndAfter(line, more);
    LineThen(line, more);
  }

  /** Parsing undoes printing, for every well-formed request and any optional whitespace. */
  lemma ParseRender(v: Method, path: string, query: string, version: Version, fields: seq<Field>, body: string)
    requires !v.Invalid? && !version.Unknown? && WellFormedTarget(path, query)
    requires forall i :: 0 <= i < |fields| ==> fields[i].WellFormed()
    ensures Parse(Context(ExpectRequestLine, Fresh()), Render(v, path, query, version, fields, body))
            == Parsed(Context(GotAll, Request(v, version, path, query, Headers(map[], fields), body)), "", true)
  {
    var r := Request(v, version, path, query, map[], "");
    NextIsRequestLine(v, path, query, version, FieldLines(fields, CRLF + body));
    ReadsFields(r, fields, CRLF + body);
    ReadsBody(r.(headers := Headers(map[], fields)), body);
  }

  // ---- the assertion in setMethod ----

  /** The source asserts that no method has been set when a request line is parsed. */
  predicate MethodUnset(c: Context) {
    c.state.ExpectRequestLine? ==> c.request.verb.Invalid?
  }

  lemma {:induction false} MethodAfterParse(c: Context, s: string)
    requires !c.state.GotAll? && MethodUnset(c) && Parse(c, s).ok
    ensures MethodUnset(Parse(c, s).context)
    decreases |s|
  {
    match Next(c, s)
    case Consume(c', rest) => MethodAfterParse(c', rest);
    case _ =>
  }

  /** The first line begins with a known method. */
  predicate NamesMethod(s: string) {
    var k := LineEnd(s);
    k >= 0 && ' ' in s[..k] && !MethodOf(s[..k][..Find(s[..k], ' ')]).Invalid?
  }

  lemma VerbAfterLine(r: Request, line: string)
    ensures ProcessRequestLine(r, line).0.verb == if ' ' in line then MethodOf(line[..Find(line, ' ')]) else r.verb
  {
    var space := Find(line, ' ');
    assert ' ' in line ==> space < |line|;
    if space < |line| {
      VerbKept(r.(verb := MethodOf(line[..space])), line[space + 1..]);
    }
  }

  lemma VerbKept(r: Request, rest: string)
    ensures ProcessTarget(r, rest).0.verb == r.verb
  {
  }

  /** The next call meets the assertion exactly if this one did not reject a line that began with
      a known method: after such a rejection the context is not fit for reuse. */
  lemma AssertionHoldsNext(c: Context, s: string)
    requires c.state.ExpectRequestLine? && c.request.verb.Invalid?
    ensures MethodUnset(Parse(c, s).context) <==> Parse(c, s).ok || !NamesMethod(s)
  {
    if Parse(c, s).ok {
      MethodAfterParse(c, s);
    } else {
      RejectedAtOnce(c, s);
      VerbAfterLine(c.request, s[..LineEnd(s)]);
    }
  }

  /** Only a request line can be rejected, and it stays in the buffer. */
  lemma {:induction false} RejectedAtOnce(c: Context, s: string)
    requires !c.state.GotAll? && !Parse(c, s).ok
    ensures c.state.ExpectRequestLine? && LineEnd(s) >= 0 && Parse(c, s).rest == s
    ensures Parse(c, s).context.request == ProcessRequestLine(c.request, s[..LineEnd(s)]).0
    decreases |s|
  {
    match Next(c, s)
    case Consume(c', rest) => RejectedAtOnce(c', rest);
    case _ =>
  }

  /** If parsing s from c gets as far as setMethod, no method has been set before. */
  predicate MeetsAssertion(c: Context, s: string) {
    c.state.ExpectRequestLine? && LineEnd(s) >= 0 && ' ' in s[..LineEnd(s)] ==> c.request.verb.Invalid?
  }

  /** What the next call will meet, with whatever text has arrived by then: the rejected line is
      still in the buffer. */
  lemma NextCallMeetsAssertion(c: Context, s: string, more: string)
    requires !c.state.GotAll? && MethodUnset(c)
    ensures var p := Parse(c, s);
            MeetsAssertion(p.context, p.rest + more) <==> p.ok || !NamesMethod(s)
  {
    var p := Parse(c, s);
    if p.ok {
      MethodAfterParse(c, s);
    } else {
      RejectedAtOnce(c, s);
      AssertionHoldsNext(c, s);
      LineEndStable(s, more);
      assert (s + more)[..LineEnd(s)] == s[..LineEnd(s)];
      RejectedStaysThere(c, s);
    }
  }

  lemma {:induction false} RejectedStaysThere(c: Context, s: string)
    requires !c.state.GotAll? && !Parse(c, s).ok
    ensures Parse(c, s).context.state.ExpectRequestLine?
    decreases |s|
  {
    match Next(c, s)
    case Consume(c', rest) => RejectedStaysThere(c', rest);
    case _ =>
  }

  /** Every request with an unsupported version is such a line, whatever follows it: a server
      that goes on reading after its 400 would meet the assertion again. */
  lemma UnsupportedVersionBreaksReuse(v: Method, path: string, query: string, version: string, more: string)
    requires !v.Invalid? && WellFormedTarget(path, query) && '\r' !in version
    requires !(|version| == 8 && version[..7] == "HTTP/1." && version[7] in {'0', '1'})
    ensures var p := Parse(Context(ExpectRequestLine, Fresh()),
                           VerbName(v) + [' '] + ((path + query) + [' '] + version) + CRLF + more);
            !p.ok && !MethodUnset(p.context)
  {
    var rest := (path + query) + [' '] + version;
    var line := VerbName(v) + [' '] + rest;
    ReadsVerb(v);
    NoCr(path + query, ' ', version);
    NoCr(VerbName(v), ' ', rest);
    LineEndAfter(line, more);
    LineThen(line, more);
    SplitAt(VerbName(v), ' ', rest);
    SplitAt(path + query, ' ', version);
    var named := Fresh().(verb := v);
    assert ProcessRequestLine(Fresh(), line) == ProcessTarget(named, rest);
    assert !ProcessTarget(named, rest).1;
    VerbKept(named, rest);
  }
}
