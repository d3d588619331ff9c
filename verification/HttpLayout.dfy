/** Exactly which texts are complete requests: the converse of reading what was rendered. */
module HttpLayouts {
  import opened ByteBuffer
  import opened HttpSyntax

  /** A request cut where the parser cuts it. */
  datatype Layout = Layout(line: string, fields: seq<string>, last: string, body: string)

  /** The CR LF behind the line is the first one. */
  predicate IsLine(line: string) {
    LineEnd(line + CRLF) == |line|
  }

  predicate IsField(line: string) {
    IsLine(line) && ':' in line
  }

  predicate AcceptedLine(line: string) {
    ProcessRequestLine(Fresh(), line).1
  }

  /** An accepted request line, lines that each have a colon, and one that has none. */
  predicate WellLaid(l: Layout) {
    && IsLine(l.line) && AcceptedLine(l.line)
    && (forall i :: 0 <= i < |l.fields| ==> IsField(l.fields[i]))
    && IsLine(l.last) && ':' !in l.last
  }

  function Block(fields: seq<string>, more: string): string {
    if |fields| == 0 then more else fields[0] + CRLF + Block(fields[1..], more)
  }

  function Text(l: Layout): string {
    l.line + CRLF + Block(l.fields, l.last + CRLF + l.body)
  }

  /** What a line with a colon does to the headers. */
  function WithField(r: Request, line: string): Request {
    var colon := Find(line, ':');
    if colon < |line| then AddHeader(r, line, colon) else r
  }

  /** A later line with the same name replaces an earlier one. */
  function WithFields(r: Request, fields: seq<string>): Request
    decreases |fields|
  {
    if |fields| == 0 then r else WithFields(WithField(r, fields[0]), fields[1..])
  }

  lemma ColonExists(line: string)
    ensures ':' in line <==> Find(line, ':') < |line|
  {
    var k := Find(line, ':');
    assert line[..|line|] == line;
  }

  function WithBody(r: Request, body: string): Request {
    if body == "" then r else r.(body := body)
  }

  function RequestOf(l: Layout): Request
    requires WellLaid(l)
  {
    WithBody(WithFields(ProcessRequestLine(Fresh(), l.line).0, l.fields), l.body)
  }

  // ---- a laid-out text is accepted ----

  lemma LineInText(line: string, more: string)
    requires IsLine(line)
    ensures LineEnd(line + CRLF + more) == |line|
    ensures (line + CRLF + more)[..|line|] == line && (line + CRLF + more)[|line| + 2..] == more
  {
    LineEndStable(line + CRLF, more);
    LineThen(line, more);
  }

  lemma AcceptsField(r: Request, line: string, rest: string)
    requires IsField(line)
    ensures Next(Context(ExpectHeaders, r), line + CRLF + rest)
            == Consume(Context(ExpectHeaders, WithField(r, line)), rest)
  {
    LineInText(line, rest);
    FieldMove(r, line, rest);
  }

  lemma {:induction false} AcceptsFields(r: Request, fields: seq<string>, more: string)
    requires forall i :: 0 <= i < |fields| ==> IsField(fields[i])
    ensures Parse(Context(ExpectHeaders, r), Block(fields, more))
            == Parse(Context(ExpectHeaders, WithFields(r, fields)), more)
    decreases |fields|
  {
    if |fields| > 0 {
      AcceptsField(r, fields[0], Block(fields[1..], more));
      AcceptsFields(WithField(r, fields[0]), fields[1..], more);
    }
  }

  lemma AcceptsEnd(r: Request, last: string, body: string)
    requires IsLine(last) && ':' !in last
    ensures Parse(Context(ExpectHeaders, r), last + CRLF + body) == Parsed(Context(GotAll, WithBody(r, body)), "", true)
  {
    LineInText(last, body);
    ColonExists(last);
    assert Next(Context(ExpectHeaders, r), last + CRLF + body) == Consume(Context(ExpectBody, r), body);
  }

  lemma Accepts(l: Layout)
    requires WellLaid(l)
    ensures Parse(Context(ExpectRequestLine, Fresh()), Text(l)) == Parsed(Context(GotAll, RequestOf(l)), "", true)
  {
    var more := Block(l.fields, l.last + CRLF + l.body);
    var r := ProcessRequestLine(Fresh(), l.line).0;
    LineInText(l.line, more);
    assert Next(Context(ExpectRequestLine, Fresh()), Text(l)) == Consume(Context(ExpectHeaders, r), more);
    AcceptsFields(r, l.fields, l.last + CRLF + l.body);
    AcceptsEnd(WithFields(r, l.fields), l.last, l.body);
  }

  // ---- an accepted text is laid out ----

  lemma FirstLine(s: string, k: nat)
    requires IsFirstCRLF(s, 0, k)
    ensures IsFirstCRLF(s[..k + 2], 0, k) && s[..k + 2] == s[..k] + CRLF
  {
  }

  lemma IsFirstLine(s: string, k: nat)
    requires IsFirstCRLF(s, 0, k)
    ensures IsLine(s[..k])
  {
    FirstLine(s, k);
    LineEndIs(s[..k + 2], k);
  }

  lemma CutAtLineEnd(s: string, k: nat)
    requires IsFirstCRLF(s, 0, k)
    ensures IsLine(s[..k]) && s == s[..k] + CRLF + s[k + 2..]
  {
    IsFirstLine(s, k);
    FirstLine(s, k);
  }

  lemma FieldMove(r: Request, line: string, rest: string)
    requires ':' in line
    ensures LineMove(Context(ExpectHeaders, r), line, rest) == Consume(Context(ExpectHeaders, WithField(r, line)), rest)
  {
    ColonExists(line);
  }

  lemma MoveOfLine(c: Context, s: string, k: nat, line: string, rest: string)
    requires c.state.ExpectRequestLine? || c.state.ExpectHeaders?
    requires k == LineEnd(s) && k + 2 <= |s| && line == s[..k] && rest == s[k + 2..]
    ensures Next(c, s) == LineMove(c, line, rest)
  {
  }

  lemma ParseMoves(c: Context, s: string, next: Context, rest: string)
    requires !c.state.GotAll? && Next(c, s) == Consume(next, rest)
    ensures Parse(c, s) == Parse(next, rest)
  {
  }

  lemma HasLine(r: Request, s: string)
    requires Parse(Context(ExpectHeaders, r), s).context.state.GotAll?
    ensures LineEnd(s) >= 0
  {
  }

  /** What is left of a header section that is complete, behind its first line. */
  lemma HeadersGoOn(r: Request, s: string, k: nat, line: string, rest: string)
    requires Parse(Context(ExpectHeaders, r), s).context.state.GotAll?
    requires k == LineEnd(s) && k + 2 <= |s| && line == s[..k] && rest == s[k + 2..] && ':' in line
    ensures Parse(Context(ExpectHeaders, WithField(r, line)), rest).context.state.GotAll?
  {
    var c := Context(ExpectHeaders, r);
    MoveOfLine(c, s, k, line, rest);
    FieldMove(r, line, rest);
    ParseMoves(c, s, Context(ExpectHeaders, WithField(r, line)), rest);
  }

  lemma {:induction false} HeadersLaidOut(r: Request, s: string)
      returns (fields: seq<string>, last: string, body: string)
    requires Parse(Context(ExpectHeaders, r), s).context.state.GotAll?
    ensures forall i :: 0 <= i < |fields| ==> IsField(fields[i])
    ensures IsLine(last) && ':' !in last && s == Block(fields, last + CRLF + body)
    decreases |s|
  {
    HasLine(r, s);
    var k: nat := LineEnd(s);
    CutAtLineEnd(s, k);
    var line, rest := s[..k], s[k + 2..];
    if ':' in line {
      HeadersGoOn(r, s, k, line, rest);
      var others;
      others, last, body := HeadersLaidOut(WithField(r, line), rest);
      BlockOfMore(line, others, last + CRLF + body);
      FieldsOfMore(line, others);
      fields := [line] + others;
    } else {
      fields, last, body := [], line, rest;
      assert Block([], last + CRLF + body) == line + CRLF + rest;
    }
  }

  lemma FieldsOfMore(line: string, fields: seq<string>)
    requires IsField(line) && forall i :: 0 <= i < |fields| ==> IsField(fields[i])
    ensures forall i :: 0 <= i < |[line] + fields| ==> IsField(([line] + fields)[i])
  {
  }

  lemma BlockOfMore(line: string, fields: seq<string>, more: string)
    ensures Block([line] + fields, more) == line + CRLF + Block(fields, more)
  {
    assert ([line] + fields)[1..] == fields;
  }

  lemma HasRequestLine(s: string)
    requires Parse(Context(ExpectRequestLine, Fresh()), s).context.state.GotAll?
    ensures LineEnd(s) >= 0 && Next(Context(ExpectRequestLine, Fresh()), s).Consume?
  {
  }

  /** The first line of a complete request is accepted, and the header section behind it complete. */
  lemma LineGoesFirst(s: string, k: nat, line: string, rest: string)
    requires Parse(Context(ExpectRequestLine, Fresh()), s).context.state.GotAll?
    requires k == LineEnd(s) && k + 2 <= |s| && line == s[..k] && rest == s[k + 2..]
    ensures AcceptedLine(line)
    ensures Parse(Context(ExpectHeaders, ProcessRequestLine(Fresh(), line).0), rest).context.state.GotAll?
  {
    var c := Context(ExpectRequestLine, Fresh());
    HasRequestLine(s);
    MoveOfLine(c, s, k, line, rest);
    ParseMoves(c, s, LineMove(c, line, rest).context, rest);
  }

  lemma LaidOut(s: string) returns (l: Layout)
    requires Parse(Context(ExpectRequestLine, Fresh()), s).context.state.GotAll?
    ensures WellLaid(l) && Text(l) == s
  {
    HasRequestLine(s);
    var k: nat := LineEnd(s);
    var line, rest := s[..k], s[k + 2..];
    CutAtLineEnd(s, k);
    LineGoesFirst(s, k, line, rest);
    var fields, last, body := HeadersLaidOut(ProcessRequestLine(Fresh(), line).0, rest);
    l := Layout(line, fields, last, body);
  }

  /** A fresh parse gets a whole request out of a text exactly if the text is an accepted request
      line, lines that each have a colon, one that has none, and the body; and the request is made
      of these parts, later lines of the same name over earlier ones. */
  lemma CompleteExactly(s: string)
    ensures var p := Parse(Context(ExpectRequestLine, Fresh()), s);
            && (p.context.state.GotAll? <==> exists l :: WellLaid(l) && Text(l) == s)
            && forall l :: WellLaid(l) && Text(l) == s ==> p.context == Context(GotAll, RequestOf(l))
  {
    var p := Parse(Context(ExpectRequestLine, Fresh()), s);
    forall l | WellLaid(l) && Text(l) == s
      ensures p.context == Context(GotAll, RequestOf(l))
    {
      Accepts(l);
    }
    if p.context.state.GotAll? {
      var l := LaidOut(s);
    }
  }

  // ---- and it can be laid out in one way only ----

  lemma SameLine(a: string, s: string, b: string, t: string)
    requires IsLine(a) && IsLine(b) && a + CRLF + s == b + CRLF + t
    ensures a == b && s == t
  {
    LineInText(a, s);
    LineInText(b, t);
  }

  lemma {:induction false} SameBlock(fs: seq<string>, x: string, b: string, gs: seq<string>, y: string, c: string)
    requires forall i :: 0 <= i < |fs| ==> IsField(fs[i])
    requires forall i :: 0 <= i < |gs| ==> IsField(gs[i])
    requires IsLine(x) && ':' !in x && IsLine(y) && ':' !in y
    requires Block(fs, x + CRLF + b) == Block(gs, y + CRLF + c)
    ensures fs == gs && x == y && b == c
    decreases |fs|
  {
    var first, others := if |fs| == 0 then x else fs[0], if |fs| == 0 then b else Block(fs[1..], x + CRLF + b);
    var first', others' := if |gs| == 0 then y else gs[0], if |gs| == 0 then c else Block(gs[1..], y + CRLF + c);
    SameLine(first, others, first', others');
    if |fs| > 0 {
      assert |gs| > 0;
      SameBlock(fs[1..], x, b, gs[1..], y, c);
      assert fs == [fs[0]] + fs[1..] && gs == [gs[0]] + gs[1..];
    }
  }

  lemma OneLayout(l: Layout, m: Layout)
    requires WellLaid(l) && WellLaid(m) && Text(l) == Text(m)
    ensures l == m
  {
    SameLine(l.line, Block(l.fields, l.last + CRLF + l.body), m.line, Block(m.fields, m.last + CRLF + m.body));
    SameBlock(l.fields, l.last, l.body, m.fields, m.last, m.body);
  }

  /** A fresh parse rejects a text exactly if its first line is complete and not an accepted request
      line. So a text with an accepted line, or without a complete one, that is not a whole request is
      waited for. */
  lemma RejectedExactly(s: string)
    ensures var p := Parse(Context(ExpectRequestLine, Fresh()), s);
            !p.ok <==> LineEnd(s) >= 0 && !AcceptedLine(s[..LineEnd(s)])
  {
    var k := LineEnd(s);
    if k < 0 {
      NoLineNoVerdict(Context(ExpectRequestLine, Fresh()), s);
    } else {
      FirstLineDecides(s, k, s[..k], s[k + 2..]);
    }
  }

  lemma NoLineNoVerdict(c: Context, s: string)
    requires c.state.ExpectRequestLine? && LineEnd(s) < 0
    ensures Parse(c, s).ok
  {
  }

  lemma FirstLineDecides(s: string, k: nat, line: string, rest: string)
    requires k == LineEnd(s) && k + 2 <= |s| && line == s[..k] && rest == s[k + 2..]
    ensures Parse(Context(ExpectRequestLine, Fresh()), s).ok <==> AcceptedLine(line)
  {
    var c := Context(ExpectRequestLine, Fresh());
    MoveOfLine(c, s, k, line, rest);
    if AcceptedLine(line) {
      var next := LineMove(c, line, rest).context;
      ParseMoves(c, s, next, rest);
      NeverRejected(next, rest);
    } else {
      RejectsNow(c, s, LineMove(c, line, rest).request);
    }
  }

  lemma RejectsNow(c: Context, s: string, r: Request)
    requires !c.state.GotAll? && Next(c, s) == Reject(r)
    ensures !Parse(c, s).ok
  {
  }

  lemma NeverRejected(c: Context, s: string)
    requires c.state.ExpectHeaders?
    ensures Parse(c, s).ok
  {
    if !Parse(c, s).ok {
      RejectedAtOnce(c, s);
    }
  }

  // ---- which request lines are accepted ----

  /** The parts of a request line: a known method, a target cut at its first '?', a known version. */
  datatype Parts = Parts(verb: Method, path: string, query: string, version: Version) {
    predicate Sound() {
      !verb.Invalid? && !version.Unknown? && CutTarget(path, query)
    }

    function Line(): string {
      RequestLine(verb, path, query, version)
    }
  }

  lemma VersionRead(r: Request, text: string)
    requires ProcessVersion(r, text).1
    ensures var v := ProcessVersion(r, text).0.version;
            !v.Unknown? && text == VersionName(v) && ProcessVersion(r, text).0 == r.(version := v)
  {
    assert text == text[..7] + [text[7]];
  }

  lemma TargetRead(r: Request, target: string)
    requires ' ' !in target && r.query == ""
    ensures var t := SetTarget(r, target);
            && target == t.path + t.query && '?' !in t.path && (t.query != "" ==> t.query[0] == '?')
            && t == r.(path := t.path, query := t.query)
  {
    var question := Find(target, '?');
    assert target[..question] + target[question..] == target;
    assert question == |target| ==> target[..question] == target;
  }

  lemma VerbRead(name: string)
    requires !MethodOf(name).Invalid?
    ensures name == VerbName(MethodOf(name))
  {
  }

  /** Behind the method: target and version. */
  lemma RestHasParts(named: Request, rest: string) returns (path: string, query: string, version: Version)
    requires ProcessTarget(named, rest).1 && named.query == ""
    ensures !version.Unknown? && CutTarget(path, query) && rest == (path + query) + [' '] + VersionName(version)
    ensures ProcessTarget(named, rest).0 == named.(path := path, query := query, version := version)
  {
    var space := Find(rest, ' ');
    var target, text := rest[..space], rest[space + 1..];
    CutAt(rest, space);
    TargetRead(named, target);
    var t := SetTarget(named, target);
    VersionRead(t, text);
    path, query, version := t.path, t.query, ProcessVersion(t, text).0.version;
    NotInParts(path, query, ' ');
  }

  lemma NotInParts(a: string, b: string, c: char)
    requires c !in a + b
    ensures c !in a && c !in b
  {
    assert forall i :: 0 <= i < |a| ==> (a + b)[i] == a[i];
    assert forall i :: 0 <= i < |b| ==> (a + b)[|a| + i] == b[i];
  }

  lemma CutAt(s: string, k: nat)
    requires k < |s|
    ensures s == s[..k] + [s[k]] + s[k + 1..]
  {
  }

  /** Up to the method. */
  lemma LineGoesOn(line: string)
    requires AcceptedLine(line)
    ensures var k := Find(line, ' ');
            && k < |line| && !MethodOf(line[..k]).Invalid?
            && ProcessRequestLine(Fresh(), line) == ProcessTarget(Fresh().(verb := MethodOf(line[..k])), line[k + 1..])
  {
  }

  /** An accepted request line is made of such parts, and the request holds them. */
  lemma AcceptedLineHasParts(line: string) returns (p: Parts)
    requires AcceptedLine(line)
    ensures p.Sound() && line == p.Line()
    ensures ProcessRequestLine(Fresh(), line).0 == Request(p.verb, p.version, p.path, p.query, map[], "")
  {
    LineGoesOn(line);
    var k := Find(line, ' ');
    CutAt(line, k);
    var verb := MethodOf(line[..k]);
    VerbRead(line[..k]);
    var path, query, version := RestHasParts(Fresh().(verb := verb), line[k + 1..]);
    p := Parts(verb, path, query, version);
  }

  /** A line is accepted exactly if it is made of such parts. */
  lemma AcceptedExactly(line: string)
    ensures AcceptedLine(line) <==> exists p: Parts :: p.Sound() && line == p.Line()
  {
    forall p: Parts | p.Sound() && line == p.Line()
      ensures AcceptedLine(line)
    {
      ReadsRequestLine(Fresh(), p.verb, p.path, p.query, p.version);
    }
    if AcceptedLine(line) {
      var p := AcceptedLineHasParts(line);
    }
  }
}
