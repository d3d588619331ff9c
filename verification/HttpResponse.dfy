/** Printing a response into an output buffer. */
module HttpResponses {
  import opened ByteBuffer
  import opened HttpSyntax

  /** headers is the response's map in iteration order. */
  datatype HttpResponse = HttpResponse(statusCode: nat, statusMessage: string, closeConnection: bool,
                                       headers: seq<(string, string)>, body: string)

  /** printf %d */
  function Decimal(n: nat): (s: string)
    ensures s != "" && forall i :: 0 <= i < |s| ==> '0' <= s[i] <= '9'
  {
    if n < 10 then [('0' as int + n) as char] else Decimal(n / 10) + [('0' as int + n % 10) as char]
  }

  function DecimalValue(s: string): int {
    if s == "" then 0 else 10 * DecimalValue(s[..|s| - 1]) + (s[|s| - 1] as int - '0' as int)
  }

  lemma {:induction false} DecimalRoundTrip(n: nat)
    ensures DecimalValue(Decimal(n)) == n
  {
    var s := Decimal(n);
    if n < 10 {
      assert s[..0] == "";
    } else {
      DecimalRoundTrip(n / 10);
      assert s[..|s| - 1] == Decimal(n / 10);
    }
  }

  function Own(name: string, value: string): Field {
    Field(name, " ", value, "")
  }

  /** What the printer adds itself: how long the body is, or that the connection ends with it. */
  function Framing(r: HttpResponse): seq<Field> {
    if r.closeConnection then [Own("Connection", "close")]
    else [Own("Content-Length", Decimal(|r.body|)), Own("Connection", "Keep-Alive")]
  }

  function Custom(headers: seq<(string, string)>): seq<Field> {
    seq(|headers|, i requires 0 <= i < |headers| => Own(headers[i].0, headers[i].1))
  }

  function StatusLine(r: HttpResponse): string {
    "HTTP/1.1 " + Decimal(r.statusCode) + " " + r.statusMessage + CRLF
  }

  /** The fields up to the n-th custom one, and what comes behind them. */
  function Printed(r: HttpResponse): string {
    StatusLine(r) + FieldLines(Framing(r) + Custom(r.headers), CRLF + r.body)
  }

  /** What a peer makes of a response: the status line cut at its blanks, and what is behind it read by
      the rules of this parser. */
  datatype Heard = Heard(statusCode: int, statusMessage: string, headers: map<string, string>, body: string) | Noise

  function Hear(text: string): Heard {
    var k := LineEnd(text);
    if k < 9 || text[..9] != "HTTP/1.1 " then Noise
    else
      var status := text[9..k];
      var blank := Find(status, ' ');
      var p := Parse(Context(ExpectHeaders, Fresh()), text[k + 2..]);
      if blank == |status| || !p.context.state.GotAll? then Noise
      else
        var r := p.context.request;
        Heard(DecimalValue(status[..blank]), status[blank + 1..], r.headers, r.body)
  }

  lemma {:induction false} LinesSplit(fields: seq<Field>, more: string)
    ensures FieldLines(fields, more) == FieldLines(fields, "") + more
    decreases |fields|
  {
    if fields != [] {
      LinesSplit(fields[1..], more);
      var line := fields[0].Line() + CRLF;
      assert line + (FieldLines(fields[1..], "") + more) == (line + FieldLines(fields[1..], "")) + more;
    }
  }

  lemma {:induction false} LinesAppend(fields: seq<Field>, f: Field)
    ensures FieldLines(fields + [f], "") == FieldLines(fields, "") + (f.Line() + CRLF)
    decreases |fields|
  {
    if fields == [] {
      assert fields + [f] == [f] && [f][1..] == [];
      assert FieldLines([f], "") == f.Line() + CRLF + FieldLines([], "");
    } else {
      LinesAppend(fields[1..], f);
      assert (fields + [f])[1..] == fields[1..] + [f];
      var line := fields[0].Line() + CRLF;
      var lines, last := FieldLines(fields[1..], ""), f.Line() + CRLF;
      assert line + (lines + last) == (line + lines) + last;
    }
  }

  lemma FieldPieces(base: string, name: string, value: string)
    ensures base + name + ": " + value + CRLF == base + (Own(name, value).Line() + CRLF)
  {
    var f := Own(name, value);
    assert f.Line() == name + ": " + value;
    assert base + (name + ": " + value + CRLF) == base + name + ": " + value + CRLF;
  }

  /** One field into the buffer, behind those printed so far. */
  method AppendField(output: Buffer, name: string, value: string, ghost before: string, ghost fields: seq<Field>)
    requires output.Valid() && output.Content() == before + FieldLines(fields, "")
    modifies output, output.storage
    ensures output.Valid() && (output.storage == old(output.storage) || fresh(output.storage))
    ensures output.Content() == before + FieldLines(fields + [Own(name, value)], "")
  {
    output.Append(name);
    output.Append(": ");
    output.Append(value);
    output.Append(CRLF);
    FieldPieces(old(output.Content()), name, value);
    LinesAppend(fields, Own(name, value));
    Regroup(before, FieldLines(fields, ""), Own(name, value).Line() + CRLF);
  }

  method AppendStatusLine(r: HttpResponse, output: Buffer)
    requires output.Valid()
    modifies output, output.storage
    ensures output.Valid() && (output.storage == old(output.storage) || fresh(output.storage))
    ensures output.Content() == old(output.Content()) + StatusLine(r)
  {
    var head := "HTTP/1.1 " + Decimal(r.statusCode) + " ";
    output.Append(head);
    output.Append(r.statusMessage);
    output.Append(CRLF);
    ghost var base := old(output.Content());
    Regroup(base, head, r.statusMessage);
    Regroup(base, head + r.statusMessage, CRLF);
  }

  method AppendFraming(r: HttpResponse, output: Buffer, ghost before: string)
    requires output.Valid() && output.Content() == before
    modifies output, output.storage
    ensures output.Valid() && (output.storage == old(output.storage) || fresh(output.storage))
    ensures output.Content() == before + FieldLines(Framing(r), "")
  {
    assert before + FieldLines([], "") == before;
    if r.closeConnection {
      AppendField(output, "Connection", "close", before, []);
      assert [] + [Own("Connection", "close")] == Framing(r);
    } else {
      var length := Decimal(|r.body|);
      AppendField(output, "Content-Length", length, before, []);
      assert [] + [Own("Content-Length", length)] == [Own("Content-Length", length)];
      AppendField(output, "Connection", "Keep-Alive", before, [Own("Content-Length", length)]);
      assert [Own("Content-Length", length)] + [Own("Connection", "Keep-Alive")] == Framing(r);
    }
  }

  lemma OneMore(fields: seq<Field>, custom: seq<Field>, i: nat)
    requires i < |custom|
    ensures fields + custom[..i] + [custom[i]] == fields + custom[..i + 1]
  {
  }

  method AppendHeaders(headers: seq<(string, string)>, output: Buffer, ghost before: string, ghost fields: seq<Field>)
    requires output.Valid() && output.Content() == before + FieldLines(fields, "")
    modifies output, output.storage
    ensures output.Valid() && (output.storage == old(output.storage) || fresh(output.storage))
    ensures output.Content() == before + FieldLines(fields + Custom(headers), "")
  {
    ghost var custom := Custom(headers);
    assert fields + custom[..0] == fields;
    var i := 0;
    while i < |headers|
      invariant i <= |headers| && output.Valid() && (output.storage == old(output.storage) || fresh(output.storage))
      invariant output.Content() == before + FieldLines(fields + custom[..i], "")
    {
      AppendField(output, headers[i].0, headers[i].1, before, fields + custom[..i]);
      OneMore(fields, custom, i);
      i := i + 1;
    }
    assert custom[..i] == custom;
  }

  /** The empty line and what is behind it. */
  method AppendBody(body: string, output: Buffer, ghost before: string, ghost fields: seq<Field>)
    requires output.Valid() && output.Content() == before + FieldLines(fields, "")
    modifies output, output.storage
    ensures output.Valid() && output.Content() == before + FieldLines(fields, CRLF + body)
  {
    ghost var lines := FieldLines(fields, "");
    output.Append(CRLF);
    output.Append(body);
    Regroup(before + lines, CRLF, body);
    LinesSplit(fields, CRLF + body);
    Regroup(before, lines, CRLF + body);
  }

  method AppendToBuffer(r: HttpResponse, output: Buffer)
    requires output.Valid()
    modifies output, output.storage
    ensures output.Valid() && output.Content() == old(output.Content()) + Printed(r)
    ensures old(output.Content()) == [] && Printable(r) ==>
              Hear(output.Content())
              == Heard(r.statusCode, r.statusMessage, Headers(map[], Framing(r) + Custom(r.headers)), r.body)
  {
    AppendStatusLine(r, output);
    ghost var before := output.Content();
    AppendFraming(r, output, before);
    AppendHeaders(r.headers, output, before, Framing(r));
    ghost var fields := Framing(r) + Custom(r.headers);
    AppendBody(r.body, output, before, fields);
    Regroup(old(output.Content()), StatusLine(r), FieldLines(fields, CRLF + r.body));
    HeardIfPrintable(r);
  }

  lemma HeardIfPrintable(r: HttpResponse)
    ensures Printable(r) ==>
              Hear([] + Printed(r))
              == Heard(r.statusCode, r.statusMessage, Headers(map[], Framing(r) + Custom(r.headers)), r.body)
  {
    if Printable(r) {
      HeardAsSaid(r);
      assert [] + Printed(r) == Printed(r);
    }
  }

  /** A peer that reads the printed header section with the rules of this parser gets the custom
      headers over the framing ones, and the body exactly as it was. */
  lemma PrintedReadsBack(r: HttpResponse)
    requires forall f :: f in Custom(r.headers) ==> f.WellFormed()
    ensures var text := FieldLines(Framing(r) + Custom(r.headers), CRLF + r.body);
            Parse(Context(ExpectHeaders, Fresh()), text)
            == var headers := Headers(map[], Framing(r) + Custom(r.headers));
               Parsed(Context(GotAll, Fresh().(headers := headers, body := r.body)), "", true)
  {
    var fields := Framing(r) + Custom(r.headers);
    FramingWellFormed(r);
    ReadsFields(Fresh(), fields, CRLF + r.body);
    ReadsBody(Fresh().(headers := Headers(map[], fields)), r.body);
  }

  predicate Printable(r: HttpResponse) {
    '\r' !in r.statusMessage && forall f :: f in Custom(r.headers) ==> f.WellFormed()
  }

  lemma StatusLineCut(r: HttpResponse, more: string)
    requires '\r' !in r.statusMessage
    ensures var text, status := StatusLine(r) + more, Decimal(r.statusCode) + [' '] + r.statusMessage;
            && LineEnd(text) == 9 + |status| && text[..9] == "HTTP/1.1 "
            && text[9..9 + |status|] == status && text[9 + |status| + 2..] == more
  {
    var status := Decimal(r.statusCode) + [' '] + r.statusMessage;
    var line := "HTTP/1.1 " + status;
    assert StatusLine(r) == line + CRLF;
    assert '\r' !in line;
    LineEndAfter(line, more);
    assert line[..9] == "HTTP/1.1 " && line[9..] == status;
    assert line + CRLF + more == line + (CRLF + more);
  }

  /** A peer hears the code, the message, the headers and the body that were said. */
  lemma HeardAsSaid(r: HttpResponse)
    requires Printable(r)
    ensures Hear(Printed(r))
            == Heard(r.statusCode, r.statusMessage, Headers(map[], Framing(r) + Custom(r.headers)), r.body)
  {
    var more := FieldLines(Framing(r) + Custom(r.headers), CRLF + r.body);
    StatusLineCut(r, more);
    PrintedReadsBack(r);
    SplitAt(Decimal(r.statusCode), ' ', r.statusMessage);
    DecimalRoundTrip(r.statusCode);
  }

  lemma {:induction false} HeadersAt(initial: map<string, string>, fields: seq<Field>, k: nat)
    requires k < |fields| && forall j :: k < j < |fields| ==> fields[j].name != fields[k].name
    ensures fields[k].name in Headers(initial, fields) && Headers(initial, fields)[fields[k].name] == fields[k].value
    decreases |fields|
  {
    var next := initial[fields[0].name := fields[0].value];
    if k == 0 {
      HeadersKeep(next, fields[1..], fields[0].name);
    } else {
      HeadersAt(next, fields[1..], k - 1);
    }
  }

  /** It hears every custom header with the value it was given. */
  lemma CustomIsTold(r: HttpResponse, i: nat)
    requires i < |r.headers| && forall j :: i < j < |r.headers| ==> r.headers[j].0 != r.headers[i].0
    ensures var headers := Headers(map[], Framing(r) + Custom(r.headers));
            r.headers[i].0 in headers && headers[r.headers[i].0] == r.headers[i].1
  {
    var fields := Framing(r) + Custom(r.headers);
    var k := |Framing(r)| + i;
    forall j | k < j < |fields|
      ensures fields[j].name != fields[k].name
    {
      assert fields[j] == Custom(r.headers)[j - |Framing(r)|];
    }
    HeadersAt(map[], fields, k);
  }

  /** It hears whether the connection ends with the response, unless a custom header says otherwise. */
  lemma EndIsTold(r: HttpResponse)
    requires forall i :: 0 <= i < |r.headers| ==> r.headers[i].0 != "Connection"
    ensures var headers := Headers(map[], Framing(r) + Custom(r.headers));
            "Connection" in headers && headers["Connection"] == if r.closeConnection then "close" else "Keep-Alive"
  {
    var fields := Framing(r) + Custom(r.headers);
    if r.closeConnection {
      assert fields[0] == Own("Connection", "close");
      HeadersKeep(map["Connection" := "close"], fields[1..], "Connection");
    } else {
      var length := Decimal(|r.body|);
      var before := map["Content-Length" := length, "Connection" := "Keep-Alive"];
      assert fields[0] == Own("Content-Length", length) && fields[1..][0] == Own("Connection", "Keep-Alive");
      assert Headers(map[], fields) == Headers(map["Content-Length" := length], fields[1..]);
      assert Headers(map["Content-Length" := length], fields[1..]) == Headers(before, fields[1..][1..]);
      HeadersKeep(before, fields[1..][1..], "Connection");
    }
  }

  lemma OwnWellFormed(name: string, value: string)
    requires ':' !in name && '\r' !in name && '\r' !in value
    requires value != "" && !IsSpace(value[0]) && !IsSpace(value[|value| - 1])
    ensures Own(name, value).WellFormed()
  {
  }

  lemma FramingWellFormed(r: HttpResponse)
    ensures forall i :: 0 <= i < |Framing(r)| ==> Framing(r)[i].WellFormed()
  {
    if r.closeConnection {
      OwnWellFormed("Connection", "close");
    } else {
      var d := Decimal(|r.body|);
      assert '\r' !in d;
      OwnWellFormed("Content-Length", d);
      OwnWellFormed("Connection", "Keep-Alive");
    }
  }

  lemma {:induction false} HeadersKeep(initial: map<string, string>, fields: seq<Field>, name: string)
    requires name in initial && forall i :: 0 <= i < |fields| ==> fields[i].name != name
    ensures name in Headers(initial, fields) && Headers(initial, fields)[name] == initial[name]
    decreases |fields|
  {
    if fields != [] {
      HeadersKeep(initial[fields[0].name := fields[0].value], fields[1..], name);
    }
  }

  /** On a connection that stays open the peer can tell where the body ends, unless a custom
      header says otherwise. */
  lemma LengthIsTold(r: HttpResponse)
    requires !r.closeConnection && forall i :: 0 <= i < |r.headers| ==> r.headers[i].0 != "Content-Length"
    ensures var headers := Headers(map[], Framing(r) + Custom(r.headers));
            "Content-Length" in headers && DecimalValue(headers["Content-Length"]) == |r.body|
  {
    var fields := Framing(r) + Custom(r.headers);
    var d := Decimal(|r.body|);
    assert fields[0] == Own("Content-Length", d);
    assert fields[1].name == "Connection";
    HeadersKeep(map["Content-Length" := d], fields[1..], "Content-Length");
    DecimalRoundTrip(|r.body|);
  }
}
