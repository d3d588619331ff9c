/** The HTTP server's side of a connection: the answer to one read, and to any sequence of reads. */
module HttpServers {
  import opened ByteBuffer
  import opened HttpContexts
  import opened HttpSyntax

  /** What the server puts on the connection in answer to one read. */
  datatype Reply =
    | Nothing
    | BadRequest
    | Respond(request: Request, close: bool)

  /** The connection stays open only for HTTP/1.1 without "close", or HTTP/1.0 with "Keep-Alive". */
  predicate ClosesAfter(r: Request) {
    var connection := if "Connection" in r.headers then r.headers["Connection"] else "";
    connection == "close" || (r.version.Http10? && connection != "Keep-Alive")
  }

  /** Unless it is told otherwise, a connection of version 1.1 stays open, and one of version 1.0 closes. */
  lemma WhenItCloses(r: Request)
    requires r.version == Http11 || r.version == Http10
    ensures "Connection" !in r.headers ==> (ClosesAfter(r) <==> r.version == Http10)
    ensures "Connection" in r.headers && r.headers["Connection"] == "close" ==> ClosesAfter(r)
    ensures "Connection" in r.headers && r.headers["Connection"] == "Keep-Alive" ==> !ClosesAfter(r)
    ensures "Connection" in r.headers && r.headers["Connection"] !in {"close", "Keep-Alive"} ==>
              (ClosesAfter(r) <==> r.version == Http10)
  {
  }

  /** What a parse is answered with, and the context it leaves for the next read. */
  function Answer(p: Parsed): Reply {
    if !p.ok then BadRequest
    else if p.context.state.GotAll? then Respond(p.context.request, ClosesAfter(p.context.request))
    else Nothing
  }

  function After(p: Parsed): Context {
    if p.context.state.GotAll? then Context(ExpectRequestLine, Fresh()) else p.context
  }

  /** The next read, whatever it brings, will meet the assertion in setMethod. */
  ghost predicate FitForMore(c: Context, buffered: string) {
    forall more :: MeetsAssertion(c, buffered + more)
  }

  /** HttpServer::onMessage. The context is never left in kGotAll or kExpectBody, so the parser is
      never entered in a state its loop cannot leave. It is fit for the next read exactly unless a
      line that names a known method has been rejected. */
  method OnMessage(context: HttpContext, buf: Buffer) returns (reply: Reply)
    requires buf.Valid() && (context.state.ExpectRequestLine? || context.state.ExpectHeaders?)
    requires MeetsAssertion(context.Value(), buf.Content())
    modifies context, context.request, buf`reader, buf`writer
    ensures buf.Valid() && (context.state.ExpectRequestLine? || context.state.ExpectHeaders?)
    ensures var p := Parse(old(context.Value()), old(buf.Content()));
            buf.Content() == p.rest && context.Value() == After(p) && reply == Answer(p)
    ensures var p := Parse(old(context.Value()), old(buf.Content()));
            && (!p.ok ==> reply == BadRequest && context.Value() == p.context)
            && (p.ok && !p.context.state.GotAll? ==> reply == Nothing && context.Value() == p.context)
            && (p.context.state.GotAll? ==>
                  && reply.Respond? && reply.request == p.context.request
                  && context.Value() == Context(ExpectRequestLine, Fresh()) && buf.Content() == [])
    ensures old(MethodUnset(context.Value())) ==>
              (FitForMore(context.Value(), buf.Content())
               <==> reply != BadRequest || !NamesMethod(old(buf.Content())))
  {
    ghost var c, s := context.Value(), buf.Content();
    var ok := context.ParseRequest(buf);
    reply := if ok then Nothing else BadRequest;
    if context.state == GotAll {
      reply := OnRequest(context);
    }
    if MethodUnset(c) {
      Fitness(c, s);
    }
  }

  /** HttpServer::onRequest, and the reset behind it. */
  method OnRequest(context: HttpContext) returns (reply: Reply)
    requires context.state.GotAll?
    modifies context, context.request
    ensures context.Value() == Context(ExpectRequestLine, Fresh())
    ensures reply == Respond(old(context.request.Value()), ClosesAfter(old(context.request.Value())))
    ensures var r := old(context.request.Value());
            && (r.version != Http10 && "Connection" !in r.headers ==> !reply.close)
            && (r.version == Http10 && "Connection" !in r.headers ==> reply.close)
            && ("Connection" in r.headers && r.headers["Connection"] == "close" ==> reply.close)
            && ("Connection" in r.headers && r.headers["Connection"] == "Keep-Alive" ==> !reply.close)
  {
    var connection := context.request.GetHeader("Connection");
    var close := connection == "close" || (context.request.version == Http10 && connection != "Keep-Alive");
    var r := context.request;
    reply := Respond(Request(r.verb, r.version, r.path, r.query, r.headers, r.body), close);
    context.Reset();
  }

  lemma Fitness(c: Context, s: string)
    requires !c.state.GotAll? && MethodUnset(c)
    ensures var p := Parse(c, s); FitForMore(After(p), p.rest) <==> Answer(p) != BadRequest || !NamesMethod(s)
  {
    var p := Parse(c, s);
    if p.context.state.GotAll? {
      assert FitForMore(After(p), p.rest);
    } else {
      forall more: string
        ensures MeetsAssertion(p.context, p.rest + more) <==> p.ok || !NamesMethod(s)
      {
        NextCallMeetsAssertion(c, s, more);
      }
      NextCallMeetsAssertion(c, s, "");
    }
  }

  // ---- a whole connection ----

  /** The answers to what arrives piece by piece, up to a read that fails the assertion. */
  function Answers(c: Context, buffered: string, pieces: seq<string>): seq<Reply>
    requires !c.state.GotAll?
    decreases |pieces|
  {
    if |pieces| == 0 || !MeetsAssertion(c, buffered + pieces[0]) then []
    else
      var p := Parse(c, buffered + pieces[0]);
      [Answer(p)] + Answers(After(p), p.rest, pieces[1..])
  }

  /** Every read meets the assertion. */
  predicate NeverAborts(c: Context, buffered: string, pieces: seq<string>)
    requires !c.state.GotAll?
    decreases |pieces|
  {
    |pieces| == 0 ||
    (&& MeetsAssertion(c, buffered + pieces[0])
     && var p := Parse(c, buffered + pieces[0]); NeverAborts(After(p), p.rest, pieces[1..]))
  }

  /** One read: the bytes join the input buffer, and the message callback runs. */
  method Read(context: HttpContext, buf: Buffer, piece: string) returns (reply: Reply)
    requires buf.Valid() && (context.state.ExpectRequestLine? || context.state.ExpectHeaders?)
    requires MeetsAssertion(context.Value(), buf.Content() + piece)
    modifies context, context.request, buf, buf.storage
    ensures buf.Valid() && (buf.storage == old(buf.storage) || fresh(buf.storage))
    ensures context.state.ExpectRequestLine? || context.state.ExpectHeaders?
    ensures var p := Parse(old(context.Value()), old(buf.Content()) + piece);
            buf.Content() == p.rest && context.Value() == After(p) && reply == Answer(p)
  {
    buf.Append(piece);
    reply := OnMessage(context, buf);
  }

  /** A connection from one read to the next. */
  method Serve(context: HttpContext, buf: Buffer, pieces: seq<string>) returns (replies: seq<Reply>)
    requires buf.Valid() && (context.state.ExpectRequestLine? || context.state.ExpectHeaders?)
    requires NeverAborts(context.Value(), buf.Content(), pieces)
    modifies context, context.request, buf, buf.storage
    ensures buf.Valid() && (context.state.ExpectRequestLine? || context.state.ExpectHeaders?)
    ensures replies == Answers(old(context.Value()), old(buf.Content()), pieces)
  {
    replies := [];
    var i := 0;
    ghost var goal := Answers(context.Value(), buf.Content(), pieces);
    assert pieces[0..] == pieces && [] + goal == goal;
    while i < |pieces|
      invariant i <= |pieces| && buf.Valid() && (buf.storage == old(buf.storage) || fresh(buf.storage))
      invariant context.state.ExpectRequestLine? || context.state.ExpectHeaders?
      invariant StillToAnswer(context.Value(), buf.Content(), pieces[i..], replies, goal)
    {
      ghost var c, buffered := context.Value(), buf.Content();
      FitsNow(c, buffered, pieces, i, replies, goal);
      var reply := Read(context, buf, pieces[i]);
      OneAnswered(c, buffered, pieces, i, replies, goal);
      replies := replies + [reply];
      i := i + 1;
    }
    assert replies + [] == replies;
  }

  /** replies have been given, and the answers to the pieces left make them the whole of goal. */
  ghost predicate StillToAnswer(c: Context, buffered: string, pieces: seq<string>,
                                replies: seq<Reply>, goal: seq<Reply>) {
    !c.state.GotAll? && NeverAborts(c, buffered, pieces) && replies + Answers(c, buffered, pieces) == goal
  }

  lemma FitsNow(c: Context, buffered: string, pieces: seq<string>, i: nat, replies: seq<Reply>, goal: seq<Reply>)
    requires i < |pieces| && StillToAnswer(c, buffered, pieces[i..], replies, goal)
    ensures MeetsAssertion(c, buffered + pieces[i])
  {
    NextPiece(c, buffered, pieces, i);
  }

  lemma OneAnswered(c: Context, buffered: string, pieces: seq<string>, i: nat, replies: seq<Reply>, goal: seq<Reply>)
    requires i < |pieces| && StillToAnswer(c, buffered, pieces[i..], replies, goal)
    ensures var p := Parse(c, buffered + pieces[i]);
            StillToAnswer(After(p), p.rest, pieces[i + 1..], replies + [Answer(p)], goal)
  {
    var p := Parse(c, buffered + pieces[i]);
    NextPiece(c, buffered, pieces, i);
    Regrouped(replies, Answer(p), Answers(After(p), p.rest, pieces[i + 1..]));
  }

  lemma NextPiece(c: Context, buffered: string, pieces: seq<string>, i: nat)
    requires !c.state.GotAll? && i < |pieces| && NeverAborts(c, buffered, pieces[i..])
    ensures MeetsAssertion(c, buffered + pieces[i])
    ensures var p := Parse(c, buffered + pieces[i]);
            && NeverAborts(After(p), p.rest, pieces[i + 1..])
            && Answers(c, buffered, pieces[i..]) == [Answer(p)] + Answers(After(p), p.rest, pieces[i + 1..])
  {
    assert pieces[i..][0] == pieces[i] && pieces[i..][1..] == pieces[i + 1..];
  }

  lemma Regrouped(a: seq<Reply>, r: Reply, b: seq<Reply>)
    ensures a + ([r] + b) == (a + [r]) + b
  {
  }

  /** The answers stop short exactly when a read fails the assertion. */
  lemma {:induction false} AnsweredInFull(c: Context, buffered: string, pieces: seq<string>)
    requires !c.state.GotAll?
    ensures |Answers(c, buffered, pieces)| <= |pieces|
    ensures |Answers(c, buffered, pieces)| == |pieces| <==> NeverAborts(c, buffered, pieces)
    decreases |pieces|
  {
    if |pieces| > 0 && MeetsAssertion(c, buffered + pieces[0]) {
      var p := Parse(c, buffered + pieces[0]);
      AnsweredInFull(After(p), p.rest, pieces[1..]);
    }
  }

  /** Up to the first answer nothing is said, and the first answer is that of the first verdict. */
  lemma {:induction false} FirstAnswer(c: Context, buffered: string, pieces: seq<string>) returns (k: nat)
    requires !c.state.GotAll? && MethodUnset(c)
    requires |pieces| > 0 && Final(Feed(c, buffered, pieces)) && !Final(Parse(c, buffered))
    ensures k < |Answers(c, buffered, pieces)|
    ensures Answers(c, buffered, pieces)[k] == Answer(Feed(c, buffered, pieces))
    ensures forall i :: 0 <= i < k ==> Answers(c, buffered, pieces)[i] == Nothing
    decreases |pieces|
  {
    var s := buffered + pieces[0];
    var p := Parse(c, s);
    assert MeetsAssertion(c, s);
    if Final(p) {
      k := 0;
    } else {
      MethodAfterParse(c, s);
      ParseAgain(c, s);
      var next := FirstAnswer(p.context, p.rest, pieces[1..]);
      k := next + 1;
    }
  }

  /** Parsing what a parse has left over changes nothing. */
  lemma {:induction false} ParseAgain(c: Context, s: string)
    requires !c.state.GotAll? && !Final(Parse(c, s))
    ensures Parse(Parse(c, s).context, Parse(c, s).rest) == Parse(c, s)
    decreases |s|
  {
    match Next(c, s)
    case Consume(c', rest) => ParseAgain(c', rest);
    case _ =>
  }

  /** The same refusal, or responses to requests with the same head and with the same decision to close. */
  predicate SaysTheSame(a: Reply, b: Reply) {
    if a.Respond? && b.Respond? then a.close == b.close && a.request.(body := "") == b.request.(body := "")
    else a == b
  }

  lemma SameHeadSameReply(a: Parsed, b: Parsed)
    requires SameHead(a, b)
    ensures SaysTheSame(Answer(a), Answer(b))
  {
    var q, r := a.context.request, b.context.request;
    assert q.(body := "").headers == r.(body := "").headers && q.(body := "").version == r.(body := "").version;
  }

  /** However a request arrives, the server says nothing until it has a verdict, and then what it would
      have said to the whole of it. */
  lemma CutsDoNotChangeTheAnswer(pieces: seq<string>) returns (k: nat)
    requires Final(Parse(Context(ExpectRequestLine, Fresh()), Joined(pieces)))
    ensures var c := Context(ExpectRequestLine, Fresh());
            && k < |Answers(c, "", pieces)|
            && (forall i :: 0 <= i < k ==> Answers(c, "", pieces)[i] == Nothing)
            && Answers(c, "", pieces)[k] != Nothing
            && SaysTheSame(Answers(c, "", pieces)[k], Answer(Parse(c, Joined(pieces))))
  {
    var c := Context(ExpectRequestLine, Fresh());
    var fed := Feed(c, "", pieces);
    FedLikeTheWhole(c, pieces);
    k := FirstAnswer(c, "", pieces);
    SameHeadSameReply(fed, Parse(c, Joined(pieces)));
  }

  lemma FedLikeTheWhole(c: Context, pieces: seq<string>)
    requires c.state.ExpectRequestLine? && Final(Parse(c, Joined(pieces)))
    ensures SameHead(Feed(c, "", pieces), Parse(c, Joined(pieces))) && Final(Feed(c, "", pieces))
    ensures !Final(Parse(c, "")) && |pieces| > 0
  {
    assert "" + Joined(pieces) == Joined(pieces);
    CutsDoNotMatter(c, "", pieces);
    NothingYet(c);
  }

  lemma NothingYet(c: Context)
    requires c.state.ExpectRequestLine?
    ensures !Final(Parse(c, ""))
  {
    assert Next(c, "") == Wait;
  }
}
