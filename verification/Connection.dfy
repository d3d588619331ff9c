/** One TCP connection seen from its loop thread: the output path over partial, refused and
    broken writes, half-close, and the dispatch of readiness events. Ghost fields record what
    the kernel and the application saw; the invariant ties them to the fields of the source. */
module Connections {
  import opened Bounds
  import opened ByteBuffer
  import opened ConnectionStates
  import opened PollEvents

  datatype Errno = EWOULDBLOCK | EPIPE | ECONNRESET | OtherErrno

  /** What the kernel would do with a write, and what it did. */
  datatype WriteResult = Wrote(n: nat) | Refused(errno: Errno)

  /** What became of a payload handed to sendInLoop. */
  datatype Fate = Accepted | Faulted | Late

  datatype Payload = Payload(bytes: seq<char>, fate: Fate)

  datatype Notice = WriteComplete | HighWater(backlog: nat)

  /** What user callbacks and queued functors may do to the connection. */
  datatype UserOp =
    | SendOp(message: seq<char>, attempt: WriteResult)
    | QueuedSendOp(message: seq<char>, attempt: WriteResult)
    | ShutdownOp
    | ForceCloseOp
    | ConsumeOp(len: nat)
    | StartReadOp
    | StopReadOp

  /** What can happen to a connection in its loop. */
  datatype Event =
    | Establish(ops: seq<UserOp>)
    | Callback(ops: seq<UserOp>)
    | Dispatch(revents: set<PollEvent>, r: ReadResult, closing: seq<UserOp>, ops: seq<UserOp>, attempt: WriteResult)
    | QueuedClose(ops: seq<UserOp>)
    | Destroy(ops: seq<UserOp>)

  /** Nobody switches reading, and poll does not report the mix that closes twice. */
  predicate Calm(e: Event) {
    match e
    case Dispatch(revents, r, closing, ops, _) =>
      SwitchesNothing(closing) && SwitchesNothing(ops) && !ClosesTwice(revents, r)
    case _ => SwitchesNothing(e.ops)
  }

  /** The bytes the peer has been promised: every accepted payload, whole and in order. */
  function Promised(history: seq<Payload>): seq<char> {
    if history == [] then []
    else Promised(history[..|history| - 1]) +
         (if history[|history| - 1].fate.Accepted? then history[|history| - 1].bytes else [])
  }

  lemma PromisedMore(history: seq<Payload>, p: Payload)
    ensures Promised(history + [p]) == Promised(history) + (if p.fate.Accepted? then p.bytes else [])
  {
    assert (history + [p])[..|history|] == history;
  }

  /** Where a payload is cut between kernel and backlog does not matter. */
  lemma Conserved(wire: seq<char>, backlog: seq<char>, message: seq<char>, n: nat, broken: bool,
                  wire': seq<char>, backlog': seq<char>)
    requires n <= |message| && (n > 0 ==> |backlog| == 0) && (broken ==> n == 0 && |backlog| == 0)
    requires wire' == wire + message[..n]
    requires if broken then |backlog'| == 0 else backlog' == backlog + message[n..]
    ensures wire' + backlog' == (wire + backlog) + (if broken then [] else message)
  {
    assert message == message[..n] + message[n..];
  }

  lemma DrainedTo(wire: seq<char>, data: seq<char>, n: nat)
    requires n <= |data|
    ensures (wire + data[..n]) + data[n..] == wire + data
  {
    assert data == data[..n] + data[n..];
  }

  /** A hang-up reported without IN but with PRI or RDHUP, on a socket at end of file. */
  predicate ClosesTwice(revents: set<PollEvent>, r: ReadResult) {
    HUP in revents && IN !in revents && (PRI in revents || RDHUP in revents) && r == Delivered([])
  }

  /** The events that make a channel call its read callback. */
  predicate ReadEvents(revents: set<PollEvent>) {
    IN in revents || PRI in revents || RDHUP in revents
  }

  /** The close callback runs without the read callback. */
  predicate HangsUp(revents: set<PollEvent>) {
    HUP in revents && IN !in revents
  }

  /** How a channel is watched. */
  datatype Watch = Watch(reading: bool, wantRead: bool, index: Index)

  /** What an operation does to the channel of a closed connection. */
  function Switched(w: Watch, op: UserOp): Watch {
    match op
    case StartReadOp => if !w.reading || !w.wantRead then Watch(true, true, Added) else w
    case StopReadOp => if w.reading || w.wantRead then Watch(false, false, IndexAfter(w.index, true)) else w
    case _ => w
  }

  function AfterOps(w: Watch, ops: seq<UserOp>): Watch {
    if |ops| == 0 then w else Switched(AfterOps(w, ops[..|ops| - 1]), ops[|ops| - 1])
  }

  /** The last that is said about reading, if anything is. */
  predicate LeavesReading(ops: seq<UserOp>, before: bool) {
    if |ops| == 0 then before
    else match ops[|ops| - 1]
         case StartReadOp => true
         case StopReadOp => false
         case _ => LeavesReading(ops[..|ops| - 1], before)
  }

  lemma {:induction false} ReadsAfter(w: Watch, ops: seq<UserOp>)
    ensures AfterOps(w, ops).wantRead == LeavesReading(ops, w.wantRead)
    ensures !w.index.New? ==> !AfterOps(w, ops).index.New?
  {
    if |ops| > 0 {
      ReadsAfter(w, ops[..|ops| - 1]);
    }
  }

  lemma OneMoreOp(w: Watch, ops: seq<UserOp>, i: nat)
    requires i < |ops|
    ensures AfterOps(w, ops[..i + 1]) == Switched(AfterOps(w, ops[..i]), ops[i])
    ensures SwitchesNothing(ops[..i + 1]) ==> SwitchesNothing(ops[..i]) && !ops[i].StartReadOp? && !ops[i].StopReadOp?
  {
    assert ops[..i + 1][..i] == ops[..i];
  }

  predicate SwitchesNothing(ops: seq<UserOp>) {
    forall i :: 0 <= i < |ops| ==> !ops[i].StartReadOp? && !ops[i].StopReadOp?
  }

  lemma {:induction false} NothingSwitched(w: Watch, ops: seq<UserOp>)
    requires SwitchesNothing(ops)
    ensures AfterOps(w, ops) == w && LeavesReading(ops, w.wantRead) == w.wantRead
  {
    if |ops| > 0 {
      NothingSwitched(w, ops[..|ops| - 1]);
    }
  }

  /** What operations of the application bear on: the state, the payloads handed over so far, the bytes
      it has not taken yet, and the closes it has asked for that have not run. */
  datatype Doing = Doing(state: StateE, sent: seq<seq<char>>, unread: seq<char>, closes: nat)

  function ByOp(d: Doing, op: UserOp): Doing {
    match op
    case SendOp(message, _) => if d.state.Connected? then d.(sent := d.sent + [message]) else d
    case QueuedSendOp(message, _) => d.(sent := d.sent + [message])
    case ShutdownOp => if d.state.Connected? then d.(state := Disconnecting) else d
    case ForceCloseOp =>
      if d.state.Connected? || d.state.Disconnecting? then d.(state := Disconnecting, closes := d.closes + 1) else d
    case ConsumeOp(len) => if len <= |d.unread| then d.(unread := d.unread[len..]) else d
    case _ => d
  }

  function ByOps(d: Doing, ops: seq<UserOp>): Doing {
    if |ops| == 0 then d else ByOp(ByOps(d, ops[..|ops| - 1]), ops[|ops| - 1])
  }

  lemma OneMoreDone(d: Doing, ops: seq<UserOp>, i: nat)
    requires i < |ops|
    ensures ByOps(d, ops[..i + 1]) == ByOp(ByOps(d, ops[..i]), ops[i])
  {
    assert ops[..i + 1][..i] == ops[..i];
  }

  /** A closed connection stays closed, and closes nothing more. */
  lemma {:induction false} ClosedForGood(d: Doing, ops: seq<UserOp>)
    requires d.state.Disconnected?
    ensures var t := ByOps(d, ops); t.state.Disconnected? && t.closes == d.closes
  {
    if |ops| > 0 {
      ClosedForGood(d, ops[..|ops| - 1]);
    }
  }

  /** The messages of all sends, in order. */
  function Messages(ops: seq<UserOp>): seq<seq<char>> {
    if |ops| == 0 then []
    else
      var last := ops[|ops| - 1];
      Messages(ops[..|ops| - 1]) + if last.SendOp? || last.QueuedSendOp? then [last.message] else []
  }

  /** A connected connection that its callback does not shut down gets all it sends, in order, and
      nothing else; and what is not consumed stays to be read. */
  lemma {:induction false} EverythingIsSent(d: Doing, ops: seq<UserOp>)
    requires d.state.Connected? && forall i :: 0 <= i < |ops| ==> !ops[i].ShutdownOp? && !ops[i].ForceCloseOp?
    ensures var t := ByOps(d, ops);
            && t.state.Connected? && t.sent == d.sent + Messages(ops) && t.closes == d.closes
            && |t.unread| <= |d.unread| && t.unread == d.unread[|d.unread| - |t.unread|..]
    decreases |ops|
  {
    if |ops| > 0 {
      EverythingIsSent(d, ops[..|ops| - 1]);
    }
  }

  /** Data, as much as fits, joins what is unread and the callback runs; end of file closes. */
  ghost predicate IsRead(r: ReadResult, ops: seq<UserOp>, d: Doing, t: Doing) {
    match r
    case Failed(_) => t == d
    case Delivered(bytes) =>
      if bytes == [] then t == ByOps(d.(state := Disconnected), ops)
      else exists k :: 0 < k <= |bytes| && t == ByOps(d.(unread := d.unread + bytes[..k]), ops)
  }

  /** What becomes of a connection when e happens to it and no assertion fails. A closed one gets events
      only while the kernel watches it, which d does not tell. */
  ghost predicate Follows(e: Event, d: Doing, t: Doing) {
    var live := d.state.Connected? || d.state.Disconnecting?;
    match e
    case Establish(ops) => t == if d.state.Connecting? then ByOps(d.(state := Connected), ops) else d
    case Callback(ops) => t == if d.state.Connecting? then d else ByOps(d, ops)
    case Dispatch(revents, r, closing, ops, _) =>
      if live then
        && (!HangsUp(revents) && !ReadEvents(revents) ==> t == d)
        && (!HangsUp(revents) && ReadEvents(revents) ==> IsRead(r, ops, d, t))
        && (HangsUp(revents) && !ReadEvents(revents) ==> t == ByOps(d.(state := Disconnected), closing))
        && (HangsUp(revents) ==> t.state.Disconnected?)
      else t == d || (d.state.Disconnected? && ReadEvents(revents) && IsRead(r, ops, d, t))
    case QueuedClose(ops) =>
      if d.closes == 0 then t == d
      else t == ByOps(d.(state := Disconnected), if live then ops else []).(closes := d.closes - 1)
    case Destroy(ops) => t == if d.state.Connected? then ByOps(d.(state := Disconnected), ops) else d
  }

  /** The connection at each point of a script. */
  ghost predicate FollowAll(script: seq<Event>, trace: seq<Doing>) {
    |trace| == |script| + 1 && forall i :: 0 <= i < |script| ==> Follows(script[i], trace[i], trace[i + 1])
  }

  lemma FollowMore(script: seq<Event>, i: nat, trace: seq<Doing>, t: Doing)
    requires i < |script| && FollowAll(script[..i], trace) && Follows(script[i], trace[i], t)
    ensures FollowAll(script[..i + 1], trace + [t])
  {
    var more, done := trace + [t], script[..i + 1];
    forall k | 0 <= k < i + 1
      ensures Follows(done[k], more[k], more[k + 1])
    {
      if k < i {
        assert script[..i][k] == done[k];
      }
    }
  }

  function BytesOf(history: seq<Payload>): seq<seq<char>> {
    seq(|history|, i requires 0 <= i < |history| => history[i].bytes)
  }

  lemma OneMorePayload(history: seq<Payload>, p: Payload)
    ensures BytesOf(history + [p]) == BytesOf(history) + [p.bytes]
  {
  }

  class TCPConnection {
    const input: Buffer
    const output: Buffer
    var state: StateE
    var reading: bool
    // the channel: its interest, and where it stands with the poller
    var wantRead: bool
    var wantWrite: bool
    var index: Index
    var highWaterMark: nat
    var hasWriteComplete: bool
    var hasHighWater: bool
    // functors queued on the loop
    var notices: seq<Notice>
    var forceCloses: nat
    // the socket: whether its write side has been shut down
    var halfClosed: bool

    // Bytes the kernel has delivered, and those of them the application has taken; bytes the kernel
    // has taken; payloads and their fate; whether shutdown was asked for;
    // calls of the connection callback for up and for down; closes asked for by forceClose.
    ghost var received: seq<char>
    ghost var consumed: seq<char>
    ghost var wire: seq<char>
    ghost var history: seq<Payload>
    ghost var asked: bool
    ghost var ups: nat
    ghost var downs: nat
    ghost var closesAsked: nat

    ghost function Repr(): set<object>
      reads this, input, output
    {
      {this, input, output, input.storage, output.storage}
    }

    predicate Live()
      reads this
    {
      state.Connected? || state.Disconnecting?
    }

    /** No byte is lost, duplicated or reordered. */
    ghost predicate Conserves()
      requires output.Valid()
      reads this, output, output.storage
    {
      wire + output.Content() == Promised(history)
    }

    /** The same on the way in. */
    ghost predicate Delivers()
      requires input.Valid()
      reads this, input, input.storage
    {
      consumed + input.Content() == received
    }

    ghost predicate Valid()
      reads this, input, output, input.storage, output.storage
    {
      Shape() && Conserves() && Delivers() && (state.Connecting? ==> history == [] && wire == [])
    }

    /** A live connection is watched by the kernel exactly while it asks for something. A closed one
        may have been told to read again, and may be watched for nothing. */
    predicate Watched()
      reads this
    {
      && (Live() ==> (index.Added? <==> wantRead || wantWrite) && (reading ==> wantRead))
      && (!Live() ==> !wantWrite && (wantRead ==> index.Added?))
      && (state.Connecting? ==> index.New?) && (state.Connected? ==> !index.New?)
    }

    function Watching(): Watch
      reads this
    {
      Watch(reading, wantRead, index)
    }

    /** A live connection reads, and of a closed one the kernel reports nothing more. */
    predicate Steady()
      reads this
    {
      if Live() then wantRead else !index.Added?
    }

    ghost predicate Shape()
      reads this, input, output, input.storage, output.storage
    {
      Buffers() && Watched() && Laws(|output.Content()|)
    }

    ghost predicate Buffers()
      reads input, output, input.storage, output.storage
    {
      && input != output && input.storage != output.storage
      && input.Valid() && output.Valid()
    }

    ghost predicate Laws(backlog: nat)
      reads this
    {
      // interest in writing is exactly the presence of a backlog
      && (Live() ==> (wantWrite <==> backlog > 0))
      // until close, half-close waits for the last accepted byte, and then comes at once
      && (halfClosed ==> Rank(state) >= 2)
      && (halfClosed && Live() ==> backlog == 0)
      && (asked ==> Rank(state) >= 2)
      && (asked && Live() && backlog == 0 ==> halfClosed)
      // a close asked for is queued, or has closed the connection
      && forceCloses <= closesAsked && (forceCloses < closesAsked ==> state.Disconnected?)
      && (closesAsked > 0 ==> Rank(state) >= 2)
      // callbacks
      && ups == (if state.Connecting? then 0 else 1)
      && downs == (if state.Disconnected? then 1 else 0)
    }

    constructor (highWaterMark: nat, hasWriteComplete: bool, hasHighWater: bool)
      ensures Valid() && fresh(Repr()) && state == Connecting
    {
      input := new Buffer(INITIAL_SIZE);
      output := new Buffer(INITIAL_SIZE);
      state, reading, wantRead, wantWrite, index := Connecting, false, false, false, New;
      this.highWaterMark, this.hasWriteComplete, this.hasHighWater := highWaterMark, hasWriteComplete, hasHighWater;
      notices, forceCloses, closesAsked := [], 0, 0;
      wire, halfClosed, history, asked := [], false, [], false;
      ups, downs, received, consumed := 0, 0, [], [];
    }

    /** What every step respects: states move forward, nothing taken or recorded is taken back,
        and a half-closed connection sends nothing more. */
    twostate predicate Evolves()
      reads this
    {
      && Rank(old(state)) <= Rank(state)
      && (state.Disconnected? <==> old(state).Disconnected?)
      && old(wire) <= wire && old(history) <= history && old(notices) <= notices
      && old(received) <= received && old(consumed) <= consumed
      && (old(halfClosed) ==> halfClosed && wire == old(wire))
      && (old(asked) ==> asked)
      && (old(state).Disconnected? ==> wire == old(wire))
    }

    ghost function Doings(): Doing
      requires input.Valid()
      reads this, input, input.storage
    {
      Doing(state, BytesOf(history), input.Content(), forceCloses)
    }

    /** What write(2) answers when the environment attempts `attempt`: never more than offered,
        and after half-close a non-empty write is always a broken pipe. */
    function Answer(len: nat, attempt: WriteResult): WriteResult
      reads this
    {
      if halfClosed && len > 0 then Refused(EPIPE)
      else if attempt.Wrote? then Wrote(Min(attempt.n, len))
      else attempt
    }

    method KernelWrite(data: seq<char>, attempt: WriteResult) returns (r: WriteResult)
      modifies this`wire
      ensures r == Answer(|data|, attempt)
      ensures wire == if r.Wrote? then old(wire) + data[..r.n] else old(wire)
    {
      r := Answer(|data|, attempt);
      wire := if r.Wrote? then wire + data[..r.n] else wire;
    }

    /** How much of a payload the kernel takes at once: something only when nothing waits. */
    ghost function Through(len: nat, attempt: WriteResult): (n: nat)
      requires output.Valid()
      reads this, output, output.storage
      ensures n <= len
    {
      if Live() && |output.Content()| == 0 && Answer(len, attempt).Wrote? then Answer(len, attempt).n else 0
    }

    /** The payload meets a broken connection. */
    ghost predicate Breaks(len: nat, attempt: WriteResult)
      requires output.Valid()
      reads this, output, output.storage
    {
      Live() && |output.Content()| == 0 && Answer(len, attempt) in {Refused(EPIPE), Refused(ECONNRESET)}
    }

    ghost predicate Completes(len: nat, attempt: WriteResult)
      requires output.Valid()
      reads this, output, output.storage
    {
      Live() && |output.Content()| == 0 && Answer(len, attempt) == Wrote(len)
    }

    /** How much of the backlog the kernel takes when it offers room. */
    ghost function Moves(attempt: WriteResult): (n: nat)
      requires output.Valid()
      reads this, output, output.storage
      ensures n <= |output.Content()|
    {
      if Live() && |output.Content()| > 0 && Answer(|output.Content()|, attempt).Wrote?
      then Answer(|output.Content()|, attempt).n else 0
    }

    /** A payload goes to the kernel, as far as it takes it, if nothing waits before it; it meets a broken
        connection if the kernel says so, or the write side has been shut down. A refusal for now is none
        of these. */
    lemma WhatBecomesOfAPayload(len: nat, attempt: WriteResult)
      requires output.Valid() && Live()
      ensures |output.Content()| > 0 ==>
                Through(len, attempt) == 0 && !Breaks(len, attempt) && !Completes(len, attempt)
      ensures |output.Content()| == 0 && halfClosed && len > 0 ==>
                Through(len, attempt) == 0 && Breaks(len, attempt) && !Completes(len, attempt)
      ensures |output.Content()| == 0 && !halfClosed && attempt.Wrote? ==>
                && Through(len, attempt) == Min(attempt.n, len) && !Breaks(len, attempt)
                && (Completes(len, attempt) <==> attempt.n >= len)
      ensures |output.Content()| == 0 && !halfClosed && attempt.Refused? ==>
                && Through(len, attempt) == 0 && !Completes(len, attempt)
                && (Breaks(len, attempt) <==> attempt.errno == EPIPE || attempt.errno == ECONNRESET)
    {
    }

    /** A backlog moves on by what the kernel takes of it. */
    lemma WhatMovesOn(attempt: WriteResult)
      requires output.Valid() && Live() && !halfClosed
      ensures Moves(attempt) == if attempt.Wrote? then Min(attempt.n, |output.Content()|) else 0
    {
    }

    /** First half of sendInLoop: with no backlog, offer the payload to the kernel at once. */
    method WriteThrough(message: seq<char>, attempt: WriteResult) returns (nwrote: nat, faultError: bool)
      requires Shape() && Live()
      modifies this`wire, this`notices
      ensures nwrote == old(Through(|message|, attempt)) && wire == old(wire) + message[..nwrote]
      ensures faultError == old(Breaks(|message|, attempt))
      ensures notices == old(notices)
              + (if old(Completes(|message|, attempt)) && hasWriteComplete then [WriteComplete] else [])
    {
      nwrote, faultError := 0, false;
      if !wantWrite && output.ReadableBytes() == 0 {
        var r := KernelWrite(message, attempt);
        match r
        case Wrote(n) =>
          nwrote := n;
          var remaining := |message| - n;
          if remaining == 0 && hasWriteComplete {
            notices := notices + [WriteComplete];
          }
        case Refused(errno) =>
          if errno != EWOULDBLOCK {
            if errno == EPIPE || errno == ECONNRESET {
              faultError := true;
            }
          }
      }
    }

    /** The notice owed when the backlog grows from one length to another. */
    function Crossing(before: nat, after: nat): seq<Notice>
      reads this
    {
      if hasHighWater && before < highWaterMark <= after then [HighWater(after)] else []
    }

    /** The channel tells the poller. */
    method Update()
      modifies this`index
      ensures index == IndexAfter(old(index), !wantRead && !wantWrite)
    {
      index := IndexAfter(index, !wantRead && !wantWrite);
    }

    method NoticeHighWater(oldLen: nat, remaining: nat)
      modifies this`notices
      ensures if hasHighWater && oldLen < highWaterMark <= oldLen + remaining
              then notices == old(notices) + [HighWater(oldLen + remaining)] else notices == old(notices)
    {
      if oldLen + remaining >= highWaterMark && oldLen < highWaterMark && hasHighWater {
        notices := notices + [HighWater(oldLen + remaining)];
      }
    }

    /** Second half: what the kernel did not take joins the backlog. */
    method Backlog(rest: seq<char>)
      requires input.Valid() && output.Valid() && input != output && input.storage != output.storage
      modifies this`notices, this`wantWrite, this`index, output, output.storage
      ensures output.Valid() && (output.storage == old(output.storage) || fresh(output.storage))
      ensures output.Content() == old(output.Content()) + rest
      ensures wantWrite <==> old(wantWrite) || |rest| > 0
      ensures index == if wantWrite && !old(wantWrite) then Added else old(index)
      ensures notices == old(notices)
              + Crossing(old(|output.Content()|), |output.Content()|)
    {
      if |rest| > 0 {
        NoticeHighWater(output.ReadableBytes(), |rest|);
        output.Append(rest);
        if !wantWrite {
          wantWrite := true;
          Update();
        }
      }
    }

    method Offer(message: seq<char>, attempt: WriteResult) returns (nwrote: nat, faultError: bool)
      requires Shape() && Live()
      modifies this`wire, this`notices, this`wantWrite, this`index, output, output.storage
      ensures Shape() && (output.storage == old(output.storage) || fresh(output.storage))
      ensures nwrote == old(Through(|message|, attempt)) && wire == old(wire) + message[..nwrote]
      ensures faultError == old(Breaks(|message|, attempt))
      ensures if faultError then |output.Content()| == 0
              else output.Content() == old(output.Content()) + message[nwrote..]
      ensures notices == old(notices)
              + (if old(Completes(|message|, attempt)) && hasWriteComplete then [WriteComplete] else [])
              + Crossing(old(|output.Content()|), |output.Content()|)
    {
      nwrote, faultError := WriteThrough(message, attempt);
      if !faultError {
        Backlog(message[nwrote..]);
      }
    }

    /** A payload enters the history once its bytes are where they belong. */
    ghost method Note(p: Payload)
      requires Shape() && Delivers() && !state.Connecting?
      requires wire + output.Content() == Promised(history) + (if p.fate.Accepted? then p.bytes else [])
      modifies this`history
      ensures Valid() && history == old(history) + [p] && BytesOf(history) == BytesOf(old(history)) + [p.bytes]
    {
      PromisedMore(history, p);
      OneMorePayload(history, p);
      history := history + [p];
    }

    method SendLive(message: seq<char>, attempt: WriteResult)
      requires Valid() && Live()
      modifies this`wire, this`notices, this`history, this`wantWrite, this`index, output, output.storage
      ensures Valid() && (output.storage == old(output.storage) || fresh(output.storage))
      ensures history == old(history)
                         + [Payload(message, if old(Breaks(|message|, attempt)) then Faulted else Accepted)]
      ensures BytesOf(history) == BytesOf(old(history)) + [message]
      ensures wire == old(wire) + message[..old(Through(|message|, attempt))]
      ensures notices == old(notices)
              + (if old(Completes(|message|, attempt)) && hasWriteComplete then [WriteComplete] else [])
              + Crossing(old(|output.Content()|), |output.Content()|)
    {
      var nwrote, faultError := Offer(message, attempt);
      Conserved(old(wire), old(output.Content()), message, nwrote, faultError, wire, output.Content());
      Note(Payload(message, if faultError then Faulted else Accepted));
    }

    /** The connection is closed: the payload is given up. */
    ghost method GiveUp(message: seq<char>)
      requires Valid() && state.Disconnected?
      modifies this`history
      ensures Valid() && history == old(history) + [Payload(message, Late)]
      ensures BytesOf(history) == BytesOf(old(history)) + [message]
    {
      Note(Payload(message, Late));
    }

    /** A payload is accepted as a whole or missing as a whole. */
    method SendInLoop(message: seq<char>, attempt: WriteResult)
      requires Valid() && !state.Connecting?
      modifies this`wire, this`notices, this`history, this`wantWrite, this`index, output, output.storage
      ensures Valid() && (output.storage == old(output.storage) || fresh(output.storage))
      ensures Evolves() && input.Content() == old(input.Content())
      ensures !Live() ==> index == old(index)
      ensures Doings() == ByOp(old(Doings()), QueuedSendOp(message, attempt))
      ensures history == old(history) + [Payload(message, if !old(Live()) then Late
                                                          else if old(Breaks(|message|, attempt)) then Faulted
                                                          else Accepted)]
      ensures wire == old(wire) + message[..old(Through(|message|, attempt))]
      ensures notices == old(notices)
              + (if old(Completes(|message|, attempt)) && hasWriteComplete then [WriteComplete] else [])
              + Crossing(old(|output.Content()|), |output.Content()|)
    {
      if state.Disconnected? {
        assert wire + message[..0] == wire && notices + [] + [] == notices;
        GiveUp(message);
      } else {
        SendLive(message, attempt);
      }
    }

    /** Only a connected connection takes the payload. */
    method Send(message: seq<char>, attempt: WriteResult)
      requires Valid()
      modifies Repr()
      ensures Valid() && fresh(Repr() - old(Repr())) && Evolves()
      ensures state == old(state) && received == old(received) && input.Content() == old(input.Content())
      ensures Undisturbed() && Doings() == ByOp(old(Doings()), SendOp(message, attempt))
      ensures if old(state).Connected?
              then history == old(history)
                              + [Payload(message, if old(Breaks(|message|, attempt)) then Faulted else Accepted)]
              else unchanged(this) && output.Content() == old(output.Content())
    {
      if state == Connected {
        SendInLoop(message, attempt);
      }
    }

    method ShutdownInLoop()
      modifies this`halfClosed
      ensures halfClosed <==> old(halfClosed) || !wantWrite
    {
      if !wantWrite {
        halfClosed := true;
      }
    }

    method Shutdown()
      requires Valid()
      modifies this`state, this`halfClosed, this`asked
      ensures Valid() && Evolves() && Doings() == ByOp(old(Doings()), ShutdownOp)
      ensures if old(state).Connected?
              then state == Disconnecting && asked && (halfClosed <==> old(|output.Content()|) == 0)
              else unchanged(this)
    {
      if state == Connected {
        state := Disconnecting;
        ShutdownInLoop();
        asked := true;
      }
    }

    method ForceClose()
      requires Valid()
      modifies this`state, this`forceCloses, this`closesAsked
      ensures Valid() && Evolves() && Doings() == ByOp(old(Doings()), ForceCloseOp)
      ensures if old(Live()) then state == Disconnecting && forceCloses == old(forceCloses) + 1 else unchanged(this)
    {
      if state == Connected || state == Disconnecting {
        state := Disconnecting;
        forceCloses, closesAsked := forceCloses + 1, closesAsked + 1;
      }
    }

    /** The application takes bytes from the front of the input. */
    method Consume(len: nat)
      requires Valid() && len <= |input.Content()|
      modifies this`consumed, input`reader, input`writer
      ensures Valid() && Evolves() && input.Content() == old(input.Content())[len..]
      ensures consumed == old(consumed) + old(input.Content())[..len]
      ensures Doings() == ByOp(old(Doings()), ConsumeOp(len))
    {
      DrainedTo(consumed, input.Content(), len);
      consumed := consumed + input.Content()[..len];
      input.Retrieve(len);
    }

    twostate predicate Undisturbed()
      reads this
    {
      wantRead == old(wantRead) && reading == old(reading) && (state.Disconnected? ==> index == old(index))
    }

    twostate predicate SwitchedBy(op: UserOp)
      reads this
    {
      && (!op.StartReadOp? && !op.StopReadOp? ==> Undisturbed())
      && (state.Disconnected? ==> Watching() == Switched(old(Watching()), op))
    }

    /** What operations do to reading and, of a closed connection, to the watching of its channel. */
    twostate predicate Switching(ops: seq<UserOp>)
      reads this
    {
      && (SwitchesNothing(ops) ==> wantRead == old(wantRead) && reading == old(reading))
      && (state.Disconnected? ==> Watching() == AfterOps(old(Watching()), ops))
    }

    /** A payload from this thread, or one that another thread's send has queued. */
    method Transmit(queued: bool, message: seq<char>, attempt: WriteResult)
      requires Valid() && !state.Connecting?
      modifies Repr()
      ensures Valid() && fresh(Repr() - old(Repr())) && Evolves() && received == old(received)
      ensures Undisturbed()
      ensures Doings()
              == ByOp(old(Doings()), if queued then QueuedSendOp(message, attempt) else SendOp(message, attempt))
    {
      if queued {
        SendInLoop(message, attempt);
      } else {
        Send(message, attempt);
      }
    }

    method RunOp(op: UserOp)
      requires Valid() && !state.Connecting?
      modifies Repr()
      ensures Valid() && fresh(Repr() - old(Repr())) && Evolves() && received == old(received)
      ensures SwitchedBy(op) && Doings() == ByOp(old(Doings()), op)
    {
      match op
      case SendOp(message, attempt) => Transmit(false, message, attempt);
      case QueuedSendOp(message, attempt) => Transmit(true, message, attempt);
      case ConsumeOp(len) => TakeInput(len);
      case _ => Control(op);
    }

    method TakeInput(len: nat)
      requires Valid()
      modifies this`consumed, input`reader, input`writer
      ensures Valid() && Evolves() && Doings() == ByOp(old(Doings()), ConsumeOp(len))
    {
      if len <= input.ReadableBytes() {
        Consume(len);
      }
    }

    /** Operations that move no bytes. */
    method Control(op: UserOp)
      requires Valid() && !state.Connecting?
      modifies this`state, this`halfClosed, this`asked, this`forceCloses, this`closesAsked,
               this`wantRead, this`reading, this`index
      ensures Valid() && Evolves()
      ensures SwitchedBy(op)
      ensures !op.ConsumeOp? && !op.SendOp? && !op.QueuedSendOp? ==> Doings() == ByOp(old(Doings()), op)
    {
      match op
      case ShutdownOp => Shutdown();
      case ForceCloseOp => ForceClose();
      case StartReadOp => StartRead();
      case StopReadOp => StopRead();
      case _ =>
    }

    /** A user callback may use the connection in any way, but cannot close it synchronously. */
    method RunUser(ops: seq<UserOp>)
      requires Valid() && !state.Connecting?
      modifies Repr()
      ensures Valid() && fresh(Repr() - old(Repr())) && Evolves() && received == old(received)
      ensures Switching(ops) && StaysSteady(ops) && Doings() == ByOps(old(Doings()), ops)
      ensures |ops| == 0 ==> unchanged(this)
    {
      if |ops| == 0 {
        return;
      }
      var i := 0;
      while i < |ops|
        invariant i <= |ops| && Valid() && fresh(Repr() - old(Repr())) && Evolves() && received == old(received)
        invariant Switching(ops[..i]) && Doings() == ByOps(old(Doings()), ops[..i])
      {
        RunOp(ops[i]);
        OneMoreOp(old(Watching()), ops, i);
        OneMoreDone(old(Doings()), ops, i);
        i := i + 1;
      }
      assert ops[..i] == ops;
      SwitchingIsSteady(ops);
    }

    twostate lemma SwitchingIsSteady(ops: seq<UserOp>)
      requires Switching(ops) && old(Live()) == Live() && old(state.Disconnected?) == state.Disconnected?
      requires state.Connecting? ==> index == old(index)
      ensures StaysSteady(ops)
    {
      if SwitchesNothing(ops) {
        NothingSwitched(old(Watching()), ops);
      }
    }

    /** connectEstablished up to its callback. */
    method BecomeConnected()
      requires Valid() && state == Connecting
      modifies this`state, this`wantRead, this`index, this`ups
      ensures Valid() && state == Connected && wantRead && ups == 1
      ensures Doings() == old(Doings()).(state := Connected)
    {
      state := Connected;
      wantRead := true;
      Update();
      ups := ups + 1;
    }

    /** Up, with read interest, and the callback for that runs. */
    method ConnectEstablished(ops: seq<UserOp>)
      requires Valid() && state == Connecting
      modifies Repr()
      ensures Valid() && fresh(Repr() - old(Repr()))
      ensures Live() && ups == 1 && downs == 0 && received == old(received)
      ensures |ops| == 0 ==> state == Connected && wantRead && !wantWrite && history == old(history)
      ensures SwitchesNothing(ops) ==> Steady()
      ensures Doings() == ByOps(old(Doings()).(state := Connected), ops)
    {
      BecomeConnected();
      RunUser(ops);
    }

    /** Write what is waiting and drop what the kernel took. */
    method Flush(attempt: WriteResult) returns (n: nat)
      requires Shape() && Live() && wantWrite
      modifies this`wire, output`reader, output`writer
      ensures output.Valid() && n == old(Moves(attempt))
      ensures output.Content() == old(output.Content())[n..]
      ensures wire == old(wire) + old(output.Content())[..n]
      ensures wire + output.Content() == old(wire + output.Content())
    {
      n := 0;
      var data := output.storage[output.reader..output.writer];
      DrainedTo(wire, data, 0);
      var r := KernelWrite(data, attempt);
      if r.Wrote? && r.n > 0 {
        n := r.n;
        DrainedTo(old(wire), data, n);
        output.Retrieve(n);
      }
    }

    /** The backlog has been emptied. */
    method FinishWrite()
      modifies this`wantWrite, this`index, this`notices, this`halfClosed
      ensures !wantWrite && index == IndexAfter(old(index), !wantRead)
      ensures halfClosed <==> old(halfClosed) || state == Disconnecting
      ensures notices == old(notices) + (if hasWriteComplete then [WriteComplete] else [])
    {
      wantWrite := false;
      Update();
      if hasWriteComplete {
        notices := notices + [WriteComplete];
      }
      if state == Disconnecting {
        ShutdownInLoop();
      }
    }

    /** The kernel offers room: the backlog moves on. Emptying it is what completes a write and
        what lets a requested shutdown through. */
    method HandleWrite(attempt: WriteResult)
      requires Valid() && !state.Connecting?
      modifies this, output
      ensures Valid() && fresh(Repr() - old(Repr())) && Evolves() && Undisturbed() && Doings() == old(Doings())
      ensures history == old(history) && input.Content() == old(input.Content()) && received == old(received)
      ensures output.Content() == old(output.Content())[old(Moves(attempt))..]
      ensures notices == old(notices)
              + (if hasWriteComplete && |output.Content()| == 0 < old(Moves(attempt)) then [WriteComplete] else [])
    {
      if wantWrite {
        var n := Flush(attempt);
        if n > 0 && output.ReadableBytes() == 0 {
          FinishWrite();
        }
      }
    }

    /** The channel of a connection that closes asks for nothing. Had it asked for something before,
        the kernel forgets it; had it not, this makes the kernel watch it again. */
    twostate predicate ClosedWith(ops: seq<UserOp>)
      reads this
    {
      && state == Disconnected && !wantWrite && downs == 1
      && Watching() == AfterOps(Watch(old(reading), false, IndexAfter(old(index), true)), ops)
    }

    /** After close the kernel still watches the channel exactly if it asked for nothing at the time. */
    twostate lemma WhenStillWatched(ops: seq<UserOp>)
      requires old(Watched() && Live()) && ClosedWith(ops) && SwitchesNothing(ops)
      ensures index.Added? <==> !old(wantRead) && !old(wantWrite)
    {
      NothingSwitched(Watch(old(reading), false, IndexAfter(old(index), true)), ops);
    }

    twostate predicate StaysSteady(ops: seq<UserOp>)
      reads this
    {
      SwitchesNothing(ops) && old(Steady()) ==> Steady()
    }

    /** The source asserts that the connection is still live; ok is whether it was. */
    method HandleClose(ops: seq<UserOp>) returns (ok: bool)
      requires Valid() && !state.Connecting?
      modifies Repr()
      ensures Valid() && fresh(Repr() - old(Repr()))
      ensures ok == old(Live())
      ensures if ok then ClosedWith(ops) else unchanged(this)
      ensures Doings() == if ok then ByOps(old(Doings()).(state := Disconnected), ops) else old(Doings())
      ensures wire == old(wire) && old(history) <= history && received == old(received)
      ensures ups == old(ups) && StaysSteady(ops)
    {
      if !(state == Connected || state == Disconnecting) {
        return false;
      }
      BecomeDown();
      RunUser(ops);
      StillSteady(ops);
      return true;
    }

    /** Down, and the channel asks for nothing. */
    method BecomeDown()
      requires Valid() && Live()
      modifies this`state, this`wantRead, this`wantWrite, this`index, this`downs
      ensures Valid() && state == Disconnected
      ensures Watching() == Watch(old(reading), false, IndexAfter(old(index), true))
    {
      state := Disconnected;
      wantRead, wantWrite := false, false;
      Update();
      downs := downs + 1;
      DownIsValid();
    }

    twostate lemma DownIsValid()
      requires old(Valid() && Live()) && unchanged(input, output)
      requires unchanged(input.storage, output.storage)
      requires state == Disconnected && !wantRead && !wantWrite && downs == old(downs) + 1 && ups == old(ups)
      requires halfClosed == old(halfClosed) && asked == old(asked)
      requires forceCloses == old(forceCloses) && closesAsked == old(closesAsked)
      requires wire == old(wire) && history == old(history) && consumed == old(consumed) && received == old(received)
      ensures Valid()
    {
    }

    twostate lemma StillSteady(ops: seq<UserOp>)
      requires old(Watched() && Live()) && ClosedWith(ops)
      ensures StaysSteady(ops)
    {
      if SwitchesNothing(ops) {
        NothingSwitched(Watch(old(reading), false, IndexAfter(old(index), true)), ops);
      }
    }

    method ForceCloseInLoop(ops: seq<UserOp>)
      requires Valid() && !state.Connecting?
      modifies Repr()
      ensures Valid() && fresh(Repr() - old(Repr()))
      ensures if old(Live()) then ClosedWith(ops) else unchanged(this)
      ensures Doings() == if old(Live()) then ByOps(old(Doings()).(state := Disconnected), ops) else old(Doings())
      ensures wire == old(wire) && received == old(received) && old(history) <= history
      ensures StaysSteady(ops)
    {
      if state == Connected || state == Disconnecting {
        var _ := HandleClose(ops);
      }
    }

    /** Also when the connection has closed meanwhile, and then its channel gets events again. */
    method StartRead()
      requires Valid() && !state.Connecting?
      modifies this`wantRead, this`reading, this`index
      ensures Valid() && wantRead && reading && SwitchedBy(StartReadOp) && Doings() == old(Doings())
    {
      if !reading || !wantRead {
        wantRead := true;
        Update();
        reading := true;
      }
    }

    method StopRead()
      requires Valid() && !state.Connecting?
      modifies this`wantRead, this`reading, this`index
      ensures Valid() && !wantRead && !reading && SwitchedBy(StopReadOp) && Doings() == old(Doings())
      ensures index == if old(reading || wantRead) then IndexAfter(old(index), !wantWrite) else old(index)
    {
      if reading || wantRead {
        wantRead := false;
        Update();
        reading := false;
      }
    }

    /** The channel is removed at the end, and the source asserts that the poller has it and that no
        interest is left; ok is whether that held. The poller has it from when the connection is
        established until it is removed. A connection that is shutting down is neither told nor
        silenced, and it stays in its state, although its destructor asserts that it is closed. */
    method ConnectDestroyed(ops: seq<UserOp>) returns (ok: bool)
      requires Valid()
      modifies Repr()
      ensures Valid() && fresh(Repr() - old(Repr()))
      ensures ok <==> old(MayBeDestroyed(ops))
      ensures state == if old(state).Connected? then Disconnected else old(state)
      ensures ok ==> !wantRead && !wantWrite && index == New
      ensures Doings() == if old(state).Connected? then ByOps(old(Doings()).(state := Disconnected), ops)
                          else old(Doings())
      ensures state.Disconnected? ==> downs == 1
      ensures wire == old(wire) && old(history) <= history && received == old(received)
    {
      if state == Connected {
        GoDown(ops);
      }
      ok := index != New && !wantRead && !wantWrite;
      if ok {
        index := New;
      }
    }

    /** Known to the poller, and reads no more once the down callback has had its say. */
    ghost predicate MayBeDestroyed(ops: seq<UserOp>)
      requires output.Valid()
      reads this, output, output.storage
    {
      && !index.New?
      && (state.Disconnecting? ==> |output.Content()| == 0)
      && !(if state.Connected? then LeavesReading(ops, false) else wantRead)
    }

    /** connectDestroyed finds the connection up. */
    method GoDown(ops: seq<UserOp>)
      requires Valid() && state == Connected
      modifies Repr()
      ensures Valid() && fresh(Repr() - old(Repr())) && state == Disconnected && index != New
      ensures wantRead == LeavesReading(ops, false) && !wantWrite
      ensures Doings() == ByOps(old(Doings()).(state := Disconnected), ops)
      ensures wire == old(wire) && old(history) <= history && received == old(received)
    {
      BecomeDown();
      RunUser(ops);
      ReadsAfter(Watch(old(reading), false, IndexAfter(old(index), true)), ops);
    }

    /** What readv delivers when the environment has r: never more than was offered. */
    function Delivery(r: ReadResult): ReadResult
      requires input.Valid()
      reads this, input, input.storage
    {
      match r
      case Failed(_) => r
      case Delivered(bytes) => Delivered(bytes[..Min(|bytes|, input.Offered())])
    }

    ghost function Taken(r: ReadResult): seq<char>
      requires input.Valid()
      reads this, input, input.storage
    {
      if r.Failed? then [] else Delivery(r).bytes
    }

    /** What the kernel delivers joins the input. */
    method Receive(r: ReadResult) returns (n: int)
      requires Valid() && !state.Connecting?
      modifies this`received, input, input.storage
      ensures Valid() && (input.storage == old(input.storage) || fresh(input.storage))
      ensures received == old(received) + old(Taken(r)) && input.Content() == old(input.Content()) + old(Taken(r))
      ensures r.Delivered? && |r.bytes| <= old(input.Offered()) ==> received == old(received) + r.bytes
      ensures Doings() == old(Doings()).(unread := input.Content())
      ensures n < 0 <==> r.Failed?
      ensures n == 0 <==> r == Delivered([])
    {
      var got := Delivery(r);
      assert got == Delivered([]) <==> r == Delivered([]);
      n := input.ReadFd(got);
      received := received + (if got.Failed? then [] else got.bytes);
    }

    /** Data joins what is unread and the callback runs; end of file closes, and then runs it. */
    ghost function AfterRead(r: ReadResult, ops: seq<UserOp>): Doing
      requires input.Valid()
      reads this, input, input.storage
    {
      if r.Failed? then Doings()
      else if r == Delivered([]) then ByOps(Doings().(state := Disconnected), ops)
      else ByOps(Doings().(unread := input.Content() + Taken(r)), ops)
    }

    /** Data goes to the callback, end of file closes, an error is only logged. */
    method HandleRead(r: ReadResult, ops: seq<UserOp>) returns (ok: bool)
      requires Valid() && !state.Connecting?
      modifies Repr()
      ensures Valid() && fresh(Repr() - old(Repr()))
      ensures ok <==> old(Live()) || r != Delivered([])
      ensures Rank(old(state)) <= Rank(state)
      ensures old(wire) <= wire && old(history) <= history && old(received) <= received
      ensures ok && r == Delivered([]) ==> state == Disconnected
      ensures r != Delivered([]) ==> Evolves()
      ensures received == old(received) + old(Taken(r))
      ensures StaysSteady(ops) && (ok ==> Doings() == old(AfterRead(r, ops)))
    {
      var n := Receive(r);
      assert old(input.Content()) + [] == old(input.Content());
      ok := Received(n, ops);
    }

    /** What follows readv. */
    method Received(n: int, ops: seq<UserOp>) returns (ok: bool)
      requires Valid() && !state.Connecting?
      modifies Repr()
      ensures Valid() && fresh(Repr() - old(Repr())) && Progress() && received == old(received)
      ensures ok <==> old(Live()) || n != 0
      ensures ok && n == 0 ==> state == Disconnected
      ensures n != 0 ==> Evolves()
      ensures StaysSteady(ops)
      ensures ok ==> Doings() == if n < 0 then old(Doings())
                                 else if n == 0 then ByOps(old(Doings()).(state := Disconnected), ops)
                                 else ByOps(old(Doings()), ops)
    {
      ok := true;
      if n > 0 {
        RunUser(ops);
      } else if n == 0 {
        ok := HandleClose(ops);
      }
    }

    /** The read callback, if it is due. */
    method HandleReadable(revents: set<PollEvent>, r: ReadResult, ops: seq<UserOp>) returns (ok: bool)
      requires Valid() && !state.Connecting?
      modifies Repr()
      ensures Valid() && fresh(Repr() - old(Repr()))
      ensures ok <==> (ReadEvents(revents) ==> old(Live()) || r != Delivered([]))
      ensures Rank(old(state)) <= Rank(state) && old(wire) <= wire && old(history) <= history
      ensures received == old(received)
                          + if IN in revents || PRI in revents || RDHUP in revents then old(Taken(r)) else []
      ensures !ReadEvents(revents) ==> unchanged(this) && output.Content() == old(output.Content())
      ensures StaysSteady(ops)
      ensures ok ==> Doings() == old(if ReadEvents(revents) then AfterRead(r, ops) else Doings())
    {
      ok := true;
      if IN in revents || PRI in revents || RDHUP in revents {
        ok := HandleRead(r, ops);
      }
    }

    /** The read and write half of a dispatch. */
    method HandleReadiness(revents: set<PollEvent>, r: ReadResult, ops: seq<UserOp>, attempt: WriteResult)
        returns (ok: bool)
      requires Valid() && !state.Connecting?
      modifies Repr()
      ensures Valid() && fresh(Repr() - old(Repr()))
      ensures ok <==> (ReadEvents(revents) ==> old(Live()) || r != Delivered([]))
      ensures Rank(old(state)) <= Rank(state) && old(wire) <= wire && old(history) <= history
      ensures received == old(received) + if ReadEvents(revents) then old(Taken(r)) else []
      ensures !ReadEvents(revents) ==>
                output.Content() == old(output.Content())[if OUT in revents then old(Moves(attempt)) else 0..]
      ensures StaysSteady(ops)
      ensures ok ==> Doings() == old(if ReadEvents(revents) then AfterRead(r, ops) else Doings())
    {
      ok := HandleReadable(revents, r, ops);
      if ok && OUT in revents {
        HandleWrite(attempt);
      }
    }

    /** The assertion in handleClose is met: on a live connection unless the kernel reports the one mix
        that runs it twice, on a closed one unless there is a hang-up or end of file. */
    predicate Survives(revents: set<PollEvent>, r: ReadResult)
      reads this
    {
      if Live() then !ClosesTwice(revents, r)
      else !HangsUp(revents) && (ReadEvents(revents) ==> r != Delivered([]))
    }

    /** Dispatch in the channel's order: hang-up, error, read, write. closing is what the down
        callback does after a hang-up, ops what the callback of the read half does. */
    method HandleEvent(revents: set<PollEvent>, r: ReadResult, closing: seq<UserOp>, ops: seq<UserOp>,
                       attempt: WriteResult)
        returns (ok: bool)
      requires Valid() && !state.Connecting?
      modifies Repr()
      ensures Valid() && fresh(Repr() - old(Repr()))
      ensures ok <==> old(Survives(revents, r))
      ensures Rank(old(state)) <= Rank(state) && old(wire) <= wire && old(history) <= history
      ensures old(received) <= received
      ensures HangsUp(revents) ==> state == Disconnected
      ensures (HUP in revents ==> IN in revents) ==>
                received == old(received) + if ReadEvents(revents) then old(Taken(r)) else []
      ensures !ReadEvents(revents) ==> received == old(received)
      ensures HUP !in revents && !ReadEvents(revents) ==>
                output.Content() == old(output.Content())[if OUT in revents then old(Moves(attempt)) else 0..]
      ensures SwitchesNothing(closing) ==> StaysSteady(ops)
      ensures ok && (HUP in revents ==> IN in revents) ==>
                Doings() == old(if ReadEvents(revents) then AfterRead(r, ops) else Doings())
      ensures ok && HangsUp(revents) && !ReadEvents(revents) ==>
                Doings() == ByOps(old(Doings()).(state := Disconnected), closing)
    {
      ok := true;
      if HUP in revents && IN !in revents {
        ok := HandleClose(closing);
      }
      if ok {
        ok := HandleReadiness(revents, r, ops, attempt);
      }
    }

    /** On the way in nothing is lost or reordered either: what the application has taken is a
        prefix of what the kernel delivered, and the rest is what the input buffer shows it. */
    lemma InputIsComplete()
      requires Valid()
      ensures consumed <= received && input.Content() == received[|consumed|..]
    {
      assert (consumed + input.Content())[|consumed|..] == input.Content();
    }

    /** One thing that happens to the connection in its loop; what cannot happen in its state is
        skipped. A live connection may also get an event that was reported before its channel stopped
        asking. connectDestroyed comes once, after close or on a connected connection, as a server that
        outlives it arranges. ok: the source's assertions held. */
    method Step(e: Event) returns (ok: bool)
      requires Valid()
      modifies Repr()
      ensures Valid() && fresh(Repr() - old(Repr())) && Progress()
      ensures ok <==> old(Meets(e))
      ensures Calm(e) && old(Steady()) ==> ok && Steady()
      ensures ok ==> Follows(e, old(Doings()), Doings())
      ensures e.QueuedClose? && old(forceCloses > 0 && Live()) ==> ClosedWith(e.ops)
      ensures e.QueuedClose? && old(forceCloses) == 0 ==> unchanged(this)
    {
      ok := true;
      match e {
        case Establish(ops) =>
          if state == Connecting {
            ConnectEstablished(ops);
          }
        case Callback(ops) =>
          if state != Connecting {
            RunUser(ops);
          }
        case Dispatch(revents, r, closing, ops, attempt) => ok := RunDispatch(revents, r, closing, ops, attempt);
        case QueuedClose(ops) => RunQueuedClose(ops);
        case Destroy(ops) => ok := RunQueuedDestroy(ops);
      }
    }

    method RunDispatch(revents: set<PollEvent>, r: ReadResult, closing: seq<UserOp>, ops: seq<UserOp>,
                       attempt: WriteResult)
        returns (ok: bool)
      requires Valid()
      modifies Repr()
      ensures Valid() && fresh(Repr() - old(Repr())) && Progress()
      ensures ok <==> old(GetsEvents() ==> Survives(revents, r))
      ensures SwitchesNothing(closing) ==> StaysSteady(ops)
      ensures ok ==> Follows(Dispatch(revents, r, closing, ops, attempt), old(Doings()), Doings())
    {
      ok := true;
      if GetsEvents() {
        ReadBytes(r, ops);
        ok := HandleEvent(revents, r, closing, ops, attempt);
      }
    }

    lemma ReadBytes(r: ReadResult, ops: seq<UserOp>)
      requires input.Valid()
      ensures IsRead(r, ops, Doings(), AfterRead(r, ops))
    {
      if r.Delivered? && r.bytes != [] {
        var k := Min(|r.bytes|, input.Offered());
        assert 0 < k <= |r.bytes| && Taken(r) == r.bytes[..k];
      }
    }

    method RunQueuedClose(ops: seq<UserOp>)
      requires Valid()
      modifies Repr()
      ensures Valid() && fresh(Repr() - old(Repr())) && Progress() && StaysSteady(ops)
      ensures old(forceCloses) == 0 ==> unchanged(this)
      ensures old(forceCloses) > 0 ==> forceCloses == old(forceCloses) - 1 && state.Disconnected?
      ensures old(forceCloses > 0 && Live()) ==> ClosedWith(ops)
      ensures Follows(QueuedClose(ops), old(Doings()), Doings())
    {
      if forceCloses > 0 {
        ForceCloseInLoop(ops);
        ClosedForGood(old(Doings()).(state := Disconnected), ops);
        forceCloses := forceCloses - 1;
      }
    }

    method RunQueuedDestroy(ops: seq<UserOp>) returns (ok: bool)
      requires Valid()
      modifies Repr()
      ensures Valid() && fresh(Repr() - old(Repr())) && Progress()
      ensures ok <==> old(IsDestroyed() ==> MayBeDestroyed(ops))
      ensures SwitchesNothing(ops) && old(Steady()) ==> ok && Steady()
      ensures Follows(Destroy(ops), old(Doings()), Doings())
    {
      ok := true;
      if IsDestroyed() {
        if SwitchesNothing(ops) {
          NothingSwitched(Watch(false, false, New), ops);
        }
        ok := ConnectDestroyed(ops);
      }
    }

    predicate GetsEvents()
      reads this
    {
      Live() || index.Added?
    }

    predicate IsDestroyed()
      reads this
    {
      (state.Connected? || state.Disconnected?) && !index.New?
    }

    /** What e must not meet, if the source's assertions are to hold: a hang-up or end of file on a
        closed connection, the mix that closes a live one twice, or reading at the end. */
    ghost predicate Meets(e: Event)
      requires output.Valid()
      reads this, output, output.storage
    {
      && (e.Dispatch? && GetsEvents() ==> Survives(e.revents, e.r))
      && (e.Destroy? && IsDestroyed() ==> MayBeDestroyed(e.ops))
    }

    /** What is never taken back. */
    twostate predicate Progress()
      reads this
    {
      && Rank(old(state)) <= Rank(state)
      && old(wire) <= wire && old(history) <= history && old(received) <= received
    }

    /** A whole life, over every script of kernel results, callbacks, other threads' payloads and
        closes: every accepted payload is on the wire or in the backlog, in order, and everything
        delivered is with the application or in the input buffer, in order. ok: no assertion failed;
        none does if nobody switches reading and poll does not report the mix that closes twice. */
    method Run(script: seq<Event>) returns (ok: bool, ghost trace: seq<Doing>)
      requires Valid()
      modifies Repr()
      ensures (forall i :: 0 <= i < |script| ==> Calm(script[i])) && old(Steady()) ==> ok
      ensures Valid() && fresh(Repr() - old(Repr())) && Progress()
      ensures ok ==> FollowAll(script, trace) && trace[0] == old(Doings()) && trace[|script|] == Doings()
      ensures wire + output.Content() == Promised(history)
      ensures consumed + input.Content() == received
      ensures Live() && halfClosed ==> wire == Promised(history)
      ensures ups <= 1 && downs <= ups
      ensures closesAsked > 0 && forceCloses == 0 ==> state == Disconnected && downs == 1
    {
      ok, trace := true, [Doings()];
      var i := 0;
      while ok && i < |script|
        invariant i <= |script| && Valid() && fresh(Repr() - old(Repr())) && Progress()
        invariant ok ==> FollowAll(script[..i], trace) && trace[0] == old(Doings()) && trace[i] == Doings()
        invariant (forall i :: 0 <= i < |script| ==> Calm(script[i])) && old(Steady()) ==> ok && Steady()
      {
        ok := Step(script[i]);
        if ok {
          FollowMore(script, i, trace, Doings());
        }
        trace := trace + [Doings()];
        i := i + 1;
      }
      assert ok ==> script[..i] == script;
      if Live() && halfClosed {
        HalfCloseIsComplete();
      }
    }

    /** At the moment of half-close the peer has every accepted byte, and so it stays until close. */
    lemma HalfCloseIsComplete()
      requires Valid() && Live() && halfClosed
      ensures wire == Promised(history)
    {
      assert wire + output.Content() == wire;
    }
  }

  /** A hang-up with urgent data ready, on a socket at end of file, closes twice. */
  method ClosedTwice() returns (ok: bool)
    ensures !ok
  {
    var connection := new TCPConnection(0, false, false);
    connection.ConnectEstablished([]);
    ok := connection.HandleEvent({HUP, PRI}, Delivered([]), [], [], Refused(EWOULDBLOCK));
  }

  /** A connection that asked for nothing when it was closed is still watched for hang-ups, and one
      before connectDestroyed closes it again. */
  method HangUpAfterClose() returns (watched: bool, ok: bool)
    ensures watched && !ok
  {
    var connection := new TCPConnection(0, false, false);
    connection.ConnectEstablished([]);
    StopThenClose(connection);
    watched := connection.index == Added;
    ok := connection.HandleEvent({HUP}, Delivered([]), [], [], Refused(EWOULDBLOCK));
  }

  method StopThenClose(connection: TCPConnection)
    requires connection.Valid() && connection.state == Connected && connection.wantRead && !connection.wantWrite
    modifies connection.Repr()
    ensures connection.Valid() && fresh(connection.Repr() - old(connection.Repr()))
    ensures connection.state == Disconnected && connection.index == Added
  {
    connection.StopRead();
    connection.ForceClose();
    connection.ForceCloseInLoop([]);
  }

  /** connectDestroyed on a connection that is shutting down fails its assertion while it still reads. */
  method DestroyedTooEarly() returns (state: StateE, ok: bool)
    ensures state == Disconnecting && !ok
  {
    var connection := new TCPConnection(0, false, false);
    connection.ConnectEstablished([]);
    connection.Shutdown();
    state := connection.state;
    ok := connection.ConnectDestroyed([]);
  }

  /** So does one on a closed connection that was told to read again. */
  method DestroyedWhileReading() returns (state: StateE, ok: bool)
    ensures state == Disconnected && !ok
  {
    var connection := new TCPConnection(0, false, false);
    connection.ConnectEstablished([]);
    connection.ForceCloseInLoop([]);
    connection.StartRead();
    state := connection.state;
    ok := connection.ConnectDestroyed([]);
  }

  /** And one that is up, if its down callback starts reading. */
  method DestroyedReadingAgain() returns (state: StateE, ok: bool)
    ensures state == Connected && !ok
  {
    var connection := new TCPConnection(0, false, false);
    connection.ConnectEstablished([]);
    state := connection.state;
    ok := connection.ConnectDestroyed([StartReadOp]);
  }

  /** Not so one that is shutting down, if it had stopped reading and has nothing to write. */
  method DestroyedQuietly() returns (state: StateE, ok: bool)
    ensures state == Disconnecting && ok
  {
    var connection := new TCPConnection(0, false, false);
    connection.ConnectEstablished([]);
    connection.Shutdown();
    connection.StopRead();
    state := connection.state;
    ok := connection.ConnectDestroyed([]);
  }
}
