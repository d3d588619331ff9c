/** The life of connections in a server that outlives them: accepted on one loop, handed to an
    arbitrary I/O loop, closed there, erased on the first, destroyed on the other. Each loop
    alternates between handling events and draining its queued functors; queued functors are kept
    as a bag, so every order of execution is covered, the real one among them. */
module ServerModel {
  import opened ConnectionStates

  type LoopId = int
  type ConnId = int

  /** The acceptor's loop, where the connection map lives. */
  const BASE: LoopId := 0

  datatype Task =
    | Establish(c: ConnId)
    | ForceCloseInLoop(c: ConnId)
    | RemoveInLoop(c: ConnId)
    | Destroy(c: ConnId)

  datatype Pending = Pending(loop: LoopId, task: Task)

  /** ups, downs and closes count connection callbacks and runs of handleClose; removes counts
      calls of Channel::remove and calmly says that each fell outside event handling. interest says
      whether the channel asks for any events, added whether the kernel has it: a channel that asks for
      nothing may get a hang-up all the same. */
  datatype Conn = Conn(loop: LoopId, state: StateE, interest: bool, added: bool,
                       ups: nat, downs: nat, closes: nat, removes: nat, calmly: bool)

  datatype State = State(nextId: ConnId, conns: map<ConnId, Conn>, serverMap: set<ConnId>,
                         tasks: multiset<Pending>, draining: set<LoopId>)

  datatype Step =
    | Accept(loop: LoopId)
    | CloseEvent(c: ConnId)
    | Watch(c: ConnId, on: bool)
    | Shutdown(c: ConnId)
    | ForceClose(c: ConnId)
    | BeginDrain(loop: LoopId)
    | RunTask(p: Pending)
    | EndDrain(loop: LoopId)

  predicate Live(k: Conn) {
    k.state.Connected? || k.state.Disconnecting?
  }

  ghost predicate Enabled(s: State, a: Step) {
    match a
    case Accept(_) => BASE !in s.draining
    // what is reported of a live connection may come late, after its channel has stopped asking
    case CloseEvent(c) => c in s.conns && s.conns[c].loop !in s.draining && (Live(s.conns[c]) || s.conns[c].added)
    // a live connection starts or stops reading, or its backlog comes and goes
    case Watch(c, _) => c in s.conns && Live(s.conns[c])
    case Shutdown(c) => c in s.conns && !s.conns[c].state.Connecting?
    case ForceClose(c) => c in s.conns && !s.conns[c].state.Connecting?
    case BeginDrain(l) => l !in s.draining
    case RunTask(p) => p in s.tasks && p.loop in s.draining && p.task.c in s.conns
    case EndDrain(l) => l in s.draining
  }

  /** The source's own assertions at that step. */
  ghost predicate Asserted(s: State, a: Step)
    requires Enabled(s, a)
  {
    match a
    case CloseEvent(c) => Live(s.conns[c]) && (s.conns[c].loop == BASE ==> c in s.serverMap)
    case RunTask(p) =>
      var k := s.conns[p.task.c];
      (match p.task
       // connectEstablished runs on a new connection, in its own loop
       case Establish(c) => k.state.Connecting? && p.loop == k.loop
       case ForceCloseInLoop(c) => p.loop == k.loop && (Live(k) && k.loop == BASE ==> c in s.serverMap)
       // the erase finds one entry
       case RemoveInLoop(c) => c in s.serverMap && p.loop == BASE
       // Channel::remove finds no interest left, and its loop is not handling events
       case Destroy(c) => (k.state.Connected? || !k.interest) && p.loop == k.loop && k.loop in s.draining)
    case _ => true
  }

  function Queued(s: State, loop: LoopId, task: Task): State {
    s.(tasks := s.tasks + multiset{Pending(loop, task)})
  }

  function SetConn(s: State, c: ConnId, k: Conn): State {
    s.(conns := s.conns[c := k])
  }

  /** removeConnectionInLoop */
  function Removed(s: State, c: ConnId): State
    requires c in s.conns
  {
    Queued(s.(serverMap := s.serverMap - {c}), s.conns[c].loop, Destroy(c))
  }

  /** handleClose, whose last act is the server's removeConnection. Its disableAll takes a channel
      out of the kernel, or puts it there if the kernel did not have it. */
  function Closed(s: State, c: ConnId): State
    requires c in s.conns
  {
    var k := s.conns[c];
    var t := SetConn(s, c, k.(state := Disconnected, interest := false, added := !k.added,
                              downs := k.downs + 1, closes := k.closes + 1));
    if k.loop == BASE then Removed(t, c) else Queued(t, BASE, RemoveInLoop(c))
  }

  /** connectEstablished */
  function Established(s: State, c: ConnId): State
    requires c in s.conns
  {
    var k := s.conns[c];
    SetConn(s, c, k.(state := Connected, interest := true, added := true, ups := k.ups + 1))
  }

  /** connectDestroyed */
  function Destroyed(s: State, c: ConnId): State
    requires c in s.conns
  {
    var k := s.conns[c];
    var down := if k.state.Connected? then k.(state := Disconnected, interest := false, downs := k.downs + 1) else k;
    SetConn(s, c, down.(added := false, removes := k.removes + 1, calmly := k.calmly && k.loop in s.draining))
  }

  ghost function Apply(s: State, a: Step): State
    requires Enabled(s, a)
  {
    match a
    case Accept(l) =>
      var c := s.nextId;
      var t := SetConn(s, c, Conn(l, Connecting, false, false, 0, 0, 0, 0, true)).(
                 nextId := c + 1, serverMap := s.serverMap + {c});
      if l == BASE then Established(t, c) else Queued(t, l, Establish(c))
    case CloseEvent(c) => Closed(s, c)
    case Watch(c, on) => SetConn(s, c, s.conns[c].(interest := on, added := on))
    case Shutdown(c) =>
      var k := s.conns[c];
      if k.state.Connected? then SetConn(s, c, k.(state := Disconnecting)) else s
    case ForceClose(c) =>
      var k := s.conns[c];
      if Live(k) then Queued(SetConn(s, c, k.(state := Disconnecting)), k.loop, ForceCloseInLoop(c)) else s
    case BeginDrain(l) => s.(draining := s.draining + {l})
    case RunTask(p) =>
      var t := s.(tasks := s.tasks - multiset{p});
      (match p.task
       case Establish(c) => Established(t, c)
       case ForceCloseInLoop(c) => if Live(s.conns[c]) then Closed(t, c) else t
       case RemoveInLoop(c) => Removed(t, c)
       case Destroy(c) => Destroyed(t, c))
    case EndDrain(l) => s.(draining := s.draining - {l})
  }

  /** Any run, up to the first assertion that fails. */
  ghost predicate Reach(s: State, run: seq<Step>, t: State)
    decreases |run|
  {
    if run == [] then s == t
    else Enabled(s, run[0]) && Asserted(s, run[0]) && Reach(Apply(s, run[0]), run[1..], t)
  }

  /** Any run at all. */
  ghost predicate Happens(s: State, run: seq<Step>, t: State)
    decreases |run|
  {
    if run == [] then s == t else Enabled(s, run[0]) && Happens(Apply(s, run[0]), run[1..], t)
  }

  /** A hang-up on a connection that is closed already. */
  ghost predicate ClosesAgain(s: State, a: Step)
    requires Enabled(s, a)
  {
    a.CloseEvent? && s.conns[a.c].state.Disconnected?
  }

  ghost predicate NeverClosesAgain(s: State, run: seq<Step>)
    decreases |run|
  {
    run != [] ==>
      Enabled(s, run[0]) && !ClosesAgain(s, run[0]) && NeverClosesAgain(Apply(s, run[0]), run[1..])
  }

  /** The step that closes the live connection c. */
  ghost predicate Closes(s: State, a: Step, c: ConnId) {
    && Enabled(s, a) && c in s.conns && Live(s.conns[c])
    && (a == CloseEvent(c) || (a.RunTask? && a.p.task == ForceCloseInLoop(c)))
  }

  /** A live connection is closed only while its channel asks for something. */
  ghost predicate FindsInterest(s: State, a: Step) {
    forall c :: Closes(s, a, c) ==> s.conns[c].interest
  }

  ghost predicate AllFindInterest(s: State, run: seq<Step>)
    decreases |run|
  {
    run != [] ==>
      Enabled(s, run[0]) && FindsInterest(s, run[0]) && AllFindInterest(Apply(s, run[0]), run[1..])
  }

  function Init(): State {
    State(1, map[], {}, multiset{}, {})
  }

  // ---- the invariant: who holds the connection's one ticket ----

  function Tickets(s: State, c: ConnId, k: Conn): (nat, nat, nat) {
    (s.tasks[Pending(k.loop, Establish(c))],
     s.tasks[Pending(BASE, RemoveInLoop(c))],
     s.tasks[Pending(k.loop, Destroy(c))])
  }

  ghost predicate InOrder(s: State, c: ConnId, k: Conn) {
    var (e, r, d) := Tickets(s, c, k);
    && k.calmly && (k.interest ==> Live(k)) && (Live(k) ==> k.added == k.interest)
    && (k.state.Connecting? || k.removes > 0 ==> !k.added)
    && match k.state
       case Connecting => e == 1 && r == d == 0 && c in s.serverMap && k.ups == k.downs == k.closes == k.removes == 0
       case Disconnected =>
         && e == 0 && k.ups == k.downs == k.closes == 1 && r + d + k.removes == 1
         && (c in s.serverMap <==> r == 1)
       case _ => e == r == d == 0 && c in s.serverMap && k.ups == 1 && k.downs == k.closes == k.removes == 0
  }

  ghost predicate Placed(s: State, p: Pending) {
    && p.task.c in s.conns
    && p.loop == if p.task.RemoveInLoop? then BASE else s.conns[p.task.c].loop
  }

  ghost predicate Inv(s: State) {
    && (forall c :: c in s.conns ==> c < s.nextId && InOrder(s, c, s.conns[c]))
    && (forall c :: c in s.serverMap ==> c in s.conns)
    && (forall p :: p in s.tasks ==> Placed(s, p))
  }

  lemma AssertedStep(s: State, a: Step)
    requires Inv(s) && Enabled(s, a)
    ensures Asserted(s, a) <==> !ClosesAgain(s, a)
  {
    match a
    case RunTask(p) =>
      assert Placed(s, p);
      assert InOrder(s, p.task.c, s.conns[p.task.c]);
    case CloseEvent(c) => assert InOrder(s, c, s.conns[c]);
    case _ =>
  }

  /** t differs from s only in what concerns connection c, whose own bookkeeping is right. */
  ghost predicate OnlyAbout(s: State, t: State, c: ConnId) {
    ConnsAbout(s, t, c) && TasksAbout(s, t, c)
  }

  ghost predicate ConnsAbout(s: State, t: State, c: ConnId) {
    && t.nextId >= s.nextId && c in t.conns && c < t.nextId && InOrder(t, c, t.conns[c])
    && (c in s.conns ==> t.conns[c].loop == s.conns[c].loop)
    && (forall d :: d != c ==> (d in t.conns <==> d in s.conns) && (d in s.serverMap <==> d in t.serverMap))
    && (forall d :: d != c && d in s.conns ==> t.conns[d] == s.conns[d])
  }

  ghost predicate TasksAbout(s: State, t: State, c: ConnId) {
    && (forall p: Pending :: p.task.c != c ==> t.tasks[p] == s.tasks[p])
    && (forall p :: p in t.tasks && p.task.c == c ==> Placed(t, p))
  }

  lemma OthersInOrder(s: State, t: State, c: ConnId, d: ConnId)
    requires Inv(s) && OnlyAbout(s, t, c) && d in t.conns && d != c
    ensures d < t.nextId && InOrder(t, d, t.conns[d])
  {
    assert InOrder(s, d, s.conns[d]);
  }

  lemma OthersPlaced(s: State, t: State, c: ConnId, p: Pending)
    requires Inv(s) && OnlyAbout(s, t, c) && p in t.tasks && p.task.c != c
    ensures Placed(t, p)
  {
    assert p in s.tasks && Placed(s, p);
  }

  lemma LocalStep(s: State, t: State, c: ConnId)
    requires Inv(s) && OnlyAbout(s, t, c)
    ensures Inv(t)
  {
    forall d | d in t.conns
      ensures d < t.nextId && InOrder(t, d, t.conns[d])
    {
      if d != c {
        OthersInOrder(s, t, c, d);
      }
    }
    forall p | p in t.tasks
      ensures Placed(t, p)
    {
      if p.task.c != c {
        OthersPlaced(s, t, c, p);
      }
    }
  }

  lemma NothingQueuedFor(s: State, c: ConnId)
    requires Inv(s) && c !in s.conns
    ensures forall p: Pending :: p.task.c == c ==> s.tasks[p] == 0
  {
    forall p: Pending | p.task.c == c
      ensures s.tasks[p] == 0
    {
      assert p in s.tasks ==> Placed(s, p);
    }
  }

  lemma AcceptStep(s: State, l: LoopId)
    requires Inv(s) && Enabled(s, Accept(l))
    ensures OnlyAbout(s, Apply(s, Accept(l)), s.nextId)
  {
    NothingQueuedFor(s, s.nextId);
    if l == BASE {
      AcceptHere(s);
    } else {
      AcceptElsewhere(s, l);
    }
  }

  lemma AcceptHere(s: State)
    requires Inv(s) && Enabled(s, Accept(BASE))
    requires forall p: Pending :: p.task.c == s.nextId ==> s.tasks[p] == 0
    ensures OnlyAbout(s, Apply(s, Accept(BASE)), s.nextId)
  {
    var c, t := s.nextId, Apply(s, Accept(BASE));
    assert t.tasks == s.tasks && t.conns[c] == Conn(BASE, Connected, true, true, 1, 0, 0, 0, true);
    assert InOrder(t, c, t.conns[c]);
  }

  lemma AcceptElsewhere(s: State, l: LoopId)
    requires Inv(s) && Enabled(s, Accept(l)) && l != BASE
    requires forall p: Pending :: p.task.c == s.nextId ==> s.tasks[p] == 0
    ensures OnlyAbout(s, Apply(s, Accept(l)), s.nextId)
  {
    var c, t := s.nextId, Apply(s, Accept(l));
    var next := Pending(l, Establish(c));
    assert t.tasks == s.tasks + multiset{next} && t.conns[c] == Conn(l, Connecting, false, false, 0, 0, 0, 0, true);
    assert InOrder(t, c, t.conns[c]);
    forall p | p in t.tasks && p.task.c == c
      ensures Placed(t, p)
    {
      assert s.tasks[p] == 0;
      assert p == next;
    }
  }

  /** u is s, or s without the queued close that is now carried out. */
  ghost predicate AboutToClose(s: State, u: State, c: ConnId) {
    && c in s.conns && Live(s.conns[c])
    && u.conns == s.conns && u.serverMap == s.serverMap && u.nextId == s.nextId
    && (u.tasks == s.tasks || u.tasks == s.tasks - multiset{Pending(s.conns[c].loop, ForceCloseInLoop(c))})
  }

  lemma ClosedHere(s: State, u: State, c: ConnId)
    requires Inv(s) && AboutToClose(s, u, c) && s.conns[c].loop == BASE
    ensures InOrder(Closed(u, c), c, Closed(u, c).conns[c])
    ensures Closed(u, c).tasks == u.tasks + multiset{Pending(BASE, Destroy(c))}
    ensures Closed(u, c).serverMap == s.serverMap - {c}
  {
    assert InOrder(s, c, s.conns[c]);
  }

  lemma ClosedElsewhere(s: State, u: State, c: ConnId)
    requires Inv(s) && AboutToClose(s, u, c) && s.conns[c].loop != BASE
    ensures InOrder(Closed(u, c), c, Closed(u, c).conns[c])
    ensures Closed(u, c).tasks == u.tasks + multiset{Pending(BASE, RemoveInLoop(c))}
    ensures Closed(u, c).serverMap == s.serverMap
  {
    assert InOrder(s, c, s.conns[c]);
  }

  lemma ClosedStep(s: State, u: State, c: ConnId)
    requires Inv(s) && AboutToClose(s, u, c)
    ensures OnlyAbout(s, Closed(u, c), c)
  {
    if s.conns[c].loop == BASE {
      ClosedHere(s, u, c);
      OneQueued(s, Closed(u, c), u, c, Pending(BASE, Destroy(c)));
    } else {
      ClosedElsewhere(s, u, c);
      OneQueued(s, Closed(u, c), u, c, Pending(BASE, RemoveInLoop(c)));
    }
  }

  lemma OneQueued(s: State, t: State, u: State, c: ConnId, next: Pending)
    requires Inv(s) && AboutToClose(s, u, c) && t.tasks == u.tasks + multiset{next}
    requires c in t.conns && InOrder(t, c, t.conns[c]) && t.conns == s.conns[c := t.conns[c]]
    requires t.conns[c].loop == s.conns[c].loop && t.nextId == s.nextId
    requires t.serverMap == s.serverMap || t.serverMap == s.serverMap - {c}
    requires next.task.c == c && Placed(t, next)
    ensures OnlyAbout(s, t, c)
  {
    assert ConnsAbout(s, t, c);
    OneTask(s, t, u, c, next);
  }

  lemma OneTask(s: State, t: State, u: State, c: ConnId, next: Pending)
    requires Inv(s) && AboutToClose(s, u, c) && t.tasks == u.tasks + multiset{next}
    requires c in t.conns && t.conns[c].loop == s.conns[c].loop && next.task.c == c && Placed(t, next)
    ensures TasksAbout(s, t, c)
  {
    assert u.tasks <= s.tasks;
    forall p | p in t.tasks && p.task.c == c
      ensures Placed(t, p)
    {
      if p != next {
        assert u.tasks[p] > 0;
        assert Placed(s, p);
      }
    }
  }

  lemma EstablishStep(s: State, p: Pending)
    requires Inv(s) && Enabled(s, RunTask(p)) && p.task.Establish?
    ensures OnlyAbout(s, Apply(s, RunTask(p)), p.task.c)
  {
    var c := p.task.c;
    assert Placed(s, p) && InOrder(s, c, s.conns[c]);
    OneDone(s, p, s.conns[c].(state := Connected, interest := true, added := true, ups := 1));
  }

  /** A functor has run that queues nothing and leaves its connection as k. */
  lemma OneDone(s: State, p: Pending, k: Conn)
    requires Inv(s) && p in s.tasks && p.task.c in s.conns && k.loop == s.conns[p.task.c].loop
    requires InOrder(s.(tasks := s.tasks - multiset{p}), p.task.c, k)
    ensures OnlyAbout(s, SetConn(s.(tasks := s.tasks - multiset{p}), p.task.c, k), p.task.c)
  {
    var t, c := SetConn(s.(tasks := s.tasks - multiset{p}), p.task.c, k), p.task.c;
    assert t.conns[c] == k && InOrder(t, c, k);
    assert ConnsAbout(s, t, c);
    StillPlaced(s, t, c);
  }

  /** Nothing new is queued. */
  lemma StillPlaced(s: State, t: State, c: ConnId)
    requires Inv(s) && t.tasks <= s.tasks && c in s.conns && c in t.conns && t.conns[c].loop == s.conns[c].loop
    ensures forall q :: q in t.tasks && q.task.c == c ==> Placed(t, q)
  {
    forall q | q in t.tasks && q.task.c == c
      ensures Placed(t, q)
    {
      assert q in s.tasks && Placed(s, q);
    }
  }

  lemma RemoveStep(s: State, p: Pending)
    requires Inv(s) && Enabled(s, RunTask(p)) && p.task.RemoveInLoop?
    ensures OnlyAbout(s, Apply(s, RunTask(p)), p.task.c)
  {
    var t, c := Apply(s, RunTask(p)), p.task.c;
    assert Placed(s, p) && InOrder(s, c, s.conns[c]);
    var next := Pending(s.conns[c].loop, Destroy(c));
    assert t.tasks == s.tasks - multiset{p} + multiset{next};
    assert InOrder(t, c, t.conns[c]);
    forall q | q in t.tasks && q.task.c == c
      ensures Placed(t, q)
    {
      assert q in s.tasks || q == next;
      assert q in s.tasks ==> Placed(s, q);
    }
  }

  lemma DestroyStep(s: State, p: Pending)
    requires Inv(s) && Enabled(s, RunTask(p)) && p.task.Destroy?
    ensures OnlyAbout(s, Apply(s, RunTask(p)), p.task.c)
  {
    HoldsTheTicket(s, p);
    DestroyLeaves(s, p);
    OneDone(s, p, s.conns[p.task.c].(added := false, removes := 1));
  }

  lemma DestroyLeaves(s: State, p: Pending)
    requires Enabled(s, RunTask(p)) && p.task.Destroy?
    requires var k := s.conns[p.task.c]; k.state.Disconnected? && k.removes == 0 && k.calmly && k.loop in s.draining
    ensures Apply(s, RunTask(p))
            == SetConn(s.(tasks := s.tasks - multiset{p}), p.task.c, s.conns[p.task.c].(added := false, removes := 1))
  {
  }

  lemma HoldsTheTicket(s: State, p: Pending)
    requires Inv(s) && Enabled(s, RunTask(p)) && p.task.Destroy?
    ensures p.task.c in s.conns
    ensures var k := s.conns[p.task.c];
            && k.state.Disconnected? && k.removes == 0 && k.calmly && k.loop in s.draining
            && InOrder(s.(tasks := s.tasks - multiset{p}), p.task.c, k.(added := false, removes := 1))
  {
    var c := p.task.c;
    assert Placed(s, p) && InOrder(s, c, s.conns[c]);
    assert p == Pending(s.conns[c].loop, Destroy(c)) && s.tasks[p] > 0;
  }

  lemma LateCloseStep(s: State, p: Pending)
    requires Inv(s) && Enabled(s, RunTask(p)) && p.task.ForceCloseInLoop? && !Live(s.conns[p.task.c])
    ensures OnlyAbout(s, Apply(s, RunTask(p)), p.task.c)
  {
    var t, c := Apply(s, RunTask(p)), p.task.c;
    assert InOrder(s, c, s.conns[c]);
    assert InOrder(t, c, t.conns[c]);
    StillPlaced(s, t, c);
  }

  lemma ForcedCloseStep(s: State, p: Pending)
    requires Inv(s) && Enabled(s, RunTask(p)) && p.task.ForceCloseInLoop?
    ensures OnlyAbout(s, Apply(s, RunTask(p)), p.task.c)
  {
    var c := p.task.c;
    assert Placed(s, p);
    if Live(s.conns[c]) {
      ClosedStep(s, s.(tasks := s.tasks - multiset{p}), c);
    } else {
      LateCloseStep(s, p);
    }
  }

  lemma TaskStep(s: State, p: Pending)
    requires Inv(s) && Enabled(s, RunTask(p))
    ensures OnlyAbout(s, Apply(s, RunTask(p)), p.task.c)
  {
    match p.task
    case Establish(_) => EstablishStep(s, p);
    case RemoveInLoop(_) => RemoveStep(s, p);
    case Destroy(_) => DestroyStep(s, p);
    case ForceCloseInLoop(_) => ForcedCloseStep(s, p);
  }

  lemma UserStep(s: State, a: Step)
    requires Inv(s) && Enabled(s, a) && (a.Shutdown? || a.ForceClose? || a.Watch?)
    ensures OnlyAbout(s, Apply(s, a), a.c)
  {
    assert InOrder(s, a.c, s.conns[a.c]);
    if a.ForceClose? && Live(s.conns[a.c]) {
      ForceCloseStep(s, a.c);
    } else {
      StillPlaced(s, Apply(s, a), a.c);
    }
  }

  lemma ForceCloseStep(s: State, c: ConnId)
    requires Inv(s) && Enabled(s, ForceClose(c)) && Live(s.conns[c])
    ensures OnlyAbout(s, Apply(s, ForceClose(c)), c)
  {
    var t, next := Apply(s, ForceClose(c)), Pending(s.conns[c].loop, ForceCloseInLoop(c));
    assert InOrder(s, c, s.conns[c]);
    assert t.tasks == s.tasks + multiset{next};
    assert InOrder(t, c, t.conns[c]);
    OneTask(s, t, s, c, next);
  }

  lemma InvStep(s: State, a: Step)
    requires Inv(s) && Enabled(s, a) && Asserted(s, a)
    ensures Inv(Apply(s, a))
  {
    match a
    case Accept(l) =>
      AcceptStep(s, l);
      LocalStep(s, Apply(s, a), s.nextId);
    case CloseEvent(c) =>
      ClosedStep(s, s, c);
      LocalStep(s, Closed(s, c), c);
    case RunTask(p) =>
      TaskStep(s, p);
      LocalStep(s, Apply(s, a), p.task.c);
    case Shutdown(c) =>
      UserStep(s, a);
      LocalStep(s, Apply(s, a), c);
    case ForceClose(c) =>
      UserStep(s, a);
      LocalStep(s, Apply(s, a), c);
    case Watch(c, _) =>
      UserStep(s, a);
      LocalStep(s, Apply(s, a), c);
    case _ =>
      var t := Apply(s, a);
      forall c | c in t.conns
        ensures InOrder(t, c, t.conns[c])
      {
        assert InOrder(s, c, s.conns[c]);
      }
      forall p | p in t.tasks
        ensures Placed(t, p)
      {
        assert Placed(s, p);
      }
  }

  lemma {:induction false} ReachInv(s: State, run: seq<Step>, t: State)
    requires Inv(s) && Reach(s, run, t)
    ensures Inv(t)
    decreases |run|
  {
    if run != [] {
      InvStep(s, run[0]);
      ReachInv(Apply(s, run[0]), run[1..], t);
    }
  }

  // ---- what a step does ----

  function Without(s: State, p: Pending): multiset<Pending> {
    s.tasks - multiset{p}
  }

  /** An accepted connection is in the map under a name not used before, and comes up on its loop: at
      once if that is the acceptor's, else in a drain there. */
  lemma AcceptedIsMapped(s: State, l: LoopId)
    requires Enabled(s, Accept(l))
    ensures var u, c := Apply(s, Accept(l)), s.nextId;
            && u.nextId == c + 1 && u.serverMap == s.serverMap + {c} && c in u.conns && u.conns[c].loop == l
            && u.conns[c].state == (if l == BASE then Connected else Connecting)
            && (u.conns[c].interest <==> l == BASE) && (u.conns[c].added <==> l == BASE)
            && u.tasks == if l == BASE then s.tasks else s.tasks + multiset{Pending(l, Establish(c))}
  {
  }

  /** Up, told so once, and reading. */
  lemma EstablishedIsUp(s: State, p: Pending)
    requires Enabled(s, RunTask(p)) && p.task.Establish?
    ensures var u, k := Apply(s, RunTask(p)), s.conns[p.task.c];
            && u.conns == s.conns[p.task.c := k.(state := Connected, interest := true, added := true, ups := k.ups + 1)]
            && u.tasks == Without(s, p) && u.serverMap == s.serverMap
  {
  }

  /** A connection that closes is told so and asks for nothing more. On the acceptor's loop it leaves the
      map at once and is to be destroyed; elsewhere its removal is queued there. */
  lemma ClosedIsRemoved(s: State, a: Step, c: ConnId)
    requires Closes(s, a, c)
    ensures var u, k := Apply(s, a), s.conns[c];
            var rest := if a.RunTask? then Without(s, a.p) else s.tasks;
            && u.conns == s.conns[c := k.(state := Disconnected, interest := false, added := !k.added,
                                          downs := k.downs + 1, closes := k.closes + 1)]
            && if k.loop == BASE then
                 u.serverMap == s.serverMap - {c} && u.tasks == rest + multiset{Pending(BASE, Destroy(c))}
               else
                 u.serverMap == s.serverMap && u.tasks == rest + multiset{Pending(BASE, RemoveInLoop(c))}
  {
  }

  /** The removal erases the connection and has it destroyed on its own loop. */
  lemma RemovedIsDestroyed(s: State, p: Pending)
    requires Enabled(s, RunTask(p)) && p.task.RemoveInLoop?
    ensures var u, c := Apply(s, RunTask(p)), p.task.c;
            && u.serverMap == s.serverMap - {c} && u.conns == s.conns
            && u.tasks == Without(s, p) + multiset{Pending(s.conns[c].loop, Destroy(c))}
  {
  }

  /** Destroying a closed connection removes its channel, and nothing else. */
  lemma DestroyedIsGone(run: seq<Step>, s: State, p: Pending)
    requires Reach(Init(), run, s) && Enabled(s, RunTask(p)) && p.task.Destroy?
    ensures var u, c := Apply(s, RunTask(p)), p.task.c;
            && u.conns == s.conns[c := s.conns[c].(added := false, removes := 1)]
            && u.tasks == Without(s, p) && u.serverMap == s.serverMap
  {
    ReachInv(Init(), run, s);
    HoldsTheTicket(s, p);
    DestroyLeaves(s, p);
  }

  /** A close asked for is queued on the connection's loop; a live connection is then shutting down. */
  lemma CloseIsQueued(s: State, c: ConnId)
    requires Enabled(s, ForceClose(c))
    ensures var u, k := Apply(s, ForceClose(c)), s.conns[c];
            if Live(k) then
              && u.conns == s.conns[c := k.(state := Disconnecting)] && u.serverMap == s.serverMap
              && u.tasks == s.tasks + multiset{Pending(k.loop, ForceCloseInLoop(c))}
            else u == s
  {
  }

  /** A queued close that comes too late does nothing. */
  lemma LateCloseIsNothing(s: State, p: Pending)
    requires Enabled(s, RunTask(p)) && p.task.ForceCloseInLoop? && !Live(s.conns[p.task.c])
    ensures Apply(s, RunTask(p)) == s.(tasks := Without(s, p))
  {
  }

  /** Shutting down and switching the channel touch nothing else. */
  lemma OnlyTheConnection(s: State, c: ConnId, on: bool)
    ensures Enabled(s, Shutdown(c)) ==>
              Apply(s, Shutdown(c))
              == if s.conns[c].state == Connected then s.(conns := s.conns[c := s.conns[c].(state := Disconnecting)])
                 else s
    ensures Enabled(s, Watch(c, on)) ==>
              Apply(s, Watch(c, on)) == s.(conns := s.conns[c := s.conns[c].(interest := on, added := on)])
  {
  }

  // ---- theorems about every run ----

  /** Of the source's assertions only one can fail, that in handleClose, on a second hang-up:
      connections are established once and on their own loop, every erase finds its entry, and a
      channel is removed with no interest left and never while its loop is handling events. */
  lemma AssertionsHold(run: seq<Step>, s: State, a: Step)
    requires Reach(Init(), run, s) && Enabled(s, a)
    ensures Asserted(s, a) <==> !(a.CloseEvent? && s.conns[a.c].state.Disconnected?)
  {
    ReachInv(Init(), run, s);
    AssertedStep(s, a);
  }

  lemma {:induction false} AssertedRuns(s: State, run: seq<Step>, t: State)
    requires Inv(s) && Happens(s, run, t)
    ensures Reach(s, run, t) <==> NeverClosesAgain(s, run)
    decreases |run|
  {
    if run != [] {
      AssertedStep(s, run[0]);
      if Asserted(s, run[0]) {
        InvStep(s, run[0]);
        AssertedRuns(Apply(s, run[0]), run[1..], t);
      }
    }
  }

  /** Of all runs exactly those meet every assertion in which no closed connection gets a hang-up. */
  lemma RunsMeetAssertions(run: seq<Step>, t: State)
    requires Happens(Init(), run, t)
    ensures Reach(Init(), run, t) <==> NeverClosesAgain(Init(), run)
  {
    AssertedRuns(Init(), run, t);
  }

  /** Closed, and out of the kernel. */
  ghost predicate Silent(s: State, c: ConnId) {
    c in s.conns && s.conns[c].state.Disconnected? && !s.conns[c].added
  }

  lemma SilentHandlers(s: State, d: ConnId, c: ConnId)
    requires Silent(s, c) && d in s.conns
    ensures s.conns[d].state.Connecting? ==> Silent(Established(s, d), c)
    ensures Live(s.conns[d]) ==> Silent(Closed(s, d), c)
    ensures Silent(Removed(s, d), c) && Silent(Destroyed(s, d), c)
  {
  }

  lemma SilentTask(s: State, p: Pending, c: ConnId)
    requires Silent(s, c) && Enabled(s, RunTask(p)) && Asserted(s, RunTask(p))
    ensures Silent(Apply(s, RunTask(p)), c)
  {
    SilentHandlers(s.(tasks := s.tasks - multiset{p}), p.task.c, c);
  }

  lemma SilentStep(s: State, a: Step, c: ConnId)
    requires Silent(s, c) && c < s.nextId && Enabled(s, a) && Asserted(s, a)
    ensures Silent(Apply(s, a), c)
  {
    match a
    case RunTask(p) => SilentTask(s, p, c);
    case CloseEvent(d) => SilentHandlers(s, d, c);
    case _ =>
  }

  lemma {:induction false} SilentForever(s: State, run: seq<Step>, t: State, c: ConnId)
    requires Inv(s) && Silent(s, c) && Reach(s, run, t)
    ensures Silent(t, c)
    decreases |run|
  {
    if run != [] {
      SilentStep(s, run[0], c);
      InvStep(s, run[0]);
      SilentForever(Apply(s, run[0]), run[1..], t, c);
    }
  }

  /** Whatever happens, c is never closed again. */
  ghost predicate NeverClosedFrom(s: State, c: ConnId) {
    forall run, t :: Reach(s, run, t) && Enabled(t, CloseEvent(c)) ==> Asserted(t, CloseEvent(c))
  }

  /** Closing a connection is safe in all that follows exactly if its channel asks for something at
      the time. */
  lemma WhenClosingIsSafe(run: seq<Step>, s: State, a: Step, c: ConnId)
    requires Reach(Init(), run, s) && Closes(s, a, c)
    ensures NeverClosedFrom(Apply(s, a), c) <==> s.conns[c].interest
  {
    ReachInv(Init(), run, s);
    AssertedStep(s, a);
    InvStep(s, a);
    var m := Apply(s, a);
    assert InOrder(s, c, s.conns[c]);
    ClosedAdds(s, a, c);
    if s.conns[c].interest {
      forall more, t | Reach(m, more, t)
        ensures !Enabled(t, CloseEvent(c))
      {
        SilentForever(m, more, t, c);
      }
    } else {
      var more, t := HangUpComes(m, c);
    }
  }

  lemma ClosedAdds(s: State, a: Step, c: ConnId)
    requires Closes(s, a, c)
    ensures var t := Apply(s, a);
            c in t.conns && t.conns[c].state.Disconnected? && t.conns[c].added == !s.conns[c].added
  {
  }

  /** Once the loop of a closed connection that the kernel still has is in poll, a hang-up may come. */
  lemma HangUpComes(s: State, c: ConnId) returns (run: seq<Step>, t: State)
    requires c in s.conns && s.conns[c].state.Disconnected? && s.conns[c].added
    ensures Reach(s, run, t) && Enabled(t, CloseEvent(c)) && !Asserted(t, CloseEvent(c))
  {
    var l := s.conns[c].loop;
    if l in s.draining {
      run, t := [EndDrain(l)], Apply(s, EndDrain(l));
      assert run[1..] == [] && Reach(t, [], t);
    } else {
      run, t := [], s;
    }
  }

  lemma ReachFirst(s: State, a: Step, run: seq<Step>, t: State)
    requires Enabled(s, a) && Asserted(s, a) && Reach(Apply(s, a), run, t)
    ensures Reach(s, [a] + run, t)
  {
    assert ([a] + run)[1..] == run;
  }

  /** Connection 1 on the acceptor's loop, without a backlog. */
  function Alone(state: StateE, interest: bool, tasks: multiset<Pending>): State {
    State(2, map[1 := Conn(BASE, state, interest, interest, 1, 0, 0, 0, true)], {1}, tasks, {})
  }

  lemma StopsAndIsClosed(queued: multiset<Pending>)
    requires queued == multiset{Pending(BASE, ForceCloseInLoop(1))}
    ensures Reach(Init(), [Accept(BASE)] + ([Watch(1, false)] + ([ForceClose(1)] + [])),
                  Alone(Disconnecting, false, queued))
  {
    var up, stopped := Alone(Connected, true, multiset{}), Alone(Connected, false, multiset{});
    assert Apply(Init(), Accept(BASE)) == up;
    assert Apply(up, Watch(1, false)) == stopped;
    assert Apply(stopped, ForceClose(1)) == Alone(Disconnecting, false, queued);
    ReachFirst(stopped, ForceClose(1), [], Alone(Disconnecting, false, queued));
    ReachFirst(up, Watch(1, false), [ForceClose(1)] + [], Alone(Disconnecting, false, queued));
    ReachFirst(Init(), Accept(BASE), [Watch(1, false)] + ([ForceClose(1)] + []), Alone(Disconnecting, false, queued));
  }

  lemma {:induction false} ReachConcat(s: State, run: seq<Step>, m: State, more: seq<Step>, t: State)
    requires Reach(s, run, m) && Reach(m, more, t)
    ensures Reach(s, run + more, t)
    decreases |run|
  {
    if run == [] {
      assert run + more == more;
    } else {
      ReachConcat(Apply(s, run[0]), run[1..], m, more, t);
      assert (run + more)[1..] == run[1..] + more;
    }
  }

  /** It does happen: a connection that has stopped reading is closed by its server, the kernel
      watches it again, and a hang-up before connectDestroyed closes it once more. */
  lemma HangUpAfterClose()
    ensures exists run, t :: Reach(Init(), run, t) && Enabled(t, CloseEvent(1)) && !Asserted(t, CloseEvent(1))
  {
    var p := Pending(BASE, ForceCloseInLoop(1));
    var s := Alone(Disconnecting, false, multiset{p});
    StopsAndIsClosed(multiset{p});
    var run, t := ClosedUnasked(s, p);
    ReachConcat(Init(), [Accept(BASE)] + ([Watch(1, false)] + ([ForceClose(1)] + [])), s, run, t);
  }

  lemma ClosedUnasked(s: State, p: Pending) returns (run: seq<Step>, t: State)
    requires p == Pending(BASE, ForceCloseInLoop(1)) && s == Alone(Disconnecting, false, multiset{p})
    ensures Reach(s, run, t) && Enabled(t, CloseEvent(1)) && !Asserted(t, CloseEvent(1))
  {
    var d := s.(draining := {BASE});
    assert Apply(s, BeginDrain(BASE)) == d;
    ClosedAdds(d, RunTask(p), 1);
    run, t := HangUpComes(Apply(d, RunTask(p)), 1);
    ReachFirst(d, RunTask(p), run, t);
    run := [RunTask(p)] + run;
    ReachFirst(s, BeginDrain(BASE), run, t);
    run := [BeginDrain(BASE)] + run;
  }

  ghost predicate AllSilent(s: State) {
    forall c :: c in s.conns && s.conns[c].state.Disconnected? ==> Silent(s, c)
  }

  lemma GoesSilent(s: State, d: ConnId, c: ConnId)
    requires c in s.conns && d in s.conns && !s.conns[c].state.Disconnected?
    requires c == d && Live(s.conns[c]) ==> s.conns[c].added
    ensures !Established(s, d).conns[c].state.Disconnected? && !Removed(s, d).conns[c].state.Disconnected?
    ensures Live(s.conns[d]) && Closed(s, d).conns[c].state.Disconnected? ==> Silent(Closed(s, d), c)
    ensures Destroyed(s, d).conns[c].state.Disconnected? ==> Silent(Destroyed(s, d), c)
  {
  }

  lemma TaskGoesSilent(s: State, p: Pending, c: ConnId)
    requires c in s.conns && !s.conns[c].state.Disconnected? && Enabled(s, RunTask(p)) && FindsInterest(s, RunTask(p))
    requires Live(s.conns[c]) ==> s.conns[c].added == s.conns[c].interest
    ensures var t := Apply(s, RunTask(p)); c in t.conns && (t.conns[c].state.Disconnected? ==> Silent(t, c))
  {
    if p.task == ForceCloseInLoop(c) && Live(s.conns[c]) {
      assert Closes(s, RunTask(p), c);
    }
    if p.task.c != c || (p.task.ForceCloseInLoop? && Live(s.conns[c])) {
      GoesSilent(s.(tasks := s.tasks - multiset{p}), p.task.c, c);
    }
  }

  lemma StepGoesSilent(s: State, a: Step, c: ConnId)
    requires c in s.conns && c < s.nextId && !s.conns[c].state.Disconnected? && Enabled(s, a) && FindsInterest(s, a)
    requires Live(s.conns[c]) ==> s.conns[c].added == s.conns[c].interest
    ensures var t := Apply(s, a); c in t.conns && (t.conns[c].state.Disconnected? ==> Silent(t, c))
  {
    match a
    case RunTask(p) => TaskGoesSilent(s, p, c);
    case CloseEvent(d) =>
      if d == c && Live(s.conns[c]) {
        assert Closes(s, a, c);
      }
    case _ =>
  }

  lemma OnlyOnesMore(s: State, a: Step, c: ConnId)
    requires Enabled(s, a) && c !in s.conns && c in Apply(s, a).conns
    ensures !Apply(s, a).conns[c].state.Disconnected?
  {
  }

  lemma SilenceStep(s: State, a: Step)
    requires Inv(s) && AllSilent(s) && Enabled(s, a) && FindsInterest(s, a)
    ensures Asserted(s, a) && AllSilent(Apply(s, a))
  {
    AssertedStep(s, a);
    var t := Apply(s, a);
    forall c | c in t.conns && t.conns[c].state.Disconnected?
      ensures Silent(t, c)
    {
      if c !in s.conns {
        OnlyOnesMore(s, a, c);
      } else if s.conns[c].state.Disconnected? {
        SilentStep(s, a, c);
      } else {
        assert InOrder(s, c, s.conns[c]);
        StepGoesSilent(s, a, c);
      }
    }
  }

  lemma {:induction false} InterestedRuns(s: State, run: seq<Step>, t: State)
    requires Inv(s) && AllSilent(s) && Happens(s, run, t) && AllFindInterest(s, run)
    ensures Reach(s, run, t)
    decreases |run|
  {
    if run != [] {
      SilenceStep(s, run[0]);
      InvStep(s, run[0]);
      InterestedRuns(Apply(s, run[0]), run[1..], t);
    }
  }

  /** So it is enough that whoever closes a connection finds its channel asking for something. */
  lemma InterestedRunsMeetAssertions(run: seq<Step>, t: State)
    requires Happens(Init(), run, t) && AllFindInterest(Init(), run)
    ensures Reach(Init(), run, t)
  {
    InterestedRuns(Init(), run, t);
  }

  /** What has happened to a connection is a function of its state: the callback has fired once
      for up and once for down, handleClose has run at most once, connectDestroyed too. */
  lemma EverythingOnce(run: seq<Step>, t: State, c: ConnId)
    requires Reach(Init(), run, t) && c in t.conns
    ensures t.conns[c].ups == (if t.conns[c].state.Connecting? then 0 else 1)
    ensures t.conns[c].downs == t.conns[c].closes == (if t.conns[c].state.Disconnected? then 1 else 0)
    ensures t.conns[c].removes <= t.conns[c].closes && t.conns[c].calmly
  {
    ReachInv(Init(), run, t);
    assert InOrder(t, c, t.conns[c]);
  }

  ghost predicate Forward(s: State, t: State, c: ConnId)
    requires c in s.conns
  {
    c in t.conns && Rank(s.conns[c].state) <= Rank(t.conns[c].state)
  }

  lemma ForwardHandlers(s: State, d: ConnId, c: ConnId)
    requires c in s.conns && d in s.conns
    ensures s.conns[d].state.Connecting? ==> Forward(s, Established(s, d), c)
    ensures Forward(s, Closed(s, d), c) && Forward(s, Removed(s, d), c) && Forward(s, Destroyed(s, d), c)
  {
  }

  lemma ForwardTask(s: State, p: Pending, c: ConnId)
    requires Enabled(s, RunTask(p)) && Asserted(s, RunTask(p)) && c in s.conns
    ensures Forward(s, Apply(s, RunTask(p)), c)
  {
    ForwardHandlers(s.(tasks := s.tasks - multiset{p}), p.task.c, c);
  }

  lemma ForwardStep(s: State, a: Step, c: ConnId)
    requires Enabled(s, a) && Asserted(s, a) && c in s.conns && c < s.nextId
    ensures Forward(s, Apply(s, a), c)
  {
    match a
    case RunTask(p) => ForwardTask(s, p, c);
    case CloseEvent(d) => ForwardHandlers(s, d, c);
    case _ =>
  }

  /** A connection never goes back to an earlier state. */
  lemma {:induction false} OnlyForward(s: State, run: seq<Step>, t: State, c: ConnId)
    requires Inv(s) && Reach(s, run, t) && c in s.conns
    ensures c in t.conns && Rank(s.conns[c].state) <= Rank(t.conns[c].state)
    decreases |run|
  {
    if run != [] {
      ForwardStep(s, run[0], c);
      InvStep(s, run[0]);
      OnlyForward(Apply(s, run[0]), run[1..], t, c);
    }
  }

  /** The map holds exactly the connections that are not yet closed, or whose removal is still on
      its way to the acceptor's loop. */
  lemma MapIsExact(run: seq<Step>, t: State, c: ConnId)
    requires Reach(Init(), run, t)
    ensures c in t.serverMap <==>
              c in t.conns && (!t.conns[c].state.Disconnected? || Pending(BASE, RemoveInLoop(c)) in t.tasks)
  {
    ReachInv(Init(), run, t);
    if c in t.conns {
      assert InOrder(t, c, t.conns[c]);
    }
  }

  /** Once nothing is queued, every connection that was closed has been erased and destroyed,
      exactly once, and every other one is up. */
  lemma QuietMeansClean(run: seq<Step>, t: State, c: ConnId)
    requires Reach(Init(), run, t) && t.tasks == multiset{} && c in t.conns
    ensures if t.conns[c].state.Disconnected? then t.conns[c].removes == 1 && c !in t.serverMap
            else Live(t.conns[c]) && t.conns[c].removes == 0 && c in t.serverMap
  {
    ReachInv(Init(), run, t);
    assert InOrder(t, c, t.conns[c]);
  }
}
