/** The server as written: its map, its counter, and the connections' lifecycle calls that reach it.
    Each method is proved to take the system along ServerModel; the source's assertions are
    preconditions that the loops here are proved to meet. */
module Servers {
  import opened ConnectionStates
  import opened ServerModel

  class TCPServer {
    var nextConnId: ConnId
    var connections: set<ConnId>
    // of every connection made so far, in the map or not
    var state: map<ConnId, StateE>
    var ioLoop: map<ConnId, LoopId>
    // those whose channel asks for events, and those whose channel the kernel has
    var interest: set<ConnId>
    var added: set<ConnId>
    // the functors queued on the loops, and the loops that are draining theirs
    var pending: multiset<Pending>
    var draining: set<LoopId>
    ghost var s: State

    ghost predicate Valid()
      reads this
    {
      && nextConnId == s.nextId && connections == s.serverMap && pending == s.tasks && draining == s.draining
      && state.Keys == s.conns.Keys && ioLoop.Keys == s.conns.Keys
      && (forall c :: c in s.conns ==> state[c] == s.conns[c].state && ioLoop[c] == s.conns[c].loop)
      && (forall c :: c in interest <==> c in s.conns && s.conns[c].interest)
      && (forall c :: c in added <==> c in s.conns && s.conns[c].added)
    }

    constructor ()
      ensures Valid() && s == Init()
    {
      nextConnId, connections, state, ioLoop, interest, added := 1, {}, map[], map[], {}, {};
      pending, draining := multiset{}, {};
      s := Init();
    }

    method QueueInLoop(loop: LoopId, task: Task)
      requires Valid()
      modifies this
      ensures Valid() && s == Queued(old(s), loop, task)
    {
      pending := pending + multiset{Pending(loop, task)};
      s := Queued(s, loop, task);
    }

    /** loop is what the thread pool answers */
    method NewConnection(loop: LoopId)
      requires Valid() && Enabled(s, Accept(loop))
      modifies this
      ensures Valid() && s == Apply(old(s), Accept(loop))
    {
      var c := CreateConnection(loop);
      if loop == BASE {
        ConnectEstablished(c);
      } else {
        QueueInLoop(loop, Establish(c));
      }
    }

    /** A connection under a new name, in the map. */
    method CreateConnection(loop: LoopId) returns (c: ConnId)
      requires Valid()
      modifies this
      ensures Valid() && c == old(s).nextId
      ensures s == SetConn(old(s), c, Conn(loop, Connecting, false, false, 0, 0, 0, 0, true)).(
                     nextId := c + 1, serverMap := old(s).serverMap + {c})
    {
      c := nextConnId;
      nextConnId := nextConnId + 1;
      state, ioLoop, interest, added := state[c := Connecting], ioLoop[c := loop], interest - {c}, added - {c};
      connections := connections + {c};
      s := SetConn(s, c, Conn(loop, Connecting, false, false, 0, 0, 0, 0, true)).(
             nextId := c + 1, serverMap := s.serverMap + {c});
    }

    /** conn->connectEstablished() */
    method ConnectEstablished(c: ConnId)
      requires Valid() && c in s.conns && s.conns[c].state.Connecting?
      modifies this
      ensures Valid() && s == Established(old(s), c)
    {
      ghost var t := Established(s, c);
      state, interest, added := state[c := Connected], interest + {c}, added + {c};
      s := t;
    }

    method RemoveConnection(c: ConnId)
      requires Valid() && c in s.conns && (s.conns[c].loop == BASE ==> c in s.serverMap)
      modifies this
      ensures Valid()
      ensures s == if old(s).conns[c].loop == BASE then Removed(old(s), c) else Queued(old(s), BASE, RemoveInLoop(c))
    {
      if ioLoop[c] == BASE {
        RemoveConnectionInLoop(c);
      } else {
        QueueInLoop(BASE, RemoveInLoop(c));
      }
    }

    method RemoveConnectionInLoop(c: ConnId)
      requires Valid() && c in s.conns && c in s.serverMap
      modifies this
      ensures Valid() && s == Removed(old(s), c)
    {
      ghost var t := s.(serverMap := s.serverMap - {c});
      connections := connections - {c};
      s := t;
      QueueInLoop(ioLoop[c], Destroy(c));
    }

    /** conn->handleClose(), whose last act is the close callback. ok: its assertion held. */
    method HandleClose(c: ConnId) returns (ok: bool)
      requires Valid() && c in s.conns && (Live(s.conns[c]) && s.conns[c].loop == BASE ==> c in s.serverMap)
      modifies this
      ensures Valid() && (ok <==> old(Live(s.conns[c])))
      ensures s == if ok then Closed(old(s), c) else old(s)
    {
      ok := state[c].Connected? || state[c].Disconnecting?;
      if ok {
        GoDown(c);
        RemoveConnection(c);
      }
    }

    /** Closed, and the channel asks for nothing: the kernel forgets it, or gets it back. */
    method GoDown(c: ConnId)
      requires Valid() && c in s.conns
      modifies this
      ensures Valid()
      ensures var k := old(s).conns[c];
              s == SetConn(old(s), c, k.(state := Disconnected, interest := false, added := !k.added,
                                         downs := k.downs + 1, closes := k.closes + 1))
    {
      ghost var k := s.conns[c];
      ghost var t := SetConn(s, c, k.(state := Disconnected, interest := false, added := !k.added,
                                      downs := k.downs + 1, closes := k.closes + 1));
      state, interest := state[c := Disconnected], interest - {c};
      added := if c in added then added - {c} else added + {c};
      s := t;
    }

    /** The connection starts or stops reading, or its backlog comes or goes. */
    method SetInterest(c: ConnId, on: bool)
      requires Valid() && Enabled(s, Watch(c, on))
      modifies this
      ensures Valid() && s == Apply(old(s), Watch(c, on))
    {
      ghost var t := Apply(s, Watch(c, on));
      interest := if on then interest + {c} else interest - {c};
      added := if on then added + {c} else added - {c};
      s := t;
    }

    /** conn->setState() */
    method SetState(c: ConnId, to: StateE)
      requires Valid() && c in s.conns
      modifies this`state, this`s
      ensures Valid() && s == SetConn(old(s), c, old(s).conns[c].(state := to))
    {
      state := state[c := to];
      s := SetConn(s, c, s.conns[c].(state := to));
    }

    /** conn->shutdown() */
    method Shutdown(c: ConnId)
      requires Valid() && Enabled(s, ServerModel.Shutdown(c))
      modifies this
      ensures Valid() && s == Apply(old(s), ServerModel.Shutdown(c))
    {
      if state[c].Connected? {
        SetState(c, Disconnecting);
      }
    }

    /** conn->forceClose() */
    method ForceClose(c: ConnId)
      requires Valid() && Enabled(s, ServerModel.ForceClose(c))
      modifies this
      ensures Valid() && s == Apply(old(s), ServerModel.ForceClose(c))
    {
      if state[c].Connected? || state[c].Disconnecting? {
        SetState(c, Disconnecting);
        QueueInLoop(ioLoop[c], ForceCloseInLoop(c));
      }
    }

    /** conn->connectDestroyed() */
    method ConnectDestroyed(c: ConnId)
      requires Valid() && c in s.conns && s.conns[c].loop in s.draining
      requires s.conns[c].state.Connected? || !s.conns[c].interest
      modifies this
      ensures Valid() && s == Destroyed(old(s), c) && !s.conns[c].interest
    {
      ghost var t := Destroyed(s, c);
      if state[c].Connected? {
        state, interest := state[c := Disconnected], interest - {c};
      }
      added := added - {c};
      s := t;
    }

    /** A draining loop runs one of its functors. */
    method RunTask(p: Pending)
      requires Valid() && Enabled(s, ServerModel.RunTask(p)) && Asserted(s, ServerModel.RunTask(p))
      modifies this
      ensures Valid() && s == Apply(old(s), ServerModel.RunTask(p))
    {
      ghost var t := s.(tasks := s.tasks - multiset{p});
      pending := pending - multiset{p};
      s := t;
      match p.task {
        case Establish(c) => ConnectEstablished(c);
        case ForceCloseInLoop(c) =>
          if state[c].Connected? || state[c].Disconnecting? {
            var _ := HandleClose(c);
          }
        case RemoveInLoop(c) => RemoveConnectionInLoop(c);
        case Destroy(c) => ConnectDestroyed(c);
      }
    }

    method Drain(loop: LoopId, begin: bool)
      requires Valid() && Enabled(s, if begin then BeginDrain(loop) else EndDrain(loop))
      modifies this
      ensures Valid() && s == Apply(old(s), if begin then BeginDrain(loop) else EndDrain(loop))
    {
      ghost var t := Apply(s, if begin then BeginDrain(loop) else EndDrain(loop));
      draining := if begin then draining + {loop} else draining - {loop};
      s := t;
    }

    /** ok: the source's assertions held. */
    method DoStep(a: Step) returns (ok: bool)
      requires Valid() && Inv(s) && Enabled(s, a)
      modifies this
      ensures Valid() && (ok <==> old(Asserted(s, a))) && s == (if ok then Apply(old(s), a) else old(s)) && Inv(s)
    {
      AssertedStep(s, a);
      if Asserted(s, a) {
        InvStep(s, a);
      }
      ok := true;
      match a {
        case Accept(loop) => NewConnection(loop);
        case CloseEvent(c) =>
          LiveOnBase(c);
          ok := HandleClose(c);
        case Watch(c, on) => SetInterest(c, on);
        case Shutdown(c) => Shutdown(c);
        case ForceClose(c) => ForceClose(c);
        case BeginDrain(loop) => Drain(loop, true);
        case RunTask(p) => RunTask(p);
        case EndDrain(loop) => Drain(loop, false);
      }
    }

    lemma LiveOnBase(c: ConnId)
      requires Inv(s) && c in s.conns
      ensures Live(s.conns[c]) ==> c in s.serverMap
    {
      assert InOrder(s, c, s.conns[c]);
    }

    /** Any interleaving of the loops, up to an assertion that fails; ok: none did. */
    method Run(script: seq<Step>, ghost t: State) returns (ok: bool)
      requires Valid() && Inv(s) && Happens(s, script, t)
      modifies this
      ensures Valid() && Inv(s) && (ok ==> s == t)
      ensures ok <==> Reach(old(s), script, t)
    {
      ok := true;
      var i := 0;
      assert script[0..] == script;
      while ok && i < |script|
        invariant i <= |script| && Valid() && Inv(s)
        invariant ok ==> Happens(s, script[i..], t) && (Reach(s, script[i..], t) <==> Reach(old(s), script, t))
        invariant !ok ==> !Reach(old(s), script, t)
      {
        assert script[i..][0] == script[i] && script[i..][1..] == script[i + 1..];
        ok := DoStep(script[i]);
        i := i + 1;
      }
    }
  }
}
