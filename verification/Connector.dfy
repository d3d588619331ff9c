/** The connector as written, with the parts of its loop and of its client that it works with.
    Every method is proved to do to the object what ConnectorModel says, and the source's
    assertions are preconditions that the loop here is proved to meet. */
module Connectors {
  import opened Bounds
  import opened ConnectorModel

  class Connector {
    var connect: bool
    var state: States
    var channel: Option<nat>
    // whether the poller reports the channel's events
    var watching: bool
    var retryDelayMs: nat
    // the loop's queue, phase and timer for this connector
    var pendingFunctors: seq<Functor>
    var phase: Phase
    var timer: Timer
    // the next descriptor, the client's connection and whether it still wants one
    var nextFd: nat
    var connection: Option<nat>
    var wanted: bool
    // all of these, and the history of the sockets and the delays
    ghost var s: State

    ghost predicate Valid()
      reads this
    {
      && connect == s.connect && state == s.st && channel == s.channel && watching == s.watched
      && retryDelayMs == s.retryDelayMs
      && pendingFunctors == s.queue && phase == s.phase && timer == s.timer
      && nextFd == s.created && connection == s.up && wanted == !s.stopped
    }

    constructor ()
      ensures Valid() && s == Init()
    {
      connect, state, channel, watching, retryDelayMs := false, Disconnected, None, false, INIT_RETRY_DELAY_MS;
      pendingFunctors, phase, timer := [], Handling, Off;
      nextFd, connection, wanted := 0, None, true;
      s := Init();
    }

    method Start(inLoop: bool, o: Outcome)
      requires Valid() && !s.started && !s.stopped
      requires inLoop ==> s.st.Disconnected? && (o.InProgress? ==> s.channel.None?)
      modifies this
      ensures Valid() && s == Apply(old(s), ConnectorModel.Start(inLoop, o))
    {
      connect := true;
      s := s.(connect := true, started := true);
      if inLoop {
        StartInLoop(o);
      } else {
        pendingFunctors := pendingFunctors + [Functor.StartInLoop];
        s := s.(queue := s.queue + [Functor.StartInLoop]);
      }
    }

    method StartInLoop(o: Outcome)
      requires Valid() && s.st.Disconnected? && (s.connect && o.InProgress? ==> s.channel.None?)
      modifies this
      ensures Valid() && s == StartIn(old(s), o)
    {
      if connect {
        TryConnect(o);
      }
    }

    method Stop()
      requires Valid()
      modifies this
      ensures Valid() && s == Apply(old(s), ConnectorModel.Stop)
    {
      connect, wanted := false, false;
      pendingFunctors := pendingFunctors + [Functor.StopInLoop];
      s := s.(connect := false, stopped := true, queue := s.queue + [Functor.StopInLoop]);
    }

    method StopInLoop()
      requires Valid() && (s.st.Connecting? ==> s.channel.Some?)
      modifies this
      ensures Valid() && s == StopIn(old(s))
    {
      if state.Connecting? {
        state := Disconnected;
        s := s.(st := Disconnected);
        var sockfd := RemoveAndResetChannel();
        Retry(sockfd);
      }
    }

    /** connect() */
    method TryConnect(o: Outcome)
      requires Valid() && (o.InProgress? ==> s.channel.None?)
      modifies this
      ensures Valid() && s == Connect(old(s), o)
    {
      var sockfd := nextFd;
      nextFd := nextFd + 1;
      s := s.(created := s.created + 1);
      match o {
        case InProgress => StartConnecting(sockfd);
        case TryLater => Retry(sockfd);
        case Hopeless =>
          Close(sockfd);
          s := s.(over := true);
      }
    }

    method Restart(o: Outcome)
      requires Valid() && (o.InProgress? ==> s.channel.None?)
      modifies this
      ensures Valid() && s == ConnectorModel.Restart(old(s), o)
    {
      state, retryDelayMs, connect := Disconnected, INIT_RETRY_DELAY_MS, true;
      s := s.(st := Disconnected, retryDelayMs := INIT_RETRY_DELAY_MS, connect := true, delays := []);
      StartInLoop(o);
    }

    /** connecting() */
    method StartConnecting(sockfd: nat)
      requires Valid() && s.channel.None?
      modifies this
      ensures Valid() && s == old(s).(st := Connecting, channel := Some(sockfd), watched := true)
    {
      state := Connecting;
      channel := Some(sockfd);
      watching := true;
      s := s.(st := Connecting, channel := Some(sockfd), watched := true);
    }

    method RemoveAndResetChannel() returns (sockfd: nat)
      requires Valid() && s.channel.Some?
      modifies this
      ensures Valid() && s == RemoveChannel(old(s)) && sockfd == s.channel.value
    {
      watching := false;
      sockfd := channel.value;
      pendingFunctors := pendingFunctors + [Functor.ResetChannel];
      s := s.(watched := false, queue := s.queue + [Functor.ResetChannel]);
    }

    method ResetChannel()
      requires Valid()
      modifies this
      ensures Valid() && s == old(s).(channel := None)
    {
      channel := None;
      s := s.(channel := None);
    }

    method HandleWrite(soError: bool)
      requires Valid() && (s.st.Connecting? ==> s.channel.Some?)
      requires !s.st.Connecting? ==> s.st.Disconnected?
      modifies this
      ensures Valid() && s == ConnectorModel.HandleWrite(old(s), soError)
      ensures old(state.Connecting?) && soError ==> state == Disconnected && connection == old(connection)
      ensures old(state.Connecting?) && !soError ==>
                state == Connected && connection == if connect then old(channel) else old(connection)
    {
      if state.Connecting? {
        var sockfd := RemoveAndResetChannel();
        if soError {
          Retry(sockfd);
        } else {
          Succeed(sockfd);
        }
      }
    }

    method Succeed(sockfd: nat)
      requires Valid()
      modifies this
      ensures Valid()
      ensures s == if old(s).connect
                   then old(s).(st := Connected, handed := old(s).handed + multiset{sockfd},
                                up := Some(sockfd), upYoung := true)
                   else old(s).(st := Connected, closed := old(s).closed + multiset{sockfd})
    {
      state := Connected;
      s := s.(st := Connected);
      if connect {
        // newConnectionCallback
        connection := Some(sockfd);
        s := s.(handed := s.handed + multiset{sockfd}, up := Some(sockfd), upYoung := true);
      } else {
        Close(sockfd);
      }
    }

    method HandleError()
      requires Valid() && (s.st.Connecting? ==> s.channel.Some?)
      modifies this
      ensures Valid() && s == ConnectorModel.HandleError(old(s))
    {
      if state.Connecting? {
        var sockfd := RemoveAndResetChannel();
        Retry(sockfd);
      }
    }

    /** sockets::close */
    ghost method Close(sockfd: nat)
      requires Valid()
      modifies this`s
      ensures Valid() && s == old(s).(closed := old(s).closed + multiset{sockfd})
    {
      s := s.(closed := s.closed + multiset{sockfd});
    }

    /** loop_->runAfter, for startInLoop */
    method RunAfter(delayMs: nat)
      requires Valid()
      modifies this`timer, this`s
      ensures Valid()
      ensures s == old(s).(timer := Pending(phase.Handling?), delays := old(s).delays + [delayMs])
    {
      timer := Pending(phase.Handling?);
      s := s.(timer := Pending(phase.Handling?), delays := s.delays + [delayMs]);
    }

    method Retry(sockfd: nat)
      requires Valid()
      modifies this
      ensures Valid() && s == ConnectorModel.Retry(old(s), sockfd)
    {
      Close(sockfd);
      state := Disconnected;
      s := s.(st := Disconnected);
      if connect {
        RunAfter(retryDelayMs);
        retryDelayMs := Min(retryDelayMs * 2, MAX_RETRY_DELAY_MS);
        s := s.(retryDelayMs := retryDelayMs);
      }
    }

    /** The client's removeConnection */
    method RemoveConnection(retry: bool, o: Outcome)
      requires Valid() && (retry && !s.stopped && o.InProgress? ==> s.channel.None?)
      modifies this
      ensures Valid() && s == ConnectionCloses(old(s), retry, o)
    {
      connection := None;
      s := s.(up := None);
      if retry && wanted {
        Restart(o);
      } else {
        s := s.(over := true);
      }
    }

    method NextFunctor() returns (functor: Functor)
      requires Valid() && s.phase.Draining? && 0 < s.phase.left <= |s.queue|
      modifies this
      ensures Valid() && functor == old(s.queue[0]) && s == Popped(old(s))
    {
      functor := pendingFunctors[0];
      phase, pendingFunctors := Draining(phase.left - 1), pendingFunctors[1..];
      s := Popped(s);
    }

    method Call(functor: Functor, retry: bool, o: Outcome)
      requires Valid()
      requires functor.StartInLoop? ==> s.st.Disconnected? && (s.connect && o.InProgress? ==> s.channel.None?)
      requires functor.StopInLoop? && s.st.Connecting? ==> s.channel.Some?
      requires functor.CloseConnection? && s.up == Some(functor.fd) && retry && !s.stopped && o.InProgress? ==>
                 s.channel.None?
      modifies this
      ensures Valid() && s == RunHead(old(s), functor, retry, o)
    {
      match functor {
        case StartInLoop => StartInLoop(o);
        case StopInLoop => StopInLoop();
        case ResetChannel => ResetChannel();
        case CloseConnection(fd) =>
          if connection == Some(fd) {
            RemoveConnection(retry, o);
          }
      }
    }

    /** What a draining loop does with the next functor. */
    method RunFunctor(retry: bool, o: Outcome)
      requires Valid() && Enabled(s, ConnectorModel.RunFunctor(retry, o))
      requires Asserted(s, ConnectorModel.RunFunctor(retry, o))
      modifies this
      ensures Valid() && s == Apply(old(s), ConnectorModel.RunFunctor(retry, o))
    {
      var functor := NextFunctor();
      Call(functor, retry, o);
    }

    /** The loop's own bookkeeping at the two ends of a drain. */
    method Turn(begin: bool)
      requires Valid() && Enabled(s, if begin then BeginDrain else EndDrain)
      modifies this
      ensures Valid() && s == Apply(old(s), if begin then BeginDrain else EndDrain)
    {
      s := Apply(s, if begin then BeginDrain else EndDrain);
      if begin {
        phase := Draining(|pendingFunctors|);
      } else {
        phase := Handling;
        if timer.Pending? { timer := Pending(false); }
      }
    }

    /** Channel::handleEventWithGuard for the two callbacks a connector sets */
    method Dispatch(error: bool, writable: bool, soError: bool)
      requires Valid() && s.st.Connecting? && s.channel.Some?
      modifies this
      ensures Valid()
      ensures s == (var t := if error then ConnectorModel.HandleError(old(s)) else old(s);
                    if writable then ConnectorModel.HandleWrite(t, soError) else t)
    {
      if error {
        HandleError();
      }
      if writable {
        HandleWrite(soError);
      }
    }

    method ExpireTimer(o: Outcome)
      requires Valid() && s.st.Disconnected? && (s.connect && o.InProgress? ==> s.channel.None?)
      modifies this
      ensures Valid() && s == StartIn(old(s).(timer := Off), o)
    {
      timer := Off;
      s := s.(timer := Off);
      StartInLoop(o);
    }

    method QueueForceClose()
      requires Valid() && s.up.Some?
      modifies this
      ensures Valid() && s == Apply(old(s), ForceClose)
    {
      pendingFunctors := pendingFunctors + [CloseConnection(connection.value)];
      s := Apply(s, ForceClose);
    }

    /** One thing that happens to the connector. */
    method Step(e: Event)
      requires Valid() && Inv(s) && Enabled(s, e) && ResetDone(s, e)
      modifies this
      ensures Valid() && s == Apply(old(s), e) && Inv(s)
    {
      InvAsserted(s, e);
      InvStep(s, e);
      if e.Start? || e.Stop? || e.ForceClose? {
        OnCall(e);
      } else {
        OnLoop(e);
      }
    }

    /** Calls from outside the loop. */
    method OnCall(e: Event)
      requires Valid() && Enabled(s, e) && Asserted(s, e) && (e.Start? ==> s.st.Disconnected?)
      requires e.Start? || e.Stop? || e.ForceClose?
      modifies this
      ensures Valid() && s == Apply(old(s), e)
    {
      if e.Start? {
        Start(e.inLoop, e.o);
      } else if e.Stop? {
        Stop();
      } else {
        QueueForceClose();
      }
    }

    /** What the loop does. */
    method OnLoop(e: Event)
      requires Valid() && Enabled(s, e) && Asserted(s, e)
      requires !e.Start? && !e.Stop? && !e.ForceClose?
      requires e.PeerCloses? && e.retry && !s.stopped && e.o.InProgress? ==> s.channel.None?
      modifies this
      ensures Valid() && s == Apply(old(s), e)
    {
      if e.Dispatch? {
        Dispatch(e.error, e.writable, e.soError);
      } else if e.TimerFires? {
        ExpireTimer(e.o);
      } else if e.PeerCloses? {
        RemoveConnection(e.retry, e.o);
      } else if e.RunFunctor? {
        RunFunctor(e.retry, e.o);
      } else {
        Turn(e.BeginDrain?);
      }
    }

    /** A whole run, any that the loop, the kernel, the peer and the client can make it go through. */
    method Run(script: seq<Event>, ghost t: State)
      requires Valid() && Inv(s) && Reach(s, script, t)
      modifies this
      ensures Valid() && Inv(s) && s == t
    {
      var i := 0;
      while i < |script|
        invariant i <= |script| && Valid() && Inv(s) && Reach(s, script[i..], t)
      {
        assert script[i..][0] == script[i] && script[i..][1..] == script[i + 1..];
        Step(script[i]);
        i := i + 1;
      }
    }
  }
}
