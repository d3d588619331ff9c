/** The event loop as written, one thread's code at a time. Between any two statements another
    thread may act; a script says what happens. Every method is proved to take the loop along
    a run of LoopModel, so the theorems there are about this code. */
module EventLoops {
  import opened LoopModel

  datatype Act =
    | OtherPushes(t: Thread, f: Functor)
    | OtherWakes(t: Thread)
    | OtherQuits(t: Thread)
    | OtherQuitWakes(t: Thread)
    | Queue(f: Functor, meanwhile: seq<Act>)
    | Quit

  /** One turn of the loop: what happens before quit_ is tested and while polling, whether the event
      list has room for the eventfd, what happens in the handlers before and after the wakeup handler,
      and while each functor runs. */
  datatype Turn = Turn(testing: seq<Act>, polling: seq<Act>, room: bool, early: seq<Act>, late: seq<Act>,
                       functors: seq<seq<Act>>)

  lemma OneMore(functors: seq<Functor>, i: nat)
    requires i < |functors|
    ensures functors[..i] + [functors[i]] == functors[..i + 1]
  {
  }

  /** All that has been pushed so far, and the other threads that owe a wakeup for it. */
  datatype Effect = Effect(pushed: seq<Functor>, owing: set<Thread>)

  function ByOther(e: Effect, act: Act): Effect {
    match act
    case OtherPushes(t, f) => if t in e.owing then e else Effect(e.pushed + [f], e.owing + {t})
    case OtherWakes(t) => e.(owing := e.owing - {t})
    case _ => e
  }

  /** What acts of other threads add up to. */
  function ByOthers(e: Effect, acts: seq<Act>): Effect {
    if |acts| == 0 then e else ByOther(ByOthers(e, acts[..|acts| - 1]), acts[|acts| - 1])
  }

  function ByOne(e: Effect, act: Act): Effect {
    match act
    case Queue(f, meanwhile) => ByOthers(e.(pushed := e.pushed + [f]), meanwhile)
    case _ => ByOther(e, act)
  }

  /** What acts of the loop's own thread and of others add up to. */
  function ByAll(e: Effect, acts: seq<Act>): Effect {
    if |acts| == 0 then e else ByOne(ByAll(e, acts[..|acts| - 1]), acts[|acts| - 1])
  }

  function During(script: seq<seq<Act>>, i: nat): seq<Act> {
    if i < |script| then script[i] else []
  }

  /** The first n functors of a drain. */
  function ByFunctors(e: Effect, script: seq<seq<Act>>, n: nat): Effect {
    if n == 0 then e else ByAll(ByFunctors(e, script, n - 1), During(script, n - 1))
  }

  /** A turn that is not the last, in which n functors run. */
  function ByTurn(e: Effect, turn: Turn, n: nat): Effect {
    var polled := ByOthers(ByOthers(e, turn.testing), turn.polling);
    ByFunctors(ByAll(ByAll(polled, turn.early), turn.late), turn.functors, n)
  }

  /** As many turns as there are batches. */
  function ByTurns(e: Effect, turns: seq<Turn>, batches: seq<seq<Functor>>): Effect
    requires |batches| <= |turns|
  {
    if |batches| == 0 then e
    else
      var k := |batches| - 1;
      ByTurn(ByTurns(e, turns, batches[..k]), turns[k], |batches[k]|)
  }

  function Joined(batches: seq<seq<Functor>>): seq<Functor> {
    if |batches| == 0 then [] else Joined(batches[..|batches| - 1]) + batches[|batches| - 1]
  }

  /** The functors of the turns so far have run, and what these turns push has been pushed; a turn that
      sees the flag set does no more than that. */
  ghost predicate TurnsDone(e: Effect, before: seq<Functor>, turns: seq<Turn>, batches: seq<seq<Functor>>,
                            i: nat, stop: bool, now: Effect, ran: seq<Functor>) {
    && |batches| <= |turns| && ran == before + Joined(batches)
    && if stop then
         |batches| < i && |batches| < |turns| && now == ByOthers(ByTurns(e, turns, batches), turns[|batches|].testing)
       else |batches| == i && now == ByTurns(e, turns, batches)
  }

  lemma OneTurnMore(e: Effect, before: seq<Functor>, turns: seq<Turn>, batches: seq<seq<Functor>>, batch: seq<Functor>,
                    i: nat, now: Effect, ran: seq<Functor>)
    requires i < |turns| && TurnsDone(e, before, turns, batches, i, false, now, ran)
    ensures TurnsDone(e, before, turns, batches + [batch], i + 1, false, ByTurn(now, turns[i], |batch|), ran + batch)
    ensures TurnsDone(e, before, turns, batches, i + 1, true, ByOthers(now, turns[i].testing), ran)
  {
    assert (batches + [batch])[..|batches|] == batches;
  }

  lemma OneActMore(e: Effect, acts: seq<Act>, i: nat)
    requires i < |acts|
    ensures ByAll(e, acts[..i + 1]) == ByOne(ByAll(e, acts[..i]), acts[i])
    ensures ByOthers(e, acts[..i + 1]) == ByOther(ByOthers(e, acts[..i]), acts[i])
    ensures acts[..|acts|] == acts
  {
    assert acts[..i + 1][..i] == acts[..i];
  }

  /** Nothing that was pushed is taken back. */
  lemma {:induction false} OnlyMore(e: Effect, acts: seq<Act>)
    ensures e.pushed <= ByOthers(e, acts).pushed
  {
    if |acts| > 0 {
      OnlyMore(e, acts[..|acts| - 1]);
    }
  }

  function Queued(acts: seq<Act>): seq<Functor> {
    if |acts| == 0 then []
    else Queued(acts[..|acts| - 1]) + if acts[|acts| - 1].Queue? then [acts[|acts| - 1].f] else []
  }

  predicate Alone(acts: seq<Act>) {
    forall i :: 0 <= i < |acts| ==>
      !acts[i].OtherPushes? && (acts[i].Queue? ==> forall k :: 0 <= k < |acts[i].meanwhile| ==>
                                                     !acts[i].meanwhile[k].OtherPushes?)
  }

  lemma {:induction false} NobodyElse(e: Effect, acts: seq<Act>)
    requires forall k :: 0 <= k < |acts| ==> !acts[k].OtherPushes?
    ensures ByOthers(e, acts).pushed == e.pushed
  {
    if |acts| > 0 {
      NobodyElse(e, acts[..|acts| - 1]);
    }
  }

  /** While no other thread pushes, exactly the functors queued are pushed, once each and in order. */
  lemma {:induction false} QueuedInOrder(e: Effect, acts: seq<Act>)
    requires Alone(acts)
    ensures ByAll(e, acts).pushed == e.pushed + Queued(acts)
  {
    if |acts| > 0 {
      var before, act := acts[..|acts| - 1], acts[|acts| - 1];
      QueuedInOrder(e, before);
      if act.Queue? {
        var m := ByAll(e, before);
        NobodyElse(m.(pushed := m.pushed + [act.f]), act.meanwhile);
      }
    }
  }

  class EventLoop {
    var looping: bool
    var quit: bool
    var callingPendingFunctors: bool
    var pendingFunctors: seq<Functor>
    var eventfd: nat
    // where the other threads are
    var pushing: set<Thread>
    var quitting: set<Thread>
    // what the functors run so far were
    var ran: seq<Functor>
    ghost var s: State

    ghost predicate Valid()
      reads this
    {
      && Inv(s)
      && s.queue == pendingFunctors && s.eventfd == eventfd && s.quit == quit
      && s.pushing == pushing && s.quitting == quitting && s.executed == ran
      && callingPendingFunctors == s.pc.Draining?
      && looping == !s.pc.Setup?
    }

    constructor ()
      ensures Valid() && s == Init()
    {
      looping, quit, callingPendingFunctors, pendingFunctors, eventfd := false, false, false, [], 0;
      pushing, quitting, ran := {}, {}, [];
      s := Init();
    }

    ghost function Now(): Effect
      reads this
    {
      Effect(s.pushed, pushing)
    }

    /** In a call of loop() a flag that is set stays set, and the eventfd is written, not read. */
    twostate predicate OnlyAdds()
      reads this
    {
      && old(pendingFunctors) <= pendingFunctors && eventfd >= old(eventfd)
      && looping == old(looping) && (looping && old(quit) ==> quit)
      && callingPendingFunctors == old(callingPendingFunctors)
    }

    /** Another thread: each push, or quit, and the wakeup that follows it are separate steps. Outside
        loop() a push is as good as inside, and quit only resets the flag. */
    method Other(act: Act) returns (ghost run: seq<Step>)
      requires Valid()
      modifies this
      ensures Valid() && Reach(old(s), run, s)
      ensures s.pc == old(s.pc) && ran == old(ran)
      ensures Now() == ByOther(old(Now()), act) && OnlyAdds()
      ensures act.OtherQuits? ==> if !looping then !quit else act.t !in old(quitting) ==> quit && act.t in quitting
      ensures act.OtherWakes? && act.t in old(pushing) ==> eventfd > old(eventfd)
      ensures act.OtherQuitWakes? && act.t in old(quitting) ==> eventfd > old(eventfd) && act.t !in quitting
    {
      match act {
        case OtherPushes(t, f) => run := OtherPush(t, f);
        case OtherWakes(t) => run := OtherWakeup(t);
        case OtherQuits(t) => run := OtherQuit(t);
        case OtherQuitWakes(t) => run := OtherQuitWakeup(t);
        case _ => run := [];
      }
    }

    method OtherPush(t: Thread, f: Functor) returns (ghost run: seq<Step>)
      requires Valid()
      modifies this`pendingFunctors, this`pushing, this`s
      ensures Valid() && Reach(old(s), run, s) && s.pc == old(s.pc)
      ensures Now() == ByOther(old(Now()), OtherPushes(t, f)) && OnlyAdds() && ran == old(ran)
      ensures t !in old(pushing) ==> pendingFunctors == old(pendingFunctors) + [f]
    {
      run := [];
      if t !in pushing {
        run := [Push(t, f)];
        InvStep(s, run[0]);
        ReachOne(s, run[0]);
        pendingFunctors, pushing := pendingFunctors + [f], pushing + {t};
        s := Apply(s, run[0]);
      }
    }

    method OtherWakeup(t: Thread) returns (ghost run: seq<Step>)
      requires Valid()
      modifies this`eventfd, this`pushing, this`s
      ensures Valid() && Reach(old(s), run, s) && s.pc == old(s.pc)
      ensures Now() == ByOther(old(Now()), OtherWakes(t)) && OnlyAdds() && ran == old(ran)
      ensures t in old(pushing) ==> eventfd == old(eventfd) + 1
    {
      run := [];
      if t in pushing {
        run := [Wake(t)];
        InvStep(s, run[0]);
        ReachOne(s, run[0]);
        eventfd, pushing := eventfd + 1, pushing - {t};
        s := Apply(s, run[0]);
      }
    }

    method OtherQuit(t: Thread) returns (ghost run: seq<Step>)
      requires Valid()
      modifies this`quit, this`quitting, this`s
      ensures Valid() && Reach(old(s), run, s) && s.pc == old(s.pc)
      ensures Now() == ByOther(old(Now()), OtherQuits(t)) && OnlyAdds() && ran == old(ran)
      ensures if !looping then !quit else t !in old(quitting) ==> quit && t in quitting
    {
      run := [];
      if !looping {
        run := [QuitIgnored];
        InvStep(s, run[0]);
        ReachOne(s, run[0]);
        quit := false;
        s := Apply(s, run[0]);
      } else if t !in quitting {
        run := [QuitFrom(t)];
        InvStep(s, run[0]);
        ReachOne(s, run[0]);
        quit, quitting := true, quitting + {t};
        s := Apply(s, run[0]);
      }
    }

    method OtherQuitWakeup(t: Thread) returns (ghost run: seq<Step>)
      requires Valid()
      modifies this`eventfd, this`quitting, this`s
      ensures Valid() && Reach(old(s), run, s) && s.pc == old(s.pc)
      ensures Now() == ByOther(old(Now()), OtherQuitWakes(t)) && OnlyAdds() && ran == old(ran)
      ensures t in old(quitting) ==> eventfd == old(eventfd) + 1 && t !in quitting
    {
      run := [];
      if t in quitting {
        run := [QuitWake(t)];
        InvStep(s, run[0]);
        ReachOne(s, run[0]);
        eventfd, quitting := eventfd + 1, quitting - {t};
        s := Apply(s, run[0]);
      }
    }

    method Others(acts: seq<Act>) returns (ghost run: seq<Step>)
      requires Valid()
      modifies this
      ensures Valid() && Reach(old(s), run, s)
      ensures s.pc == old(s.pc) && ran == old(ran)
      ensures Now() == ByOthers(old(Now()), acts) && OnlyAdds()
    {
      run := [];
      var i := 0;
      while i < |acts|
        invariant i <= |acts| && Valid() && Reach(old(s), run, s) && s.pc == old(s.pc) && ran == old(ran)
        invariant Now() == ByOthers(old(Now()), acts[..i]) && OnlyAdds()
      {
        ghost var mid := s;
        ghost var more := Other(acts[i]);
        OneActMore(old(Now()), acts, i);
        ReachConcat(old(s), run, mid, more, s);
        run := run + more;
        i := i + 1;
      }
      assert acts[..i] == acts;
    }

    /** Where the loop's own thread may call the loop: before loop(), in a handler, in a functor. */
    ghost predicate OwnTurn()
      reads this
    {
      s.pc.Setup? || s.pc.Handling? || (s.pc.Draining? && s.pc.next > 0 && !s.pc.owesWakeup)
    }

    /** queueInLoop called by the loop thread: it wakes itself only from inside a functor. */
    method QueueInLoop(f: Functor, meanwhile: seq<Act>) returns (ghost run: seq<Step>)
      requires Valid() && OwnTurn()
      modifies this
      ensures Valid() && Reach(old(s), run, s)
      ensures s.pc == old(s.pc) && ran == old(ran)
      ensures old(pendingFunctors) + [f] <= pendingFunctors
      ensures old(callingPendingFunctors) ==> eventfd > old(eventfd)
      ensures Now() == ByOne(old(Now()), Queue(f, meanwhile)) && OnlyAdds()
    {
      run := PushOwn(f);
      ghost var mid := s;
      ghost var more := Others(meanwhile);
      ReachConcat(old(s), run, mid, more, s);
      run := run + more;
      if callingPendingFunctors {
        mid := s;
        InvStep(s, WakeFromFunctor);
        ReachOne(s, WakeFromFunctor);
        ReachConcat(old(s), run, mid, [WakeFromFunctor], Apply(s, WakeFromFunctor));
        eventfd := eventfd + 1;
        s := Apply(s, WakeFromFunctor);
        run := run + [WakeFromFunctor];
      }
    }

    /** The push under the mutex. */
    method PushOwn(f: Functor) returns (ghost run: seq<Step>)
      requires Valid() && OwnTurn()
      modifies this`pendingFunctors, this`s
      ensures Valid() && Reach(old(s), run, s) && pendingFunctors == old(pendingFunctors) + [f]
      ensures s.pushed == old(s.pushed) + [f]
      ensures s.pc == if old(s).pc.Draining? then old(s).pc.(owesWakeup := true) else old(s).pc
    {
      ghost var a := if s.pc.Draining? then PushFromFunctor(f)
                     else if s.pc.Setup? then PushBeforeLoop(f)
                     else PushFromHandler(f);
      InvStep(s, a);
      ReachOne(s, a);
      pendingFunctors := pendingFunctors + [f];
      s := Apply(s, a);
      run := [a];
    }

    /** What a handler or a functor does, or the owner before loop(), with other threads in between. */
    method Perform(acts: seq<Act>) returns (ghost run: seq<Step>)
      requires Valid() && OwnTurn()
      modifies this
      ensures Valid() && Reach(old(s), run, s)
      ensures s.pc == old(s.pc) && ran == old(ran)
      ensures Now() == ByAll(old(Now()), acts) && OnlyAdds()
      ensures looping && Quit in acts ==> quit
    {
      run := [];
      var i := 0;
      while i < |acts|
        invariant i <= |acts| && Valid() && Reach(old(s), run, s) && s.pc == old(s.pc) && ran == old(ran)
        invariant Now() == ByAll(old(Now()), acts[..i]) && OnlyAdds()
        invariant looping && Quit in acts[..i] ==> quit
      {
        ghost var mid := s;
        ghost var more := PerformOne(acts[i]);
        OneActMore(old(Now()), acts, i);
        ReachConcat(old(s), run, mid, more, s);
        run := run + more;
        i := i + 1;
      }
      assert acts[..i] == acts;
    }

    method PerformOne(act: Act) returns (ghost run: seq<Step>)
      requires Valid() && OwnTurn()
      modifies this
      ensures Valid() && Reach(old(s), run, s)
      ensures s.pc == old(s.pc) && ran == old(ran)
      ensures Now() == ByOne(old(Now()), act) && OnlyAdds()
      ensures act.Quit? && looping ==> quit
    {
      run := [];
      match act {
        case Queue(f, meanwhile) => run := QueueInLoop(f, meanwhile);
        case Quit =>
          if looping {
            run := QuitHere();
          }
        case _ => run := Other(act);
      }
    }

    /** quit() called by the loop thread needs no wakeup. */
    method QuitHere() returns (ghost run: seq<Step>)
      requires Valid() && Enabled(s, QuitInLoop)
      modifies this
      ensures Valid() && s == Apply(old(s), QuitInLoop) && Reach(old(s), run, s) && ran == old(ran)
      ensures quit && s.pc == old(s.pc) && Now() == old(Now()) && OnlyAdds()
    {
      InvStep(s, QuitInLoop);
      ReachOne(s, QuitInLoop);
      quit := true;
      s := Apply(s, QuitInLoop);
      run := [QuitInLoop];
    }

    /** The handler of the eventfd. */
    method HandleRead() returns (ghost run: seq<Step>)
      requires Valid() && Enabled(s, ReadEventfd)
      modifies this
      ensures Valid() && s == Apply(old(s), ReadEventfd) && Reach(old(s), run, s) && ran == old(ran)
      ensures eventfd == 0 && Now() == old(Now()) && looping == old(looping) && quit == old(quit)
      ensures pendingFunctors == old(pendingFunctors)
    {
      InvStep(s, ReadEventfd);
      ReachOne(s, ReadEventfd);
      eventfd := 0;
      s := Apply(s, ReadEventfd);
      run := [ReadEventfd];
    }

    /** The swap under the mutex. */
    method SwapOut() returns (functors: seq<Functor>, ghost run: seq<Step>)
      requires Valid() && Enabled(s, Swap)
      modifies this
      ensures Valid() && s == Apply(old(s), Swap) && Reach(old(s), run, s)
      ensures functors == old(pendingFunctors) && pendingFunctors == [] && ran == old(ran)
      ensures Now() == old(Now()) && looping == old(looping) && quit == old(quit)
    {
      InvStep(s, Swap);
      ReachOne(s, Swap);
      callingPendingFunctors := true;
      functors, pendingFunctors := pendingFunctors, [];
      s := Apply(s, Swap);
      run := [Swap];
    }

    method RunOne(f: Functor, acts: seq<Act>) returns (ghost run: seq<Step>)
      requires Valid() && Enabled(s, RunFunctor) && f == s.pc.batch[s.pc.next]
      modifies this
      ensures Valid() && Reach(old(s), run, s)
      ensures s.pc == old(s.pc).(next := old(s.pc).next + 1) && ran == old(ran) + [f]
      ensures Now() == ByAll(old(Now()), acts) && OnlyAdds()
      ensures looping && Quit in acts ==> quit
    {
      ghost var s0 := s;
      InvStep(s, RunFunctor);
      ReachOne(s, RunFunctor);
      ran := ran + [f];
      s := Apply(s, RunFunctor);
      ghost var mid := s;
      var more := Perform(acts);
      ReachConcat(s0, [RunFunctor], mid, more, s);
      run := [RunFunctor] + more;
    }

    /** The loop over the batch. */
    method RunBatch(functors: seq<Functor>, script: seq<seq<Act>>) returns (ghost run: seq<Step>)
      requires Valid() && s.pc == Draining(functors, 0, false)
      modifies this
      ensures Valid() && Reach(old(s), run, s)
      ensures s.pc == Draining(functors, |functors|, false) && ran == old(ran) + functors
      ensures Now() == ByFunctors(old(Now()), script, |functors|) && OnlyAdds()
    {
      run := [];
      var i := 0;
      while i < |functors|
        invariant i <= |functors| && Valid() && Reach(old(s), run, s)
        invariant s.pc == Draining(functors, i, false) && ran == old(ran) + functors[..i]
        invariant Now() == ByFunctors(old(Now()), script, i) && OnlyAdds()
      {
        ghost var mid := s;
        ghost var more := RunOne(functors[i], During(script, i));
        ReachConcat(old(s), run, mid, more, s);
        run := run + more;
        OneMore(functors, i);
        i := i + 1;
      }
      assert functors[..|functors|] == functors;
    }

    /** doPendingFunctors: whatever the functors and other threads push meanwhile, it runs exactly
        what was pending when it was called, in order. */
    method DoPendingFunctors(script: seq<seq<Act>>) returns (ghost run: seq<Step>)
      requires Valid() && Enabled(s, Swap)
      modifies this
      ensures Valid() && Reach(old(s), run, s)
      ensures s.pc == Testing
      ensures ran == old(ran) + old(pendingFunctors)
      ensures Now() == ByFunctors(old(Now()), script, |old(pendingFunctors)|)
      ensures looping == old(looping) && (looping && old(quit) ==> quit)
    {
      var functors;
      functors, run := SwapOut();
      ghost var mid := s;
      ghost var more := RunBatch(functors, script);
      ReachConcat(old(s), run, mid, more, s);
      run := run + more;
      mid := s;
      FinishDrain();
      ReachConcat(old(s), run, mid, [EndDrain], s);
      run := run + [EndDrain];
    }

    method FinishDrain()
      requires Valid() && Enabled(s, EndDrain)
      modifies this
      ensures Valid() && s == Apply(old(s), EndDrain) && ran == old(ran)
      ensures Reach(old(s), [EndDrain], s) && !callingPendingFunctors
      ensures Now() == old(Now()) && looping == old(looping) && quit == old(quit)
    {
      InvStep(s, EndDrain);
      ReachOne(s, EndDrain);
      callingPendingFunctors := false;
      s := Apply(s, EndDrain);
    }

    /** A readable eventfd is reported unless the event list was full without it. */
    method Poll(acts: seq<Act>, room: bool) returns (woken: bool, ghost run: seq<Step>)
      requires Valid() && s.pc.Polling?
      modifies this
      ensures Valid() && Reach(old(s), run, s) && s.pc == Handling(woken)
      ensures woken <==> eventfd > 0 && room
      ensures ran == old(ran) && Now() == ByOthers(old(Now()), acts) && OnlyAdds()
    {
      run := Others(acts);
      woken := eventfd > 0 && room;
      ghost var mid := s;
      InvStep(s, PollReturns(woken));
      ReachOne(s, PollReturns(woken));
      s := Apply(s, PollReturns(woken));
      ReachConcat(old(s), run, mid, [PollReturns(woken)], s);
      run := run + [PollReturns(woken)];
    }

    /** The handlers of one turn. The wakeup handler runs exactly if poll found the eventfd readable. */
    method HandleEvents(woken: bool, early: seq<Act>, late: seq<Act>) returns (ghost run: seq<Step>)
      requires Valid() && s.pc == Handling(woken)
      modifies this
      ensures Valid() && Reach(old(s), run, s) && s.pc == Handling(false) && ran == old(ran)
      ensures Now() == ByAll(ByAll(old(Now()), early), late) && old(pendingFunctors) <= pendingFunctors
      ensures looping == old(looping) && (looping && (old(quit) || Quit in early || Quit in late) ==> quit)
    {
      run := Perform(early);
      ghost var mid := s;
      if woken {
        ghost var more := HandleRead();
        ReachConcat(old(s), run, mid, more, s);
        run := run + more;
      }
      mid := s;
      ghost var more := Perform(late);
      ReachConcat(old(s), run, mid, more, s);
      run := run + more;
    }

    /** The body of loop(). */
    method Iterate(turn: Turn) returns (ghost run: seq<Step>, ghost batch: seq<Functor>)
      requires Valid() && s.pc.Polling?
      modifies this
      ensures Valid() && Reach(old(s), run, s)
      ensures s.pc == Testing
      ensures ran == old(ran) + batch && old(pendingFunctors) <= batch
      ensures Now() == ByFunctors(ByAll(ByAll(ByOthers(old(Now()), turn.polling), turn.early), turn.late),
                                  turn.functors, |batch|)
      ensures Quit in turn.early || Quit in turn.late ==> quit
    {
      var woken;
      woken, run := Poll(turn.polling, turn.room);
      ghost var mid := s;
      ghost var more := HandleEvents(woken, turn.early, turn.late);
      ReachConcat(old(s), run, mid, more, s);
      run := run + more;
      mid, batch := s, pendingFunctors;
      more := DoPendingFunctors(turn.functors);
      ReachConcat(old(s), run, mid, more, s);
      run := run + more;
    }

    /** The condition of the while loop. */
    method TestQuit() returns (stop: bool, ghost run: seq<Step>)
      requires Valid() && s.pc.Testing?
      modifies this`s
      ensures Valid() && Reach(old(s), run, s)
      ensures stop == quit && s.pc == if stop then Leaving else Polling
      ensures Now() == old(Now())
    {
      InvStep(s, LoopModel.TestQuit);
      ReachOne(s, LoopModel.TestQuit);
      run := [LoopModel.TestQuit];
      stop := quit;
      s := Apply(s, LoopModel.TestQuit);
    }

    /** loop() up to its first test of quit_. */
    method Begin(meanwhile: seq<Act>) returns (ghost run: seq<Step>)
      requires Valid() && s.pc.Setup?
      modifies this
      ensures Valid() && Reach(old(s), run, s) && s.pc == Testing && looping && !quit
      ensures Now() == ByOthers(old(Now()), meanwhile) && ran == old(ran)
    {
      InvStep(s, Start);
      ReachOne(s, Start);
      looping := true;
      s := Apply(s, Start);
      ghost var mid := s;
      ghost var more := Others(meanwhile);
      ReachConcat(old(s), [Start], mid, more, s);
      run := [Start] + more;
      mid := s;
      ClearQuitFlag();
      ReachConcat(old(s), run, mid, [ClearQuit], s);
      run := run + [ClearQuit];
    }

    method ClearQuitFlag()
      requires Valid() && s.pc.Starting?
      modifies this`quit, this`s
      ensures Valid() && Reach(old(s), [ClearQuit], s) && s.pc == Testing && !quit && Now() == old(Now())
    {
      InvStep(s, ClearQuit);
      ReachOne(s, ClearQuit);
      quit := false;
      s := Apply(s, ClearQuit);
    }

    /** loop() behind its last test of quit_. */
    method End(meanwhile: seq<Act>) returns (ghost run: seq<Step>)
      requires Valid() && s.pc.Leaving?
      modifies this
      ensures Valid() && Reach(old(s), run, s) && s.pc == Setup && !looping && ran == old(ran)
      ensures Now() == ByOthers(old(Now()), meanwhile)
    {
      run := Others(meanwhile);
      ghost var mid := s;
      InvStep(s, Leave);
      ReachOne(s, Leave);
      looping := false;
      s := Apply(s, Leave);
      ReachConcat(old(s), run, mid, [Leave], s);
      run := run + [Leave];
    }

    /** The while loop, for as many turns as the script has or until quit. */
    method Turns(turns: seq<Turn>) returns (stop: bool, ghost run: seq<Step>, ghost batches: seq<seq<Functor>>)
      requires Valid() && s.pc.Testing?
      modifies this
      ensures Valid() && Reach(old(s), run, s)
      ensures s.pc == if stop then Leaving else Testing
      ensures stop ==> quit
      ensures TurnsDone(old(Now()), old(ran), turns, batches, |turns|, stop, Now(), ran)
    {
      run, batches := [], [];
      stop := false;
      var i := 0;
      while !stop && i < |turns|
        invariant i <= |turns| && Valid() && Reach(old(s), run, s)
        invariant s.pc == if stop then Leaving else Testing
        invariant stop ==> quit
        invariant TurnsDone(old(Now()), old(ran), turns, batches, i, stop, Now(), ran)
      {
        ghost var mid, now, before := s, Now(), ran;
        ghost var more, batch;
        stop, more, batch := TurnOnce(turns[i]);
        ReachConcat(old(s), run, mid, more, s);
        OneTurnMore(old(Now()), old(ran), turns, batches, batch, i, now, before);
        batches := if stop then batches else batches + [batch];
        run := run + more;
        i := i + 1;
      }
    }

    method TurnOnce(turn: Turn) returns (stop: bool, ghost run: seq<Step>, ghost batch: seq<Functor>)
      requires Valid() && s.pc.Testing?
      modifies this
      ensures Valid() && Reach(old(s), run, s)
      ensures s.pc == if stop then Leaving else Testing
      ensures stop ==> quit && ran == old(ran) && Now() == ByOthers(old(Now()), turn.testing)
      ensures !stop ==> ran == old(ran) + batch && Now() == ByTurn(old(Now()), turn, |batch|)
      ensures old(quit) ==> stop
    {
      batch := [];
      run := Others(turn.testing);
      ghost var mid := s;
      ghost var more;
      stop, more := TestQuit();
      ReachConcat(old(s), run, mid, more, s);
      run := run + more;
      if !stop {
        mid := s;
        more, batch := Iterate(turn);
        ReachConcat(old(s), run, mid, more, s);
        run := run + more;
      }
    }

    /** loop(), the first call or a later one. */
    method Loop(starting: seq<Act>, turns: seq<Turn>, leaving: seq<Act>)
        returns (ghost run: seq<Step>, ghost batches: seq<seq<Functor>>)
      requires Valid() && s.pc.Setup?
      modifies this
      ensures Valid() && Reach(old(s), run, s)
      ensures s.pc.Testing? || s.pc.Setup?
      ensures |batches| <= |turns| && ran == old(ran) + Joined(batches)
      ensures var e := ByTurns(ByOthers(old(Now()), starting), turns, batches);
              if s.pc.Testing? then |batches| == |turns| && Now() == e
              else |batches| < |turns| && Now() == ByOthers(ByOthers(e, turns[|batches|].testing), leaving)
    {
      run := Begin(starting);
      ghost var mid := s;
      ghost var more;
      var stop;
      stop, more, batches := Turns(turns);
      ReachConcat(old(s), run, mid, more, s);
      run := run + more;
      if stop {
        mid := s;
        more := End(leaving);
        ReachConcat(old(s), run, mid, more, s);
        run := run + more;
      }
    }
  }
}
