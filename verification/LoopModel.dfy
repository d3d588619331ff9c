/** The task queue of an event loop as a step relation: one loop thread, any number of producer
    threads, a pending vector behind a mutex, and an eventfd that interrupts poll. A step is what
    one thread does without another being able to look. */
module LoopModel {

  type Functor = nat
  type Thread = nat

  /** Where the loop thread is: outside loop(), behind its store to looping_ and not yet at the one
      to quit_, about to test quit_, in poll, in handlers, in the drain, or behind the last test and
      not yet at the store that ends looping_. In Handling, woken says that poll has reported the
      eventfd and its handler has not run yet. In Draining, owesWakeup says that the running functor
      has pushed and not yet written the eventfd. */
  datatype Pc =
    | Setup
    | Starting
    | Testing
    | Polling
    | Handling(woken: bool)
    | Draining(batch: seq<Functor>, next: nat, owesWakeup: bool)
    | Leaving

  /** pushing and quitting are the other threads between their push, or their store to quit_, and
      their wakeup; pushed and executed are all functors ever pushed and run, in order. Of the current
      call of loop(), or of the next one if there is none: polls counts its returns from poll, before is
      what the loop thread has pushed for it, asked says that quit() has been called during it, and
      settled that the call before it left no wakeup behind. */
  datatype State = State(pc: Pc, queue: seq<Functor>, eventfd: nat, pushing: set<Thread>, quitting: set<Thread>,
                         quit: bool, polls: nat, pushed: seq<Functor>, executed: seq<Functor>,
                         before: seq<Functor>, asked: bool, settled: bool)

  datatype Step =
    | PushBeforeLoop(f: Functor)
    | Start
    | ClearQuit
    | TestQuit
    | Push(t: Thread, f: Functor)
    | Wake(t: Thread)
    | QuitIgnored
    | QuitFrom(t: Thread)
    | QuitWake(t: Thread)
    | PollReturns(woken: bool)
    | ReadEventfd
    | PushFromHandler(f: Functor)
    | QuitInLoop
    | Swap
    | RunFunctor
    | PushFromFunctor(f: Functor)
    | WakeFromFunctor
    | EndDrain
    | Leave

  ghost predicate Enabled(s: State, a: Step) {
    match a
    case PushBeforeLoop(_) => s.pc.Setup?
    case Start => s.pc.Setup?
    case ClearQuit => s.pc.Starting?
    case TestQuit => s.pc.Testing?
    case Push(t, _) => t !in s.pushing
    case Wake(t) => t in s.pushing
    // quit() outside loop() only resets the flag
    case QuitIgnored => s.pc.Setup?
    case QuitFrom(t) => !s.pc.Setup? && t !in s.quitting
    case QuitWake(t) => t in s.quitting
    // a full event list may leave the eventfd out although it is readable
    case PollReturns(woken) => s.pc.Polling? && (woken ==> s.eventfd > 0)
    case ReadEventfd => s.pc.Handling? && s.pc.woken
    case PushFromHandler(_) => s.pc.Handling?
    case QuitInLoop => s.pc.Handling? || (s.pc.Draining? && s.pc.next > 0)
    case Swap => s.pc.Handling? && !s.pc.woken
    case RunFunctor => s.pc.Draining? && s.pc.next < |s.pc.batch| && !s.pc.owesWakeup
    case PushFromFunctor(_) => s.pc.Draining? && s.pc.next > 0 && !s.pc.owesWakeup
    case WakeFromFunctor => s.pc.Draining? && s.pc.owesWakeup
    case EndDrain => s.pc.Draining? && s.pc.next == |s.pc.batch| && !s.pc.owesWakeup
    case Leave => s.pc.Leaving?
  }

  function Pushed(s: State, f: Functor): State {
    s.(queue := s.queue + [f], pushed := s.pushed + [f])
  }

  /** Nobody has written the eventfd or is about to. */
  predicate Quiet(s: State) {
    s.eventfd == 0 && s.pushing == {} && s.quitting == {}
  }

  ghost function Apply(s: State, a: Step): State
    requires Enabled(s, a)
  {
    match a
    case PushBeforeLoop(f) => Pushed(s, f).(before := s.before + [f])
    case Start => s.(pc := Starting)
    case ClearQuit => s.(pc := Testing, quit := false)
    case TestQuit => s.(pc := if s.quit then Leaving else Polling)
    case Push(t, f) => Pushed(s, f).(pushing := s.pushing + {t})
    case Wake(t) => s.(eventfd := s.eventfd + 1, pushing := s.pushing - {t})
    case QuitIgnored => s.(quit := false)
    case QuitFrom(t) => s.(quit := true, asked := true, quitting := s.quitting + {t})
    case QuitWake(t) => s.(eventfd := s.eventfd + 1, quitting := s.quitting - {t})
    case PollReturns(woken) => s.(pc := Handling(woken), polls := s.polls + 1)
    case ReadEventfd => s.(pc := Handling(false), eventfd := 0)
    case PushFromHandler(f) => Pushed(s, f)
    case QuitInLoop => s.(quit := true)
    case Swap => s.(pc := Draining(s.queue, 0, false), queue := [])
    case RunFunctor =>
      s.(pc := s.pc.(next := s.pc.next + 1), executed := s.executed + [s.pc.batch[s.pc.next]])
    case PushFromFunctor(f) => Pushed(s, f).(pc := s.pc.(owesWakeup := true))
    case WakeFromFunctor => s.(eventfd := s.eventfd + 1, pc := s.pc.(owesWakeup := false))
    case EndDrain => s.(pc := Testing)
    case Leave =>
      s.(pc := Setup, polls := 0, before := if s.polls == 0 then s.before else [], asked := false,
         settled := Quiet(s))
  }

  ghost predicate Reach(s: State, run: seq<Step>, t: State)
    decreases |run|
  {
    if run == [] then s == t else Enabled(s, run[0]) && Reach(Apply(s, run[0]), run[1..], t)
  }

  function Init(): State {
    State(Setup, [], 0, {}, {}, false, 0, [], [], [], false, true)
  }

  /** What the current drain still has to run. */
  function Rest(s: State): seq<Functor> {
    if s.pc.Draining? && s.pc.next <= |s.pc.batch| then s.pc.batch[s.pc.next..] else []
  }

  // ---- the invariant ----

  /** Every functor pushed has run, is in the current batch, or is queued: in that order. */
  ghost predicate Fifo(s: State) {
    && (s.pc.Draining? ==> s.pc.next <= |s.pc.batch|)
    && s.pushed == s.executed + Rest(s) + s.queue
  }

  /** Someone will interrupt, or has interrupted, the next poll. */
  ghost predicate Coming(s: State) {
    s.eventfd > 0 || s.pushing != {} || (s.pc.Draining? && s.pc.owesWakeup)
  }

  /** Up to the first return from poll, or to the end of a call that never polled. */
  predicate First(s: State) {
    s.pc.Setup? || s.pc.Starting? || ((s.pc.Testing? || s.pc.Polling? || s.pc.Leaving?) && s.polls == 0)
  }

  ghost predicate Wakeful(s: State) {
    && (First(s) ==> Coming(s) || s.queue == s.before)
    && (!First(s) && !s.pc.Handling? ==> Coming(s) || s.queue == [])
    && (s.pc.Setup? || s.pc.Starting? ==> s.polls == 0)
    && (s.pc.Draining? || s.pc.Handling? ==> s.polls > 0)
  }

  /** Until the first poll returns: if only the loop thread has pushed, nobody has woken it. */
  ghost predicate Early(s: State) {
    First(s) ==>
      && |s.before| <= |s.queue|
      && (s.pc.Setup? ==> !s.asked)
      && (s.settled && s.queue == s.before ==> s.pushing == {} && (s.asked || Quiet(s)))
      && (!s.settled ==> !Quiet(s))
      && (s.asked ==> s.eventfd > 0 || s.quitting != {})
  }

  ghost predicate QuitSeen(s: State) {
    s.pc.Polling? && s.quit ==> s.eventfd > 0 || s.quitting != {}
  }

  ghost predicate Inv(s: State) {
    Fifo(s) && Wakeful(s) && Early(s) && QuitSeen(s)
  }

  lemma FifoPush(s: State, t: State, f: Functor)
    requires Fifo(s) && t.pushed == s.pushed + [f] && t.queue == s.queue + [f]
    requires t.executed == s.executed && Rest(t) == Rest(s) && (t.pc.Draining? ==> t.pc.next <= |t.pc.batch|)
    ensures Fifo(t)
  {
    var done := s.executed + Rest(s);
    assert (done + s.queue) + [f] == done + (s.queue + [f]);
  }

  lemma FifoRun(s: State)
    requires Fifo(s) && Enabled(s, RunFunctor)
    ensures Fifo(Apply(s, RunFunctor))
  {
    var t := Apply(s, RunFunctor);
    var next := s.pc.batch[s.pc.next];
    assert Rest(s) == [next] + Rest(t);
    assert s.executed + ([next] + Rest(t)) == (s.executed + [next]) + Rest(t);
  }

  lemma FifoStep(s: State, a: Step)
    requires Fifo(s) && Enabled(s, a)
    ensures Fifo(Apply(s, a))
  {
    var t := Apply(s, a);
    match a
    case PushBeforeLoop(f) => FifoPush(s, t, f);
    case Push(_, f) => FifoPush(s, t, f);
    case PushFromHandler(f) => FifoPush(s, t, f);
    case PushFromFunctor(f) => FifoPush(s, t, f);
    case RunFunctor => FifoRun(s);
    case Swap => assert Rest(t) == s.queue;
    case _ =>
  }

  lemma InvStep(s: State, a: Step)
    requires Inv(s) && Enabled(s, a)
    ensures Inv(Apply(s, a))
  {
    FifoStep(s, a);
    EarlyStep(s, a);
  }

  lemma EarlyStep(s: State, a: Step)
    requires Early(s) && Wakeful(s) && Enabled(s, a)
    ensures Early(Apply(s, a))
  {
    match a
    case PushBeforeLoop(f) =>
      assert (s.queue + [f])[..|s.queue|] == s.queue && (s.before + [f])[..|s.before|] == s.before;
    case Push(_, f) => assert |s.queue + [f]| == |s.queue| + 1;
    case _ =>
  }

  lemma {:induction false} ReachInv(s: State, run: seq<Step>, t: State)
    requires Inv(s) && Reach(s, run, t)
    ensures Inv(t)
    decreases |run|
  {
    if run != [] {
      InvStep(s, run[0]);
      ReachInv(Apply(s, run[0]), run[1..], t);
    }
  }

  // ---- theorems about every interleaving ----

  /** Functors run in push order, each at most once: what has run is always a prefix of what was
      pushed, and what is left is exactly what is queued or in the current batch. */
  lemma ExactlyOnceInOrder(run: seq<Step>, t: State)
    requires Reach(Init(), run, t)
    ensures t.executed <= t.pushed
    ensures t.pushed == t.executed + Rest(t) + t.queue
  {
    ReachInv(Init(), run, t);
  }

  /** No lost wakeup: when the loop is about to block with work queued, the eventfd is readable or
      a producer is on its way to write it, except on the first poll, when all that is queued may be
      what the loop thread itself pushed before it called loop(). */
  lemma NoLostWakeup(run: seq<Step>, t: State)
    requires Reach(Init(), run, t)
    requires t.pc.Polling? && t.queue != []
    ensures t.eventfd > 0 || t.pushing != {} || (t.polls == 0 && t.queue == t.before)
  {
    ReachInv(Init(), run, t);
  }

  /** When nothing was pushed before loop(), the exception never applies. */
  lemma NeverBlocksOnWork(run: seq<Step>, t: State)
    requires Reach(Init(), run, t)
    requires forall i :: 0 <= i < |run| ==> !run[i].PushBeforeLoop?
    requires t.pc.Polling? && t.queue != []
    ensures t.eventfd > 0 || t.pushing != {}
  {
    NoLostWakeup(run, t);
    BeforeStays(Init(), run, t);
  }

  lemma {:induction false} BeforeStays(s: State, run: seq<Step>, t: State)
    requires Reach(s, run, t) && s.before == []
    requires forall i :: 0 <= i < |run| ==> !run[i].PushBeforeLoop?
    ensures t.before == []
    decreases |run|
  {
    if run != [] {
      BeforeStays(Apply(s, run[0]), run[1..], t);
    }
  }

  /** The loop blocks with work queued exactly in this case: it is the first poll of a call of loop(),
      everything queued was pushed by the loop thread itself before that call, the call before it left
      no wakeup behind, and nobody has asked this one to quit. */
  lemma WhenPollBlocksOnWork(run: seq<Step>, t: State)
    requires Reach(Init(), run, t)
    requires t.pc.Polling? && t.queue != []
    ensures Quiet(t) <==> t.polls == 0 && t.queue == t.before && t.settled && !t.asked
  {
    ReachInv(Init(), run, t);
  }

  /** The first poll of a call to which no other thread contributes. */
  function FirstPoll(s: State): State {
    s.(pc := Polling, quit := false)
  }

  /** So the caller of loop() can tell: the first poll begins with nobody about to interrupt it
      exactly if what is queued then was all pushed by the caller's own thread, and the call before,
      if there was one, left no wakeup behind. */
  lemma FirstPollBlocks(run: seq<Step>, s: State)
    requires Reach(Init(), run, s) && s.pc.Setup? && s.queue != []
    ensures Reach(s, [Start, ClearQuit, TestQuit], FirstPoll(s))
    ensures Quiet(FirstPoll(s)) <==> s.queue == s.before && s.settled
    ensures (forall i :: 0 <= i < |run| ==> run[i] != Leave) ==> s.settled
  {
    ReachInv(Init(), run, s);
    ReachThree(s, Start, ClearQuit, TestQuit);
    if forall i :: 0 <= i < |run| ==> run[i] != Leave {
      FirstCallIsSettled(Init(), run, s);
    }
  }

  lemma ReachThree(s: State, a: Step, b: Step, c: Step)
    requires Enabled(s, a) && Enabled(Apply(s, a), b) && Enabled(Apply(Apply(s, a), b), c)
    ensures Reach(s, [a, b, c], Apply(Apply(Apply(s, a), b), c))
  {
    assert [a, b, c][1..] == [b, c] && [b, c][1..] == [c] && [c][1..] == [];
    var t := Apply(Apply(Apply(s, a), b), c);
    assert Reach(t, [], t);
  }

  lemma {:induction false} FirstCallIsSettled(s: State, run: seq<Step>, t: State)
    requires Reach(s, run, t) && s.settled && forall i :: 0 <= i < |run| ==> run[i] != Leave
    ensures t.settled
    decreases |run|
  {
    if run != [] {
      FirstCallIsSettled(Apply(s, run[0]), run[1..], t);
    }
  }

  /** And the case is real: one functor queued before loop(), and the first poll blocks on it. */
  lemma FirstPollMayBlock(f: Functor)
    ensures exists run, t :: Reach(Init(), run, t) && t.pc.Polling? && t.queue == [f] && Quiet(t)
  {
    var s := Apply(Init(), PushBeforeLoop(f));
    assert Reach(Init(), [PushBeforeLoop(f)], s) by {
      assert [PushBeforeLoop(f)][1..] == [] && Reach(s, [], s);
    }
    FirstPollBlocks([PushBeforeLoop(f)], s);
    ReachConcat(Init(), [PushBeforeLoop(f)], s, [Start, ClearQuit, TestQuit], FirstPoll(s));
    assert FirstPoll(s).queue == [f];
  }

  lemma ReachOne(s: State, a: Step)
    requires Enabled(s, a)
    ensures Reach(s, [a], Apply(s, a))
  {
    assert [a][1..] == [];
  }

  lemma {:induction false} ReachConcat(s: State, run: seq<Step>, m: State, more: seq<Step>, t: State)
    requires Reach(s, run, m) && Reach(m, more, t)
    ensures Reach(s, run + more, t)
    decreases |run|
  {
    if run == [] {
      assert run + more == more;
    } else {
      ReachConcat(Apply(s, run[0]), run[1..], m, more, t);
      assert run + more == [run[0]] + (run[1..] + more);
      assert (run + more)[1..] == run[1..] + more;
    }
  }

  // ---- quitting ----

  /** A loop in poll although its flag is set will be interrupted. */
  lemma NoLostQuit(run: seq<Step>, t: State)
    requires Reach(Init(), run, t) && t.pc.Polling? && t.quit
    ensures t.eventfd > 0 || t.quitting != {}
  {
    ReachInv(Init(), run, t);
  }

  predicate NoLeave(run: seq<Step>) {
    forall i :: 0 <= i < |run| ==> run[i] != Leave
  }

  function Polls(run: seq<Step>): nat {
    if run == [] then 0 else (if run[0].PollReturns? then 1 else 0) + Polls(run[1..])
  }

  /** The flag is set and can no longer be erased. */
  predicate Quitting(s: State) {
    s.quit && !s.pc.Setup? && !s.pc.Starting?
  }

  /** A loop whose flag is set polls at most once more: not at all unless it is in poll already. */
  lemma {:induction false} QuitEndsTheLoop(s: State, run: seq<Step>, t: State)
    requires Quitting(s) && Reach(s, run, t) && NoLeave(run)
    ensures Quitting(t) && Polls(run) <= if s.pc.Polling? then 1 else 0
    ensures t.pc.Polling? ==> s.pc.Polling? && Polls(run) == 0
    decreases |run|
  {
    if run != [] {
      QuitEndsTheLoop(Apply(s, run[0]), run[1..], t);
    }
  }

  /** The flag stays set for as long as this call of loop() goes on. */
  ghost predicate Honoured(s: State) {
    forall run, t :: Reach(s, run, t) && NoLeave(run) ==> t.quit
  }

  /** quit() from another thread is honoured exactly if it does not fall between the two stores with
      which loop() begins: there looping_ is set already and quit_ is about to be cleared. */
  lemma WhenQuitIsHonoured(s: State, th: Thread)
    requires Enabled(s, QuitFrom(th))
    ensures Honoured(Apply(s, QuitFrom(th))) <==> !s.pc.Starting?
  {
    var m := Apply(s, QuitFrom(th));
    if s.pc.Starting? {
      ReachOne(m, ClearQuit);
      assert Reach(m, [ClearQuit], Apply(m, ClearQuit)) && NoLeave([ClearQuit]);
    } else {
      forall run, t | Reach(m, run, t) && NoLeave(run)
        ensures t.quit
      {
        QuitEndsTheLoop(m, run, t);
      }
    }
  }

  /** A loop that has run nothing, after a quit in that window. */
  function Deaf(pc: Pc, eventfd: nat, quitting: set<Thread>, polls: nat): State {
    State(pc, [], eventfd, {}, quitting, false, polls, [], [], [], true, true)
  }

  lemma QuitErased(th: Thread)
    ensures Reach(Init(), [Start, QuitFrom(th), ClearQuit], Deaf(Testing, 0, {th}, 0))
  {
    ReachThree(Init(), Start, QuitFrom(th), ClearQuit);
    var starting := Apply(Init(), Start);
    assert Apply(starting, QuitFrom(th)).quitting == {th};
    assert Apply(Apply(starting, QuitFrom(th)), ClearQuit) == Deaf(Testing, 0, {th}, 0);
  }

  lemma WokenForNothing(th: Thread)
    ensures Reach(Deaf(Testing, 0, {th}, 0), [TestQuit, QuitWake(th), PollReturns(true)],
                  Deaf(Handling(true), 1, {}, 1))
  {
    ReachThree(Deaf(Testing, 0, {th}, 0), TestQuit, QuitWake(th), PollReturns(true));
    var waiting := Apply(Deaf(Testing, 0, {th}, 0), TestQuit);
    assert waiting == Deaf(Polling, 0, {th}, 0);
    assert Apply(waiting, QuitWake(th)) == Deaf(Polling, 1, {}, 0);
  }

  lemma BlocksAgain()
    ensures Reach(Deaf(Handling(true), 1, {}, 1), [ReadEventfd, Swap, EndDrain] + [TestQuit], Deaf(Polling, 0, {}, 1))
  {
    ReachThree(Deaf(Handling(true), 1, {}, 1), ReadEventfd, Swap, EndDrain);
    ReachOne(Deaf(Testing, 0, {}, 1), TestQuit);
    ReachConcat(Deaf(Handling(true), 1, {}, 1), [ReadEventfd, Swap, EndDrain], Deaf(Testing, 0, {}, 1), [TestQuit],
                Deaf(Polling, 0, {}, 1));
  }

  /** A quit that falls there is lost: the loop wakes up once and then blocks in poll again. */
  lemma QuitMayBeLost(th: Thread)
    ensures exists run, t :: Reach(Init(), run, t) && QuitFrom(th) in run && t.pc.Polling? && !t.quit && Quiet(t)
  {
    QuitErased(th);
    WokenForNothing(th);
    BlocksAgain();
    var erased, woken, again :=
      [Start, QuitFrom(th), ClearQuit],
      [TestQuit, QuitWake(th), PollReturns(true)],
      [ReadEventfd, Swap, EndDrain] + [TestQuit];
    var t := Deaf(Polling, 0, {}, 1);
    ReachConcat(Deaf(Testing, 0, {th}, 0), woken, Deaf(Handling(true), 1, {}, 1), again, t);
    ReachConcat(Init(), erased, Deaf(Testing, 0, {th}, 0), woken + again, t);
    assert (erased + (woken + again))[1] == QuitFrom(th);
  }

  /** p will have run by the time the loop is back at poll. */
  ghost predicate WillHaveRun(s: State, p: seq<Functor>) {
    && Fifo(s)
    && (if s.pc.Handling? then p <= s.pushed else p <= s.executed + Rest(s))
  }

  lemma WillHaveRunStep(s: State, a: Step, p: seq<Functor>)
    requires WillHaveRun(s, p) && Enabled(s, a)
    ensures WillHaveRun(Apply(s, a), p)
  {
    FifoStep(s, a);
    var t := Apply(s, a);
    match a
    case RunFunctor => assert s.executed + Rest(s) == t.executed + Rest(t);
    case PollReturns(_) => assert Rest(s) == [];
    case Swap => assert t.pushed == t.executed + Rest(t);
    case _ =>
  }

  lemma {:induction false} WillHaveRunAlways(s: State, run: seq<Step>, t: State, p: seq<Functor>)
    requires WillHaveRun(s, p) && Reach(s, run, t)
    ensures WillHaveRun(t, p)
    decreases |run|
  {
    if run != [] {
      WillHaveRunStep(s, run[0], p);
      WillHaveRunAlways(Apply(s, run[0]), run[1..], t, p);
    }
  }

  /** Reading the eventfd forgets no work: everything pushed by then has run before the loop can
      block again or stop, on every schedule. */
  lemma DrainedWakeupIsHonoured(s: State, run: seq<Step>, t: State)
    requires Fifo(s) && Enabled(s, ReadEventfd)
    requires Reach(Apply(s, ReadEventfd), run, t)
    requires !t.pc.Handling? && !t.pc.Draining?
    ensures s.pushed <= t.executed
  {
    FifoStep(s, ReadEventfd);
    WillHaveRunAlways(Apply(s, ReadEventfd), run, t, s.pushed);
  }

  /** During one drain: the batch fixed at the swap has run up to next, and nothing else has. */
  ghost predicate DuringDrain(t: State, batch: seq<Functor>, before: seq<Functor>) {
    && t.pc.Draining? && t.pc.batch == batch && t.pc.next <= |batch|
    && t.executed == before + batch[..t.pc.next]
  }

  lemma {:induction false} DrainFrom(s: State, run: seq<Step>, t: State, batch: seq<Functor>, before: seq<Functor>)
    requires DuringDrain(s, batch, before) && Reach(s, run, t)
    requires forall i :: 0 <= i < |run| ==> !run[i].PollReturns?
    ensures t.pc.Draining? ==> DuringDrain(t, batch, before)
    ensures !t.pc.Draining? ==> t.executed == before + batch
    decreases |run|
  {
    if run != [] {
      var m := Apply(s, run[0]);
      if run[0].EndDrain? {
        assert batch[..|batch|] == batch;
        OutsideDrain(m, run[1..], t);
      } else {
        if run[0].RunFunctor? {
          assert batch[..m.pc.next] == batch[..s.pc.next] + [batch[s.pc.next]];
        }
        DrainFrom(m, run[1..], t, batch, before);
      }
    }
  }

  lemma {:induction false} OutsideDrain(s: State, run: seq<Step>, t: State)
    requires !s.pc.Handling? && !s.pc.Draining? && Reach(s, run, t)
    requires forall i :: 0 <= i < |run| ==> !run[i].PollReturns?
    ensures !t.pc.Handling? && !t.pc.Draining? && t.executed == s.executed
    decreases |run|
  {
    if run != [] {
      OutsideDrain(Apply(s, run[0]), run[1..], t);
    }
  }

  /** A drain runs exactly what was queued at its swap: functors pushed meanwhile, even by the
      functors it runs, are left for the next one, so every drain ends. */
  lemma DrainRunsItsBatch(s: State, run: seq<Step>, t: State)
    requires Enabled(s, Swap) && Reach(Apply(s, Swap), run, t)
    requires forall i :: 0 <= i < |run| ==> !run[i].PollReturns?
    requires !t.pc.Handling? && !t.pc.Draining?
    ensures t.executed == s.executed + s.queue
  {
    DrainFrom(Apply(s, Swap), run, t, s.queue, s.executed);
  }
}
